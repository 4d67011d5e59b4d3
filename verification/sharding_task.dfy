/** The dense-CSV sharding reader: one file's lines become fixed-width rows,
    packed in file order into shards of `shardsize` rows, the whole read being
    retried a bounded number of times. */
module ShardingTask {
  import opened Wrappers
  import opened Chunking
  import opened DenseRows

  type Row<V> = seq<V>
  type Shard<V> = seq<Row<V>>

  /** The reader's fixed configuration: the row width, the shard capacity, the
      separator as the split it performs, and the numeric parser. Widths are
      plain integers, since the source accepts any value of its `int` fields. */
  datatype Config<V> = Config(
    valperline: int,
    shardsize: int,
    split: string -> seq<string>,
    parse: string -> Option<V>)

  /** How the line stream of one attempt ends once its lines are delivered. */
  datatype Ending = EndOfFile | ReadError

  /** What one attempt reads from the file: its lines, then the end or an I/O
      failure. A failure to open the file is `Stream([], ReadError)`. */
  datatype Stream = Stream(lines: seq<string>, ending: Ending)

  /** Why one attempt failed; each stands for an exception the attempt throws. */
  datatype LoadError =
    | NegativeArraySize(size: int)       // a buffer or row allocated with negative length
    | BadLine(line: nat, cause: FieldError)
    | ShardOverflow(line: nat)           // a row stored past the buffer (capacity zero)
    | ReadFailure                        // reading the stream failed

  /** The number of attempts the retry wrapper makes before giving up. */
  const MaxAttempts: nat := 100

  /** Parses line number `i` into a row of `valperline` values. */
  function LineToRow<V>(cfg: Config<V>, i: nat, line: string): (r: Result<Row<V>, LoadError>)
  {
    if cfg.valperline < 0 then Failure(NegativeArraySize(cfg.valperline))
    else
      match ParseFields(cfg.split(line), cfg.valperline, cfg.parse)
      case Failure(e) => Failure(BadLine(i, e))
      case Success(row) => Success(row)
  }

  /** A line becomes a row exactly when the width is non-negative, the line
      has enough tokens and each of the first `valperline` parses; value `j`
      is then the parse of token `j`. Otherwise the error is the negative
      width, or the line number with its first bad field. */
  lemma LineToRowSpec<V>(cfg: Config<V>, i: nat, line: string)
    ensures LineToRow(cfg, i, line).Success? <==>
      && cfg.valperline >= 0
      && cfg.valperline <= |cfg.split(line)|
      && forall j :: 0 <= j < cfg.valperline ==> cfg.parse(cfg.split(line)[j]).Some?
    ensures LineToRow(cfg, i, line).Success? ==> |LineToRow(cfg, i, line).value| == cfg.valperline
    ensures LineToRow(cfg, i, line).Success? ==>
      forall j :: 0 <= j < cfg.valperline ==> cfg.parse(cfg.split(line)[j]) == Some(LineToRow(cfg, i, line).value[j])
    ensures LineToRow(cfg, i, line).Failure? && cfg.valperline < 0 ==>
      LineToRow(cfg, i, line).error == NegativeArraySize(cfg.valperline)
    ensures LineToRow(cfg, i, line).Failure? && cfg.valperline >= 0 ==>
      && LineToRow(cfg, i, line).error.BadLine?
      && LineToRow(cfg, i, line).error.line == i
      && FirstBadField(cfg.split(line), cfg.valperline, cfg.parse, LineToRow(cfg, i, line).error.cause)
  {
  }

  /** Line `i` is the first of `lines` that does not parse. */
  ghost predicate FirstBadLine<V>(cfg: Config<V>, lines: seq<string>, i: int)
  {
    && 0 <= i < |lines|
    && LineToRow(cfg, i, lines[i]).Failure?
    && forall h :: 0 <= h < i ==> LineToRow(cfg, h, lines[h]).Success?
  }

  /** Parses every line in file order; the first bad line aborts. */
  function ParseLines<V>(cfg: Config<V>, lines: seq<string>): (r: Result<seq<Row<V>>, LoadError>)
    decreases |lines|
  {
    if |lines| == 0 then Success([])
    else
      var n := |lines| - 1;
      match ParseLines(cfg, lines[..n])
      case Failure(e) => Failure(e)
      case Success(rows) =>
        match LineToRow(cfg, n, lines[n])
        case Failure(e) => Failure(e)
        case Success(row) => Success(rows + [row])
  }

  /** Parsing the lines succeeds exactly when every line parses, and then
      yields one row per line, in file order; otherwise it reports the error
      of the first line that does not parse. */
  lemma {:induction false} ParseLinesSpec<V>(cfg: Config<V>, lines: seq<string>)
    ensures ParseLines(cfg, lines).Success? <==> forall i :: 0 <= i < |lines| ==> LineToRow(cfg, i, lines[i]).Success?
    ensures ParseLines(cfg, lines).Success? ==>
      && |ParseLines(cfg, lines).value| == |lines|
      && forall i :: 0 <= i < |lines| ==> LineToRow(cfg, i, lines[i]) == Success(ParseLines(cfg, lines).value[i])
    ensures ParseLines(cfg, lines).Failure? ==>
      exists i :: FirstBadLine(cfg, lines, i) && LineToRow(cfg, i, lines[i]) == Failure(ParseLines(cfg, lines).error)
    decreases |lines|
  {
    if |lines| > 0 {
      var n := |lines| - 1;
      var front := lines[..n];
      ParseLinesSpec(cfg, front);
      assert forall i :: 0 <= i < n ==> front[i] == lines[i];
      match ParseLines(cfg, front)
      case Failure(e) =>
        var i :| FirstBadLine(cfg, front, i) && LineToRow(cfg, i, front[i]) == Failure(e);
        assert FirstBadLine(cfg, lines, i);
      case Success(rows) =>
        if LineToRow(cfg, n, lines[n]).Failure? {
          assert FirstBadLine(cfg, lines, n);
        }
    }
  }

  /** Once a prefix of the file fails to parse, the lines after it do not
      matter: the whole file fails with the same error. */
  lemma {:induction false} ParseLinesPrefixFailure<V>(cfg: Config<V>, lines: seq<string>, j: nat)
    requires j <= |lines|
    requires ParseLines(cfg, lines[..j]).Failure?
    ensures ParseLines(cfg, lines) == ParseLines(cfg, lines[..j])
    decreases |lines|
  {
    if j == |lines| {
      assert lines[..j] == lines;
    } else {
      var n := |lines| - 1;
      assert lines[..n][..j] == lines[..j];
      ParseLinesPrefixFailure(cfg, lines[..n], j);
    }
  }

  /** What one attempt of the loader yields: the reference the loop is proved
      against. The capacity is checked when the first buffer is allocated; a
      zero capacity fails at the first row stored; otherwise the rows of all
      lines are parsed and then chunked, unless reading failed. */
  function Load<V>(cfg: Config<V>, src: Stream): (r: Result<seq<Shard<V>>, LoadError>)
  {
    if cfg.shardsize < 0 then Failure(NegativeArraySize(cfg.shardsize))
    else if cfg.shardsize == 0 && |src.lines| > 0 then
      match LineToRow(cfg, 0, src.lines[0])
      case Failure(e) => Failure(e)
      case Success(_) => Failure(ShardOverflow(0))
    else
      match ParseLines(cfg, src.lines)
      case Failure(e) => Failure(e)
      case Success(rows) =>
        if src.ending == ReadError then Failure(ReadFailure)
        else Success(Chunk(rows, cfg.shardsize))
  }

  /** An attempt succeeds exactly when the capacity is usable, every line
      parses and the stream ends cleanly. */
  lemma LoadSucceedsIff<V>(cfg: Config<V>, src: Stream)
    ensures Load(cfg, src).Success? <==>
      && cfg.shardsize >= 0
      && src.ending == EndOfFile
      && (|src.lines| > 0 ==> cfg.shardsize > 0)
      && forall i :: 0 <= i < |src.lines| ==> LineToRow(cfg, i, src.lines[i]).Success?
  {
    ParseLinesSpec(cfg, src.lines);
  }

  /** A file without lines yields no shards at all. */
  lemma EmptyFileHasNoShards<V>(cfg: Config<V>)
    requires cfg.shardsize >= 0
    ensures Load(cfg, Stream([], EndOfFile)) == Success([])
  {
  }

  /** A successful attempt is the sharding of the parsed rows, and every row
      in it has exactly `valperline` values. */
  lemma LoadIsSharding<V>(cfg: Config<V>, src: Stream)
    requires Load(cfg, src).Success?
    ensures ParseLines(cfg, src.lines).Success?
    ensures IsSharding(Load(cfg, src).value, ParseLines(cfg, src.lines).value, cfg.shardsize)
    ensures forall s, row :: s in Load(cfg, src).value && row in s ==> |row| == cfg.valperline
  {
    ChunkIsSharding(ParseLines(cfg, src.lines).value, cfg.shardsize);
    forall s, row | s in Load(cfg, src).value && row in s
      ensures |row| == cfg.valperline
    {
      LoadRowWidth(cfg, src, s, row);
    }
  }

  /** The number of shards is the number of lines divided by the capacity,
      rounded up. */
  lemma LoadShardCount<V>(cfg: Config<V>, src: Stream)
    requires Load(cfg, src).Success? && cfg.shardsize > 0
    ensures |Load(cfg, src).value| == (|src.lines| + cfg.shardsize - 1) / cfg.shardsize
  {
    ParseLinesSpec(cfg, src.lines);
    ChunkCount(ParseLines(cfg, src.lines).value, cfg.shardsize);
  }

  /** The row of line `i` is entry `i % shardsize` of shard `i / shardsize`. */
  lemma LoadRowPosition<V>(cfg: Config<V>, src: Stream, i: nat)
    requires Load(cfg, src).Success? && i < |src.lines|
    ensures cfg.shardsize > 0
    ensures i / cfg.shardsize < |Load(cfg, src).value|
    ensures i % cfg.shardsize < |Load(cfg, src).value[i / cfg.shardsize]|
    ensures LineToRow(cfg, i, src.lines[i]) == Success(Load(cfg, src).value[i / cfg.shardsize][i % cfg.shardsize])
  {
    ParseLinesSpec(cfg, src.lines);
    ChunkPosition(ParseLines(cfg, src.lines).value, cfg.shardsize, i);
  }

  /** Every row of every shard has exactly `valperline` values. */
  lemma LoadRowWidth<V>(cfg: Config<V>, src: Stream, s: Shard<V>, row: Row<V>)
    requires Load(cfg, src).Success?
    requires s in Load(cfg, src).value && row in s
    ensures |row| == cfg.valperline
  {
    var rows := ParseLines(cfg, src.lines).value;
    ParseLinesSpec(cfg, src.lines);
    ChunkIsSharding(rows, cfg.shardsize);
    FlattenContains(Load(cfg, src).value, s, row);
    var i :| 0 <= i < |rows| && rows[i] == row;
    LineToRowSpec(cfg, i, src.lines[i]);
  }

  /** A successful end of the stream: when the collected shards are a
      sharding of the rows of all lines, they are what the attempt yields. */
  lemma LoadFromSharding<V>(cfg: Config<V>, src: Stream, shards: seq<Shard<V>>, rows: seq<Row<V>>)
    requires cfg.shardsize >= 0 && src.ending == EndOfFile
    requires ParseLines(cfg, src.lines) == Success(rows)
    requires IsSharding(shards, rows, cfg.shardsize)
    ensures Load(cfg, src) == Success(shards)
  {
    ParseLinesSpec(cfg, src.lines);
    ShardingUnique(shards, rows, cfg.shardsize);
  }

  /** A line that does not parse, reached with every line before it parsed,
      fails the attempt with that line's error. */
  lemma LoadFailsAtLine<V>(cfg: Config<V>, src: Stream, i: nat)
    requires cfg.shardsize >= 0 && i < |src.lines|
    requires cfg.shardsize == 0 ==> i == 0
    requires ParseLines(cfg, src.lines[..i]).Success?
    requires LineToRow(cfg, i, src.lines[i]).Failure?
    ensures Load(cfg, src) == Failure(LineToRow(cfg, i, src.lines[i]).error)
  {
    assert src.lines[..i + 1][..i] == src.lines[..i];
    ParseLinesPrefixFailure(cfg, src.lines, i + 1);
  }

  /** Stores one row at the cursor and advances it; a buffer that becomes
      full is sealed into the shard list and replaced by a fresh one. */
  method StoreRow<V>(outputlist: seq<Shard<V>>, points: seq<Row<V>>, shadptr: nat, row: Row<V>)
    returns (outputlist': seq<Shard<V>>, points': seq<Row<V>>, shadptr': nat)
    requires shadptr < |points|
    ensures |points'| == |points| && shadptr' < |points'|
    ensures shadptr + 1 == |points| ==>
      outputlist' == outputlist + [points[shadptr := row]] && shadptr' == 0
    ensures shadptr + 1 < |points| ==>
      outputlist' == outputlist && shadptr' == shadptr + 1 && points'[..shadptr'] == points[..shadptr] + [row]
    ensures Flatten(outputlist') + points'[..shadptr'] == Flatten(outputlist) + points[..shadptr] + [row]
  {
    var shardsize := |points|;
    points' := points[shadptr := row];
    assert points'[..shadptr + 1] == points[..shadptr] + [row];
    shadptr' := shadptr + 1;
    outputlist' := outputlist;
    if shadptr' == shardsize {
      FlattenAppend(outputlist, [points']);
      assert Flatten([points']) == points' + Flatten([]);
      assert points'[..shadptr'] == points';
      outputlist' := outputlist + [points'];
      points' := seq(shardsize, _ => []);
      shadptr' := 0;
    }
  }

  /** After the last line: a partly filled buffer is copied into a shard of
      exactly `shadptr` rows and appended; an empty buffer adds nothing. */
  method SealLastShard<V>(outputlist: seq<Shard<V>>, points: seq<Row<V>>, shadptr: nat)
    returns (shards: seq<Shard<V>>)
    requires shadptr <= |points|
    ensures shadptr == 0 ==> shards == outputlist
    ensures shadptr > 0 ==> shards == outputlist + [points[..shadptr]]
    ensures Flatten(shards) == Flatten(outputlist) + points[..shadptr]
  {
    shards := outputlist;
    if shadptr > 0 {
      var lastshad: Shard<V> := seq(shadptr, _ => []);
      for j := 0 to shadptr
        invariant |lastshad| == shadptr
        invariant forall h :: 0 <= h < j ==> lastshad[h] == points[h]
      {
        lastshad := lastshad[j := points[j]];
      }
      assert lastshad == points[..shadptr];
      FlattenAppend(outputlist, [lastshad]);
      assert Flatten([lastshad]) == lastshad + Flatten([]);
      shards := outputlist + [lastshad];
    }
  }

  /** One attempt of the loader: streams the lines, parses each into a row,
      stores it at the cursor `shadptr` of a buffer of `shardsize` slots, seals
      the buffer as a shard when it is full, and finally copies a partly
      filled buffer into a shard of the right length. The empty rows placed in
      fresh buffers stand for the unset slots of the source's arrays. */
  method LoadPoints<V>(cfg: Config<V>, src: Stream) returns (r: Result<seq<Shard<V>>, LoadError>)
    ensures r == Load(cfg, src)
    ensures r.Success? ==> ParseLines(cfg, src.lines).Success?
    ensures r.Success? ==> IsSharding(r.value, ParseLines(cfg, src.lines).value, cfg.shardsize)
  {
    if cfg.shardsize < 0 {
      return Failure(NegativeArraySize(cfg.shardsize));
    }
    var shardsize: nat := cfg.shardsize;
    var shadptr: nat := 0;
    var points: seq<Row<V>> := seq(shardsize, _ => []);
    var outputlist: seq<Shard<V>> := [];
    ghost var rows: seq<Row<V>> := [];
    var i := 0;
    while i < |src.lines|
      invariant 0 <= i <= |src.lines|
      invariant ParseLines(cfg, src.lines[..i]) == Success(rows)
      invariant |points| == shardsize
      invariant shardsize == 0 ==> i == 0
      invariant shardsize > 0 ==> shadptr < shardsize
      invariant shardsize == 0 ==> shadptr == 0 && |outputlist| == 0
      invariant forall b :: 0 <= b < |outputlist| ==> |outputlist[b]| == shardsize
      invariant Flatten(outputlist) + points[..shadptr] == rows
    {
      var line := src.lines[i];
      var parsed := LineToRow(cfg, i, line);
      if parsed.Failure? {
        LoadFailsAtLine(cfg, src, i);
        return Failure(parsed.error);
      }
      assert ParseLines(cfg, src.lines[..i + 1]) == Success(rows + [parsed.value]) by {
        assert src.lines[..i + 1][..i] == src.lines[..i];
      }
      if shadptr >= shardsize {
        return Failure(ShardOverflow(i));
      }
      outputlist, points, shadptr := StoreRow(outputlist, points, shadptr, parsed.value);
      rows := rows + [parsed.value];
      i := i + 1;
    }
    assert src.lines[..i] == src.lines;
    if src.ending == ReadError {
      return Failure(ReadFailure);
    }
    outputlist := SealLastShard(outputlist, points, shadptr);
    LoadFromSharding(cfg, src, outputlist, rows);
    return Success(outputlist);
  }

  /** The retry wrapper: runs attempts until one succeeds, at most
      `MaxAttempts` of them, each from fresh state on what `world` says that
      attempt reads. Returns the first successful result, or `None` (the
      source's `null`) when every attempt failed, together with the number of
      attempts made. */
  method Run<V>(cfg: Config<V>, world: nat -> Stream) returns (r: Option<seq<Shard<V>>>, attempts: nat)
    ensures 1 <= attempts <= MaxAttempts
    ensures forall c :: 0 <= c < attempts - 1 ==> Load(cfg, world(c)).Failure?
    ensures r.Some? ==> Load(cfg, world(attempts - 1)) == Success(r.value)
    ensures r.None? <==> attempts == MaxAttempts && Load(cfg, world(MaxAttempts - 1)).Failure?
  {
    var count := 0;
    while count < MaxAttempts
      invariant 0 <= count <= MaxAttempts
      invariant forall c :: 0 <= c < count ==> Load(cfg, world(c)).Failure?
    {
      var result := LoadPoints(cfg, world(count));
      if result.Success? {
        return Some(result.value), count + 1;
      }
      count := count + 1;
    }
    return None, count;
  }
}
