# Dense-CSV sharding reader

A Dafny model of `ReadDenseCSVShardingTask`, a task of Harp's dynamic
scheduler (`Task<String, List<double[][]>>`, lines 34-35 of its source) that
loads one text file. The reader streams the lines of the file and
splits each line on the separator. It parses the first `valperline` tokens of
each line as numbers into one row. It packs the rows, in file order, into
shards of `shardsize` rows. A partly filled last shard is trimmed to its real
length. The whole load is attempted up to 100 times, and `null` is returned
when every attempt fails.

The model has four modules:

- `Wrappers` holds `Option` (`None` stands for the source's `null`) and `Result`
  (`Failure` stands for a thrown exception).
- `Chunking` is the pure specification of sharding. `Chunk(rows, k)` cuts the
  rows into blocks. The predicate `IsSharding` says what a sharding is: the
  blocks concatenate back to the rows, no block is empty, and every block but
  the last is full. The lemmas prove that `Chunk` is the only sharding, that
  there are ⌈n / k⌉ blocks, that row `i` sits at block `i / k` and position
  `i % k`, and how large the last block is.
- `DenseRows` turns the tokens of one line into a row.
- `ShardingTask` follows the Java class:
  - `LoadPoints` is the imperative loader. It has a buffer `points` that is
    replaced by a fresh one each time it is sealed into the list, a cursor
    `shadptr`, a list of sealed shards, and a final copy of the partly
    filled buffer. It is proved equal to the functional reference `Load`.
  - `Run` is the bounded retry loop.

Inputs the source takes from its environment are parameters:

- The separator is a function `split: string -> seq<string>`.
- The numeric parser is a function `parse: string -> Option<V>`. It answers
  `None` where `Double.parseDouble` throws. Row values have an arbitrary type
  `V`.
- What one attempt reads is a `Stream`: its lines, then either a clean end or
  a read error. A read error after `k` lines is `Stream(lines[..k],
  ReadError)`. A file that cannot be opened is `Stream([], ReadError)`.
- `Run` receives `world: nat -> Stream`, the stream that attempt number `c`
  sees. Transient I/O failures therefore differ per attempt. Each attempt
  starts from fresh state.

The model follows the code on these edge cases:

- A negative `shardsize` fails before anything is read (the buffer
  allocation throws).
- A `shardsize` of zero accepts an empty file and yields no shards. On a
  non-empty file it fails at its first line: with that line's parse error,
  or, when the line parses, because its row is stored past the buffer.
- A negative `valperline` fails on every line. An empty file still succeeds.
- When the retry budget runs out, `Run` returns `None`, as the code returns
  `null`.
- The code parses every line, including empty ones. With `valperline = 0`,
  any line, even an empty one, becomes an empty row.

## Model

| member | source | states |
|---|---|---|
| Chunking.Chunk | core/harp-daal-interface/src/main/java/edu/iu/datasource/ReadDenseCSVShardingTask.java:115-137 | there are no blocks exactly when there are no rows; every block has 1 to `k` rows; all blocks but the last have exactly `k`; the blocks concatenate back to the rows |
| Chunking.ShardingUnique | core/harp-daal-interface/src/main/java/edu/iu/datasource/ReadDenseCSVShardingTask.java:109-137 | any list of blocks that concatenates to the rows, with no empty block and every block but the last full, is the one `Chunk` computes |
| Chunking.ShardingIffChunk | core/harp-daal-interface/src/main/java/edu/iu/datasource/ReadDenseCSVShardingTask.java:109-137 | both directions: a list of blocks is a sharding of the rows with capacity `k` if and only if it equals `Chunk(rows, k)` |
| Chunking.ChunkCount | core/harp-daal-interface/src/main/java/edu/iu/datasource/ReadDenseCSVShardingTask.java:117-121 | the number of shards is (n + k - 1) / k, that is ⌈n / k⌉, for n rows, so no trailing empty shard is produced |
| Chunking.ChunkPosition | core/harp-daal-interface/src/main/java/edu/iu/datasource/ReadDenseCSVShardingTask.java:115-121 | row `i` is stored in shard `i / k` at slot `i % k` |
| Chunking.ChunkLastSize | core/harp-daal-interface/src/main/java/edu/iu/datasource/ReadDenseCSVShardingTask.java:129-137 | the last shard holds n mod k rows, or a full k when k divides n |
| Chunking.FlattenAppend | core/harp-daal-interface/src/main/java/edu/iu/datasource/ReadDenseCSVShardingTask.java:118 | appending a shard to the list appends its rows to the concatenation |
| DenseRows.ParseFields | core/harp-daal-interface/src/main/java/edu/iu/datasource/ReadDenseCSVShardingTask.java:111-113 | succeeds exactly when the line has at least `n` tokens and each of the first `n` parses; the row then has `n` values, value `j` being the parse of token `j`, and extra tokens are ignored; on failure it names the first field, in ascending order, that is missing or does not parse |
| ShardingTask.LineToRowSpec | core/harp-daal-interface/src/main/java/edu/iu/datasource/ReadDenseCSVShardingTask.java:110-113 | the function `LineToRow`: a line becomes a row of `valperline` values from tokens 0..`valperline`-1 exactly when `valperline` is non-negative, there are enough tokens and each parses; otherwise it fails with the negative size or with the line number and the first bad field |
| ShardingTask.ParseLinesSpec | core/harp-daal-interface/src/main/java/edu/iu/datasource/ReadDenseCSVShardingTask.java:109-113 | the function `ParseLines`: parsing all lines succeeds exactly when every line parses, and yields one row per line in file order; otherwise it reports the error of the first bad line |
| ShardingTask.ParseLinesPrefixFailure | core/harp-daal-interface/src/main/java/edu/iu/datasource/ReadDenseCSVShardingTask.java:107-127 | once a prefix of the file fails to parse, the lines after it are never looked at: the whole parse fails with the same error |
| ShardingTask.LoadSucceedsIff | core/harp-daal-interface/src/main/java/edu/iu/datasource/ReadDenseCSVShardingTask.java:90-141 | the reference `Load` of one attempt: an attempt succeeds if and only if `shardsize` is non-negative, the stream ends cleanly, a non-empty file has a positive `shardsize`, and every line parses; a single bad line makes the attempt fail, with no partial result |
| ShardingTask.EmptyFileHasNoShards | core/harp-daal-interface/src/main/java/edu/iu/datasource/ReadDenseCSVShardingTask.java:96-99 | a file with no lines yields an empty shard list, not a failure |
| ShardingTask.LoadIsSharding | core/harp-daal-interface/src/main/java/edu/iu/datasource/ReadDenseCSVShardingTask.java:109-139 | the shards of a successful attempt concatenate, in order, to the parsed rows of all lines; none is empty, and all but the last are full; every row in every shard has exactly `valperline` values |
| ShardingTask.LoadShardCount | core/harp-daal-interface/src/main/java/edu/iu/datasource/ReadDenseCSVShardingTask.java:117-129 | a successful attempt over n lines yields ⌈n / `shardsize`⌉ shards |
| ShardingTask.LoadRowPosition | core/harp-daal-interface/src/main/java/edu/iu/datasource/ReadDenseCSVShardingTask.java:109-121 | the row of line `i` is entry `i % shardsize` of shard `i / shardsize` |
| ShardingTask.LoadFailsAtLine | core/harp-daal-interface/src/main/java/edu/iu/datasource/ReadDenseCSVShardingTask.java:109-127 | in `Load`, a line that does not parse, reached with every earlier line parsed, aborts the whole attempt with that line's error and no partial result, whatever follows it in the file; with capacity 0 only the first line is ever reached |
| ShardingTask.LoadFromSharding | core/harp-daal-interface/src/main/java/edu/iu/datasource/ReadDenseCSVShardingTask.java:129-139 | when the stream ends cleanly, any sharding of the parsed rows is exactly what the attempt returns |
| ShardingTask.StoreRow | core/harp-daal-interface/src/main/java/edu/iu/datasource/ReadDenseCSVShardingTask.java:115-121 | the row goes to the cursor slot. The buffer is sealed into the list, and the cursor reset to 0, exactly when the cursor reaches `shardsize`; otherwise the list is unchanged and the cursor advances by one. Sealed shards plus the buffer prefix gain exactly the new row |
| ShardingTask.SealLastShard | core/harp-daal-interface/src/main/java/edu/iu/datasource/ReadDenseCSVShardingTask.java:129-137 | a non-empty buffer is appended as a shard of exactly `shadptr` rows, the first `shadptr` buffered rows in order; an empty buffer appends nothing |
| ShardingTask.LoadPoints | core/harp-daal-interface/src/main/java/edu/iu/datasource/ReadDenseCSVShardingTask.java:90-141 | the cursor-and-buffer loop returns exactly the reference result `Load`, success or error; on success its shards are a sharding of the parsed rows |
| ShardingTask.Run | core/harp-daal-interface/src/main/java/edu/iu/datasource/ReadDenseCSVShardingTask.java:61-88 | makes between 1 and 100 attempts. Every attempt before the last one failed. A result is returned only when the last attempt succeeded, and it is that attempt's shards. `None` is returned exactly when all 100 attempts failed |

## Left out

- HDFS access (`FileSystem`, `FSDataInputStream`, `Path`, the Hadoop
  configuration) is replaced by the `Stream` each attempt is given. A failure
  of `in.close()` after the last line is the ending `ReadError`: the attempt
  fails even though every line parsed. When a line has already failed, a
  throwing close only changes which exception fails the attempt, and `Run`
  treats all failures alike.
- Logging, `System.out.println` and the recorded thread id have no effect on
  the result and are not modelled.
- `Thread.sleep(100)` between attempts is not modelled. The sleep runs inside
  the catch block, so an interrupt during the 100 ms back-off makes `run`
  throw instead of retrying or returning `null`. Interruption is timing and is
  not modelled.
- Memory exhaustion is not modelled: the model treats every non-negative size
  as allocatable. An `OutOfMemoryError` from allocating a buffer or row (lines
  97, 111, 119, 131) is not an `Exception`, so it escapes `run` instead of
  being retried. For example, a `shardsize` of `Integer.MAX_VALUE` exceeds
  the VM's array limit on the first attempt.
- The numerics of `Double.parseDouble` are abstract (`parse`), so there is no
  floating-point reasoning.
- The regular-expression semantics of `String.split` are abstract (`split`).
  In the source an empty line splits into one empty token, which then fails to
  parse. Trailing empty tokens are dropped, so a line ending in separators can
  have fewer tokens than fields. Both follow from the concrete split, which is
  not part of this model. The abstract split is total and cannot fail. In the
  source, a separator that is not a valid regular expression makes every split
  throw. So with `valperline = 0` the model accepts lines that the source
  rejects.
- Java's 32-bit `int` for the cursor needs no wrap-around model: the cursor
  stays below `shardsize`.
- The LogitBoost and decision-tree mappers and the decision-forest launcher
  elsewhere in the repository are not part of this model. They read
  configuration, load tables through a separate data-source class or submit a
  Hadoop job, call the native library and print. None of them refers to this
  class.
