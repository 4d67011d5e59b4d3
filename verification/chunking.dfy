/** The pure specification of row sharding: a sequence of rows cut, in order,
    into blocks of a fixed capacity, the last block holding the remainder. */
module Chunking {

  /** Concatenation of all blocks, in order. */
  function Flatten<T>(blocks: seq<seq<T>>): (r: seq<T>)
  {
    if |blocks| == 0 then [] else blocks[0] + Flatten(blocks[1..])
  }

  lemma {:induction false} FlattenAppend<T>(a: seq<seq<T>>, b: seq<seq<T>>)
    ensures Flatten(a + b) == Flatten(a) + Flatten(b)
    decreases |a|
  {
    if |a| == 0 {
      assert a + b == b;
    } else {
      assert (a + b)[1..] == a[1..] + b;
      FlattenAppend(a[1..], b);
    }
  }

  /** Every element of every block appears in the concatenation. */
  lemma {:induction false} FlattenContains<T>(blocks: seq<seq<T>>, b: seq<T>, x: T)
    requires b in blocks && x in b
    ensures x in Flatten(blocks)
    decreases |blocks|
  {
    if blocks[0] != b {
      FlattenContains(blocks[1..], b, x);
    }
  }

  /** The total number of elements over all blocks. */
  lemma {:induction false} FlattenLength<T>(blocks: seq<seq<T>>, k: nat)
    requires forall i :: 0 <= i < |blocks| ==> |blocks[i]| == k
    ensures |Flatten(blocks)| == |blocks| * k
    decreases |blocks|
  {
    if |blocks| > 0 {
      FlattenLength(blocks[1..], k);
    }
  }

  /** `blocks` is a sharding of `rows` with capacity `k`: the blocks concatenate
      to `rows`, none is empty, and every block but the last is full. */
  ghost predicate IsSharding<T>(blocks: seq<seq<T>>, rows: seq<T>, k: nat)
  {
    && Flatten(blocks) == rows
    && (forall i :: 0 <= i < |blocks| ==> 0 < |blocks[i]| <= k)
    && (forall i :: 0 <= i < |blocks| - 1 ==> |blocks[i]| == k)
  }

  /** Cuts `rows` into blocks of `k` rows; the last block keeps the remainder.
      A capacity of zero is only meaningful for no rows at all. */
  function Chunk<T>(rows: seq<T>, k: nat): (r: seq<seq<T>>)
    requires k > 0 || |rows| == 0
    ensures |r| == 0 <==> |rows| == 0
    ensures forall i :: 0 <= i < |r| ==> 0 < |r[i]| <= k
    ensures forall i :: 0 <= i < |r| - 1 ==> |r[i]| == k
    ensures Flatten(r) == rows
    decreases |rows|
  {
    if |rows| == 0 then []
    else if |rows| <= k then [rows]
    else
      assert rows == rows[..k] + rows[k..];
      [rows[..k]] + Chunk(rows[k..], k)
  }

  lemma ChunkIsSharding<T>(rows: seq<T>, k: nat)
    requires k > 0 || |rows| == 0
    ensures IsSharding(Chunk(rows, k), rows, k)
  {
  }

  /** The sharding is unique: any sharding of `rows` with capacity `k` is the
      one `Chunk` computes. */
  lemma {:induction false} ShardingUnique<T>(blocks: seq<seq<T>>, rows: seq<T>, k: nat)
    requires IsSharding(blocks, rows, k)
    ensures k > 0 || |rows| == 0
    ensures blocks == Chunk(rows, k)
    decreases |blocks|
  {
    if |blocks| == 0 {
    } else {
      var b := blocks[0];
      assert rows == b + Flatten(blocks[1..]);
      if |blocks| == 1 {
        assert Flatten(blocks[1..]) == [];
        assert rows == b;
      } else {
        assert |b| == k;
        var rest := blocks[1..];
        assert IsSharding(rest, rows[k..], k) by {
          assert rows[k..] == Flatten(rest);
          forall i | 0 <= i < |rest| ensures 0 < |rest[i]| <= k {
            assert rest[i] == blocks[i + 1];
          }
          forall i | 0 <= i < |rest| - 1 ensures |rest[i]| == k {
            assert rest[i] == blocks[i + 1];
          }
        }
        ShardingUnique(rest, rows[k..], k);
        assert 0 < |rest[0]|;
        assert |rows| > k;
        assert rows[..k] == b;
        assert blocks == [b] + rest;
      }
    }
  }

  /** A sharding is exactly the output of `Chunk`, in both directions. */
  lemma ShardingIffChunk<T>(blocks: seq<seq<T>>, rows: seq<T>, k: nat)
    requires k > 0
    ensures IsSharding(blocks, rows, k) <==> blocks == Chunk(rows, k)
  {
    if IsSharding(blocks, rows, k) {
      ShardingUnique(blocks, rows, k);
    }
  }

  /** Division facts fixed by the defining equation of `/` and `%`. */
  lemma DivModUnique(n: int, k: int, q: int, m: int)
    requires k > 0 && 0 <= m < k && n == q * k + m
    ensures n / k == q && n % k == m
  {
    var q', m' := n / k, n % k;
    assert (q - q') * k == m' - m;
    if q > q' {
      MulAtLeast(q - q', k);
    } else if q < q' {
      MulAtLeast(q' - q, k);
    }
  }

  lemma MulAtLeast(d: int, k: int)
    requires d >= 1 && k > 0
    ensures d * k >= k
  {
    assert d * k == (d - 1) * k + k;
  }

  /** The number of blocks is the number of rows divided by `k`, rounded up. */
  lemma {:induction false} ChunkCount<T>(rows: seq<T>, k: nat)
    requires k > 0
    ensures |Chunk(rows, k)| == (|rows| + k - 1) / k
    decreases |rows|
  {
    var n := |rows|;
    if n == 0 {
      assert (n + k - 1) / k == 0 by {
        DivModUnique(k - 1, k, 0, k - 1);
      }
    } else if n <= k {
      assert (n + k - 1) / k == 1 by {
        DivModUnique(n + k - 1, k, 1, n - 1);
      }
    } else {
      assert |Chunk(rows, k)| == |Chunk(rows[k..], k)| + 1;
      ChunkCount(rows[k..], k);
      assert (n + k - 1) / k == (n - 1) / k + 1 by {
        DivStep(n + k - 1, k);
      }
    }
  }

  /** Stepping back one block lowers the block index by one and keeps the
      position inside the block. */
  lemma DivStep(i: int, k: int)
    requires k > 0 && i >= k
    ensures i / k == (i - k) / k + 1 && i % k == (i - k) % k
  {
    var q, m := (i - k) / k, (i - k) % k;
    assert i == (q + 1) * k + m by {
      assert (q + 1) * k == q * k + k;
    }
    DivModUnique(i, k, q + 1, m);
  }

  /** Row `i` sits in block `i / k` at position `i % k`. */
  lemma {:induction false} ChunkPosition<T>(rows: seq<T>, k: nat, i: nat)
    requires k > 0 && i < |rows|
    ensures i / k < |Chunk(rows, k)|
    ensures i % k < |Chunk(rows, k)[i / k]|
    ensures Chunk(rows, k)[i / k][i % k] == rows[i]
    decreases i
  {
    var c := Chunk(rows, k);
    var q, m := i / k, i % k;
    if i < k {
      assert q == 0 && m == i by {
        DivModUnique(i, k, 0, i);
      }
      assert c[0][i] == rows[i] by {
        if |rows| <= k {
          assert c == [rows];
        } else {
          assert c[0] == rows[..k];
        }
      }
    } else {
      var tail := rows[k..];
      var rest := Chunk(tail, k);
      var j: nat := i - k;
      assert q == j / k + 1 && m == j % k by {
        DivStep(i, k);
      }
      assert j / k < |rest| && m < |rest[j / k]| && rest[j / k][m] == rows[i] by {
        ChunkPosition(tail, k, j);
      }
      assert c == [rows[..k]] + rest;
    }
  }

  /** `m` full blocks of `k` and a non-empty block of `l` leave remainder `l`,
      or none when the last block is full too. */
  lemma RemainderOfFullBlocks(n: int, k: int, m: int, l: int)
    requires k > 0 && 0 < l <= k && n == m * k + l
    ensures l == if n % k == 0 then k else n % k
  {
    if l == k {
      assert n == (m + 1) * k + 0;
      DivModUnique(n, k, m + 1, 0);
    } else {
      DivModUnique(n, k, m, l);
    }
  }

  /** The last block holds the remainder of the division of the row count by
      `k`, or a full `k` rows when `k` divides it. */
  lemma ChunkLastSize<T>(rows: seq<T>, k: nat)
    requires k > 0 && |rows| > 0
    ensures |Chunk(rows, k)[|Chunk(rows, k)| - 1]| == if |rows| % k == 0 then k else |rows| % k
  {
    var c := Chunk(rows, k);
    var m := |c| - 1;
    var l := |c[m]|;
    assert |rows| == |Flatten(c[..m])| + l by {
      assert c == c[..m] + [c[m]];
      FlattenAppend(c[..m], [c[m]]);
      assert Flatten([c[m]]) == c[m] + Flatten([]);
    }
    assert |Flatten(c[..m])| == m * k by {
      FlattenLength(c[..m], k);
    }
    RemainderOfFullBlocks(|rows|, k, m, l);
  }
}
