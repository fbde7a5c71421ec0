/**
 * The row-chunking loop shared by both revisions of the board view
 * (`list_fields` in api/src/handler/game/field.rs and `get_fields` in
 * api/src/handler/game.rs): it walks the field list once and starts a new
 * row at every multiple of the row length.
 */
module Chunks {
  import opened Arith
  /** The largest r with r * r <= n. */
  function FloorSqrt(n: nat): (r: nat)
    ensures r * r <= n < (r + 1) * (r + 1)
    ensures n >= 1 ==> r >= 1
  {
    SqrtFrom(n, 0)
  }

  function SqrtFrom(n: nat, r: nat): (s: nat)
    requires r * r <= n
    ensures s * s <= n < (s + 1) * (s + 1)
    decreases n - r
  {
    if (r + 1) * (r + 1) > n then r
    else
      assert r < n by {
        assert r <= r * r || r == 0;
      }
      SqrtFrom(n, r + 1)
  }

  /** The square root of a square is exact. */
  lemma FloorSqrtSquare(g: nat)
    ensures FloorSqrt(g * g) == g
  {
    var r := FloorSqrt(g * g);
    if r < g {
      MulLe(r + 1, g, r + 1);
      MulLe(r + 1, g, g);
    } else if r > g {
      MulLe(g + 1, r, g + 1);
      MulLe(g + 1, r, r);
    }
  }

  lemma SquareAbove(g: nat)
    requires g >= 2
    ensures g < g * g
  {
    assert g * g == (g - 1) * g + g;
    MulBelow(g - 1, g);
  }

  lemma FloorSqrtExamples()
    ensures FloorSqrt(0) == 0 && FloorSqrt(1) == 1 && FloorSqrt(3) == 1
    ensures FloorSqrt(4) == 2 && FloorSqrt(8) == 2 && FloorSqrt(9) == 3 && FloorSqrt(25) == 5
  {
  }

  /** The first q full rows of length k. */
  function FullChunks<T>(items: seq<T>, k: nat, q: nat): (rows: seq<seq<T>>)
    requires q * k <= |items|
    ensures |rows| == q
  {
    seq(q, j requires 0 <= j < q => (MulLe(j + 1, q, k); items[j * k..j * k + k]))
  }

  lemma FullChunksRow<T>(items: seq<T>, k: nat, q: nat, j: nat)
    requires q * k <= |items| && j < q
    ensures j * k + k <= |items| && FullChunks(items, k, q)[j] == items[j * k..j * k + k]
  {
    MulLe(j + 1, q, k);
  }

  /**
   * What the chunking loop produces: `[[]]` for no items, a leading empty
   * row before a single short row, and otherwise rows of k items with a
   * last row of the remaining 1..k items.
   */
  function Rows<T>(items: seq<T>, k: nat): seq<seq<T>>
    requires |items| > 0 ==> k >= 1
  {
    if |items| == 0 then [[]]
    else if |items| <= k then [[], items]
    else
      var q := (|items| - 1) / k;
      DivBounds(|items| - 1, k);
      FullChunks(items, k, q) + [items[q * k..]]
  }

  /** The items of the rows one after the other. */
  function Flatten<T>(rows: seq<seq<T>>): seq<T>
  {
    if |rows| == 0 then [] else Flatten(rows[..|rows| - 1]) + rows[|rows| - 1]
  }

  lemma {:induction false} FlattenFullChunks<T>(items: seq<T>, k: nat, q: nat)
    requires q * k <= |items|
    ensures Flatten(FullChunks(items, k, q)) == items[..q * k]
  {
    if q > 0 {
      var rows := FullChunks(items, k, q);
      MulLe(q - 1, q, k);
      assert rows[..q - 1] == FullChunks(items, k, q - 1);
      FlattenFullChunks(items, k, q - 1);
      assert (q - 1) * k + k == q * k;
      assert items[..(q - 1) * k] + items[(q - 1) * k..q * k] == items[..q * k];
    }
  }

  lemma FlattenAppend<T>(rows: seq<seq<T>>, row: seq<T>)
    ensures Flatten(rows + [row]) == Flatten(rows) + row
  {
    assert (rows + [row])[..|rows|] == rows;
  }

  lemma RowsFlattenLong<T>(items: seq<T>, k: nat)
    requires k >= 1 && |items| > k
    ensures Flatten(Rows(items, k)) == items
  {
    var q := (|items| - 1) / k;
    DivBounds(|items| - 1, k);
    var full := FullChunks(items, k, q);
    assert Rows(items, k) == full + [items[q * k..]];
    FlattenFullChunks(items, k, q);
    FlattenAppend(full, items[q * k..]);
    assert items[..q * k] + items[q * k..] == items;
  }

  /** Reading the rows left to right, top to bottom gives back the items. */
  lemma RowsFlatten<T>(items: seq<T>, k: nat)
    requires |items| > 0 ==> k >= 1
    ensures Flatten(Rows(items, k)) == items
  {
    if |items| == 0 {
    } else if |items| <= k {
      FlattenAppend([[]], items);
      assert [[]] + [items] == [[], items];
    } else {
      RowsFlattenLong(items, k);
    }
  }

  /** When there are more items than k, every row but the last holds k items and the last 1..k. */
  lemma RowsShape<T>(items: seq<T>, k: nat)
    requires k >= 1 && |items| > k
    ensures var rows := Rows(items, k);
      |rows| == (|items| - 1) / k + 1
      && (forall j :: 0 <= j < |rows| - 1 ==> |rows[j]| == k)
      && 1 <= |rows[|rows| - 1]| <= k
  {
    var q := (|items| - 1) / k;
    DivBounds(|items| - 1, k);
    forall j | 0 <= j < q
      ensures |Rows(items, k)[j]| == k
    {
      FullChunksRow(items, k, q, j);
    }
  }

  /** Where the loop index i is a multiple of k, given the row q it is in. */
  lemma StepRemainder(i: nat, k: nat, q: nat)
    requires k >= 1
    requires i > k ==> 1 <= q && q * k < i <= q * k + k
    ensures i % k == 0 <==> (i == 0 || i == k || (i > k && i == q * k + k))
  {
    if i == 0 {
      DivMod(k, 0, 0);
    } else if i < k {
      DivMod(k, 0, i);
    } else if i == k {
      DivMod(k, 1, 0);
    } else if i == q * k + k {
      DivMod(k, q + 1, 0);
    } else {
      DivMod(k, q, i - q * k);
    }
  }

  /** Flushing the full row q extends the full rows by one. */
  lemma FlushRow<T>(items: seq<T>, k: nat, q: nat)
    requires q * k + k <= |items|
    ensures (q + 1) * k <= |items|
    ensures FullChunks(items, k, q) + [items[q * k..q * k + k]] == FullChunks(items, k, q + 1)
  {
    assert (q + 1) * k == q * k + k;
    MulLe(q, q + 1, k);
    var a := FullChunks(items, k, q) + [items[q * k..q * k + k]];
    var b := FullChunks(items, k, q + 1);
    forall j | 0 <= j < q + 1
      ensures a[j] == b[j]
    {
      FullChunksRow(items, k, q + 1, j);
      if j < q {
        FullChunksRow(items, k, q, j);
      }
    }
  }

  lemma LastRowIndex(n: nat, k: nat, q: nat)
    requires k >= 1 && q * k < n <= q * k + k
    ensures (n - 1) / k == q
  {
    DivMod(k, q, n - 1 - q * k);
  }

  /**
   * The state of the chunking loop before index i: nothing yet at i == 0,
   * the leading empty row while i <= k, then q full rows and the items of
   * row q seen so far.
   */
  ghost predicate Chunking<T>(items: seq<T>, k: nat, i: nat, q: nat, result: seq<seq<T>>, v: seq<T>)
    requires k >= 1 && i <= |items|
  {
    (i == 0 ==> result == [] && v == [])
    && (0 < i <= k ==> result == [[]] && v == items[..i])
    && (i > k ==> 1 <= q && q * k < i <= q * k + k && result == FullChunks(items, k, q) && v == items[q * k..i])
  }

  /** At a multiple of k the row buffer is flushed and a new row starts with items[i]. */
  lemma ChunkingFlush<T>(items: seq<T>, k: nat, i: nat, q: nat, result: seq<seq<T>>, v: seq<T>)
    requires k >= 1 && i < |items| && i % k == 0
    requires Chunking(items, k, i, q, result, v)
    ensures Chunking(items, k, i + 1, if i == k then 1 else if i > 0 then q + 1 else q,
                     if i == k then [v] else result + [v], [items[i]])
  {
    StepRemainder(i, k, q);
    if i == k {
      assert [v] == FullChunks(items, k, 1);
    } else if i > 0 {
      FlushRow(items, k, q);
    }
  }

  /** Elsewhere items[i] joins the current row. */
  lemma ChunkingAppend<T>(items: seq<T>, k: nat, i: nat, q: nat, result: seq<seq<T>>, v: seq<T>)
    requires k >= 1 && i < |items| && i % k != 0
    requires Chunking(items, k, i, q, result, v)
    ensures Chunking(items, k, i + 1, q, result, v + [items[i]])
  {
    StepRemainder(i, k, q);
  }

  /** After the last item, flushing the buffer once more gives the rows. */
  lemma ChunkingDone<T>(items: seq<T>, k: nat, q: nat, result: seq<seq<T>>, v: seq<T>)
    requires k >= 1 && |items| > 0
    requires Chunking(items, k, |items|, q, result, v)
    ensures result + [v] == Rows(items, k)
  {
    if |items| > k {
      LastRowIndex(|items|, k, q);
      assert v == items[q * k..];
    } else {
      assert v == items;
    }
  }

  /**
   * The chunking loop of the source: the row buffer v is flushed into the
   * result at every multiple of k; at i == k the result is replaced rather
   * than extended, which drops the empty row pushed at i == 0.
   */
  method ChunkRows<T>(items: seq<T>, k: nat) returns (result: seq<seq<T>>)
    requires |items| > 0 ==> k >= 1
    ensures result == Rows(items, k)
  {
    result := [];
    var v: seq<T> := [];
    if |items| > 0 {
      ghost var q: nat := 0;
      for i := 0 to |items|
        invariant Chunking(items, k, i, q, result, v)
      {
        if i % k == 0 {
          ChunkingFlush(items, k, i, q, result, v);
          if i == k {
            result := [v];
            q := 1;
          } else {
            if i > 0 {
              q := q + 1;
            }
            result := result + [v];
          }
          v := [items[i]];
        } else {
          ChunkingAppend(items, k, i, q, result, v);
          v := v + [items[i]];
        }
      }
      ChunkingDone(items, k, q, result, v);
    }
    result := result + [v];
  }
}
