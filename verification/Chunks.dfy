/** Splitting batch items into chunks (chunkInterfaces in goroutine/goroutine.go). */
module Chunks {

  /** The chunks of a batch, taken off the front. */
  function Chunked<T>(items: seq<T>, size: nat): seq<seq<T>>
    requires size > 0
  {
    if items == [] then []
    else if |items| <= size then [items]
    else [items[..size]] + Chunked(items[size..], size)
  }

  function Flatten<T>(parts: seq<seq<T>>): seq<T>
  {
    if parts == [] then [] else parts[0] + Flatten(parts[1..])
  }

  function CeilDiv(n: nat, size: nat): nat
    requires size > 0
  {
    (n + size - 1) / size
  }

  /** Chunking loses, duplicates and reorders nothing. */
  lemma {:induction false} FlattenChunked<T>(items: seq<T>, size: nat)
    requires size > 0
    ensures Flatten(Chunked(items, size)) == items
  {
    if items == [] {
    } else if |items| <= size {
      assert [items][1..] == [];
      assert items + [] == items;
    } else {
      FlattenChunked(items[size..], size);
      assert Chunked(items, size)[1..] == Chunked(items[size..], size);
      assert items == items[..size] + items[size..];
    }
  }

  /** Every chunk but the last is full, the last is not empty, and there are ceil(n/size) of them. */
  lemma {:induction false} ChunkShape<T>(items: seq<T>, size: nat)
    requires size > 0
    ensures var cs := Chunked(items, size);
            && |cs| == CeilDiv(|items|, size)
            && (forall i :: 0 <= i < |cs| ==> 0 < |cs[i]| <= size)
            && (forall i :: 0 <= i < |cs| - 1 ==> |cs[i]| == size)
  {
    if items == [] {
      DivSmall(size - 1, size);
    } else if |items| <= size {
      DivStep(|items| - 1, size);
      DivSmall(|items| - 1, size);
    } else {
      ChunkShape(items[size..], size);
      DivStep(|items| - 1, size);
    }
  }

  lemma DivSmall(a: nat, size: nat)
    requires a < size
    ensures a / size == 0
  {}

  lemma DivStep(a: nat, size: nat)
    requires size > 0
    ensures (a + size) / size == a / size + 1
  {
    var q, r := a / size, a % size;
    assert a == size * q + r;
    assert a + size == size * (q + 1) + r;
    DivUnique(a + size, size, q + 1, r);
  }

  lemma DivUnique(a: nat, size: nat, q: nat, r: nat)
    requires size > 0 && r < size && a == size * q + r
    ensures a / size == q
  {
    var d := a / size - q;
    assert a == size * (a / size) + a % size;
    assert size * d == r - a % size;
    assert d >= 1 ==> size * d >= size;
    assert d <= -1 ==> size * d <= (-1) * size;
  }

  function Min(a: int, b: int): int { if a <= b then a else b }

  lemma ChunkedFront<T>(items: seq<T>, size: nat, i: nat)
    requires size > 0 && i < |items|
    ensures var end := Min(i + size, |items|);
            Chunked(items[i..], size) == [items[i..end]] + Chunked(items[end..], size)
  {
    if |items[i..]| > size {
      assert items[i..][..size] == items[i..i + size];
      assert items[i..][size..] == items[i + size..];
    } else {
      assert items[i..] == items[i..|items|];
    }
  }

  lemma NoChunks<T>(items: seq<T>, size: nat)
    requires size > 0 && items == []
    ensures Chunked(items, size) == []
  {}

  /** The loop of the source: copy items[i..end], append it, advance by size. */
  method ChunkInterfaces<T>(items: seq<T>, size: int) returns (chunks: seq<seq<T>>)
    ensures size <= 0 || items == [] ==> chunks == [items]
    ensures size > 0 && items != [] ==> chunks == Chunked(items, size)
  {
    hide Chunked;
    if size <= 0 || |items| == 0 {
      return [items];
    }
    NoChunks(items[|items|..], size);
    chunks := [];
    assert items[Min(0, |items|)..] == items;
    var i := 0;
    while i < |items|
      invariant 0 <= i
      invariant chunks + Chunked(items[Min(i, |items|)..], size) == Chunked(items, size)
      decreases |items| - i
    {
      var end := i + size;
      if end > |items| {
        end := |items|;
      }
      var chunk := items[i..end];
      ChunkedFront(items, size, i);
      assert (chunks + [chunk]) + Chunked(items[end..], size) == chunks + ([chunk] + Chunked(items[end..], size));
      chunks := chunks + [chunk];
      i := i + size;
    }
    assert chunks + [] == chunks;
  }
}
