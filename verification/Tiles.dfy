/** How a range of the flat sequence is cut into pieces that each lie in one block: what the
    scatter/gather vectors of the buffer describe. */
module Tiling {
  import opened Arithmetic
  import opened Flat

  datatype Extent = Extent(block: nat, start: nat, len: nat)

  function Min(a: nat, b: nat): (m: nat)
    ensures m <= a && m <= b
  {
    if a < b then a else b
  }

  /** The pieces of the len bytes from position start of block k on. */
  function Tiles(bs: nat, k: nat, start: nat, len: nat): (ts: seq<Extent>)
    requires start < bs
    decreases len
  {
    if len == 0 then []
    else
      var n := Min(bs - start, len);
      [Extent(k, start, n)] + Tiles(bs, k + 1, 0, len - n)
  }

  function FlatStart(e: Extent, bs: nat): nat { e.block * bs + e.start }

  predicate Covers(e: Extent, bs: nat, p: nat) {
    FlatStart(e, bs) <= p < FlatStart(e, bs) + e.len
  }

  /** Every piece is non-empty, lies within its block, and starts where the one before it ends. */
  ghost predicate InOrder(ts: seq<Extent>, bs: nat) {
    && (forall i :: 0 <= i < |ts| ==> 0 < ts[i].len && ts[i].start + ts[i].len <= bs)
    && (forall i :: 0 < i < |ts| ==> FlatStart(ts[i], bs) == FlatStart(ts[i - 1], bs) + ts[i - 1].len)
  }

  lemma {:induction false} TilesInOrder(bs: nat, k: nat, start: nat, len: nat)
    requires start < bs
    ensures var ts := Tiles(bs, k, start, len);
      && InOrder(ts, bs)
      && (0 < len ==> 0 < |ts|)
      && (0 < len ==> FlatStart(ts[0], bs) == k * bs + start)
      && (0 < len ==> FlatStart(ts[|ts| - 1], bs) + ts[|ts| - 1].len == k * bs + start + len)
      && forall i :: 0 <= i < |ts| ==> ts[i].block == k + i
    decreases len
  {
    if len > 0 {
      var n := Min(bs - start, len);
      TilesInOrder(bs, k + 1, 0, len - n);
      var rest := Tiles(bs, k + 1, 0, len - n);
      assert (k + 1) * bs == k * bs + bs;
      if len > n {
        assert FlatStart(rest[0], bs) == k * bs + start + n;
      } else {
        assert rest == [];
      }
    }
  }

  lemma {:induction false} Ascending(ts: seq<Extent>, bs: nat, i: nat, j: nat)
    requires InOrder(ts, bs) && i < j < |ts|
    ensures FlatStart(ts[i], bs) + ts[i].len <= FlatStart(ts[j], bs)
    decreases j
  {
    hide FlatStart;
    if i < j - 1 {
      Ascending(ts, bs, i, j - 1);
    }
  }

  lemma {:induction false} CoveredBy(ts: seq<Extent>, bs: nat, p: nat) returns (i: nat)
    requires InOrder(ts, bs) && ts != []
    requires FlatStart(ts[0], bs) <= p < FlatStart(ts[|ts| - 1], bs) + ts[|ts| - 1].len
    ensures i < |ts| && Covers(ts[i], bs, p)
  {
    hide FlatStart;
    if p < FlatStart(ts[0], bs) + ts[0].len {
      i := 0;
    } else {
      i := CoveredBy(ts[1..], bs, p);
      i := i + 1;
    }
  }

  /** The pieces tile the range: each position of it lies in exactly one piece, and no other
      position lies in any. */
  lemma TilesPartition(bs: nat, k: nat, start: nat, len: nat, p: nat)
    requires start < bs
    ensures var ts := Tiles(bs, k, start, len);
      && ((exists i :: 0 <= i < |ts| && Covers(ts[i], bs, p)) <==> k * bs + start <= p < k * bs + start + len)
      && forall i, j :: 0 <= i < |ts| && 0 <= j < |ts| && Covers(ts[i], bs, p) && Covers(ts[j], bs, p) ==> i == j
  {
    var ts := Tiles(bs, k, start, len);
    TilesInOrder(bs, k, start, len);
    NoTiles(bs, k, start);
    hide FlatStart, Tiles;
    if k * bs + start <= p < k * bs + start + len {
      var i := CoveredBy(ts, bs, p);
    }
    forall i, j | 0 <= i < j < |ts| ensures !(Covers(ts[i], bs, p) && Covers(ts[j], bs, p)) {
      Ascending(ts, bs, i, j);
    }
    forall i | 0 <= i < |ts| && Covers(ts[i], bs, p) ensures k * bs + start <= p < k * bs + start + len {
      if 0 < i {
        Ascending(ts, bs, 0, i);
      }
      if i < |ts| - 1 {
        Ascending(ts, bs, i, |ts| - 1);
      }
    }
  }

  lemma NoTiles(bs: nat, k: nat, start: nat)
    requires start < bs
    ensures Tiles(bs, k, start, 0) == []
  {
  }

  /** Pieces of a range that ends within N blocks lie in those blocks. */
  lemma TilesWithin(bs: nat, k: nat, start: nat, len: nat, blocks: nat)
    requires start < bs && k * bs + start + len <= blocks * bs
    ensures forall e :: e in Tiles(bs, k, start, len) ==> e.block < blocks && e.start + e.len <= bs
  {
    var ts := Tiles(bs, k, start, len);
    TilesInOrder(bs, k, start, len);
    forall i | 0 <= i < |ts| ensures ts[i].block < blocks {
      TileEnds(ts, bs, i, |ts| - 1);
      if ts[i].block >= blocks {
        MulOrder(blocks, ts[i].block, bs);
      }
    }
  }

  lemma {:induction false} TileEnds(ts: seq<Extent>, bs: nat, i: nat, j: nat)
    requires InOrder(ts, bs) && i <= j < |ts|
    ensures FlatStart(ts[i], bs) + ts[i].len <= FlatStart(ts[j], bs) + ts[j].len
    decreases j - i
  {
    if i < j {
      TileEnds(ts, bs, i + 1, j);
    }
  }

  /** Cutting the first piece off. */
  lemma TilesUnfold(bs: nat, k: nat, start: nat, len: nat)
    requires start < bs && 0 < len
    ensures var n := Min(bs - start, len);
      Tiles(bs, k, start, len) == [Extent(k, start, n)] + Tiles(bs, k + 1, 0, len - n)
  {
  }
}
