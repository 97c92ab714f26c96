/** Values behind the block list: a sequence of equal blocks and the flat byte sequence it
    stands for. */
module Flat {
  type Byte = x: int | 0 <= x < 256

  /** The blocks end to end. */
  function Concat(blocks: seq<seq<Byte>>): (flat: seq<Byte>) {
    if blocks == [] then [] else blocks[0] + Concat(blocks[1..])
  }

  ghost predicate Uniform(blocks: seq<seq<Byte>>, bs: nat) {
    forall k :: 0 <= k < |blocks| ==> |blocks[k]| == bs
  }

  /** data laid over flat from position at. */
  function Splice(flat: seq<Byte>, at: nat, data: seq<Byte>): (r: seq<Byte>)
    requires at + |data| <= |flat|
    ensures |r| == |flat|
  {
    flat[..at] + data + flat[at + |data|..]
  }

  lemma SpliceTwice(flat: seq<Byte>, at: nat, a: seq<Byte>, b: seq<Byte>)
    requires at + |a| + |b| <= |flat|
    ensures Splice(Splice(flat, at, a), at + |a|, b) == Splice(flat, at, a + b)
  {
  }

  /** What a splice into an extension of `base` looks like from base. */
  lemma SplicedParts(flat: seq<Byte>, base: seq<Byte>, at: nat, data: seq<Byte>)
    requires base <= flat && at <= |base| && at + |data| <= |flat|
    ensures var r := Splice(flat, at, data);
      && r[..at] == base[..at] && r[at..at + |data|] == data
      && (at + |data| <= |base| ==> r[at + |data|..|base|] == base[at + |data|..])
  {
  }

  lemma SpliceNothing(flat: seq<Byte>, at: nat)
    requires at <= |flat|
    ensures Splice(flat, at, []) == flat
  {
  }

  lemma AppendAssociates(a: seq<Byte>, b: seq<Byte>, c: seq<Byte>)
    ensures a + (b + c) == a + b + c
  {
  }

  lemma {:induction false} ConcatAppend(a: seq<seq<Byte>>, b: seq<seq<Byte>>)
    ensures Concat(a + b) == Concat(a) + Concat(b)
  {
    if a == [] {
      assert a + b == b;
    } else {
      ConcatAppend(a[1..], b);
      assert (a + b)[0] == a[0] && (a + b)[1..] == a[1..] + b;
      AppendAssociates(a[0], Concat(a[1..]), Concat(b));
    }
  }

  lemma {:induction false} ConcatLength(blocks: seq<seq<Byte>>, bs: nat)
    requires Uniform(blocks, bs)
    ensures |Concat(blocks)| == |blocks| * bs
  {
    if blocks != [] {
      ConcatLength(blocks[1..], bs);
      assert |blocks| * bs == bs + (|blocks| - 1) * bs;
    }
  }

  lemma ConcatPrefix(a: seq<seq<Byte>>, b: seq<seq<Byte>>)
    requires a <= b
    ensures Concat(a) <= Concat(b)
  {
    assert b == a + b[|a|..];
    ConcatAppend(a, b[|a|..]);
  }

  /** Block k sits at k * bs. */
  lemma BlockAt(blocks: seq<seq<Byte>>, bs: nat, k: nat)
    requires Uniform(blocks, bs) && k < |blocks|
    ensures k * bs + bs <= |Concat(blocks)| == |blocks| * bs
    ensures Concat(blocks)[k * bs..k * bs + bs] == blocks[k]
    ensures Concat(blocks) == Concat(blocks[..k]) + blocks[k] + Concat(blocks[k + 1..])
    ensures |Concat(blocks[..k])| == k * bs
  {
    assert blocks == blocks[..k] + ([blocks[k]] + blocks[k + 1..]);
    ConcatAppend(blocks[..k], [blocks[k]] + blocks[k + 1..]);
    ConcatAppend([blocks[k]], blocks[k + 1..]);
    assert Concat([blocks[k]]) == blocks[k] + Concat([]);
    ConcatLength(blocks[..k], bs);
    ConcatLength(blocks, bs);
  }

  /** Overwriting part of one block is a splice of the flat sequence. */
  lemma PutIsSplice(blocks: seq<seq<Byte>>, bs: nat, k: nat, start: nat, data: seq<Byte>)
    requires Uniform(blocks, bs) && k < |blocks| && start + |data| <= bs
    ensures k * bs + start + |data| <= |Concat(blocks)|
    ensures Concat(blocks[k := Splice(blocks[k], start, data)]) == Splice(Concat(blocks), k * bs + start, data)
  {
    hide Concat, Splice;
    var after := blocks[k := Splice(blocks[k], start, data)];
    BlockAt(blocks, bs, k);
    BlockAt(after, bs, k);
    assert after[..k] == blocks[..k] && after[k + 1..] == blocks[k + 1..];
    SpliceMiddle(Concat(blocks[..k]), blocks[k], Concat(blocks[k + 1..]), start, data);
  }

  lemma SpliceMiddle(pre: seq<Byte>, b: seq<Byte>, post: seq<Byte>, at: nat, data: seq<Byte>)
    requires at + |data| <= |b|
    ensures Splice(pre + b + post, |pre| + at, data) == pre + Splice(b, at, data) + post
  {
  }

  /** Reading part of one block is a slice of the flat sequence. */
  lemma SliceOfBlock(blocks: seq<seq<Byte>>, bs: nat, k: nat, start: nat, len: nat)
    requires Uniform(blocks, bs) && k < |blocks| && start + len <= bs
    ensures k * bs + start + len <= |Concat(blocks)|
    ensures Concat(blocks)[k * bs + start..k * bs + start + len] == blocks[k][start..start + len]
  {
    BlockAt(blocks, bs, k);
    var flat := Concat(blocks);
    assert flat[k * bs..k * bs + bs][start..start + len] == flat[k * bs + start..k * bs + start + len];
  }
}
