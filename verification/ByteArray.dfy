/** The block-list byte buffer.  A list of equal blocks with a block pointer, an offset, a
    size and a capacity behaves as one flat byte sequence with a cursor. */
module ByteBuffer {
  import opened Arithmetic
  import opened Wrappers
  import opened Flat
  import opened Tiling
  import opened Words

  /** Result of an operation: a value, the exception the source throws, or the null block
      pointer the source would follow. */
  datatype Outcome<+T> = Ok(value: T) | OutOfRange | NullBlock

  class Node {
    const size: nat
    const ptr: array<Byte>
    var next: Node?

    constructor (s: nat)
      ensures size == s && ptr.Length == s && next == null && fresh(ptr)
    {
      size := s;
      ptr := new Byte[s];
      next := null;
    }
  }

  function Max(a: nat, b: nat): (m: nat)
    ensures a <= m && b <= m && (m == a || m == b)
  {
    if a < b then b else a
  }

  /** Blocks added so that `need` more bytes fit when `have` do already. */
  function BlocksNeeded(need: nat, have: nat, bs: nat): nat
    requires 0 < bs
  {
    if have >= need then 0 else (need - have + bs - 1) / bs
  }

  /** That many are enough, and one fewer is not. */
  lemma BlocksExact(need: nat, have: nat, bs: nat)
    requires 0 < bs
    ensures var n := BlocksNeeded(need, have, bs);
      need <= have + n * bs && (0 < n ==> have + (n - 1) * bs < need)
  {
    if have < need {
      var x := need - have + bs - 1;
      Decompose(x, bs);
      assert (x / bs - 1) * bs == (x / bs) * bs - bs;
    }
  }

  /** memcpy into a block. */
  method CopyIn(a: array<Byte>, start: nat, data: seq<Byte>)
    requires start + |data| <= a.Length
    modifies a
    ensures a[..] == Splice(old(a[..]), start, data)
  {
    forall i | 0 <= i < |data| {
      a[start + i] := data[i];
    }
  }

  /** Each node links to the next and is bs bytes long. */
  ghost predicate Chained(nodes: seq<Node>, bs: nat)
    reads nodes
  {
    forall k :: 0 <= k < |nodes| ==>
      && nodes[k].size == nodes[k].ptr.Length == bs
      && nodes[k].next == (if k + 1 < |nodes| then nodes[k + 1] else null)
  }

  /** No two entries share a node or its bytes. */
  ghost predicate Unshared(nodes: seq<Node>) {
    forall i, j :: 0 <= i < |nodes| && 0 <= j < |nodes| && i != j ==>
      nodes[i] != nodes[j] && nodes[i].ptr != nodes[j].ptr
  }

  ghost predicate Holds(nodes: seq<Node>, blocks: seq<seq<Byte>>)
    reads set n | n in nodes :: n.ptr
  {
    && |nodes| == |blocks|
    && forall k :: 0 <= k < |nodes| ==> nodes[k].ptr[..] == blocks[k]
  }

  /** Position `start` of block k, counted from the block's begin, is position `at` of the whole. */
  ghost predicate Stands(at: nat, k: nat, start: nat, bs: nat) { at == k * bs + start }

  lemma StandsOn(at: nat, k: nat, start: nat, bs: nat, n: nat)
    requires Stands(at, k, start, bs)
    ensures Stands(at + n, k, start + n, bs)
  {
  }

  lemma UnsharedMore(nodes: seq<Node>, added: Node)
    requires Unshared(nodes) && forall i :: 0 <= i < |nodes| ==> nodes[i] != added && nodes[i].ptr != added.ptr
    ensures Unshared(nodes + [added])
  {
  }

  lemma HoldsMore(nodes: seq<Node>, blocks: seq<seq<Byte>>, added: Node)
    requires Holds(nodes, blocks)
    ensures Holds(nodes + [added], blocks + [added.ptr[..]])
  {
  }

  lemma OneBlockMore(n: nat, bs: nat)
    ensures (n + 1) * bs == n * bs + bs
  {
  }

  /** A scatter/gather vector: len bytes of a block from position start. */
  datatype Iov = Iov(base: array<Byte>, start: nat, len: nat)

  /** The vector that describes one piece. */
  function Vector(nodes: seq<Node>, e: Extent): Iov
    requires e.block < |nodes|
  {
    Iov(nodes[e.block].ptr, e.start, e.len)
  }

  /** The vectors describe exactly these pieces, in this order. */
  ghost predicate Describes(iovs: seq<Iov>, nodes: seq<Node>, ts: seq<Extent>) {
    && |iovs| == |ts|
    && forall i :: 0 <= i < |ts| ==> ts[i].block < |nodes| && iovs[i] == Vector(nodes, ts[i])
  }

  function Room(iovs: seq<Iov>): nat {
    if iovs == [] then 0 else iovs[0].len + Room(iovs[1..])
  }

  lemma {:induction false} TilesRoom(iovs: seq<Iov>, nodes: seq<Node>, bs: nat, k: nat, start: nat, len: nat)
    requires start < bs && Describes(iovs, nodes, Tiles(bs, k, start, len))
    ensures Room(iovs) == len
    decreases len
  {
    if len > 0 {
      var n := Min(bs - start, len);
      var rest := Tiles(bs, k + 1, 0, len - n);
      assert Tiles(bs, k, start, len)[1..] == rest;
      TilesRoom(iovs[1..], nodes, bs, k + 1, 0, len - n);
    }
  }

  class ByteArray {
    const blockSize: nat
    var offset: nat
    var size: nat
    var capacity: nat
    var endian: Endian
    const root: Node
    var cur: Node?

    ghost var nodes: seq<Node>        // the list, in order
    ghost var blocks: seq<seq<Byte>>  // what each block holds
    ghost var Repr: set<object>

    /** The list is well linked, its blocks are equal and unshared, and hold `blocks`. */
    ghost predicate Linked()
      reads this, Repr
    {
      && this in Repr
      && 0 < blockSize
      && 0 < |nodes| && nodes[0] == root
      && (forall n :: n in nodes ==> n in Repr && n.ptr in Repr)
      && Chained(nodes, blockSize)
      && Unshared(nodes)
      && Holds(nodes, blocks)
      && Uniform(blocks, blockSize)
      && capacity == |nodes| * blockSize
    }

    /** Node k of the list, or the null pointer after its last. */
    ghost function NodeAt(k: nat): Node?
      reads this`nodes
    {
      if k < |nodes| then nodes[k] else null
    }

    /** The flat sequence the list stands for. */
    ghost function Contents(): (flat: seq<Byte>)
      reads this`blocks
    {
      Concat(blocks)
    }

    /** Representation invariant: the block pointer is always block number offset/blockSize,
        and null exactly when the offset equals the capacity. */
    ghost predicate Valid()
      reads this, Repr
    {
      && Linked()
      && offset <= size <= capacity
      && InPlace()
    }

    /** The block pointer is where the cursor is. */
    ghost predicate InPlace()
      reads this
    {
      0 < blockSize && cur == NodeAt(offset / blockSize)
    }

    lemma LinkedFacts()
      requires Linked()
      ensures Uniform(blocks, blockSize)
      ensures |Contents()| == capacity && 0 < blockSize
    {
      ConcatLength(blocks, blockSize);
    }

    /** The bytes before the cursor. */
    ghost function Before(): (s: seq<Byte>)
      requires Valid()
      reads this, Repr
      ensures |s| == offset
    {
      LinkedFacts();
      Contents()[..offset]
    }

    /** The readable bytes after the cursor. */
    ghost function Ahead(): (s: seq<Byte>)
      requires Valid()
      reads this, Repr
      ensures |s| == size - offset
    {
      LinkedFacts();
      Contents()[offset..size]
    }

    /** The block pointer is null exactly at the capacity. */
    lemma NullAtCapacity()
      requires Valid()
      ensures cur == null <==> offset == capacity
      ensures offset < capacity ==>
        offset / blockSize < |nodes| && cur == nodes[offset / blockSize] && cur.size == blockSize
    {
      var k, r := offset / blockSize, offset % blockSize;
      Decompose(offset, blockSize);
      if k < |nodes| {
        MulOrder(k + 1, |nodes|, blockSize);
        assert (k + 1) * blockSize == k * blockSize + blockSize;
      } else {
        MulOrder(|nodes|, k, blockSize);
      }
    }

    constructor (baseSize: nat)
      requires 0 < baseSize
      ensures Valid() && fresh(Repr)
      ensures blockSize == baseSize && offset == 0 && size == capacity == baseSize && endian == BIG
    {
      blockSize := baseSize;
      offset := 0;
      size := baseSize;
      capacity := baseSize;
      endian := BIG;
      var first := new Node(baseSize);
      root := first;
      cur := first;
      nodes := [first];
      blocks := [first.ptr[..]];
      Repr := {this, first, first.ptr};
    }

    /** Copy data into one block. */
    method Put(ghost k: nat, bytes: array<Byte>, start: nat, data: seq<Byte>)
      requires Linked() && k < |nodes| && bytes == nodes[k].ptr && start + |data| <= blockSize
      modifies this`blocks, bytes
      ensures Linked() && |blocks| == |old(blocks)|
      ensures blocks == old(blocks)[k := Splice(old(blocks)[k], start, data)]
      ensures Uniform(old(blocks), blockSize) && k * blockSize + start + |data| <= |Concat(old(blocks))|
      ensures Contents() == Splice(old(Contents()), k * blockSize + start, data)
    {
      LinkedFacts();
      PutIsSplice(blocks, blockSize, k, start, data);
      CopyIn(bytes, start, data);
      blocks := blocks[k := Splice(blocks[k], start, data)];
    }

    /** Link one new block after the last. */
    method Append(last: Node) returns (added: Node)
      requires Linked() && last == nodes[|nodes| - 1]
      modifies this`capacity, this`nodes, this`blocks, this`Repr, last`next
      ensures Linked()
      ensures nodes == old(nodes) + [added] && fresh(added) && fresh(added.ptr)
      ensures |blocks| == |old(blocks)| + 1 && old(blocks) <= blocks
      ensures capacity == old(capacity) + blockSize
      ensures Repr == old(Repr) + {added, added.ptr}
    {
      added := new Node(blockSize);
      last.next := added;
      capacity := capacity + blockSize;
      nodes := nodes + [added];
      blocks := blocks + [added.ptr[..]];
      Repr := Repr + {added, added.ptr};
      UnsharedMore(old(nodes), added);
      HoldsMore(old(nodes), old(blocks), added);
      hide Unshared, Holds;
      assert Chained(nodes, blockSize);
      OneBlockMore(|old(nodes)|, blockSize);
    }

    /** Walk to the end of the list. */
    method LastNode() returns (last: Node)
      requires Linked()
      ensures last == nodes[|nodes| - 1]
    {
      last := root;
      ghost var i := 0;
      while last.next != null
        invariant 0 <= i < |nodes| && last == nodes[i]
        decreases |nodes| - i
      {
        assert last.next == NodeAt(i + 1);
        last := last.next;
        i := i + 1;
      }
      assert last.next == NodeAt(i + 1);
    }

    /** Link `count` new blocks after the last and return the first of them. */
    method AppendMany(last: Node, count: nat) returns (head: Node?)
      requires Linked() && last == nodes[|nodes| - 1]
      modifies this`capacity, this`nodes, this`blocks, this`Repr, last`next
      ensures Linked()
      ensures old(nodes) <= nodes && old(blocks) <= blocks && |nodes| == |old(nodes)| + count
      ensures head == NodeAt(|old(nodes)|)
      ensures old(Repr) <= Repr && fresh(Repr - old(Repr))
    {
      var tmp, left := last, count;
      head := null;
      while left > 0
        invariant Linked()
        invariant 0 <= left <= count && |nodes| == |old(nodes)| + (count - left)
        invariant old(nodes) <= nodes && old(blocks) <= blocks
        invariant tmp == nodes[|nodes| - 1] && (tmp == last || fresh(tmp))
        invariant head == NodeAt(|old(nodes)|)
        invariant old(Repr) <= Repr && fresh(Repr - old(Repr))
      {
        var added := Append(tmp);
        if head == null {
          head := added;
        }
        tmp := added;
        left := left - 1;
      }
    }

    /** Make room for `need` bytes after the cursor, adding no block that is not needed. */
    method AddCapacity(need: nat)
      requires Valid()
      modifies Repr
      ensures Valid() && fresh(Repr - old(Repr)) && old(Repr) <= Repr
      ensures offset == old(offset) && size == old(size) && endian == old(endian)
      ensures old(blocks) <= blocks
      ensures |blocks| == |old(blocks)| + BlocksNeeded(need, old(capacity) - offset, blockSize)
      ensures offset + need <= capacity
      ensures capacity == old(capacity) || capacity - blockSize < offset + need
    {
      hide *;
      NoneNeeded(need);
      if need == 0 {
        return;
      }
      var oldCap := capacity - offset;
      if oldCap >= need {
        return;
      }
      Extend(need, oldCap);
    }

    /** The part of addCapacity behind its tests: link the blocks that are missing. */
    method Extend(need: nat, oldCap: nat)
      requires Valid() && offset + oldCap == capacity && oldCap < need
      modifies Repr
      ensures Valid() && fresh(Repr - old(Repr)) && old(Repr) <= Repr
      ensures offset == old(offset) && size == old(size) && endian == old(endian)
      ensures old(blocks) <= blocks && |blocks| == |old(blocks)| + BlocksNeeded(need, oldCap, blockSize)
      ensures offset + need <= capacity && capacity - blockSize < offset + need
    {
      hide *;
      CapacityKnown();
      var count := (need - oldCap + blockSize - 1) / blockSize;
      var last := LastNode();
      ghost var n := |nodes|;
      ghost var k, r := Place(oldCap);
      var head := AppendMany(last, count);
      GrownEnough(need, oldCap, n, count);
      Settle(if oldCap == 0 then head else cur, k, r);
    }

    /** The block pointer after growth: still the cursor's block, which is the first new one if
        the cursor was at the capacity. */
    method Settle(c: Node?, ghost k: nat, ghost r: nat)
      requires Linked() && offset <= size <= capacity
      requires Stands(offset, k, r, blockSize) && r < blockSize && k < |nodes| && c == nodes[k]
      modifies this`cur
      ensures Valid() && cur == c && |nodes| == |blocks|
    {
      ModUnique(offset, blockSize, k, r);
      cur := c;
    }

    /** The cursor's block and position in it; the block after the last for the capacity. */
    lemma Place(left: nat) returns (k: nat, r: nat)
      requires Valid() && offset + left == capacity
      ensures r < blockSize && Stands(offset, k, r, blockSize)
      ensures if left == 0 then k == |nodes| else k < |nodes| && cur == nodes[k]
    {
      k, r := offset / blockSize, offset % blockSize;
      Decompose(offset, blockSize);
      if left == 0 {
        ModUnique(offset, blockSize, |nodes|, 0);
      } else if k >= |nodes| {
        MulOrder(|nodes|, k, blockSize);
      }
    }

    lemma CapacityKnown()
      requires Valid()
      ensures Linked() && 0 < |nodes| && this in Repr && 0 < blockSize && offset <= size <= capacity
      ensures Stands(capacity, |nodes|, 0, blockSize) && |blocks| == |nodes| && nodes[|nodes| - 1] in Repr
    {
      assert nodes[|nodes| - 1] in nodes;
    }

    lemma NoneNeeded(need: nat)
      requires Valid()
      ensures offset <= capacity && 0 < blockSize
      ensures need == 0 || capacity - offset >= need ==> BlocksNeeded(need, capacity - offset, blockSize) == 0
    {
    }

    /** Arithmetic of AddCapacity. */
    lemma GrownEnough(need: nat, oldCap: nat, n: nat, total: nat)
      requires Linked() && oldCap < need && |nodes| == n + total
      requires Stands(offset + oldCap, n, 0, blockSize)
      requires total == (need - oldCap + blockSize - 1) / blockSize
      ensures total == BlocksNeeded(need, oldCap, blockSize)
      ensures offset + oldCap <= capacity && offset + need <= capacity && capacity - blockSize < offset + need
      ensures n < |nodes| && NodeAt(n) == nodes[n]
    {
      Decompose(need - oldCap + blockSize - 1, blockSize);
      assert (n + total) * blockSize == n * blockSize + total * blockSize;
    }

    /** Where the cursor stands after n more bytes of block k. */
    lemma Advanced(at: nat, k: nat, r: nat, n: nat)
      requires Linked() && at == k * blockSize + r && r + n <= blockSize && k < |nodes|
      ensures (at + n) / blockSize == if r + n == blockSize then k + 1 else k
      ensures nodes[k].next == NodeAt(k + 1)
      ensures r + n == blockSize ==> at + n == (k + 1) * blockSize
    {
      assert nodes[k].next == if k + 1 < |nodes| then nodes[k + 1] else null;
      if r + n == blockSize {
        assert (k + 1) * blockSize == k * blockSize + blockSize;
        ModUnique(at + n, blockSize, k + 1, 0);
      } else {
        ModUnique(at + n, blockSize, k, r + n);
      }
    }

    /** Write at the cursor, growing as needed. */
    method Write(buf: seq<Byte>)
      requires Valid()
      modifies Repr
      ensures Valid() && fresh(Repr - old(Repr)) && old(Repr) <= Repr
      ensures offset == old(offset) + |buf| && size == Max(old(size), offset) && endian == old(endian)
      ensures Before() == old(Before()) + buf
      ensures |blocks| == |old(blocks)| + BlocksNeeded(|buf|, old(capacity) - old(offset), blockSize)
      ensures capacity == old(capacity) || capacity - blockSize < offset
      ensures |Contents()| == capacity && |old(Contents())| == old(capacity) <= capacity
      ensures Contents()[..old(offset)] == old(Contents())[..old(offset)]
      ensures Contents()[old(offset)..offset] == buf
      ensures offset <= old(capacity) ==> Contents()[offset..old(capacity)] == old(Contents())[offset..]
    {
      hide Chained, Unshared, Holds, Splice, Concat;
      LinkedFacts();
      if |buf| == 0 {
        return;
      }
      AddCapacity(|buf|);
      LinkedFacts();
      ConcatPrefix(old(blocks), blocks);
      SplicedParts(Contents(), old(Contents()), offset, buf);
      Fill(buf);
      LinkedFacts();
      if offset > size {
        size := offset;
      }
    }

    /** One memcpy of the writing loop: copy a chunk into the current block, advance the
        cursor, and move to the next block when this one is full. */
    method PutChunk(ghost k: nat, start: nat, chunk: seq<Byte>)
      requires Linked() && k < |nodes| && cur == nodes[k] && Stands(offset, k, start, blockSize)
      requires 0 < |chunk| && start + |chunk| <= blockSize
      modifies this`blocks, this`offset, this`cur, cur.ptr
      ensures Linked() && |blocks| == |old(blocks)|
      ensures offset == old(offset) + |chunk|
      ensures cur == NodeAt(if start + |chunk| == blockSize then k + 1 else k)
      ensures InPlace()
      ensures old(offset) + |chunk| <= |old(Contents())|
      ensures Contents() == Splice(old(Contents()), old(offset), chunk)
    {
      hide Unshared, Holds, Splice, Concat;
      Put(k, cur.ptr, start, chunk);
      Advanced(offset, k, start, |chunk|);
      if start + |chunk| == cur.size {
        cur := cur.next;
      }
      offset := offset + |chunk|;
    }

    /** The copying part of Write: room for buf has been made. */
    method Fill(buf: seq<Byte>)
      requires Valid() && 0 < |buf| && offset + |buf| <= capacity
      modifies this`offset, this`cur, this`blocks, set n | n in nodes :: n.ptr
      ensures Linked() && |blocks| == |old(blocks)|
      ensures offset == old(offset) + |buf| && InPlace()
      ensures old(offset) + |buf| <= |old(Contents())|
      ensures Contents() == Splice(old(Contents()), old(offset), buf)
    {
      hide Chained, Unshared, Holds, Uniform, Splice;
      NullAtCapacity();
      Decompose(offset, blockSize);
      FillFrom(offset / blockSize, offset % blockSize, buf);
    }

    /** The copying loop of Write, from position `first` of block `block`. */
    method FillFrom(ghost block: nat, first: nat, buf: seq<Byte>)
      requires Linked() && block < |nodes| && cur == nodes[block] && cur.size == blockSize
      requires first < blockSize && Stands(offset, block, first, blockSize)
      requires 0 < |buf| && offset + |buf| <= capacity
      modifies this`offset, this`cur, this`blocks, set n | n in nodes :: n.ptr
      ensures Linked() && |blocks| == |old(blocks)|
      ensures offset == old(offset) + |buf| && InPlace()
      ensures old(offset) + |buf| <= |old(Contents())|
      ensures Contents() == Splice(old(Contents()), old(offset), buf)
    {
      hide *;
      ghost var start, flat, k := offset, Contents(), block;
      LinkedFacts();
      SpliceNothing(flat, start);
      var curOffset, curWriteable := first, cur.size - first;
      var bufOffset, left := 0, |buf|;
      while left > 0
        invariant Linked() && 0 <= bufOffset && 0 <= left && bufOffset + left == |buf|
        invariant |blocks| == |old(blocks)|
        invariant offset == start + bufOffset
        invariant Contents() == Splice(flat, start, buf[..bufOffset])
        invariant left == 0 ==> InPlace()
        invariant left > 0 ==>
          && 0 <= k < |nodes| && cur == nodes[k] && 0 <= curOffset < blockSize
          && Stands(offset, k, curOffset, blockSize) && curWriteable == blockSize - curOffset
      {
        var n := if curWriteable >= left then left else curWriteable;
        StandsOn(offset, k, curOffset, blockSize, n);
        InNodes(k);
        PutChunk(k, curOffset, buf[bufOffset..bufOffset + n]);
        SpliceTwice(flat, start, buf[..bufOffset], buf[bufOffset..bufOffset + n]);
        PrefixJoin(buf, bufOffset, n);
        bufOffset := bufOffset + n;
        left := left - n;
        if left > 0 {
          BlockEnd(offset, left, k);
          k := k + 1;
          curOffset := 0;
          curWriteable := cur.size;
        }
      }
      assert buf[..bufOffset] == buf;
    }

    lemma InNodes(k: nat)
      requires k < |nodes|
      ensures nodes[k] in nodes
    {
    }

    lemma PrefixJoin(flat: seq<Byte>, a: nat, n: nat)
      requires a + n <= |flat|
      ensures flat[..a] + flat[a..a + n] == flat[..a + n]
    {
    }

    /** At the end of block k there is a block ahead while bytes within the capacity remain. */
    lemma BlockEnd(at: nat, left: nat, k: nat)
      requires Linked() && Stands(at, k, blockSize, blockSize) && 0 < left && at + left <= capacity
      ensures k + 1 < |nodes| && Stands(at, k + 1, 0, blockSize)
      ensures NodeAt(k + 1) == nodes[k + 1] && nodes[k + 1].size == blockSize
    {
      assert (k + 1) * blockSize == k * blockSize + blockSize;
      if k + 1 >= |nodes| {
        MulOrder(|nodes|, k + 1, blockSize);
      }
    }

    /** Readable bytes after the cursor. */
    function ReadableSize(): (n: int)
      reads this
    {
      size - offset
    }

    /** Read from the cursor: the next `want` bytes, or the exception the source throws.  The
        one case in which it would follow the null block pointer is a read of nothing with
        the cursor at the capacity. */
    method Read(want: nat) returns (r: Outcome<seq<Byte>>)
      requires Valid()
      modifies this`offset, this`cur
      ensures Valid()
      ensures r.OutOfRange? <==> want > old(size - offset)
      ensures r.NullBlock? <==> want == 0 && old(offset) == capacity
      ensures r.Ok? ==> offset == old(offset) + want && offset <= |Contents()|
      ensures r.Ok? ==> r.value == Contents()[old(offset)..offset]
      ensures r.Ok? ==> |r.value| == want && old(Ahead()) == r.value + Ahead()
      ensures !r.Ok? ==> offset == old(offset) && cur == old(cur)
    {
      hide Chained, Unshared, Holds, Uniform, Concat;
      LinkedFacts();
      if want > ReadableSize() {
        return OutOfRange;
      }
      NullAtCapacity();
      if cur == null {
        return NullBlock;
      }
      if want == 0 {
        return Ok([]);
      }
      Decompose(offset, blockSize);
      var buf := Drain(offset / blockSize, offset % blockSize, want);
      return Ok(buf);
    }

    /** The copying loop of Read, from position `start` of block k. */
    method Drain(ghost block: nat, start: nat, want: nat) returns (buf: seq<Byte>)
      requires Linked() && block < |nodes| && cur == nodes[block] && cur.size == blockSize
      requires start < blockSize && Stands(offset, block, start, blockSize)
      requires 0 < want && offset + want <= capacity
      modifies this`offset, this`cur
      ensures Linked() && offset == old(offset) + want && InPlace()
      ensures offset <= |Contents()| && buf == Contents()[old(offset)..offset]
    {
      hide *;
      LinkedFacts();
      ghost var from, k := offset, block;
      ghost var flat := Contents();
      var curOffset, curReadable := start, cur.size - start;
      var left := want;
      buf := [];
      while left > 0
        invariant Linked() && 0 <= left && |buf| + left == want && Contents() == flat
        invariant offset == from + |buf| && buf == flat[from..offset]
        invariant left == 0 ==> InPlace()
        invariant left > 0 ==>
          && 0 <= k < |nodes| && cur == nodes[k] && 0 <= curOffset < blockSize
          && Stands(offset, k, curOffset, blockSize) && curReadable == blockSize - curOffset
      {
        var n := if curReadable >= left then left else curReadable;
        StandsOn(offset, k, curOffset, blockSize, n);
        ghost var at := offset;
        var chunk := TakeChunk(k, curOffset, n);
        SlicesJoin(flat, from, at, offset);
        buf := buf + chunk;
        left := left - n;
        if left > 0 {
          BlockEnd(offset, left, k);
          k := k + 1;
          curOffset := 0;
          curReadable := cur.size;
        }
      }
    }

    lemma SlicesJoin(flat: seq<Byte>, a: nat, b: nat, c: nat)
      requires a <= b <= c <= |flat|
      ensures flat[a..b] + flat[b..c] == flat[a..c]
    {
    }

    /** One memcpy of the reading loop, with the cursor moved past what was copied. */
    method TakeChunk(ghost k: nat, start: nat, n: nat) returns (chunk: seq<Byte>)
      requires Linked() && k < |nodes| && cur == nodes[k] && Stands(offset, k, start, blockSize)
      requires 0 < n && start + n <= blockSize
      modifies this`offset, this`cur
      ensures Linked() && offset == old(offset) + n
      ensures cur == NodeAt(if start + n == blockSize then k + 1 else k)
      ensures InPlace()
      ensures offset <= |Contents()| && chunk == Contents()[old(offset)..offset]
    {
      LinkedFacts();
      SliceOfBlock(blocks, blockSize, k, start, n);
      Advanced(offset, k, start, n);
      chunk := cur.ptr[start..start + n];
      assert chunk == blocks[k][start..start + n];
      if start + n == cur.size {
        cur := cur.next;
      }
      offset := offset + n;
    }

    /** The walk of setOffset: subtract block sizes until the position falls inside one. */
    method Seek(at: nat) returns (c: Node?)
      requires Linked() && at <= capacity
      ensures c == NodeAt(at / blockSize)
      ensures c == null <==> at == capacity
    {
      hide Unshared, Holds, Uniform;
      c := root;
      var left := at;
      ghost var k := 0;
      while c != null && left >= c.size
        invariant 0 <= k <= |nodes| && c == NodeAt(k) && 0 <= left
        invariant at == k * blockSize + left
        decreases |nodes| - k
      {
        assert c.next == NodeAt(k + 1);
        assert (k + 1) * blockSize == k * blockSize + blockSize;
        left := left - c.size;
        c := c.next;
        k := k + 1;
      }
      Landed(at, k, left);
    }

    /** Where the walk of setOffset stops. */
    lemma Landed(at: nat, k: nat, left: nat)
      requires Linked() && at <= capacity && k <= |nodes| && at == k * blockSize + left
      requires k < |nodes| ==> left < blockSize
      ensures at / blockSize == k && (k == |nodes| <==> at == capacity)
    {
      if k < |nodes| {
        ModUnique(at, blockSize, k, left);
        MulOrder(k + 1, |nodes|, blockSize);
        assert (k + 1) * blockSize == k * blockSize + blockSize;
      } else {
        ModUnique(at, blockSize, k, 0);
      }
    }

    /** Move the cursor.  A position beyond the size exposes what the blocks hold there; a
        position equal to the capacity walks off the list. */
    method SetOffset(at: nat) returns (r: Outcome<()>)
      requires Valid()
      modifies this`offset, this`size, this`cur
      ensures Valid()
      ensures r.OutOfRange? <==> at > capacity
      ensures r.NullBlock? <==> at == capacity
      ensures r.OutOfRange? ==> offset == old(offset) && size == old(size)
      ensures !r.OutOfRange? ==> offset == at && size == Max(old(size), at)
    {
      if at > capacity {
        return OutOfRange;
      }
      offset := at;
      if offset > size {
        size := offset;
      }
      cur := Seek(at);
      r := if cur == null then NullBlock else Ok(());
    }

    method SetEndian(e: Endian)
      requires Valid()
      modifies this`endian
      ensures Valid() && endian == e && Before() == old(Before()) && Ahead() == old(Ahead())
    {
      endian := e;
    }

    /** Drop every block but the first. */
    method Clear()
      requires Valid()
      modifies this, root
      ensures Valid() && Repr == old(Repr)
      ensures offset == size == 0 && capacity == blockSize
      ensures blocks == [old(blocks)[0]] && Contents() == old(Contents())[..blockSize]
    {
      LinkedFacts();
      BlockAt(blocks, blockSize, 0);
      offset := 0;
      size := 0;
      capacity := blockSize;
      cur := root;
      root.next := null;
      nodes := [root];
      blocks := [blocks[0]];
      assert Concat(blocks) == blocks[0] + Concat([]);
    }

    lemma NextNode(node: Node, k: nat)
      requires Linked() && node == NodeAt(k)
      ensures k < |nodes| && node.next == NodeAt(k + 1) && node.size == blockSize
    {
      assert node == nodes[k];
    }

    // -------------------------------------------------------------------------------------
    // Scatter/gather

    /** The pieces of the n bytes at a flat position. */
    ghost function Pieces(at: nat, n: nat): seq<Extent>
      requires 0 < blockSize
    {
      Tiles(blockSize, at / blockSize, at % blockSize, n)
    }

    /** The loop shared by the three buffer getters: from `first`, which is block k, take
        vectors until `len` bytes are described - or the list ends. */
    method Vectors(ghost k: nat, first: Node?, start: nat, len: nat) returns (r: Outcome<seq<Iov>>)
      requires Linked() && k <= |nodes| && first == NodeAt(k) && start < blockSize && 0 < len
      ensures !r.OutOfRange?
      ensures r.NullBlock? <==> k * blockSize + start + len > capacity
      ensures r.Ok? ==> Describes(r.value, nodes, Tiles(blockSize, k, start, len))
    {
      hide Unshared, Holds, Uniform;
      if first == null {
        return NullBlock;
      }
      var node := first;
      var at, left := start, len;
      var have := node.size - at;
      var iovs: seq<Iov> := [];
      ghost var j, ts := k, [];
      ghost var all := Tiles(blockSize, k, start, len);
      while left > 0
        invariant 0 <= left && 0 <= j && 0 <= at < blockSize
        invariant Describes(iovs, nodes, ts)
        invariant all == ts + Tiles(blockSize, j, at, left)
        invariant left > 0 ==>
          && j < |nodes| && node == nodes[j] && have == blockSize - at
          && k * blockSize + start + len == j * blockSize + at + left
        invariant left == 0 ==> k * blockSize + start + len <= capacity
      {
        TilesUnfold(blockSize, j, at, left);
        assert node.next == NodeAt(j + 1);
        FitsOrNot(j, at, left);
        if have >= left {
          iovs := iovs + [Iov(node.ptr, at, left)];
          ts := ts + [Extent(j, at, left)];
          left := 0;
        } else {
          iovs := iovs + [Iov(node.ptr, at, have)];
          ts := ts + [Extent(j, at, have)];
          left := left - have;
          if node.next == null {
            return NullBlock;
          }
          node := node.next;
          at := 0;
          have := node.size;
        }
        j := j + 1;
      }
      return Ok(iovs);
    }

    /** Whether `left` bytes from position `at` of block j fit before the end of the list. */
    lemma FitsOrNot(j: nat, at: nat, left: nat)
      requires Linked() && j < |nodes| && at < blockSize
      ensures (j + 1) * blockSize == j * blockSize + blockSize <= capacity
      ensures left > blockSize - at && j + 1 == |nodes| ==> j * blockSize + at + left > capacity
    {
      MulOrder(j + 1, |nodes|, blockSize);
    }

    /** getReadableBuffers from the cursor: vectors for the next n readable bytes. */
    method ReadableBuffers(len: nat) returns (iovs: seq<Iov>, n: nat)
      requires Valid()
      ensures n == Min(len, size - offset)
      ensures Describes(iovs, nodes, Pieces(offset, n))
    {
      n := if len > ReadableSize() then ReadableSize() else len;
      if n == 0 {
        return [], 0;
      }
      Decompose(offset, blockSize);
      DivWithin(offset);
      var r := Vectors(offset / blockSize, cur, offset % blockSize, n);
      iovs := r.value;
    }

    lemma DivWithin(at: nat)
      requires Linked() && at <= capacity
      ensures at / blockSize <= |nodes|
    {
      if at / blockSize > |nodes| {
        MulOrder(|nodes| + 1, at / blockSize, blockSize);
        Decompose(at, blockSize);
      }
    }

    /** getReadableBuffers from an explicit position.  The amount is limited by what is
        readable from the cursor, not from `at`, so the walk runs off the list exactly when
        that amount does not fit behind `at`. */
    method ReadableBuffersAt(len: nat, at: nat) returns (r: Outcome<seq<Iov>>, n: nat)
      requires Valid()
      ensures n == Min(len, size - offset)
      ensures !r.OutOfRange?
      ensures r.NullBlock? <==> 0 < n && at + n > capacity
      ensures r.Ok? ==> Describes(r.value, nodes, Pieces(at, n))
    {
      n := if len > ReadableSize() then ReadableSize() else len;
      if n == 0 {
        return Ok([]), 0;
      }
      Decompose(at, blockSize);
      var node: Node? := root;
      var count := at / blockSize;
      ghost var k := 0;
      while count > 0 && node != null
        invariant 0 <= k <= |nodes| && node == NodeAt(k) && k + count == at / blockSize && 0 <= count
        decreases count
      {
        NextNode(node, k);
        node := node.next;
        count := count - 1;
        k := k + 1;
      }
      if count > 0 {
        MulOrder(|nodes|, at / blockSize, blockSize);
        return NullBlock, n;
      }
      r := Vectors(k, node, at % blockSize, n);
    }

    /** getWriteableBuffers: room for len bytes behind the cursor, and vectors for it. */
    method WriteableBuffers(len: nat) returns (iovs: seq<Iov>)
      requires Valid()
      modifies Repr
      ensures Valid() && fresh(Repr - old(Repr)) && old(Repr) <= Repr
      ensures offset == old(offset) && size == old(size) && endian == old(endian)
      ensures |old(Contents())| == old(capacity) && |Contents()| == capacity && old(Contents()) <= Contents()
      ensures |blocks| == |old(blocks)| + BlocksNeeded(len, old(capacity) - offset, blockSize)
      ensures offset + len <= capacity && (capacity == old(capacity) || capacity - blockSize < offset + len)
      ensures Describes(iovs, nodes, Pieces(offset, len))
    {
      hide Unshared, Holds, Concat;
      LinkedFacts();
      if len == 0 {
        return [];
      }
      AddCapacity(len);
      LinkedFacts();
      ConcatPrefix(old(blocks), blocks);
      Decompose(offset, blockSize);
      DivWithin(offset);
      var r := Vectors(offset / blockSize, cur, offset % blockSize, len);
      iovs := r.value;
    }

    /** One piece of a range within the capacity. */
    lemma Piece(at: nat, len: nat, i: nat)
      requires Linked() && at + len <= capacity && i < |Pieces(at, len)|
      ensures var ts := Pieces(at, len);
        && ts[i].block < |nodes| && 0 < ts[i].len && ts[i].start + ts[i].len <= blockSize
        && FlatStart(ts[i], blockSize) + ts[i].len
           == (if i + 1 < |ts| then FlatStart(ts[i + 1], blockSize) else at + len)
    {
      hide Unshared, Holds, Chained, Concat, Tiles;
      Decompose(at, blockSize);
      TilesInOrder(blockSize, at / blockSize, at % blockSize, len);
      TilesWithin(blockSize, at / blockSize, at % blockSize, len, |nodes|);
      assert Pieces(at, len)[i] in Pieces(at, len);
      if len == 0 {
        NoPieces(at);
      }
    }

    lemma NoPieces(at: nat)
      requires 0 < blockSize
      ensures Pieces(at, 0) == []
    {
    }

    lemma FirstPiece(at: nat, len: nat)
      requires Linked() && at + len <= capacity && 0 < len
      ensures 0 < |Pieces(at, len)| && FlatStart(Pieces(at, len)[0], blockSize) == at
    {
      hide Unshared, Holds, Chained, Concat, Tiles;
      Decompose(at, blockSize);
      TilesInOrder(blockSize, at / blockSize, at % blockSize, len);
    }

    /** The vectors have room for as many bytes as they were asked to describe. */
    lemma PiecesRoom(at: nat, len: nat, iovs: seq<Iov>)
      requires Linked() && Describes(iovs, nodes, Pieces(at, len))
      ensures Room(iovs) == len
    {
      hide Unshared, Holds, Chained, Concat;
      TilesRoom(iovs, nodes, blockSize, at / blockSize, at % blockSize, len);
    }

    /** What a scattering receive does: fill the described pieces in order with data. */
    method Scatter(iovs: seq<Iov>, ghost at: nat, ghost len: nat, data: seq<Byte>)
      requires Linked() && at + len <= capacity && |data| <= len
      requires Describes(iovs, nodes, Pieces(at, len))
      modifies this`blocks, set n | n in nodes :: n.ptr
      ensures Linked() && |blocks| == |old(blocks)|
      ensures at + |data| <= |old(Contents())|
      ensures Contents() == Splice(old(Contents()), at, data)
    {
      hide Unshared, Holds, Chained, Concat, Pieces, Splice, Uniform;
      LinkedFacts();
      ghost var flat, ts := Contents(), Pieces(at, len);
      if 0 < len {
        FirstPiece(at, len);
      }
      SpliceNothing(flat, at);
      var done, i := 0, 0;
      while done < |data|
        invariant Linked() && |blocks| == |old(blocks)|
        invariant 0 <= done <= |data| && 0 <= i <= |ts|
        invariant Contents() == Splice(flat, at, data[..done])
        invariant done < |data| ==> i < |ts| && FlatStart(ts[i], blockSize) == at + done
        decreases |data| - done
      {
        Piece(at, len, i);
        var n := if iovs[i].len < |data| - done then iovs[i].len else |data| - done;
        Put(ts[i].block, iovs[i].base, iovs[i].start, data[done..done + n]);
        SpliceTwice(flat, at, data[..done], data[done..done + n]);
        assert data[..done] + data[done..done + n] == data[..done + n];
        done := done + n;
        i := i + 1;
      }
      assert data[..done] == data;
    }

    /** What a gathering send reads: the first m bytes the vectors describe. */
    method Gather(iovs: seq<Iov>, ghost at: nat, ghost len: nat, m: nat) returns (data: seq<Byte>)
      requires Linked() && at + len <= capacity && m <= len
      requires Describes(iovs, nodes, Pieces(at, len))
      ensures at + m <= |Contents()| && data == Contents()[at..at + m]
    {
      hide Unshared, Chained, Concat, Pieces;
      LinkedFacts();
      ghost var flat, ts := Contents(), Pieces(at, len);
      if 0 < len {
        FirstPiece(at, len);
      }
      data := [];
      var i := 0;
      while |data| < m
        invariant |data| <= m && 0 <= i <= |ts|
        invariant data == flat[at..at + |data|]
        invariant |data| < m ==> i < |ts| && FlatStart(ts[i], blockSize) == at + |data|
        decreases m - |data|
      {
        Piece(at, len, i);
        var n := if iovs[i].len < m - |data| then iovs[i].len else m - |data|;
        SliceOfBlock(blocks, blockSize, ts[i].block, ts[i].start, n);
        var chunk := iovs[i].base[iovs[i].start..iovs[i].start + n];
        assert chunk == blocks[ts[i].block][ts[i].start..ts[i].start + n];
        assert data + chunk == flat[at..at + |data| + n];
        data := data + chunk;
        i := i + 1;
      }
    }
  }
}
