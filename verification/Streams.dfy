/** Fixed-size transfers over a transport that moves as little as it likes at a time. */
module Streams {
  import opened Arithmetic
  import opened Wrappers
  import opened Flat
  import opened Tiling
  import opened ByteBuffer

  /** The peer and the kernel: bytes still to arrive, bytes sent, and what each coming call
      will return - a byte count it is willing to move, or zero or less for end of file or an
      error. */
  class Transport {
    var incoming: seq<Byte>
    var outgoing: seq<Byte>
    var script: seq<int>

    constructor (bytes: seq<Byte>, calls: seq<int>)
      ensures incoming == bytes && outgoing == [] && script == calls
    {
      incoming, outgoing, script := bytes, [], calls;
    }

    /** The next call's result when at most `limit` bytes could move. */
    method Next(limit: nat) returns (rt: int)
      modifies this`script
      ensures rt <= limit
      ensures rt > 0 ==> old(script) != [] && script == old(script)[1..] && rt == Step(old(script), limit)
      ensures rt <= 0 ==> Step(old(script), limit) == 0
    {
      if script == [] {
        return -1;
      }
      rt := if script[0] <= 0 || limit == 0 then Bounded(script[0], 0) else Bounded(script[0], limit);
      script := script[1..];
    }

    method Recv(buffer: array<Byte>, at: nat, len: nat) returns (rt: int)
      requires at + len <= buffer.Length
      modifies this`script, this`incoming, buffer
      ensures rt <= |old(incoming)| && rt <= len
      ensures rt > 0 ==> old(script) != [] && script == old(script)[1..]
      ensures Step(old(script), Min(len, |old(incoming)|)) == if rt > 0 then rt else 0
      ensures rt <= 0 ==> incoming == old(incoming) && buffer[..] == old(buffer[..])
      ensures rt > 0 ==> incoming == old(incoming)[rt..]
      ensures rt > 0 ==> buffer[..] == Splice(old(buffer[..]), at, old(incoming)[..rt])
    {
      rt := Next(Min(len, |incoming|));
      if rt > 0 {
        CopyIn(buffer, at, incoming[..rt]);
        incoming := incoming[rt..];
      }
    }

    /** A scattering receive into the vectors of a buffer. */
    method RecvVectors(b: ByteArray, iovs: seq<Iov>, ghost at: nat, ghost len: nat) returns (rt: int)
      requires this !in b.Repr && b.Valid() && at + len <= b.capacity
      requires Describes(iovs, b.nodes, b.Pieces(at, len))
      modifies this`script, this`incoming, b`blocks, set n | n in b.nodes :: n.ptr
      ensures b.Valid() && |b.blocks| == |old(b.blocks)|
      ensures var n := Step(old(script), Min(len, |old(incoming)|));
        && incoming == old(incoming)[n..]
        && at + n <= |old(b.Contents())| && b.Contents() == Splice(old(b.Contents()), at, old(incoming)[..n])
        && (if n > 0 then rt == n && old(script) != [] && script == old(script)[1..] else rt <= 0)
    {
      b.PiecesRoom(at, len, iovs);
      b.LinkedFacts();
      SpliceNothing(b.Contents(), at);
      rt := Next(Min(Room(iovs), |incoming|));
      if rt > 0 {
        b.Scatter(iovs, at, len, incoming[..rt]);
        incoming := incoming[rt..];
      }
    }

    method Send(data: seq<Byte>) returns (rt: int)
      modifies this`script, this`outgoing
      ensures rt <= |data|
      ensures rt > 0 ==> old(script) != [] && script == old(script)[1..]
      ensures Step(old(script), |data|) == if rt > 0 then rt else 0
      ensures outgoing == old(outgoing) + if rt > 0 then data[..rt] else []
    {
      rt := Next(|data|);
      if rt > 0 {
        outgoing := outgoing + data[..rt];
      }
    }
  }

  function Bounded(x: int, limit: nat): int { if x < limit then x else limit }

  /** Bytes the next call moves when `limit` could. */
  function Step(script: seq<int>, limit: nat): (n: nat)
    ensures n <= limit
  {
    if script == [] || script[0] <= 0 then 0 else Min(script[0], limit)
  }

  /** Bytes a loop of calls moves towards `want` out of `have`, stopping at the first call that
      moves none. */
  function Moved(script: seq<int>, have: nat, want: nat): (n: nat)
    ensures n <= have && n <= want
  {
    var n := Step(script, Min(want, have));
    if n == 0 then 0 else n + Moved(script[1..], have - n, want - n)
  }

  /** What the calls offer to move before the first that moves nothing. */
  function Offered(script: seq<int>): nat {
    if script == [] || script[0] <= 0 then 0 else script[0] + Offered(script[1..])
  }

  /** Whatever the fragmentation, exactly: a loop of calls moves what is wanted, what there is, or
      what the calls offer before one of them moves nothing, whichever is least. */
  lemma {:induction false} FragmentationIndependent(script: seq<int>, have: nat, want: nat)
    ensures Moved(script, have, want) == Min(Min(want, have), Offered(script))
    decreases |script|
  {
    if script != [] && 0 < script[0] && 0 < Min(want, have) {
      var n := Min(script[0], Min(want, have));
      FragmentationIndependent(script[1..], have - n, want - n);
    }
  }

  lemma MovedStep(script: seq<int>, have: nat, want: nat)
    ensures var n := Step(script, Min(want, have));
      Moved(script, have, want) == if n == 0 then 0 else n + Moved(script[1..], have - n, want - n)
  {
  }

  // ---------------------------------------------------------------------------------------
  // Raw buffers

  /** readFixSize into a raw buffer. */
  method ReadFixSize(t: Transport, buffer: array<Byte>, len: nat) returns (r: int)
    requires len <= buffer.Length
    modifies t`script, t`incoming, buffer
    ensures var n := Moved(old(t.script), |old(t.incoming)|, len);
      && r == (if n == len then len else -1)
      && t.incoming == old(t.incoming)[n..]
      && buffer[..] == Splice(old(buffer[..]), 0, old(t.incoming)[..n])
  {
    hide *;
    ghost var all := t.incoming;
    var offset, left := 0, len;
    SpliceNothing(buffer[..], 0);
    while left > 0
      invariant 0 <= offset && 0 <= left && offset + left == len && offset <= |all|
      invariant t.incoming == all[offset..]
      invariant buffer[..] == Splice(old(buffer[..]), 0, all[..offset])
      invariant Moved(old(t.script), |all|, len) == offset + Moved(t.script, |t.incoming|, left)
    {
      MovedStep(t.script, |t.incoming|, left);
      var rt := t.Recv(buffer, offset, left);
      if rt <= 0 {
        return -1;
      }
      SpliceTwice(old(buffer[..]), 0, all[..offset], all[offset..offset + rt]);
      SlicesOn(all, offset, rt);
      offset := offset + rt;
      left := left - rt;
    }
    return len;
  }

  /** writeFixSize from a raw buffer. */
  method WriteFixSize(t: Transport, buffer: seq<Byte>, len: nat) returns (r: int)
    requires len <= |buffer|
    modifies t`script, t`outgoing
    ensures var n := Moved(old(t.script), len, len);
      && r == (if n == len then len else -1)
      && t.outgoing == old(t.outgoing) + buffer[..n]
  {
    hide Moved, Step;
    var offset, left := 0, len;
    assert t.outgoing + buffer[..0] == t.outgoing;
    while left > 0
      invariant 0 <= offset && 0 <= left && offset + left == len
      invariant t.outgoing == old(t.outgoing) + buffer[..offset]
      invariant Moved(old(t.script), len, len) == offset + Moved(t.script, left, left)
    {
      MovedStep(t.script, left, left);
      var rt := t.Send(buffer[offset..len]);
      if rt <= 0 {
        return -1;
      }
      SentOn(old(t.outgoing), buffer, offset, len, rt);
      offset := offset + rt;
      left := left - rt;
    }
    return len;
  }

  lemma SlicesOn(all: seq<Byte>, offset: nat, n: nat)
    requires offset + n <= |all|
    ensures all[offset..][..n] == all[offset..offset + n]
    ensures all[offset..][n..] == all[offset + n..]
    ensures all[..offset] + all[offset..offset + n] == all[..offset + n]
  {
  }

  lemma SentOn(sent: seq<Byte>, buffer: seq<Byte>, offset: nat, len: nat, n: nat)
    requires offset + n <= len <= |buffer|
    ensures (sent + buffer[..offset]) + buffer[offset..len][..n] == sent + buffer[..offset + n]
  {
  }

  // ---------------------------------------------------------------------------------------
  // Byte buffers

  /** Capacity after making room for len bytes behind the cursor. */
  function GrownCapacity(capacity: nat, offset: nat, len: nat, bs: nat): nat
    requires 0 < bs && offset <= capacity
  {
    capacity + BlocksNeeded(len, capacity - offset, bs) * bs
  }

  /** Room and vectors for len bytes, and a scattering receive; the cursor has not moved. */
  method Receive(t: Transport, b: ByteArray, len: nat) returns (rt: int)
    requires b.Valid() && t !in b.Repr
    modifies t`script, t`incoming, b.Repr
    ensures b.Valid() && fresh(b.Repr - old(b.Repr)) && b.offset == old(b.offset)
    ensures b.capacity == GrownCapacity(old(b.capacity), b.offset, len, b.blockSize)
    ensures var n := Step(old(t.script), Min(len, |old(t.incoming)|));
      && b.offset + len <= b.capacity == |b.Contents()|
      && b.Contents()[..b.offset + n] == old(b.Before()) + old(t.incoming)[..n]
      && t.incoming == old(t.incoming)[n..]
      && (if n > 0 then rt == n && old(t.script) != [] && t.script == old(t.script)[1..] else rt <= 0)
  {
    hide *;
    CursorFacts(b);
    var iovs := b.WriteableBuffers(len);
    CursorFacts(b);
    CapacityFacts(|old(b.blocks)|, b, old(b.capacity), len);
    ghost var base, at, n := b.Contents(), b.offset, Step(t.script, Min(len, |t.incoming|));
    rt := t.RecvVectors(b, iovs, at, len);
    SplicedPrefix(base, old(b.Contents()), at, old(t.incoming)[..n]);
    CursorFacts(b);
  }

  lemma SplicedPrefix(flat: seq<Byte>, base: seq<Byte>, at: nat, data: seq<Byte>)
    requires base <= flat && at <= |base| && at + |data| <= |flat|
    ensures Splice(flat, at, data)[..at + |data|] == base[..at] + data
  {
  }

  /** One receive into the buffer, and the cursor moved past what arrived. */
  method StreamRead(t: Transport, b: ByteArray, len: nat) returns (r: Outcome<int>)
    requires b.Valid() && t !in b.Repr
    modifies t`script, t`incoming, b.Repr
    ensures b.Valid() && fresh(b.Repr - old(b.Repr))
    ensures b.capacity == GrownCapacity(old(b.capacity), old(b.offset), len, b.blockSize)
    ensures old(b.offset) + len <= b.capacity
    ensures var n := Step(old(t.script), Min(len, |old(t.incoming)|));
      && b.Before() == old(b.Before()) + old(t.incoming)[..n] && t.incoming == old(t.incoming)[n..]
      && (n > 0 ==> old(t.script) != [] && t.script == old(t.script)[1..])
      && (r.NullBlock? <==> 0 < n && b.offset == b.capacity)
      && (r.NullBlock? <==> n == len && EndsAtBoundary(old(b.capacity), old(b.offset), len, b.blockSize))
      && (!r.NullBlock? ==> r.Ok? && (if n > 0 then r.value == n else r.value <= 0))
  {
    hide *;
    CursorFacts(b);
    ghost var n := Step(t.script, Min(len, |t.incoming|));
    StandsAtCapacity(b.capacity, b.offset, len, b.blockSize, |b.blocks|, n);
    var rt := Receive(t, b, len);
    CursorFacts(b);
    if rt > 0 {
      var moved := b.SetOffset(b.offset + rt);
      CursorFacts(b);
      if moved.NullBlock? {
        return NullBlock;
      }
    }
    return Ok(rt);
  }

  lemma CursorFacts(b: ByteArray)
    requires b.Valid()
    ensures b.offset <= b.size <= b.capacity == |b.Contents()| == |b.blocks| * b.blockSize && 0 < b.blockSize
    ensures b.Before() == b.Contents()[..b.offset]
    ensures b.Ahead() == b.Contents()[b.offset..b.size]
    ensures b.Linked() && b in b.Repr && forall node :: node in b.nodes ==> node.ptr in b.Repr
  {
    b.LinkedFacts();
  }

  lemma CursorBounds(b: ByteArray)
    requires b.Valid()
    ensures b.offset <= b.size <= b.capacity && |b.Before()| == b.offset && |b.Ahead()| == b.size - b.offset
  {
    CursorFacts(b);
  }

  lemma CapacityFacts(blocks: nat, b: ByteArray, capacity: nat, len: nat)
    requires 0 < b.blockSize && b.offset <= capacity == blocks * b.blockSize
    requires b.capacity == |b.blocks| * b.blockSize
    requires |b.blocks| == blocks + BlocksNeeded(len, capacity - b.offset, b.blockSize)
    ensures b.capacity == GrownCapacity(capacity, b.offset, len, b.blockSize)
  {
    GrownBlocks(blocks, |b.blocks|, b.blockSize);
  }

  lemma GrownBlocks(a: nat, b: nat, bs: nat)
    requires a <= b
    ensures b * bs == a * bs + (b - a) * bs
  {
  }

  lemma NoMoreGrowth(capacity: nat, offset: nat, len: nat, bs: nat)
    requires 0 < bs && offset + len <= capacity
    ensures GrownCapacity(capacity, offset, len, bs) == capacity
  {
  }

  /** Vectors for what is readable up to len bytes, and a gathering send; the cursor has not
      moved. */
  method Dispense(t: Transport, b: ByteArray, len: nat) returns (rt: int)
    requires b.Valid() && t !in b.Repr
    modifies t`script, t`outgoing
    ensures b.Valid()
    ensures var n := Step(old(t.script), Min(len, |b.Ahead()|));
      && t.outgoing == old(t.outgoing) + b.Ahead()[..n]
      && (if n > 0 then rt == n && old(t.script) != [] && t.script == old(t.script)[1..] else rt <= 0)
  {
    hide *;
    CursorFacts(b);
    var iovs, n := b.ReadableBuffers(len);
    var data := b.Gather(iovs, b.offset, n, n);
    assert data == b.Ahead()[..n];
    rt := t.Send(data);
    assert rt > 0 ==> data[..rt] == b.Ahead()[..rt];
  }

  /** One send from the buffer, and the cursor moved past what was taken. */
  method StreamWrite(t: Transport, b: ByteArray, len: nat) returns (r: Outcome<int>)
    requires b.Valid() && t !in b.Repr
    modifies t`script, t`outgoing, b`offset, b`size, b`cur
    ensures b.Valid() && b.size == old(b.size)
    ensures b.size < b.capacity ==> !r.NullBlock?
    ensures var n := Step(old(t.script), Min(len, |old(b.Ahead())|));
      && t.outgoing == old(t.outgoing) + old(b.Ahead())[..n] && b.Ahead() == old(b.Ahead())[n..]
      && b.Before() == old(b.Before()) + old(b.Ahead())[..n]
      && (n > 0 ==> old(t.script) != [] && t.script == old(t.script)[1..])
      && (r.NullBlock? <==> 0 < n && old(b.offset) + n == b.capacity == old(b.capacity))
      && (!r.NullBlock? ==> r.Ok? && (if n > 0 then r.value == n else r.value <= 0))
  {
    hide *;
    CursorFacts(b);
    var rt := Dispense(t, b, len);
    if rt > 0 {
      var moved := b.SetOffset(b.offset + rt);
      CursorFacts(b);
      if moved.NullBlock? {
        return NullBlock;
      }
    }
    return Ok(rt);
  }

  /** A read of len bytes of which n arrived stands at the capacity if and only if all of them
      arrived and their end is such a boundary. */
  predicate EndsAtBoundary(capacity: nat, offset: nat, len: nat, bs: nat)
    requires 0 < bs
  {
    0 < len && capacity <= offset + len && (offset + len) % bs == 0
  }

  lemma StandsAtCapacity(capacity: nat, offset: nat, len: nat, bs: nat, blocks: nat, n: nat)
    requires 0 < bs && capacity == blocks * bs && offset <= capacity && n <= len
    ensures offset + len <= GrownCapacity(capacity, offset, len, bs)
    ensures 0 < n && offset + n == GrownCapacity(capacity, offset, len, bs)
       <==> n == len && EndsAtBoundary(capacity, offset, len, bs)
  {
    if 0 < len {
      BoundaryExact(capacity, offset, len, bs, blocks);
      GrownEnough(capacity, offset, len, bs);
    }
  }

  lemma GrownEnough(capacity: nat, offset: nat, len: nat, bs: nat)
    requires 0 < bs && offset <= capacity
    ensures offset + len <= GrownCapacity(capacity, offset, len, bs)
  {
    if capacity - offset < len {
      Decompose(len - (capacity - offset) + bs - 1, bs);
    }
  }

  /** Room for len bytes ends exactly with them if and only if they end on a block boundary at or
      beyond the capacity there was before. */
  lemma BoundaryExact(capacity: nat, offset: nat, len: nat, bs: nat, n: nat)
    requires 0 < bs && capacity == n * bs && offset <= capacity && 0 < len
    ensures offset + len == GrownCapacity(capacity, offset, len, bs)
       <==> capacity <= offset + len && (offset + len) % bs == 0
  {
    var end := offset + len;
    var k := BlocksNeeded(len, capacity - offset, bs);
    GrownBlocks(n, n + k, bs);
    if end < capacity {
    } else {
      Decompose(end, bs);
      if end > capacity {
        Decompose(end - capacity + bs - 1, bs);
      }
      if end == (n + k) * bs {
        ModUnique(end, bs, n + k, 0);
      } else if end % bs == 0 {
        BetweenBlocks(end, bs, end / bs, n + k);
        assert false;
      }
    }
  }

  /** A multiple of bs within less than bs below another is that other. */
  lemma BetweenBlocks(end: nat, bs: nat, q: nat, m: nat)
    requires end == q * bs && end <= m * bs < end + bs
    ensures q == m
  {
    MulGap(q, m, bs);
    MulGap(m, q, bs);
  }

  /** n more bytes of `all`, behind what is there already. */
  lemma Onward(before: seq<Byte>, all: seq<Byte>, done: nat, n: nat)
    requires done + n <= |all|
    ensures (before + all[..done]) + all[done..][..n] == before + all[..done + n]
    ensures all[done..][n..] == all[done + n..]
  {
  }

  lemma StandsHere(b: ByteArray, len: nat, n: nat)
    requires b.Valid() && n <= len
    ensures 0 < b.blockSize && b.offset + len <= GrownCapacity(b.capacity, b.offset, len, b.blockSize)
    ensures 0 < n && b.offset + n == GrownCapacity(b.capacity, b.offset, len, b.blockSize)
       <==> n == len && EndsAtBoundary(b.capacity, b.offset, len, b.blockSize)
  {
    CursorFacts(b);
    StandsAtCapacity(b.capacity, b.offset, len, b.blockSize, |b.blocks|, n);
  }

  /** readFixSize into a byte buffer. */
  method ReadFixSizeBuffer(t: Transport, b: ByteArray, len: nat) returns (r: Outcome<int>)
    requires b.Valid() && t !in b.Repr
    modifies t`script, t`incoming, b.Repr
    ensures b.Valid() && fresh(b.Repr - old(b.Repr))
    ensures b.capacity == GrownCapacity(old(b.capacity), old(b.offset), len, b.blockSize)
    ensures var n := Moved(old(t.script), |old(t.incoming)|, len);
      && b.Before() == old(b.Before()) + old(t.incoming)[..n] && t.incoming == old(t.incoming)[n..]
      && (r.NullBlock? <==> n == len && EndsAtBoundary(old(b.capacity), old(b.offset), len, b.blockSize))
      && (!r.NullBlock? ==> r == Ok(if n == len then len else -1))
  {
    hide *;
    CursorBounds(b);
    ghost var all, before, start, calls := t.incoming, b.Before(), b.offset, t.script;
    StandsHere(b, len, Moved(t.script, |t.incoming|, len));
    ghost var grown, done := GrownCapacity(b.capacity, b.offset, len, b.blockSize), 0;
    var left := len;
    while left > 0
      invariant b.Valid() && fresh(b.Repr - old(b.Repr)) && t !in b.Repr
      invariant 0 <= left && done == len - left && 0 <= done <= |all|
      invariant t.incoming == all[done..]
      invariant b.offset == start + done && b.Before() == before + all[..done]
      invariant 0 < b.blockSize && b.offset <= b.capacity
      invariant GrownCapacity(b.capacity, b.offset, left, b.blockSize) == grown
      invariant done > 0 ==> b.offset < b.capacity == grown
      invariant Moved(calls, |all|, len) == done + Moved(t.script, |t.incoming|, left)
    {
      MovedStep(t.script, |t.incoming|, left);
      ghost var n := Step(t.script, Min(left, |t.incoming|));
      var rt := StreamRead(t, b, left);
      CursorBounds(b);
      NoMoreGrowth(b.capacity, b.offset, left - n, b.blockSize);
      Onward(before, all, done, n);
      if rt.NullBlock? {
        MovedStep(t.script, |t.incoming|, left - n);
        return NullBlock;
      }
      if rt.value <= 0 {
        return Ok(-1);
      }
      done := done + rt.value;
      left := left - rt.value;
    }
    MovedStep(t.script, |t.incoming|, 0);
    NoMoreGrowth(b.capacity, b.offset, 0, b.blockSize);
    return Ok(len);
  }

  /** writeFixSize from a byte buffer. */
  method WriteFixSizeBuffer(t: Transport, b: ByteArray, len: nat) returns (r: Outcome<int>)
    requires b.Valid() && t !in b.Repr
    modifies t`script, t`outgoing, b`offset, b`size, b`cur
    ensures b.Valid() && b.size == old(b.size)
    ensures b.size < b.capacity ==> !r.NullBlock?
    ensures var n := Moved(old(t.script), |old(b.Ahead())|, len);
      && t.outgoing == old(t.outgoing) + old(b.Ahead())[..n]
      && b.Before() == old(b.Before()) + old(b.Ahead())[..n] && b.Ahead() == old(b.Ahead())[n..]
      && (r.NullBlock? <==> 0 < n && old(b.offset) + n == b.capacity == old(b.capacity))
      && (!r.NullBlock? ==> r == Ok(if n == len then len else -1))
  {
    hide *;
    ghost var all, before, calls, done := b.Ahead(), b.Before(), t.script, 0;
    var left := len;
    while left > 0
      invariant b.Valid() && b.size == old(b.size)
      invariant 0 <= left && done == len - left && 0 <= done <= |all|
      invariant t.outgoing == old(t.outgoing) + all[..done]
      invariant b.Before() == before + all[..done] && b.Ahead() == all[done..]
      invariant done > 0 ==> b.offset < b.capacity
      invariant Moved(calls, |all|, len) == done + Moved(t.script, |b.Ahead()|, left)
    {
      MovedStep(t.script, |b.Ahead()|, left);
      ghost var n := Step(t.script, Min(left, |b.Ahead()|));
      var rt := StreamWrite(t, b, left);
      CursorBounds(b);
      Onward(before, all, done, n);
      Onward(old(t.outgoing), all, done, n);
      if rt.NullBlock? {
        MovedStep(t.script, 0, left - n);
        return NullBlock;
      }
      if rt.value <= 0 {
        return Ok(-1);
      }
      done := done + rt.value;
      left := left - rt.value;
    }
    MovedStep(t.script, |b.Ahead()|, 0);
    return Ok(len);
  }
}
