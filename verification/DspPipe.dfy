/**
 The ring pipes between the CPU and the DSP. Each side publishes its own pointer only: a
 position below the buffer size, and a wrap bit that flips on every pass.
 */
module DspPipe {
  import opened Common

  const WRAP_BIT: nat := 0x8000

  /** A copy of the shared status. */
  datatype PipeStatus = PipeStatus(bsize: nat, readPtr: nat, writePtr: nat, slotIndex: nat)

  /** The parts of a 16-bit pointer: the low 15 bits, and the wrap bit. */
  function Pos(ptr: nat): nat { if ptr < WRAP_BIT then ptr else ptr - WRAP_BIT }

  predicate Wraps(ptr: nat) { ptr >= WRAP_BIT }

  /** The exclusive or of the pointers is the wrap bit, zero, or at least the wrap bit. */
  predicate IsFull(s: PipeStatus) { Pos(s.readPtr) == Pos(s.writePtr) && Wraps(s.readPtr) != Wraps(s.writePtr) }

  predicate IsEmpty(s: PipeStatus) { s.readPtr == s.writePtr }

  predicate IsWrapped(s: PipeStatus) { Wraps(s.readPtr) != Wraps(s.writePtr) }

  function ReadableSize(s: PipeStatus): nat {
    var size := (s.writePtr - s.readPtr) % 0x10000;
    (if IsWrapped(s) then (size + s.bsize) % 0x10000 else size) % WRAP_BIT
  }

  predicate PtrOk(ptr: nat, size: nat) { ptr < 0x10000 && Pos(ptr) < size }

  /** `k` bytes on from a position, at most one pass. */
  function At(pos: nat, k: nat, size: nat): nat
    requires pos < size && k <= size
  {
    if pos + k < size then pos + k else pos + k - size
  }

  /** The pointer `k` bytes on. */
  function Advance(ptr: nat, k: nat, size: nat): (r: nat)
    requires PtrOk(ptr, size) && k <= size <= WRAP_BIT
    ensures PtrOk(r, size) && Pos(r) == At(Pos(ptr), k, size)
    ensures Wraps(r) == (Wraps(ptr) != (Pos(ptr) + k >= size))
  {
    if Pos(ptr) + k < size then ptr + k
    else if Wraps(ptr) then Pos(ptr) + k - size
    else Pos(ptr) + k - size + WRAP_BIT
  }

  lemma AdvanceTwice(ptr: nat, a: nat, b: nat, size: nat)
    requires PtrOk(ptr, size) && a + b <= size < WRAP_BIT
    ensures Advance(Advance(ptr, a, size), b, size) == Advance(ptr, a + b, size)
  {
  }

  /** Empty and full are told apart by the wrap bit. */
  lemma EmptyOrFull(s: PipeStatus, unread: nat)
    requires PtrOk(s.readPtr, s.bsize) && unread <= s.bsize < WRAP_BIT
    requires s.writePtr == Advance(s.readPtr, unread, s.bsize)
    ensures IsEmpty(s) <==> unread == 0
    ensures IsFull(s) <==> unread == s.bsize
    ensures IsWrapped(s) <==> Pos(s.readPtr) + unread >= s.bsize
  {
  }

  /** For buffers below 0x8000 bytes the two pointers tell how many bytes are unread. */
  lemma PointersCount(s: PipeStatus, unread: nat)
    requires PtrOk(s.readPtr, s.bsize) && unread <= s.bsize < WRAP_BIT
    requires s.writePtr == Advance(s.readPtr, unread, s.bsize)
    ensures ReadableSize(s) == unread
  {
    EmptyOrFull(s, unread);
  }

  /** With 0x8000 bytes they do so exactly while the pipe is not full; full, it counts as empty. */
  lemma LargestBufferCountsIff(s: PipeStatus, unread: nat)
    requires s.bsize == WRAP_BIT && PtrOk(s.readPtr, s.bsize) && unread <= s.bsize
    requires s.writePtr == Advance(s.readPtr, unread, s.bsize)
    ensures ReadableSize(s) == unread <==> unread < WRAP_BIT
    ensures unread == WRAP_BIT ==> IsFull(s) && ReadableSize(s) == 0
  {
  }

  /** Adding a chunk that ends at the end of the buffer at the latest, then starting the next
      pass when it does, is advancing. */
  lemma ChunkAdvances(ptr: nat, chunk: nat, size: nat)
    requires PtrOk(ptr, size) && Pos(ptr) + chunk <= size < WRAP_BIT
    ensures AddChunk(ptr, chunk, size) == Advance(ptr, chunk, size)
  {
  }

  /** The pointer update at the end of both loops. */
  function AddChunk(ptr: nat, chunk: nat, size: nat): nat {
    var p := (ptr + chunk) % 0x10000;
    if Pos(p) == size then (if Wraps(p) then 0 else WRAP_BIT) else p
  }

  /** How far the writer may go without passing the read position, or the end. */
  function WriteEnd(s: PipeStatus): nat { if IsWrapped(s) then Pos(s.readPtr) else s.bsize }

  function ReadEnd(s: PipeStatus): nat { if IsWrapped(s) then s.bsize else Pos(s.writePtr) }

  lemma WriteRoom(s: PipeStatus, unread: nat)
    requires PtrOk(s.readPtr, s.bsize) && unread < s.bsize < WRAP_BIT
    requires s.writePtr == Advance(s.readPtr, unread, s.bsize)
    ensures !IsFull(s) && Pos(s.writePtr) < WriteEnd(s) <= s.bsize
    ensures unread + (WriteEnd(s) - Pos(s.writePtr)) <= s.bsize
  {
  }

  lemma ReadRoom(s: PipeStatus, unread: nat)
    requires PtrOk(s.readPtr, s.bsize) && 0 < unread <= s.bsize < WRAP_BIT
    requires s.writePtr == Advance(s.readPtr, unread, s.bsize)
    ensures !IsEmpty(s) && Pos(s.readPtr) < ReadEnd(s) <= s.bsize
    ensures ReadEnd(s) - Pos(s.readPtr) <= unread
  {
    EmptyOrFull(s, unread);
  }

  /** How many of `n` bytes the writer copies next. */
  function WriteSize(s: PipeStatus, n: nat): int {
    if n < WriteEnd(s) - Pos(s.writePtr) then n else WriteEnd(s) - Pos(s.writePtr)
  }

  /** With a snapshot `seen` bytes old, the next chunk fits behind the `ahead` places in use. */
  lemma WriteFits(s: PipeStatus, n: nat, readPtr: nat, seen: nat, ahead: nat)
    requires PtrOk(s.readPtr, s.bsize) && seen + ahead < s.bsize < WRAP_BIT && n > 0
    requires s.writePtr == Advance(s.readPtr, seen + ahead, s.bsize) && readPtr == Advance(s.readPtr, seen, s.bsize)
    ensures var chunk := WriteSize(s, n);
            && 0 < chunk <= n && seen + ahead + chunk <= s.bsize && Pos(s.writePtr) + chunk <= s.bsize
            && Pos(s.writePtr) == At(Pos(readPtr), ahead, s.bsize)
            && AddChunk(s.writePtr, chunk, s.bsize) == Advance(s.readPtr, seen + ahead + chunk, s.bsize)
  {
    WriteRoom(s, seen + ahead);
    AdvanceTwice(s.readPtr, seen, ahead, s.bsize);
    ChunkIsNext(s.readPtr, seen + ahead, WriteSize(s, n), s.bsize);
  }

  /** The pointer update of a chunk, `behind` places after `ptr`. */
  lemma ChunkIsNext(ptr: nat, behind: nat, chunk: nat, size: nat)
    requires PtrOk(ptr, size) && behind + chunk <= size < WRAP_BIT
    requires Pos(Advance(ptr, behind, size)) + chunk <= size
    ensures AddChunk(Advance(ptr, behind, size), chunk, size) == Advance(ptr, behind + chunk, size)
  {
    ChunkAdvances(Advance(ptr, behind, size), chunk, size);
    AdvanceTwice(ptr, behind, chunk, size);
  }

  /** The ring holds `bytes` from position `pos` on. */
  ghost predicate Holds(ring: seq<Byte>, pos: nat, bytes: seq<Byte>) {
    && pos < |ring| && |bytes| <= |ring|
    && forall i :: 0 <= i < |bytes| ==> ring[At(pos, i, |ring|)] == bytes[i]
  }

  lemma HoldsAppend(ring: seq<Byte>, pos: nat, a: seq<Byte>, b: seq<Byte>)
    requires Holds(ring, pos, a) && |a| + |b| <= |ring| && Holds(ring, At(pos, |a|, |ring|), b)
    ensures Holds(ring, pos, a + b)
  {
    forall i | 0 <= i < |a + b| ensures ring[At(pos, i, |ring|)] == (a + b)[i] {
      if i >= |a| { assert ring[At(At(pos, |a|, |ring|), i - |a|, |ring|)] == b[i - |a|]; }
    }
  }

  lemma HoldsSuffix(ring: seq<Byte>, pos: nat, bytes: seq<Byte>, k: nat)
    requires Holds(ring, pos, bytes) && k <= |bytes|
    ensures Holds(ring, At(pos, k, |ring|), bytes[k..])
  {
    forall i | 0 <= i < |bytes| - k ensures ring[At(At(pos, k, |ring|), i, |ring|)] == bytes[k..][i] {
      assert ring[At(pos, k + i, |ring|)] == bytes[k + i];
    }
  }

  /** `now` is `was` with `bytes` copied to `begin`. */
  ghost predicate Copied(was: seq<Byte>, now: seq<Byte>, begin: nat, bytes: seq<Byte>) {
    && |now| == |was| && begin + |bytes| <= |was|
    && forall p :: 0 <= p < |was| ==> now[p] == if begin <= p < begin + |bytes| then bytes[p - begin] else was[p]
  }

  /** Bytes copied `ahead` places after `pos` overwrite none of the first `ahead` places. */
  lemma CopyKeeps(was: seq<Byte>, now: seq<Byte>, pos: nat, used: seq<Byte>, ahead: nat, bytes: seq<Byte>)
    requires Holds(was, pos, used) && |used| <= ahead && ahead + |bytes| <= |was|
    requires Copied(was, now, At(pos, ahead, |was|), bytes)
    ensures Holds(now, pos, used) && Holds(now, At(pos, ahead, |was|), bytes)
  {
  }

  /** `queue` from `pos` on, and behind it what was written so far. */
  ghost predicate Behind(ring: seq<Byte>, pos: nat, queue: seq<Byte>, written: seq<Byte>) {
    Holds(ring, pos, queue) && |queue| + |written| <= |ring| && Holds(ring, At(pos, |queue|, |ring|), written)
  }

  lemma ChunkStored(was: seq<Byte>, now: seq<Byte>, pos: nat, queue: seq<Byte>, written: seq<Byte>, bytes: seq<Byte>)
    requires Behind(was, pos, queue, written) && |queue| + |written| + |bytes| <= |was|
    requires Copied(was, now, At(pos, |queue| + |written|, |was|), bytes)
    ensures Behind(now, pos, queue, written + bytes)
  {
    var next := At(pos, |queue|, |was|);
    assert At(next, |written|, |was|) == At(pos, |queue| + |written|, |was|);
    CopyKeeps(was, now, pos, queue, |queue| + |written|, bytes);
    CopyKeeps(was, now, next, written, |written|, bytes);
    HoldsAppend(now, next, written, bytes);
  }

  lemma ChunkLoaded(ring: seq<Byte>, pos: nat, queue: seq<Byte>, done: nat, chunk: nat)
    requires Holds(ring, pos, queue) && done + chunk <= |queue|
    requires At(pos, done, |ring|) + chunk <= |ring|
    ensures ring[At(pos, done, |ring|)..At(pos, done, |ring|) + chunk] == queue[done..done + chunk]
  {
    HoldsSuffix(ring, pos, queue, done);
    var begin := At(pos, done, |ring|);
    forall i | 0 <= i < chunk ensures ring[begin + i] == queue[done..][i] {
      assert ring[At(begin, i, |ring|)] == queue[done..][i];
    }
  }

  /** The two pointers of a pipe, and what lies between them. */
  ghost predicate InRing(ring: seq<Byte>, readPtr: nat, writePtr: nat, queue: seq<Byte>) {
    && |ring| < WRAP_BIT && |queue| <= |ring| && PtrOk(readPtr, |ring|)
    && writePtr == Advance(readPtr, |queue|, |ring|)
    && Holds(ring, Pos(readPtr), queue)
  }

  /** `done` bytes stored behind the queue, as a snapshot sees it that is `seen` bytes behind. */
  ghost predicate Stored(ring: seq<Byte>, readPtr: nat, queue: seq<Byte>, s: PipeStatus, bytes: seq<Byte>, done: nat,
                         seen: nat)
  {
    && done <= |bytes| && s.bsize == |ring| < WRAP_BIT && PtrOk(s.readPtr, |ring|)
    && seen + |queue| + done <= |ring|
    && s.writePtr == Advance(s.readPtr, seen + |queue| + done, |ring|)
    && readPtr == Advance(s.readPtr, seen, |ring|)
    && Behind(ring, Pos(readPtr), queue, bytes[..done])
  }

  lemma StoreChunk(was: seq<Byte>, now: seq<Byte>, readPtr: nat, writePtr: nat, queue: seq<Byte>, s: PipeStatus,
                   bytes: seq<Byte>, done: nat, seen: nat, chunk: nat)
    requires InRing(was, readPtr, writePtr, queue) && Stored(was, readPtr, queue, s, bytes, done, seen)
    requires done < |bytes| && seen + |queue| + done < |was| && chunk == WriteSize(s, |bytes| - done)
    requires done + chunk <= |bytes| && Copied(was, now, Pos(s.writePtr), bytes[done..done + chunk])
    ensures InRing(now, readPtr, writePtr, queue)
    ensures Stored(now, readPtr, queue, s.(writePtr := AddChunk(s.writePtr, chunk, s.bsize)), bytes, done + chunk, seen)
  {
    WriteFits(s, |bytes| - done, readPtr, seen, |queue| + done);
    ChunkStored(was, now, Pos(readPtr), queue, bytes[..done], bytes[done..done + chunk]);
    assert bytes[..done] + bytes[done..done + chunk] == bytes[..done + chunk];
  }

  /** One direction of a pipe in shared memory; `queue` is what was written and not yet read. */
  class Pipe {
    const slotIndex: nat
    const ring: array<Byte>
    var readPtr: nat
    var writePtr: nat
    ghost var queue: seq<Byte>

    ghost predicate Valid()
      reads this, ring
    {
      InRing(ring[..], readPtr, writePtr, queue)
    }

    constructor (slotIndex: nat, ring: array<Byte>)
      requires 0 < ring.Length < WRAP_BIT
      ensures Valid() && queue == [] && this.ring == ring && this.slotIndex == slotIndex
    {
      this.slotIndex, this.ring := slotIndex, ring;
      readPtr, writePtr, queue := 0, 0, [];
    }

    /** A snapshot; the other side may move its pointer on after it was taken. */
    method GetPipeStatus() returns (s: PipeStatus)
      ensures s == PipeStatus(ring.Length, readPtr, writePtr, slotIndex)
    {
      s := PipeStatus(ring.Length, readPtr, writePtr, slotIndex);
    }

    /** Even slots publish the read pointer, odd slots the write pointer. */
    method UpdatePipeStatus(s: PipeStatus)
      modifies this`readPtr, this`writePtr
      ensures if slotIndex % 2 == 0 then readPtr == s.readPtr && writePtr == old(writePtr)
              else writePtr == s.writePtr && readPtr == old(readPtr)
    {
      if slotIndex % 2 == 0 {
        readPtr := s.readPtr;
      } else {
        writePtr := s.writePtr;
      }
    }

    /** `memcpy` into the ring. */
    method CopyIn(begin: nat, bytes: seq<Byte>)
      requires begin + |bytes| <= ring.Length
      modifies ring
      ensures Copied(old(ring[..]), ring[..], begin, bytes)
    {
      forall i | 0 <= i < |bytes| {
        ring[begin + i] := bytes[i];
      }
    }

    /** Between two passes of the loop of `WritePipe`: `done` bytes are stored, none published. */
    ghost predicate Writing(s: PipeStatus, bytes: seq<Byte>, done: nat, seen: nat)
      reads this, ring
    {
      Valid() && Stored(ring[..], readPtr, queue, s, bytes, done, seen)
    }

    /** One pass of the loop of `WritePipe`: a chunk goes in behind what was written so far. */
    method WriteChunk(s: PipeStatus, bytes: seq<Byte>, done: nat, ghost seen: nat)
      returns (t: PipeStatus, chunk: nat)
      requires Writing(s, bytes, done, seen) && done < |bytes| && seen + |queue| + done < ring.Length
      modifies ring
      ensures chunk > 0 && done + chunk <= |bytes| && Writing(t, bytes, done + chunk, seen)
      ensures t.readPtr == s.readPtr
    {
      WriteFits(s, |bytes| - done, readPtr, seen, |queue| + done);
      chunk := WriteSize(s, |bytes| - done);
      ghost var was := ring[..];
      CopyIn(Pos(s.writePtr), bytes[done..done + chunk]);
      StoreChunk(was, ring[..], readPtr, writePtr, queue, s, bytes, done, seen, chunk);
      t := s.(writePtr := AddChunk(s.writePtr, chunk, s.bsize));
    }

    /** `WritePipe` with a snapshot that is behind by the `seen` bytes the reader has taken since.
        The length is cut to 16 bits. If the snapshot shows too little room (`!ok`, the
        assertion), nothing is published and no unread byte is lost. */
    method WritePipe(status: PipeStatus, data: seq<Byte>, ghost seen: nat) returns (ok: bool)
      requires Valid() && slotIndex % 2 == 1
      requires status == PipeStatus(ring.Length, status.readPtr, writePtr, slotIndex)
      requires PtrOk(status.readPtr, ring.Length) && seen + |queue| <= ring.Length
      requires readPtr == Advance(status.readPtr, seen, ring.Length)
      modifies this, ring
      ensures Valid() && readPtr == old(readPtr)
      ensures ok <==> seen + |old(queue)| + |data| % 0x10000 <= ring.Length
      ensures queue == if ok then old(queue) + data[..|data| % 0x10000] else old(queue)
    {
      ok := WriteBytes(status, data[..|data| % 0x10000], seen);
    }

    /** The loop of `WritePipe`. */
    method WriteBytes(status: PipeStatus, bytes: seq<Byte>, ghost seen: nat) returns (ok: bool)
      requires Valid() && slotIndex % 2 == 1
      requires status == PipeStatus(ring.Length, status.readPtr, writePtr, slotIndex)
      requires PtrOk(status.readPtr, ring.Length) && seen + |queue| <= ring.Length
      requires readPtr == Advance(status.readPtr, seen, ring.Length)
      modifies this, ring
      ensures Valid() && readPtr == old(readPtr)
      ensures ok <==> seen + |old(queue)| + |bytes| <= ring.Length
      ensures queue == if ok then old(queue) + bytes else old(queue)
    {
      var s := status;
      var done := 0;
      StartsWriting(s, bytes, seen);
      while done < |bytes|
        invariant Writing(s, bytes, done, seen) && s.readPtr == status.readPtr
        invariant queue == old(queue) && readPtr == old(readPtr) && writePtr == old(writePtr)
      {
        EmptyOrFull(s, seen + |queue| + done);
        if IsFull(s) {
          return false;
        }
        var chunk;
        s, chunk := WriteChunk(s, bytes, done, seen);
        done := done + chunk;
      }
      if bytes != [] {
        Publish(s, bytes, seen);
      }
      ok := true;
    }

    lemma StartsWriting(s: PipeStatus, bytes: seq<Byte>, seen: nat)
      requires Valid() && s == PipeStatus(ring.Length, s.readPtr, writePtr, slotIndex)
      requires PtrOk(s.readPtr, ring.Length) && seen + |queue| <= ring.Length
      requires readPtr == Advance(s.readPtr, seen, ring.Length)
      ensures Writing(s, bytes, 0, seen)
    {
      AdvanceTwice(s.readPtr, seen, |queue|, ring.Length);
    }

    /** Publishes the write pointer behind `bytes`. */
    method Publish(s: PipeStatus, ghost bytes: seq<Byte>, ghost seen: nat)
      requires Writing(s, bytes, |bytes|, seen) && slotIndex % 2 == 1
      modifies this
      ensures Valid() && readPtr == old(readPtr) && queue == old(queue) + bytes
    {
      assert bytes[..|bytes|] == bytes;
      AdvanceTwice(s.readPtr, seen, |queue| + |bytes|, ring.Length);
      HoldsAppend(ring[..], Pos(readPtr), queue, bytes);
      UpdatePipeStatus(s);
      queue := queue + bytes;
    }

    /** One pass of the loop of `ReadPipe`: a chunk comes out behind what was read so far. */
    method ReadChunk(s: PipeStatus, want: nat, ghost done: nat, ghost shown: nat)
      returns (t: PipeStatus, bytes: seq<Byte>)
      requires Valid() && want > 0 && s.bsize == ring.Length && done < shown <= |queue|
      requires s.readPtr == Advance(readPtr, done, ring.Length) && s.writePtr == Advance(readPtr, shown, ring.Length)
      ensures 0 < |bytes| <= want && done + |bytes| <= shown && bytes == queue[done..done + |bytes|]
      ensures t == s.(readPtr := Advance(readPtr, done + |bytes|, ring.Length))
    {
      AdvanceTwice(readPtr, done, shown - done, ring.Length);
      ReadRoom(s, shown - done);
      var begin := Pos(s.readPtr);
      var chunk := if want < ReadEnd(s) - begin then want else ReadEnd(s) - begin;
      bytes := ring[begin..begin + chunk];
      ChunkLoaded(ring[..], Pos(readPtr), queue, done, chunk);
      ChunkIsNext(readPtr, done, chunk, ring.Length);
      t := s.(readPtr := AddChunk(s.readPtr, chunk, s.bsize));
    }

    /** `ReadPipe` with a snapshot that shows the first `shown` unread bytes, possibly fewer than
        there are now. If they are too few (`!ok`, the assertion), nothing is taken. */
    method ReadPipe(status: PipeStatus, size: nat, ghost shown: nat) returns (ok: bool, data: seq<Byte>)
      requires Valid() && slotIndex % 2 == 0 && shown <= |queue|
      requires status == PipeStatus(ring.Length, readPtr, Advance(readPtr, shown, ring.Length), slotIndex)
      modifies this
      ensures Valid() && writePtr == old(writePtr)
      ensures ok <==> size <= shown
      ensures queue == if ok then old(queue)[size..] else old(queue)
      ensures ok ==> data == old(queue)[..size]
    {
      var s := status;
      data := [];
      while |data| < size
        invariant |data| <= size && |data| <= shown
        invariant Valid() && queue == old(queue) && readPtr == old(readPtr) && writePtr == old(writePtr)
        invariant data == queue[..|data|] && s == status.(readPtr := Advance(readPtr, |data|, ring.Length))
      {
        AdvanceTwice(readPtr, |data|, shown - |data|, ring.Length);
        EmptyOrFull(s, shown - |data|);
        if IsEmpty(s) {
          return false, data;
        }
        var bytes;
        s, bytes := ReadChunk(s, size - |data|, |data|, shown);
        data := data + bytes;
      }
      if size != 0 {
        Take(s, size);
      }
      ok := true;
    }

    /** Publishes the read pointer after `n` bytes were taken. */
    method Take(s: PipeStatus, n: nat)
      requires Valid() && slotIndex % 2 == 0 && n <= |queue| && s.readPtr == Advance(readPtr, n, ring.Length)
      modifies this
      ensures Valid() && writePtr == old(writePtr) && queue == old(queue)[n..]
    {
      AdvanceTwice(readPtr, n, |queue| - n, ring.Length);
      HoldsSuffix(ring[..], Pos(readPtr), queue, n);
      UpdatePipeStatus(s);
      queue := queue[n..];
    }

    method GetPipeReadableSize() returns (size: nat)
      requires Valid()
      ensures size == |queue|
    {
      var s := GetPipeStatus();
      PointersCount(s, |queue|);
      size := ReadableSize(s);
    }

    /** The DSP reads from a pipe that the CPU writes. */
    method DspTakes(n: nat)
      requires Valid() && slotIndex % 2 == 1 && n <= ring.Length
      requires n <= |queue|
      modifies this
      ensures Valid() && writePtr == old(writePtr) && queue == old(queue)[n..]
      ensures readPtr == Advance(old(readPtr), n, ring.Length)
    {
      AdvanceTwice(readPtr, n, |queue| - n, ring.Length);
      HoldsSuffix(ring[..], Pos(readPtr), queue, n);
      readPtr := Advance(readPtr, n, ring.Length);
      queue := queue[n..];
    }

    /** The DSP writes a byte to a pipe that the CPU reads. */
    method DspPuts(b: Byte)
      requires Valid() && slotIndex % 2 == 0 && |queue| < ring.Length
      modifies this, ring
      ensures Valid() && readPtr == old(readPtr) && queue == old(queue) + [b]
      ensures writePtr == Advance(old(readPtr), |old(queue)| + 1, ring.Length)
    {
      ghost var was := ring[..];
      ring[Pos(writePtr)] := b;
      CopyKeeps(was, ring[..], Pos(readPtr), queue, |queue|, [b]);
      HoldsAppend(ring[..], Pos(readPtr), queue, [b]);
      AdvanceTwice(readPtr, |queue|, 1, ring.Length);
      writePtr := Advance(writePtr, 1, ring.Length);
      queue := queue + [b];
    }
  }
}
