/** The goldfish audio driver (`/dev/eac`): a double-buffered byte transport
    between a caller and the emulated audio device.

    The cached `buffer_status` bitmask says which of the two write buffers is
    empty and whether the read buffer is full. Only the interrupt handler sets
    bits (by replacing the whole value); the write path clears the bit of the
    buffer it hands to the device; open resets it. The write and read loops
    sleep until the bit they need is set. A sleep is modelled as the delivery
    of interrupts, taken from a sequence the caller supplies, until the bit
    holds; when the sequence runs out first the call has not returned, which
    the model reports as `Pending`. */
module GoldfishAudio {
  import opened Mmio

  const READ_BUFFER_SIZE: nat := 16384
  const WRITE_BUFFER_SIZE: nat := 16384
  /** Room for two read and two write buffers; only one read buffer is used. */
  const COMBINED_BUFFER_SIZE: nat := 2 * READ_BUFFER_SIZE + 2 * WRITE_BUFFER_SIZE

  // Register offsets.
  const INT_STATUS: nat := 0x00
  const INT_ENABLE: nat := 0x04
  const SET_WRITE_BUFFER_1: nat := 0x08
  const SET_WRITE_BUFFER_2: nat := 0x0C
  const WRITE_BUFFER_1: nat := 0x10
  const WRITE_BUFFER_2: nat := 0x14
  const READ_SUPPORTED: nat := 0x18
  const SET_READ_BUFFER: nat := 0x1C
  const START_READ: nat := 0x20
  const READ_BUFFER_AVAILABLE: nat := 0x24

  // Bits of INT_STATUS and of the cached buffer status.
  const WRITE_BUFFER_1_EMPTY: bv32 := 1
  const WRITE_BUFFER_2_EMPTY: bv32 := 2
  const READ_BUFFER_FULL: bv32 := 4
  const INT_MASK: bv32 := 7

  /** The value `ioctl` rejects, pending a move to the ALSA interface. */
  const IOCTL_REJECTED_CMD: nat := 315

  // ---------------------------------------------------------------------
  // Buffer layout inside the one DMA region allocated at probe time.

  datatype Region = WriteBuffer1Region | WriteBuffer2Region | ReadBufferRegion

  function RegionSize(r: Region): nat {
    if r == ReadBufferRegion then READ_BUFFER_SIZE else WRITE_BUFFER_SIZE
  }

  /** Where each buffer starts, relative to the start of the DMA region. */
  function RegionOffset(r: Region): (off: nat)
    ensures off + RegionSize(r) <= COMBINED_BUFFER_SIZE
    ensures r == WriteBuffer1Region <==> off == 0
  {
    match r
    case WriteBuffer1Region => 0
    case WriteBuffer2Region => WRITE_BUFFER_SIZE
    case ReadBufferRegion => 2 * WRITE_BUFFER_SIZE
  }

  /** No two buffers share a byte. */
  lemma RegionsDisjoint(r1: Region, r2: Region)
    requires r1 != r2
    ensures RegionOffset(r1) + RegionSize(r1) <= RegionOffset(r2)
         || RegionOffset(r2) + RegionSize(r2) <= RegionOffset(r1)
  {
  }

  // ---------------------------------------------------------------------
  // The cached buffer status.

  /** The cached `buffer_status`, one flag per bit of INT_MASK. Every value
      the driver stores there lies within INT_MASK, so the three flags are
      all of it. */
  datatype Status = Status(write1Empty: bool, write2Empty: bool, readFull: bool)

  /** The status as the probe leaves it (the device structure is zeroed). */
  const NOTHING_PENDING := Status(false, false, false)
  /** The status open sets: both write buffers empty. */
  const BOTH_WRITE_BUFFERS_EMPTY := Status(true, true, false)

  /** The bitmask the driver keeps for status `s`. */
  function Bits(s: Status): (v: bv32)
  {
    (if s.write1Empty then WRITE_BUFFER_1_EMPTY else 0)
    | (if s.write2Empty then WRITE_BUFFER_2_EMPTY else 0)
    | (if s.readFull then READ_BUFFER_FULL else 0)
  }

  /** The status whose flags are the bits of `v` under INT_MASK. */
  function FromBits(v: bv32): (s: Status)
  {
    Status(v & WRITE_BUFFER_1_EMPTY != 0, v & WRITE_BUFFER_2_EMPTY != 0, v & READ_BUFFER_FULL != 0)
  }

  /** The flags and the bitmask carry the same information: decoding the
      bits of a status gives it back, and encoding the flags of a register
      value gives back exactly its bits under INT_MASK. */
  lemma BitsRoundTrip(s: Status, v: bv32)
    ensures FromBits(Bits(s)) == s
    ensures Bits(s) & !INT_MASK == 0
    ensures Bits(FromBits(v)) == v & INT_MASK
  {
  }

  /** What a sleeping call waits for. */
  datatype Condition =
    | SomeWriteBufferEmpty  // the write path: buffer 1 or buffer 2 is empty
    | ReadBufferFull        // the read path

  /** The bits of `buffer_status` the sleep on condition `c` tests. */
  function Mask(c: Condition): bv32 {
    match c
    case SomeWriteBufferEmpty => WRITE_BUFFER_1_EMPTY | WRITE_BUFFER_2_EMPTY
    case ReadBufferFull => READ_BUFFER_FULL
  }

  predicate Holds(s: Status, c: Condition) {
    match c
    case SomeWriteBufferEmpty => s.write1Empty || s.write2Empty
    case ReadBufferFull => s.readFull
  }

  /** A condition holds exactly when the masked test in the driver succeeds. */
  lemma HoldsIffMaskTest(s: Status, c: Condition)
    ensures Holds(s, c) <==> Bits(s) & Mask(c) != 0
  {
  }

  // ---------------------------------------------------------------------
  // The interrupt handler and the sleeps it ends.

  /** The cached status after the handler has read `raw` from INT_STATUS:
      the recognised bits REPLACE the cached value (they are not merged into
      it); with no recognised bit the cached value is kept. */
  function StatusAfterIrq(cached: Status, raw: bv32): (s: Status)
    ensures raw & INT_MASK != 0 ==> Bits(s) == raw & INT_MASK
    ensures raw & INT_MASK == 0 ==> s == cached
  {
    if raw & INT_MASK != 0 then FromBits(raw) else cached
  }

  /** Because the handler replaces the status, a completion of the read
      buffer alone wakes a sleeping reader but hides write buffers that were
      already empty: a sleeping writer stays asleep. */
  lemma ReadCompletionWakesOnlyReader(cached: Status)
    ensures Holds(StatusAfterIrq(cached, READ_BUFFER_FULL), ReadBufferFull)
    ensures !Holds(StatusAfterIrq(cached, READ_BUFFER_FULL), SomeWriteBufferEmpty)
  {
  }

  /** The cached status and the number of interrupts taken when a sleep ends. */
  datatype Wake = Wake(status: Status, consumed: nat)

  /** A sleep until condition `want` holds, during which the device raises
      the interrupts `irqs` one after another. */
  function Await(status: Status, irqs: seq<bv32>, want: Condition): (w: Wake)
    ensures w.consumed <= |irqs|
    ensures Holds(status, want) ==> w == Wake(status, 0)
    ensures !Holds(w.status, want) ==> w.consumed == |irqs|
    decreases |irqs|
  {
    if Holds(status, want) || |irqs| == 0 then Wake(status, 0)
    else
      var w := Await(StatusAfterIrq(status, irqs[0]), irqs[1..], want);
      Wake(w.status, w.consumed + 1)
  }

  // ---------------------------------------------------------------------
  // The write path, one chunk at a time.

  datatype WriteBuffer = Buffer1 | Buffer2

  function EmptyBit(b: WriteBuffer): bv32 {
    if b == Buffer1 then WRITE_BUFFER_1_EMPTY else WRITE_BUFFER_2_EMPTY
  }

  function CommandOffset(b: WriteBuffer): nat {
    if b == Buffer1 then WRITE_BUFFER_1 else WRITE_BUFFER_2
  }

  predicate IsEmpty(s: Status, b: WriteBuffer) {
    if b == Buffer1 then s.write1Empty else s.write2Empty
  }

  /** The buffer the write path fills: buffer 1 whenever it is empty, even
      if buffer 2 is empty too; otherwise buffer 2. Once the write sleep has
      ended, the chosen buffer is an empty one. */
  function SelectBuffer(status: Status): (b: WriteBuffer)
    ensures status.write1Empty ==> b == Buffer1
    ensures Holds(status, SomeWriteBufferEmpty) ==> IsEmpty(status, b)
  {
    if status.write1Empty then Buffer1 else Buffer2
  }

  /** The status once buffer `b` has been handed to the device: its empty
      flag is clear and every other flag is as it was. */
  function ClearEmpty(status: Status, b: WriteBuffer): (s: Status)
    ensures !IsEmpty(s, b)
    ensures forall other: WriteBuffer | other != b :: IsEmpty(s, other) == IsEmpty(status, other)
    ensures s.readFull == status.readFull
  {
    if b == Buffer1 then status.(write1Empty := false) else status.(write2Empty := false)
  }

  /** Clearing a flag is the driver's `buffer_status &= ~bit`. */
  lemma ClearEmptyIsMaskOut(status: Status, b: WriteBuffer)
    ensures Bits(ClearEmpty(status, b)) == Bits(status) & !EmptyBit(b)
  {
  }

  /** The size of the next chunk: the rest of the request, but never more
      than one buffer. */
  function ChunkSize(remaining: nat, bufferSize: nat): (c: nat)
    ensures c <= remaining && c <= bufferSize
    ensures c == remaining || c == bufferSize
  {
    if remaining > bufferSize then bufferSize else remaining
  }

  /** The chunk sizes of a `count`-byte write, one buffer at a time. */
  function Chunks(count: nat): (cs: seq<nat>)
    decreases count
  {
    if count == 0 then []
    else [ChunkSize(count, WRITE_BUFFER_SIZE)] + Chunks(count - ChunkSize(count, WRITE_BUFFER_SIZE))
  }

  /** The same chunk sizes stated independently of the loop: `count / 16384`
      full buffers, then the remainder if any. */
  function BufferFulls(count: nat): (cs: seq<nat>)
  {
    Repeat(WRITE_BUFFER_SIZE, count / WRITE_BUFFER_SIZE)
      + (if count % WRITE_BUFFER_SIZE == 0 then [] else [count % WRITE_BUFFER_SIZE])
  }

  /** `n` copies of `x`. */
  function Repeat(x: nat, n: nat): (xs: seq<nat>)
    ensures |xs| == n
  {
    if n == 0 then [] else [x] + Repeat(x, n - 1)
  }

  function Sum(xs: seq<int>): int {
    if xs == [] then 0 else xs[0] + Sum(xs[1..])
  }

  function Values(log: seq<RegWrite>): (vs: seq<int>)
    ensures |vs| == |log|
  {
    if log == [] then [] else [log[0].value] + Values(log[1..])
  }

  /** A write is cut into full buffers and then the remainder. */
  lemma {:induction false} ChunksAreBufferFulls(count: nat)
    ensures Chunks(count) == BufferFulls(count)
    decreases count
  {
    var W := WRITE_BUFFER_SIZE;
    if count > W {
      ChunksAreBufferFulls(count - W);
      var n := count / W;
      assert (count - W) / W == n - 1 && (count - W) % W == count % W;
    } else if count == W {
      assert count / W == 1 && count % W == 0;
    } else if count > 0 {
      assert count / W == 0 && count % W == count;
    }
  }

  /** The chunks of a write add up to the whole request, and each fits in a buffer. */
  lemma {:induction false} ChunksCoverCount(count: nat)
    ensures Sum(Chunks(count)) == count
    ensures forall c | c in Chunks(count) :: 0 < c <= WRITE_BUFFER_SIZE
    decreases count
  {
    if count > 0 {
      var c := ChunkSize(count, WRITE_BUFFER_SIZE);
      ChunksCoverCount(count - c);
      assert ([c] + Chunks(count - c))[1..] == Chunks(count - c);
    } else {
      assert Chunks(0) == [];
    }
  }

  /** Everything an audio call does: the register stores it issues, the
      cached status it leaves, the interrupts it takes while asleep and its
      outcome, or `Pending` if it has not returned when the supplied device
      behaviour runs out. */
  datatype Outcome = Returned(value: int) | Pending
  datatype Run = Run(log: seq<RegWrite>, status: Status, consumed: nat, outcome: Outcome)

  /** The rest of a write that still has `count` bytes to send, has issued
      `issued` bytes in `chunk` chunks so far, and whose user copy fails for
      chunk number `faultAt` (never, if the write has fewer chunks). */
  function WriteRun(base: nat, status: Status, count: nat, issued: nat, chunk: nat,
                    faultAt: nat, irqs: seq<bv32>): (r: Run)
    ensures r.consumed <= |irqs|
    ensures r.outcome == Pending ==> r.consumed == |irqs|
    decreases count
  {
    if count == 0 then Run([], status, 0, Returned(issued))
    else
      var w := Await(status, irqs, SomeWriteBufferEmpty);
      if !Holds(w.status, SomeWriteBufferEmpty) then Run([], w.status, w.consumed, Pending)
      else if chunk == faultAt then Run([], w.status, w.consumed, Returned(-EFAULT))
      else
        var b := SelectBuffer(w.status);
        var copy := ChunkSize(count, WRITE_BUFFER_SIZE);
        var rest := WriteRun(base, ClearEmpty(w.status, b), count - copy, issued + copy,
                             chunk + 1, faultAt, irqs[w.consumed..]);
        Run([RegWrite(base, CommandOffset(b), copy)] + rest.log, rest.status,
            w.consumed + rest.consumed, rest.outcome)
  }

  /** A write stores nothing but chunk sizes, each at most one buffer, into
      the two WRITE_BUFFER registers of its own device. */
  lemma {:induction false} WriteRunCommands(base: nat, status: Status, count: nat, issued: nat,
                                            chunk: nat, faultAt: nat, irqs: seq<bv32>)
    ensures forall e | e in WriteRun(base, status, count, issued, chunk, faultAt, irqs).log ::
              e.base == base && (e.offset == WRITE_BUFFER_1 || e.offset == WRITE_BUFFER_2)
              && 0 < e.value <= WRITE_BUFFER_SIZE
    decreases count
  {
    if count > 0 {
      var w := Await(status, irqs, SomeWriteBufferEmpty);
      var copy := ChunkSize(count, WRITE_BUFFER_SIZE);
      WriteRunCommands(base, ClearEmpty(w.status, SelectBuffer(w.status)), count - copy, issued + copy,
                       chunk + 1, faultAt, irqs[w.consumed..]);
    }
  }

  /** A pass of the write loop that issues nothing, as `WriteRun` takes it:
      no buffer came free, or the user copy failed. */
  lemma WriteRunStops(base: nat, status: Status, count: nat, issued: nat, chunk: nat,
                      faultAt: nat, irqs: seq<bv32>)
    requires count > 0
    ensures var w := Await(status, irqs, SomeWriteBufferEmpty);
            var r := WriteRun(base, status, count, issued, chunk, faultAt, irqs);
            && (!Holds(w.status, SomeWriteBufferEmpty) ==> r == Run([], w.status, w.consumed, Pending))
            && (Holds(w.status, SomeWriteBufferEmpty) && chunk == faultAt ==>
                  r == Run([], w.status, w.consumed, Returned(-EFAULT)))
  {
  }

  /** A write that returned and had not reached its failing copy found a
      buffer free and issued its first chunk there. */
  lemma WriteRunIssues(base: nat, status: Status, count: nat, issued: nat, chunk: nat,
                       faultAt: nat, irqs: seq<bv32>)
    requires count > 0 && chunk != faultAt
    requires WriteRun(base, status, count, issued, chunk, faultAt, irqs).outcome.Returned?
    ensures var w := Await(status, irqs, SomeWriteBufferEmpty);
            var b := SelectBuffer(w.status);
            var copy := ChunkSize(count, WRITE_BUFFER_SIZE);
            var rest := WriteRun(base, ClearEmpty(w.status, b), count - copy, issued + copy,
                                 chunk + 1, faultAt, irqs[w.consumed..]);
            WriteRun(base, status, count, issued, chunk, faultAt, irqs)
            == Run([RegWrite(base, CommandOffset(b), copy)] + rest.log, rest.status,
                   w.consumed + rest.consumed, rest.outcome)
  {
  }

  /** A pass of the write loop that issues a chunk, as `WriteRun` takes it. */
  lemma WriteRunStep(base: nat, status: Status, count: nat, issued: nat, chunk: nat, faultAt: nat,
                     irqs: seq<bv32>, woken: Status, consumed: nat, next: Status, copy: nat,
                     count': nat, issued': nat, chunk': nat, later: seq<bv32>)
    requires count > 0 && chunk != faultAt
    requires Await(status, irqs, SomeWriteBufferEmpty) == Wake(woken, consumed)
    requires count' == count - copy && issued' == issued + copy && chunk' == chunk + 1
    requires later == irqs[consumed..]
    requires Holds(woken, SomeWriteBufferEmpty)
    requires next == ClearEmpty(woken, SelectBuffer(woken))
    requires copy == ChunkSize(count, WRITE_BUFFER_SIZE)
    ensures var rest := WriteRun(base, next, count', issued', chunk', faultAt, later);
            WriteRun(base, status, count, issued, chunk, faultAt, irqs)
            == Run([RegWrite(base, CommandOffset(SelectBuffer(woken)), copy)] + rest.log, rest.status,
                   consumed + rest.consumed, rest.outcome)
  {
  }

  /** The write loop, having issued `done` so far, resumes with `count`
      bytes left and `irqs[pos..]` still to come, and finishes as `total`. */
  ghost predicate WriteResumes(total: Run, done: seq<RegWrite>, base: nat, status: Status, count: nat,
                               issued: nat, chunk: nat, faultAt: nat, irqs: seq<bv32>, pos: nat)
  {
    pos <= |irqs| &&
    var rest := WriteRun(base, status, count, issued, chunk, faultAt, irqs[pos..]);
    total == Run(done + rest.log, rest.status, pos + rest.consumed, rest.outcome)
  }

  /** Issuing one chunk keeps the write loop on course for the same run:
      from the state before the chunk to the state `done'`, `next`, ... after it. */
  lemma WriteResumesStep(total: Run, done: seq<RegWrite>, base: nat, status: Status, count: nat,
                         issued: nat, chunk: nat, faultAt: nat, irqs: seq<bv32>, pos: nat,
                         woken: Status, consumed: nat,
                         done': seq<RegWrite>, next: Status, count': nat, issued': nat, chunk': nat, pos': nat)
    requires WriteResumes(total, done, base, status, count, issued, chunk, faultAt, irqs, pos)
    requires count > 0 && chunk != faultAt
    requires Await(status, irqs[pos..], SomeWriteBufferEmpty) == Wake(woken, consumed)
    requires Holds(woken, SomeWriteBufferEmpty)
    requires done' == done + [RegWrite(base, CommandOffset(SelectBuffer(woken)), ChunkSize(count, WRITE_BUFFER_SIZE))]
    requires next == ClearEmpty(woken, SelectBuffer(woken))
    requires count' == count - ChunkSize(count, WRITE_BUFFER_SIZE)
    requires issued' == issued + ChunkSize(count, WRITE_BUFFER_SIZE)
    requires chunk' == chunk + 1 && pos' == pos + consumed
    ensures WriteResumes(total, done', base, next, count', issued', chunk', faultAt, irqs, pos')
  {
    var copy := ChunkSize(count, WRITE_BUFFER_SIZE);
    assert irqs[pos..][consumed..] == irqs[pos'..];
    WriteRunStep(base, status, count, issued, chunk, faultAt, irqs[pos..], woken, consumed, next, copy,
                 count', issued', chunk', irqs[pos'..]);
    var cmd := RegWrite(base, CommandOffset(SelectBuffer(woken)), copy);
    var rest := WriteRun(base, next, count', issued', chunk', faultAt, irqs[pos'..]);
    var run := WriteRun(base, status, count, issued, chunk, faultAt, irqs[pos..]);
    assert run == Run([cmd] + rest.log, rest.status, consumed + rest.consumed, rest.outcome);
    assert total == Run(done + run.log, run.status, pos + run.consumed, run.outcome);
    assert done + ([cmd] + rest.log) == done' + rest.log;
  }

  /** The write loop stops, having issued `done`, with the run's outcome. */
  lemma WriteResumesStop(total: Run, done: seq<RegWrite>, base: nat, status: Status, count: nat,
                         issued: nat, chunk: nat, faultAt: nat, irqs: seq<bv32>, pos: nat,
                         woken: Status, consumed: nat)
    requires WriteResumes(total, done, base, status, count, issued, chunk, faultAt, irqs, pos)
    requires count > 0
    requires Await(status, irqs[pos..], SomeWriteBufferEmpty) == Wake(woken, consumed)
    requires !Holds(woken, SomeWriteBufferEmpty) || chunk == faultAt
    ensures total.log == done && total.status == woken && total.consumed == pos + consumed
    ensures total.outcome == (if !Holds(woken, SomeWriteBufferEmpty) then Pending else Returned(-EFAULT))
  {
    WriteRunStops(base, status, count, issued, chunk, faultAt, irqs[pos..]);
    assert done + [] == done;
  }

  /** A write whose user copies all succeed issues exactly the chunks of its
      request, in order, and returns the whole count. */
  lemma {:induction false} WriteIssuesChunks(base: nat, status: Status, count: nat, issued: nat,
                                             chunk: nat, faultAt: nat, irqs: seq<bv32>)
    requires faultAt >= chunk + |Chunks(count)|
    requires WriteRun(base, status, count, issued, chunk, faultAt, irqs).outcome.Returned?
    ensures WriteRun(base, status, count, issued, chunk, faultAt, irqs).outcome == Returned(issued + count)
    ensures Values(WriteRun(base, status, count, issued, chunk, faultAt, irqs).log) == Chunks(count)
    decreases count
  {
    if count == 0 {
      assert Chunks(0) == [];
    } else {
      var w := Await(status, irqs, SomeWriteBufferEmpty);
      var b := SelectBuffer(w.status);
      var copy := ChunkSize(count, WRITE_BUFFER_SIZE);
      var next := ClearEmpty(w.status, b);
      WriteRunIssues(base, status, count, issued, chunk, faultAt, irqs);
      WriteIssuesChunks(base, next, count - copy, issued + copy, chunk + 1, faultAt, irqs[w.consumed..]);
      var rest := WriteRun(base, next, count - copy, issued + copy, chunk + 1, faultAt, irqs[w.consumed..]);
      ValuesCons(RegWrite(base, CommandOffset(b), copy), rest.log);
    }
  }

  /** A failed user copy makes the write return -EFAULT, whatever it had
      already issued: chunk number `faultAt` exists when `faultAt - chunk`
      full buffers do not use up the request. */
  lemma {:induction false} WriteFaultReturnsEfault(base: nat, status: Status, count: nat, issued: nat,
                                                   chunk: nat, faultAt: nat, irqs: seq<bv32>)
    requires chunk <= faultAt && (faultAt - chunk) * WRITE_BUFFER_SIZE < count
    requires WriteRun(base, status, count, issued, chunk, faultAt, irqs).outcome.Returned?
    ensures WriteRun(base, status, count, issued, chunk, faultAt, irqs).outcome == Returned(-EFAULT)
    decreases count
  {
    if chunk == faultAt {
      WriteRunStops(base, status, count, issued, chunk, faultAt, irqs);
    } else {
      WriteRunIssues(base, status, count, issued, chunk, faultAt, irqs);
      var w := Await(status, irqs, SomeWriteBufferEmpty);
      var copy := ChunkSize(count, WRITE_BUFFER_SIZE);
      var next := ClearEmpty(w.status, SelectBuffer(w.status));
      WriteFaultReturnsEfault(base, next, count - copy, issued + copy, chunk + 1, faultAt,
                              irqs[w.consumed..]);
    }
  }

  /** The chunks issued before a failed user copy are the request's first
      chunks; the failing chunk issues no command. */
  lemma {:induction false} WriteFaultDiscards(base: nat, status: Status, count: nat, issued: nat,
                                              chunk: nat, faultAt: nat, irqs: seq<bv32>)
    requires chunk <= faultAt < chunk + |Chunks(count)|
    requires WriteRun(base, status, count, issued, chunk, faultAt, irqs).outcome.Returned?
    ensures Values(WriteRun(base, status, count, issued, chunk, faultAt, irqs).log)
            == Chunks(count)[..faultAt - chunk]
    decreases count
  {
    if chunk == faultAt {
      WriteRunStops(base, status, count, issued, chunk, faultAt, irqs);
    } else {
      WriteRunIssues(base, status, count, issued, chunk, faultAt, irqs);
      var w := Await(status, irqs, SomeWriteBufferEmpty);
      var b := SelectBuffer(w.status);
      var copy := ChunkSize(count, WRITE_BUFFER_SIZE);
      var next := ClearEmpty(w.status, b);
      WriteFaultDiscards(base, next, count - copy, issued + copy, chunk + 1, faultAt, irqs[w.consumed..]);
      var rest := WriteRun(base, next, count - copy, issued + copy, chunk + 1, faultAt, irqs[w.consumed..]);
      ValuesCons(RegWrite(base, CommandOffset(b), copy), rest.log);
      TakeAfterFirst(copy, Chunks(count - copy), faultAt - chunk);
    }
  }

  lemma ValuesCons(e: RegWrite, log: seq<RegWrite>)
    ensures Values([e] + log) == [e.value] + Values(log)
  {
    assert ([e] + log)[1..] == log;
  }

  lemma TakeAfterFirst(x: nat, xs: seq<nat>, k: nat)
    requires 1 <= k <= |xs| + 1
    ensures ([x] + xs)[..k] == [x] + xs[..k - 1]
  {
  }

  /** 20000 bytes written right after open (both buffers empty) go out as
      16384 bytes from buffer 1 and then 3616 bytes from buffer 2. */
  lemma TwentyThousandBytes(base: nat, faultAt: nat)
    requires faultAt >= 2
    ensures Chunks(20000) == [16384, 3616]
    ensures WriteRun(base, BOTH_WRITE_BUFFERS_EMPTY, 20000, 0, 0, faultAt, [])
         == Run([RegWrite(base, WRITE_BUFFER_1, 16384), RegWrite(base, WRITE_BUFFER_2, 3616)],
                NOTHING_PENDING, 0, Returned(20000))
  {
    var first := WriteRun(base, Status(false, true, false), 3616, 16384, 1, faultAt, []);
    assert first == Run([RegWrite(base, WRITE_BUFFER_2, 3616)], NOTHING_PENDING, 0, Returned(20000));
  }

  /** Double buffering: with both buffers busy, a completion of buffer 1
      alone lets the write go on into buffer 1 without waiting for buffer 2. */
  lemma RefillFirstCompletedBuffer(base: nat, faultAt: nat)
    requires faultAt >= 3
    ensures WriteRun(base, BOTH_WRITE_BUFFERS_EMPTY, 3 * WRITE_BUFFER_SIZE, 0, 0, faultAt,
                     [WRITE_BUFFER_1_EMPTY])
         == Run([RegWrite(base, WRITE_BUFFER_1, 16384), RegWrite(base, WRITE_BUFFER_2, 16384),
                 RegWrite(base, WRITE_BUFFER_1, 16384)], NOTHING_PENDING, 1, Returned(3 * 16384))
  {
    var irqs := [WRITE_BUFFER_1_EMPTY];
    var third := WriteRun(base, NOTHING_PENDING, 16384, 2 * 16384, 2, faultAt, irqs);
    assert Await(NOTHING_PENDING, irqs, SomeWriteBufferEmpty) == Wake(Status(true, false, false), 1);
    assert irqs[1..] == [];
    assert third == Run([RegWrite(base, WRITE_BUFFER_1, 16384)], NOTHING_PENDING, 1, Returned(3 * 16384));
    var second := WriteRun(base, Status(false, true, false), 2 * 16384, 16384, 1, faultAt, irqs);
    assert irqs[0..] == irqs;
    assert second == Run([RegWrite(base, WRITE_BUFFER_2, 16384), RegWrite(base, WRITE_BUFFER_1, 16384)],
                         NOTHING_PENDING, 1, Returned(3 * 16384));
  }

  // ---------------------------------------------------------------------
  // The read path.

  /** `count -= length` on a 32-bit `size_t`. */
  function SizeSub(count: nat, length: int): (c: nat)
    ensures c < U32_MODULUS
    ensures 0 <= length <= count < U32_MODULUS ==> c == count - length
  {
    (count - length) % U32_MODULUS
  }

  /** The rest of a read that still wants `count` bytes, has returned
      `result` bytes in `chunk` chunks so far, whose copy to the user fails
      for chunk number `faultAt`, and during which the device reports the
      byte counts `avail` in READ_BUFFER_AVAILABLE, one per chunk. */
  function ReadRun(base: nat, status: Status, count: nat, result: int, chunk: nat, faultAt: nat,
                   irqs: seq<bv32>, avail: seq<u32>): (r: Run)
    requires count < U32_MODULUS
    ensures r.consumed <= |irqs|
    ensures count > 0 && r.outcome.Returned? ==> r.status.readFull
    decreases |avail|
  {
    if count == 0 then Run([], status, 0, Returned(result))
    else
      var start := RegWrite(base, START_READ, ChunkSize(count, READ_BUFFER_SIZE));
      var w := Await(status, irqs, ReadBufferFull);
      if !w.status.readFull || |avail| == 0 then Run([start], w.status, w.consumed, Pending)
      else if chunk == faultAt then Run([start], w.status, w.consumed, Returned(-EFAULT))
      else
        var length := AsSigned(avail[0]);
        var rest := ReadRun(base, w.status, SizeSub(count, length), result + length, chunk + 1,
                            faultAt, irqs[w.consumed..], avail[1..]);
        Run([start] + rest.log, rest.status, w.consumed + rest.consumed, rest.outcome)
  }

  /** The device never reports more bytes than the START_READ it answers asked for. */
  ghost predicate ReportsAtMostRequested(count: nat, avail: seq<u32>)
    decreases |avail|
  {
    count == 0 || |avail| == 0
    || (avail[0] as int <= ChunkSize(count, READ_BUFFER_SIZE)
        && ReportsAtMostRequested(count - avail[0] as int, avail[1..]))
  }

  /** A read stores nothing but START_READ requests of at most one buffer,
      and never an empty one, into the registers of its own device. */
  lemma {:induction false} ReadRunStarts(base: nat, status: Status, count: nat, result: int, chunk: nat,
                                         faultAt: nat, irqs: seq<bv32>, avail: seq<u32>)
    requires count < U32_MODULUS
    ensures forall e | e in ReadRun(base, status, count, result, chunk, faultAt, irqs, avail).log ::
              e.base == base && e.offset == START_READ && 0 < e.value <= READ_BUFFER_SIZE
    decreases |avail|
  {
    if count > 0 {
      var w := Await(status, irqs, ReadBufferFull);
      if w.status.readFull && |avail| > 0 && chunk != faultAt {
        var length := AsSigned(avail[0]);
        ReadRunStarts(base, w.status, SizeSub(count, length), result + length, chunk + 1, faultAt,
                      irqs[w.consumed..], avail[1..]);
      }
    }
  }

  /** A pass of the read loop that takes no data, as `ReadRun` takes it:
      the buffer never filled, or the user copy failed. */
  lemma ReadRunStops(base: nat, status: Status, count: nat, result: int, chunk: nat, faultAt: nat,
                     irqs: seq<bv32>, avail: seq<u32>)
    requires 0 < count < U32_MODULUS
    ensures var start := RegWrite(base, START_READ, ChunkSize(count, READ_BUFFER_SIZE));
            var w := Await(status, irqs, ReadBufferFull);
            var r := ReadRun(base, status, count, result, chunk, faultAt, irqs, avail);
            && (!w.status.readFull || |avail| == 0 ==> r == Run([start], w.status, w.consumed, Pending))
            && (w.status.readFull && |avail| > 0 && chunk == faultAt ==>
                  r == Run([start], w.status, w.consumed, Returned(-EFAULT)))
  {
  }

  /** A pass of the read loop that takes a chunk, as `ReadRun` takes it. */
  lemma ReadRunStep(base: nat, status: Status, count: nat, result: int, chunk: nat, faultAt: nat,
                    irqs: seq<bv32>, avail: seq<u32>, woken: Status, consumed: nat,
                    count': nat, result': int, chunk': nat, later: seq<bv32>, availLater: seq<u32>)
    requires 0 < count < U32_MODULUS && chunk != faultAt && |avail| > 0
    requires Await(status, irqs, ReadBufferFull) == Wake(woken, consumed)
    requires woken.readFull
    requires count' == SizeSub(count, AsSigned(avail[0])) && result' == result + AsSigned(avail[0])
    requires chunk' == chunk + 1 && later == irqs[consumed..] && availLater == avail[1..]
    ensures var rest := ReadRun(base, woken, count', result', chunk', faultAt, later, availLater);
            ReadRun(base, status, count, result, chunk, faultAt, irqs, avail)
            == Run([RegWrite(base, START_READ, ChunkSize(count, READ_BUFFER_SIZE))] + rest.log,
                   rest.status, consumed + rest.consumed, rest.outcome)
  {
  }

  /** The read loop, having issued `done` so far, resumes with `count`
      bytes wanted, `irqs[pos..]` and `avail[next..]` still to come, and
      finishes as `total`. */
  ghost predicate ReadResumes(total: Run, done: seq<RegWrite>, base: nat, status: Status, count: nat,
                              result: int, chunk: nat, faultAt: nat, irqs: seq<bv32>, pos: nat,
                              avail: seq<u32>, next: nat)
  {
    pos <= |irqs| && next <= |avail| && count < U32_MODULUS &&
    var rest := ReadRun(base, status, count, result, chunk, faultAt, irqs[pos..], avail[next..]);
    total == Run(done + rest.log, rest.status, pos + rest.consumed, rest.outcome)
  }

  /** Taking one chunk keeps the read loop on course for the same run: from
      the state before the chunk to the state `done'`, `count'`, ... after it. */
  lemma ReadResumesStep(total: Run, done: seq<RegWrite>, base: nat, status: Status, count: nat,
                        result: int, chunk: nat, faultAt: nat, irqs: seq<bv32>, pos: nat,
                        avail: seq<u32>, next: nat, woken: Status, consumed: nat,
                        done': seq<RegWrite>, count': nat, result': int, chunk': nat, pos': nat, next': nat)
    requires ReadResumes(total, done, base, status, count, result, chunk, faultAt, irqs, pos, avail, next)
    requires count > 0 && chunk != faultAt && next < |avail|
    requires Await(status, irqs[pos..], ReadBufferFull) == Wake(woken, consumed)
    requires woken.readFull
    requires done' == done + [RegWrite(base, START_READ, ChunkSize(count, READ_BUFFER_SIZE))]
    requires count' == SizeSub(count, AsSigned(avail[next])) && result' == result + AsSigned(avail[next])
    requires chunk' == chunk + 1 && pos' == pos + consumed && next' == next + 1
    ensures ReadResumes(total, done', base, woken, count', result', chunk', faultAt, irqs, pos', avail, next')
  {
    assert irqs[pos..][consumed..] == irqs[pos'..];
    assert avail[next..][1..] == avail[next'..];
    assert avail[next..][0] == avail[next];
    ReadRunStep(base, status, count, result, chunk, faultAt, irqs[pos..], avail[next..], woken, consumed,
                count', result', chunk', irqs[pos'..], avail[next'..]);
    var start := RegWrite(base, START_READ, ChunkSize(count, READ_BUFFER_SIZE));
    var rest := ReadRun(base, woken, count', result', chunk', faultAt, irqs[pos'..], avail[next'..]);
    var run := ReadRun(base, status, count, result, chunk, faultAt, irqs[pos..], avail[next..]);
    assert run == Run([start] + rest.log, rest.status, consumed + rest.consumed, rest.outcome);
    assert total == Run(done + run.log, run.status, pos + run.consumed, run.outcome);
    assert done + ([start] + rest.log) == done' + rest.log;
  }

  /** The read loop stops after its START_READ, with the run's outcome. */
  lemma ReadResumesStop(total: Run, done: seq<RegWrite>, base: nat, status: Status, count: nat,
                        result: int, chunk: nat, faultAt: nat, irqs: seq<bv32>, pos: nat,
                        avail: seq<u32>, next: nat, woken: Status, consumed: nat, done': seq<RegWrite>)
    requires ReadResumes(total, done, base, status, count, result, chunk, faultAt, irqs, pos, avail, next)
    requires count > 0
    requires Await(status, irqs[pos..], ReadBufferFull) == Wake(woken, consumed)
    requires !woken.readFull || next == |avail| || chunk == faultAt
    requires done' == done + [RegWrite(base, START_READ, ChunkSize(count, READ_BUFFER_SIZE))]
    ensures total.log == done'
    ensures total.status == woken && total.consumed == pos + consumed
    ensures total.outcome == (if !woken.readFull || next == |avail| then Pending else Returned(-EFAULT))
  {
    ReadRunStops(base, status, count, result, chunk, faultAt, irqs[pos..], avail[next..]);
  }

  /** A read from a device that never over-reports, with no failed copy,
      returns exactly the number of bytes asked for. */
  lemma {:induction false} ReadReturnsCount(base: nat, status: Status, count: nat, result: int,
                                            chunk: nat, faultAt: nat, irqs: seq<bv32>, avail: seq<u32>)
    requires count < U32_MODULUS
    requires ReportsAtMostRequested(count, avail)
    requires faultAt >= chunk + |avail|
    requires ReadRun(base, status, count, result, chunk, faultAt, irqs, avail).outcome.Returned?
    ensures ReadRun(base, status, count, result, chunk, faultAt, irqs, avail).outcome
            == Returned(result + count)
    decreases |avail|
  {
    if count > 0 {
      var w := Await(status, irqs, ReadBufferFull);
      var length := AsSigned(avail[0]);
      assert length == avail[0] as int;
      ReadReturnsCount(base, w.status, count - length, result + length, chunk + 1, faultAt,
                       irqs[w.consumed..], avail[1..]);
    }
  }

  // ---------------------------------------------------------------------
  // The driver.

  /** `ioctl`: the one command it knows is refused. */
  function Ioctl(cmd: nat): (r: int)
    ensures r == -1 <==> cmd == IOCTL_REJECTED_CMD
    ensures r == 0 <==> cmd != IOCTL_REJECTED_CMD
  {
    if cmd == IOCTL_REJECTED_CMD then -1 else 0
  }

  /** The probed device (`struct goldfish_audio`) together with the
      module-wide open counter and device pointer. */
  class AudioDevice {
    /** `audio_data != NULL`: the device is registered. */
    var attached: bool
    /** The global `open_count`. */
    var openCount: int
    const regBase: nat
    /** Bus address of the DMA region holding the three buffers. */
    const bufferPhys: nat
    const readSupported: bool
    var bufferStatus: Status
    /** Every register store, oldest first. */
    var regs: seq<RegWrite>

    /** At most one open file at a time. */
    ghost predicate Valid()
      reads this
    {
      0 <= openCount <= 1
    }

    /** The successful end of `goldfish_audio_probe`: the three buffers are
        registered with the device at their offsets in the DMA region at
        `bufPhys`, the read buffer only if the device reports read support.
        The module-wide `open_count` is not touched: it keeps the value
        `openCountNow` it had before the probe. */
    constructor Probe(base: nat, bufPhys: nat, readSupportedReg: bv32, openCountNow: int)
      requires bufPhys + COMBINED_BUFFER_SIZE <= U32_MODULUS
      requires 0 <= openCountNow <= 1
      ensures Valid() && attached && openCount == openCountNow
      ensures regBase == base && bufferPhys == bufPhys && bufferStatus == NOTHING_PENDING
      ensures readSupported == (readSupportedReg != 0)
      ensures regs == [RegWrite(base, SET_WRITE_BUFFER_1, bufPhys + RegionOffset(WriteBuffer1Region)),
                       RegWrite(base, SET_WRITE_BUFFER_2, bufPhys + RegionOffset(WriteBuffer2Region))]
                      + (if readSupported
                         then [RegWrite(base, SET_READ_BUFFER, bufPhys + RegionOffset(ReadBufferRegion))]
                         else [])
    {
      regBase := base;
      bufferPhys := bufPhys;
      bufferStatus := NOTHING_PENDING;
      openCount := openCountNow;
      readSupported := readSupportedReg != 0;
      new;
      regs := [RegWrite(base, SET_WRITE_BUFFER_1, bufPhys),
               RegWrite(base, SET_WRITE_BUFFER_2, bufPhys + WRITE_BUFFER_SIZE)];
      if readSupported {
        regs := regs + [RegWrite(base, SET_READ_BUFFER, bufPhys + 2 * WRITE_BUFFER_SIZE)];
      }
      attached := true;
    }

    /** `goldfish_audio_remove`: the device pointer is cleared. */
    method Remove()
      modifies this`attached
      ensures !attached
    {
      attached := false;
    }

    /** `goldfish_audio_open`: exclusive. Only the open that takes the
        counter from 0 to 1 succeeds; it marks both write buffers empty and
        enables all three interrupts. Any other open is rolled back. */
    method Open() returns (r: int)
      requires Valid()
      modifies this`openCount, this`bufferStatus, this`regs
      ensures Valid()
      ensures !old(attached) ==> r == -ENODEV && unchanged(this)
      ensures old(attached) && old(openCount) == 0 ==>
                r == 0 && openCount == 1 && bufferStatus == BOTH_WRITE_BUFFERS_EMPTY
                && regs == old(regs) + [RegWrite(regBase, INT_ENABLE, INT_MASK as int)]
      ensures old(attached) && old(openCount) != 0 ==> r == -EBUSY && unchanged(this)
    {
      if !attached {
        return -ENODEV;
      }
      openCount := openCount + 1;
      if openCount == 1 {
        bufferStatus := BOTH_WRITE_BUFFERS_EMPTY;
        regs := regs + [RegWrite(regBase, INT_ENABLE, INT_MASK as int)];
        r := 0;
      } else {
        openCount := openCount - 1;
        r := -EBUSY;
      }
    }

    /** `goldfish_audio_release`: called once for each successful open; it
        decrements the counter and always disables the interrupts. It
        stores through `audio_data`, so the device must still be attached. */
    method Release()
      requires Valid() && attached && openCount > 0
      modifies this`openCount, this`regs
      ensures Valid()
      ensures openCount == old(openCount) - 1
      ensures regs == old(regs) + [RegWrite(regBase, INT_ENABLE, 0)]
    {
      openCount := openCount - 1;
      regs := regs + [RegWrite(regBase, INT_ENABLE, 0)];
    }

    /** `goldfish_audio_interrupt`, with `raw` the value read from INT_STATUS. */
    method Interrupt(raw: bv32) returns (ret: IrqReturn)
      modifies this`bufferStatus
      ensures bufferStatus == StatusAfterIrq(old(bufferStatus), raw)
      ensures ret == IrqHandled <==> raw & INT_MASK != 0
    {
      var status := raw & INT_MASK;
      if status != 0 {
        bufferStatus := FromBits(status);
      }
      ret := if status != 0 then IrqHandled else IrqNone;
    }

    /** `wait_event_interruptible` on `bufferStatus & want`: the interrupts
        from `irqs[pos..]` are delivered until the condition holds or none
        is left. Returns the position of the first interrupt not taken. */
    method WaitEvent(want: Condition, irqs: seq<bv32>, pos: nat) returns (next: nat)
      requires pos <= |irqs|
      modifies this`bufferStatus
      ensures var w := Await(old(bufferStatus), irqs[pos..], want);
              bufferStatus == w.status && next == pos + w.consumed
    {
      ghost var w := Await(bufferStatus, irqs[pos..], want);
      next := pos;
      while !Holds(bufferStatus, want) && next < |irqs|
        invariant pos <= next <= |irqs|
        invariant Await(bufferStatus, irqs[next..], want).status == w.status
        invariant next + Await(bufferStatus, irqs[next..], want).consumed == pos + w.consumed
        decreases |irqs| - next
      {
        assert irqs[next..][1..] == irqs[next + 1..];
        var _ := Interrupt(irqs[next]);
        next := next + 1;
      }
    }

    /** One pass of the write loop once its sleep has ended: the chunk goes
        to buffer 1 if that is empty, else to buffer 2; only that buffer's
        empty bit is cleared, and its WRITE_BUFFER register receives the
        chunk size. */
    method WriteChunk(remaining: nat) returns (copy: nat)
      requires remaining > 0
      requires Holds(bufferStatus, SomeWriteBufferEmpty)
      modifies this`bufferStatus, this`regs
      ensures copy == ChunkSize(remaining, WRITE_BUFFER_SIZE) && 0 < copy
      ensures var b := SelectBuffer(old(bufferStatus));
              IsEmpty(old(bufferStatus), b)
              && bufferStatus == ClearEmpty(old(bufferStatus), b)
              && regs == old(regs) + [RegWrite(regBase, CommandOffset(b), copy)]
    {
      copy := if remaining > WRITE_BUFFER_SIZE then WRITE_BUFFER_SIZE else remaining;
      var b := SelectBuffer(bufferStatus);
      bufferStatus := ClearEmpty(bufferStatus, b);
      regs := regs + [RegWrite(regBase, CommandOffset(b), copy)];
    }

    /** `goldfish_audio_write` of `count` bytes whose user copy fails at
        chunk `faultAt`, while the device raises the interrupts `irqs`.
        Also returns how many of those interrupts it took. */
    method Write(count: nat, faultAt: nat, irqs: seq<bv32>) returns (outcome: Outcome, consumed: nat)
      requires count <= SSIZE_MAX
      modifies this`bufferStatus, this`regs
      ensures var run := WriteRun(regBase, old(bufferStatus), count, 0, 0, faultAt, irqs);
              regs == old(regs) + run.log && bufferStatus == run.status
              && outcome == run.outcome && consumed == run.consumed
    {
      var remaining: nat, result: nat, chunk: nat, pos: nat := count, 0, 0, 0;
      ghost var run := WriteRun(regBase, bufferStatus, count, 0, 0, faultAt, irqs);
      ghost var total := Run(regs + run.log, run.status, run.consumed, run.outcome);
      assert irqs[0..] == irqs;
      while remaining > 0
        invariant WriteResumes(total, regs, regBase, bufferStatus, remaining, result, chunk, faultAt, irqs, pos)
        decreases remaining
      {
        ghost var w := Await(bufferStatus, irqs[pos..], SomeWriteBufferEmpty);
        ghost var status0, pos0, regs0, remaining0, result0, chunk0
          := bufferStatus, pos, regs, remaining, result, chunk;
        pos := WaitEvent(SomeWriteBufferEmpty, irqs, pos);
        if !Holds(bufferStatus, SomeWriteBufferEmpty) || chunk == faultAt {
          WriteResumesStop(total, regs, regBase, status0, remaining, result, chunk, faultAt, irqs, pos0,
                           bufferStatus, w.consumed);
          outcome := if !Holds(bufferStatus, SomeWriteBufferEmpty) then Pending else Returned(-EFAULT);
          return outcome, pos;
        }
        var copy := WriteChunk(remaining);
        remaining, result, chunk := remaining - copy, result + copy, chunk + 1;
        WriteResumesStep(total, regs0, regBase, status0, remaining0, result0, chunk0, faultAt, irqs, pos0,
                         w.status, w.consumed, regs, bufferStatus, remaining, result, chunk, pos);
      }
      assert total.log == regs + [];
      return Returned(result), pos;
    }

    /** `goldfish_audio_read` of `count` bytes whose copy to the user fails
        at chunk `faultAt`, while the device raises the interrupts `irqs`
        and reports the byte counts `avail`. Fails at once with -ENODEV,
        touching nothing, when the device has no input. */
    method Read(count: nat, faultAt: nat, irqs: seq<bv32>, avail: seq<u32>)
      returns (outcome: Outcome, consumed: nat)
      requires count <= SSIZE_MAX
      modifies this`bufferStatus, this`regs
      ensures !readSupported ==>
                outcome == Returned(-ENODEV) && consumed == 0 && unchanged(this)
      ensures readSupported ==>
                var run := ReadRun(regBase, old(bufferStatus), count, 0, 0, faultAt, irqs, avail);
                regs == old(regs) + run.log && bufferStatus == run.status
                && outcome == run.outcome && consumed == run.consumed
    {
      if !readSupported {
        return Returned(-ENODEV), 0;
      }
      ghost var run := ReadRun(regBase, bufferStatus, count, 0, 0, faultAt, irqs, avail);
      ghost var total := Run(regs + run.log, run.status, run.consumed, run.outcome);
      var remaining: nat, result: int, chunk: nat, pos: nat, next: nat := count, 0, 0, 0, 0;
      assert irqs[0..] == irqs && avail[0..] == avail;
      while remaining > 0
        invariant ReadResumes(total, regs, regBase, bufferStatus, remaining, result, chunk, faultAt,
                              irqs, pos, avail, next)
        decreases |avail| - next
      {
        ghost var w := Await(bufferStatus, irqs[pos..], ReadBufferFull);
        ghost var status0, pos0, regs0, remaining0, result0, chunk0, next0
          := bufferStatus, pos, regs, remaining, result, chunk, next;
        var length := if remaining > READ_BUFFER_SIZE then READ_BUFFER_SIZE else remaining;
        regs := regs + [RegWrite(regBase, START_READ, length)];
        pos := WaitEvent(ReadBufferFull, irqs, pos);
        if !bufferStatus.readFull || next == |avail| || chunk == faultAt {
          ReadResumesStop(total, regs0, regBase, status0, remaining, result, chunk, faultAt, irqs, pos0,
                          avail, next, bufferStatus, w.consumed, regs);
          outcome := if !bufferStatus.readFull || next == |avail| then Pending else Returned(-EFAULT);
          return outcome, pos;
        }
        var got := AsSigned(avail[next]);
        result, remaining, chunk, next := result + got, SizeSub(remaining, got), chunk + 1, next + 1;
        ReadResumesStep(total, regs0, regBase, status0, remaining0, result0, chunk0, faultAt, irqs, pos0,
                        avail, next0, bufferStatus, w.consumed, regs, remaining, result, chunk, pos, next);
      }
      assert total.log == regs + [];
      return Returned(result), pos;
    }
  }
}
