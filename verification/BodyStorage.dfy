/**
 Request body storage: one interface, kept either in memory or in a cache file.

 A storage has a cursor of its own, answers `Bytes` without moving it, and hands out readers with
 independent cursors. The file variant works through descriptors: its readers stay usable after the storage
 has closed its own descriptor and unlinked the file.
 */
module BodyStorage {
  import opened Wrappers

  type Byte = b: int | 0 <= b < 256

  const MAX_INT64 := 0x7FFF_FFFF_FFFF_FFFF

  datatype Op =
    | Read(n: nat)
    | Seek(offset: int, whence: int)
    | GetBytes
    | GetSize
    | Close
    | NewReader
    | ReadFrom(reader: nat, n: nat)
    | CloseReader(reader: nat)
    | RemoveFile                 // the cache cleaner unlinks the file; a memory storage has none

  datatype Answer =
    | Data(bytes: seq<Byte>)
    | EndOfFile
    | Position(at: nat)
    | SeekRefused
    | Length(n: nat)
    | Done
    | Opened(reader: nat)
    | StorageClosed
    | ReaderClosed
    | NoSuchReader
    | OpenFailed

  /** Where `bytes.Reader.Seek` lands, if anywhere: not before the start and not past the 64-bit range. */
  function Target(pos: nat, size: nat, offset: int, whence: int): Option<nat> {
    var to := if whence == 0 then offset else if whence == 1 then pos + offset else size + offset;
    if 0 <= whence <= 2 && 0 <= to <= MAX_INT64 then Some(to) else None
  }

  const SEEK_DATA := 3
  const SEEK_HOLE := 4

  /** Where `os.File.Seek` lands: the file system has a limit of its own, the origin goes straight to the system,
      and Linux knows two more. The data of a file without holes starts at the given offset, and its only hole is
      its end. */
  function FileTarget(pos: nat, size: nat, offset: int, whence: int, maxOffset: nat): Option<nat> {
    if whence == SEEK_DATA then if 0 <= offset < size then Some(offset) else None
    else if whence == SEEK_HOLE then if 0 <= offset < size then Some(size) else None
    else
      var target := Target(pos, size, offset, whence);
      if target.Some? && target.value > maxOffset then None else target
  }

  function Slice(content: seq<Byte>, pos: nat, n: nat): seq<Byte>
    requires pos <= |content|
  {
    if pos + n <= |content| then content[pos..pos + n] else content[pos..]
  }

  // ----- bytes.Reader and os.File -----

  /** `bytes.Reader.Read`: at the end it reports EOF even for an empty buffer. */
  function BufferRead(content: seq<Byte>, pos: nat, n: nat): (Answer, nat) {
    if pos >= |content| then (EndOfFile, pos)
    else var s := Slice(content, pos, n); (Data(s), pos + |s|)
  }

  /** `os.File.Read`: an empty buffer reads nothing and is never EOF. */
  function FileRead(content: seq<Byte>, pos: nat, n: nat): (Answer, nat) {
    if n == 0 then (Data([]), pos)
    else if pos >= |content| then (EndOfFile, pos)
    else var s := Slice(content, pos, n); (Data(s), pos + |s|)
  }

  datatype Cursor = Cursor(pos: nat, closed: bool)

  // ----- Memory -----

  /** Closing a memory reader does nothing; `closed` only remembers that it was asked for. */
  datatype Memory = Memory(data: seq<Byte>, pos: nat, closed: bool, readers: seq<Cursor>)

  function NewMemory(data: seq<Byte>): Memory {
    Memory(data, 0, false, [])
  }

  function MemoryStep(m: Memory, op: Op): (Memory, Answer) {
    match op
    case Read(n) =>
      if m.closed then (m, StorageClosed)
      else var (a, pos) := BufferRead(m.data, m.pos, n); (m.(pos := pos), a)
    case Seek(offset, whence) =>
      if m.closed then (m, StorageClosed)
      else (match Target(m.pos, |m.data|, offset, whence)
            case None => (m, SeekRefused)
            case Some(to) => (m.(pos := to), Position(to)))
    case GetBytes => (m, if m.closed then StorageClosed else Data(m.data))
    case GetSize => (m, Length(|m.data|))
    case Close => (m.(closed := true), Done)
    case NewReader =>
      if m.closed then (m, StorageClosed)
      else (m.(readers := m.readers + [Cursor(0, false)]), Opened(|m.readers|))
    case ReadFrom(r, n) =>
      if r >= |m.readers| then (m, NoSuchReader)
      else
        var (a, pos) := BufferRead(m.data, m.readers[r].pos, n);
        (m.(readers := m.readers[r := m.readers[r].(pos := pos)]), a)
    case CloseReader(r) =>
      if r >= |m.readers| then (m, NoSuchReader)
      else (m.(readers := m.readers[r := m.readers[r].(closed := true)]), Done)
    case RemoveFile => (m, Done)
  }

  // ----- Disk -----

  /** The inode's content, the storage's own descriptor, the descriptors of its readers, whether the path still
      leads to the inode, and the largest offset the file system accepts. */
  datatype Disk = Disk(content: seq<Byte>, size: nat, file: Cursor, closed: bool, linked: bool, readers: seq<Cursor>,
                       maxOffset: nat)

  function NewDisk(data: seq<Byte>, maxOffset: nat): Disk {
    Disk(data, |data|, Cursor(0, false), false, true, [], maxOffset)
  }

  /** `Bytes`: remember the offset, rewind, read `size` bytes in full, go back. */
  function DiskBytes(d: Disk): (Disk, Answer) {
    var saved := d.file.pos;
    var rewound := d.(file := d.file.(pos := 0));
    var (a, pos) := FileRead(rewound.content, 0, d.size);
    var read := rewound.(file := rewound.file.(pos := pos));
    (read.(file := read.file.(pos := saved)), a)
  }

  function DiskStep(d: Disk, op: Op): (Disk, Answer) {
    match op
    case Read(n) =>
      if d.closed then (d, StorageClosed)
      else var (a, pos) := FileRead(d.content, d.file.pos, n); (d.(file := d.file.(pos := pos)), a)
    case Seek(offset, whence) =>
      if d.closed then (d, StorageClosed)
      else (match FileTarget(d.file.pos, |d.content|, offset, whence, d.maxOffset)
            case None => (d, SeekRefused)
            case Some(to) => (d.(file := d.file.(pos := to)), Position(to)))
    case GetBytes => if d.closed then (d, StorageClosed) else DiskBytes(d)
    case GetSize => (d, Length(d.size))
    case Close => (if d.closed then d else d.(closed := true, file := d.file.(closed := true), linked := false), Done)
    case NewReader =>
      if d.closed then (d, StorageClosed)
      else if !d.linked then (d, OpenFailed)
      else (d.(readers := d.readers + [Cursor(0, false)]), Opened(|d.readers|))
    case ReadFrom(r, n) =>
      if r >= |d.readers| then (d, NoSuchReader)
      else if d.readers[r].closed then (d, ReaderClosed)
      else
        var (a, pos) := FileRead(d.content, d.readers[r].pos, n);
        (d.(readers := d.readers[r := d.readers[r].(pos := pos)]), a)
    case CloseReader(r) =>
      if r >= |d.readers| then (d, NoSuchReader)
      else if d.readers[r].closed then (d, ReaderClosed)
      else (d.(readers := d.readers[r := d.readers[r].(closed := true)]), Done)
    case RemoveFile => (d.(linked := false), Done)
  }

  // ----- Trace equivalence -----

  function MemoryTrace(m: Memory, ops: seq<Op>): seq<Answer>
    decreases |ops|
  {
    if ops == [] then [] else var (next, a) := MemoryStep(m, ops[0]); [a] + MemoryTrace(next, ops[1..])
  }

  function DiskTrace(d: Disk, ops: seq<Op>): seq<Answer>
    decreases |ops|
  {
    if ops == [] then [] else var (next, a) := DiskStep(d, ops[0]); [a] + DiskTrace(next, ops[1..])
  }

  predicate Same(m: Memory, d: Disk) {
    && d.content == m.data && d.size == |m.data|
    && d.file == Cursor(m.pos, m.closed) && d.closed == m.closed
    && d.readers == m.readers
  }

  /** A seek that a buffer and a file answer differently. */
  predicate TellingSeek(d: Disk, offset: int, whence: int) {
    if whence == SEEK_DATA || whence == SEEK_HOLE then 0 <= offset < |d.content|
    else
      var target := Target(d.file.pos, |d.content|, offset, whence);
      target.Some? && target.value > d.maxOffset
  }

  /** Where the two variants can be told apart: an empty read at the end, a seek from an origin only a file knows or
      to an offset only a buffer accepts, a new reader once the cleaner removed the file, and a reader used after
      its close. */
  predicate Telling(d: Disk, op: Op) {
    match op
    case Read(n) => !d.closed && n == 0 && d.file.pos >= |d.content|
    case Seek(offset, whence) => !d.closed && TellingSeek(d, offset, whence)
    case NewReader => !d.closed && !d.linked
    case ReadFrom(r, n) =>
      r < |d.readers| && (d.readers[r].closed || (n == 0 && d.readers[r].pos >= |d.content|))
    case CloseReader(r) => r < |d.readers| && d.readers[r].closed
    case _ => false
  }

  predicate Indistinct(d: Disk, ops: seq<Op>)
    decreases |ops|
  {
    ops == [] || (!Telling(d, ops[0]) && Indistinct(DiskStep(d, ops[0]).0, ops[1..]))
  }

  lemma StepsAgreeIff(m: Memory, d: Disk, op: Op)
    requires Same(m, d)
    ensures MemoryStep(m, op).1 == DiskStep(d, op).1 <==> !Telling(d, op)
    ensures !Telling(d, op) ==> Same(MemoryStep(m, op).0, DiskStep(d, op).0)
  {
  }

  /** Over the same bytes the two variants answer every sequence of calls alike, unless a call is one of the
      telling ones. */
  lemma {:induction false} TracesAgreeIff(m: Memory, d: Disk, ops: seq<Op>)
    requires Same(m, d)
    ensures MemoryTrace(m, ops) == DiskTrace(d, ops) <==> Indistinct(d, ops)
    decreases |ops|
  {
    if ops != [] {
      StepsAgreeIff(m, d, ops[0]);
      var (m', a) := MemoryStep(m, ops[0]);
      var (d', b) := DiskStep(d, ops[0]);
      assert MemoryTrace(m, ops)[0] == a && DiskTrace(d, ops)[0] == b;
      if a == b {
        TracesAgreeIff(m', d', ops[1..]);
        assert MemoryTrace(m, ops)[1..] == MemoryTrace(m', ops[1..]);
        assert DiskTrace(d, ops)[1..] == DiskTrace(d', ops[1..]);
      }
    }
  }

  /** The two constructors start alike. */
  lemma FreshStoragesAgreeIff(data: seq<Byte>, maxOffset: nat, ops: seq<Op>)
    ensures MemoryTrace(NewMemory(data), ops) == DiskTrace(NewDisk(data, maxOffset), ops)
            <==> Indistinct(NewDisk(data, maxOffset), ops)
  {
    TracesAgreeIff(NewMemory(data), NewDisk(data, maxOffset), ops);
  }

  /** Each kind of telling call occurs on a fresh storage. */
  lemma TellingCalls(byte: Byte, maxOffset: nat)
    requires 1 <= maxOffset < MAX_INT64
    ensures !Indistinct(NewDisk([], maxOffset), [Read(0)])
    ensures !Indistinct(NewDisk([byte], maxOffset), [Seek(0, SEEK_DATA)])
    ensures !Indistinct(NewDisk([byte], maxOffset), [Seek(maxOffset + 1, 0)])
    ensures !Indistinct(NewDisk([byte], maxOffset), [RemoveFile, NewReader])
    ensures !Indistinct(NewDisk([byte], maxOffset), [NewReader, CloseReader(0), CloseReader(0)])
  {
    assert [RemoveFile, NewReader][1..] == [NewReader];
    assert [NewReader, CloseReader(0), CloseReader(0)][1..] == [CloseReader(0), CloseReader(0)];
    assert [CloseReader(0), CloseReader(0)][1..] == [CloseReader(0)];
  }

  predicate Uses(op: Op, reader: nat) {
    (op.ReadFrom? || op.CloseReader?) && op.reader == reader
  }

  /** To an absolute offset that the file system accepts, or not beyond the cursor or the end. */
  predicate OrdinarySeek(offset: int, whence: int, maxOffset: nat) {
    (whence == 0 && offset <= maxOffset) || (1 <= whence <= 2 && offset <= 0)
  }

  /** Calls that are harmless by their text alone: non-empty reads, ordinary seeks, no new reader after the cleaner
      came by, and no use of a reader after a call that closes it. */
  predicate Ordinary(ops: seq<Op>, maxOffset: nat) {
    && (forall i :: 0 <= i < |ops| && (ops[i].Read? || ops[i].ReadFrom?) ==> ops[i].n > 0)
    && (forall i :: 0 <= i < |ops| && ops[i].Seek? ==> OrdinarySeek(ops[i].offset, ops[i].whence, maxOffset))
    && (forall i, j :: 0 <= i < j < |ops| && ops[i].RemoveFile? ==> !ops[j].NewReader?)
    && (forall i, j :: 0 <= i < j < |ops| && ops[i].CloseReader? ==> !Uses(ops[j], ops[i].reader))
  }

  /** What ordinary calls leave harmless: closed readers are not used again, a missing file is not opened again. */
  predicate Harmless(d: Disk, ops: seq<Op>) {
    && |d.content| <= d.maxOffset && d.file.pos <= d.maxOffset
    && (forall r, i :: 0 <= r < |d.readers| && d.readers[r].closed && 0 <= i < |ops| ==> !Uses(ops[i], r))
    && (!d.linked && !d.closed ==> forall i :: 0 <= i < |ops| ==> !ops[i].NewReader?)
  }

  lemma HarmlessStep(d: Disk, ops: seq<Op>)
    requires Ordinary(ops, d.maxOffset) && Harmless(d, ops) && ops != []
    ensures !Telling(d, ops[0]) && Harmless(DiskStep(d, ops[0]).0, ops[1..]) && Ordinary(ops[1..], d.maxOffset)
    ensures DiskStep(d, ops[0]).0.maxOffset == d.maxOffset
  {
    var next := DiskStep(d, ops[0]).0;
    assert forall r :: 0 <= r < |d.readers| && d.readers[r].closed ==> !Uses(ops[0], r);
    forall r, i | 0 <= r < |next.readers| && next.readers[r].closed && 0 <= i < |ops[1..]| ensures !Uses(ops[1..][i], r) {
      assert ops[1..][i] == ops[i + 1];
      if r < |d.readers| && d.readers[r].closed {
        assert !Uses(ops[i + 1], r);
      } else {
        assert ops[0] == CloseReader(r);
      }
    }
    assert forall i :: 0 <= i < |ops[1..]| ==> ops[1..][i] == ops[i + 1];
  }

  lemma {:induction false} OrdinaryIsIndistinct(d: Disk, ops: seq<Op>)
    requires Ordinary(ops, d.maxOffset) && Harmless(d, ops)
    ensures Indistinct(d, ops)
    decreases |ops|
  {
    hide DiskStep;
    hide Harmless;
    hide Ordinary;
    if ops != [] {
      HarmlessStep(d, ops);
      OrdinaryIsIndistinct(DiskStep(d, ops[0]).0, ops[1..]);
    }
  }

  /** So for ordinary calls the choice of storage cannot be observed. */
  lemma OrdinaryCallsAgree(data: seq<Byte>, maxOffset: nat, ops: seq<Op>)
    requires |data| <= maxOffset && Ordinary(ops, maxOffset)
    ensures MemoryTrace(NewMemory(data), ops) == DiskTrace(NewDisk(data, maxOffset), ops)
  {
    OrdinaryIsIndistinct(NewDisk(data, maxOffset), ops);
    FreshStoragesAgreeIff(data, maxOffset, ops);
  }

  // ----- What the interface promises -----

  function MemoryAfter(m: Memory, ops: seq<Op>): Memory
    decreases |ops|
  {
    if ops == [] then m else MemoryAfter(MemoryStep(m, ops[0]).0, ops[1..])
  }

  predicate NeedsStorage(op: Op) {
    op.Read? || op.Seek? || op.GetBytes? || op.NewReader?
  }

  /** Once closed, a storage refuses everything but `Close` and `Size`, and stays closed. */
  lemma {:induction false} ClosedForGood(m: Memory, ops: seq<Op>, i: nat)
    requires m.closed && i < |ops| && NeedsStorage(ops[i])
    ensures |MemoryTrace(m, ops)| == |ops| && MemoryTrace(m, ops)[i] == StorageClosed
    decreases |ops|
  {
    TraceLength(m, ops);
    if i > 0 {
      ClosedForGood(MemoryStep(m, ops[0]).0, ops[1..], i - 1);
    }
  }

  lemma {:induction false} TraceLength(m: Memory, ops: seq<Op>)
    ensures |MemoryTrace(m, ops)| == |ops|
    decreases |ops|
  {
    if ops != [] {
      TraceLength(MemoryStep(m, ops[0]).0, ops[1..]);
    }
  }

  /** Everything reader `r` was handed during a sequence of calls, in order. */
  function Collected(m: Memory, r: nat, ops: seq<Op>): seq<Byte>
    decreases |ops|
  {
    if ops == [] then []
    else
      var (next, a) := MemoryStep(m, ops[0]);
      (if ops[0].ReadFrom? && ops[0].reader == r && a.Data? then a.bytes else []) + Collected(next, r, ops[1..])
  }

  lemma ReaderStep(m: Memory, r: nat, op: Op)
    requires r < |m.readers| && m.readers[r].pos <= |m.data|
    ensures var (next, a) := MemoryStep(m, op);
            && next.data == m.data && r < |next.readers|
            && m.readers[r].pos <= next.readers[r].pos <= |m.data|
            && (if op.ReadFrom? && op.reader == r && a.Data? then a.bytes else [])
               == m.data[m.readers[r].pos..next.readers[r].pos]
  {
  }

  /** Readers replay the body independently: whatever happens in between, on the storage (its closing
      included) and on other readers, a reader is handed exactly the bytes its own cursor passes over. */
  lemma {:induction false} ReaderReplaysBody(m: Memory, r: nat, ops: seq<Op>)
    requires r < |m.readers| && m.readers[r].pos <= |m.data|
    ensures var after := MemoryAfter(m, ops);
            && after.data == m.data && r < |after.readers|
            && m.readers[r].pos <= after.readers[r].pos <= |m.data|
            && Collected(m, r, ops) == m.data[m.readers[r].pos..after.readers[r].pos]
    decreases |ops|
  {
    hide MemoryStep;
    if ops != [] {
      ReaderStep(m, r, ops[0]);
      ReaderReplaysBody(MemoryStep(m, ops[0]).0, r, ops[1..]);
    }
  }

  /** The storage's own cursor moves only on its own reads and seeks. */
  lemma {:induction false} CursorIsPrivate(m: Memory, ops: seq<Op>)
    requires forall i :: 0 <= i < |ops| ==> !ops[i].Read? && !ops[i].Seek?
    ensures MemoryAfter(m, ops).pos == m.pos
    decreases |ops|
  {
    if ops != [] {
      CursorIsPrivate(MemoryStep(m, ops[0]).0, ops[1..]);
    }
  }

  /** Before its end a read of `n` bytes hands out the next `n`, or all that are left, and moves the cursor past them.
      The same holds of a reader. */
  lemma ReadMeans(m: Memory, r: nat, n: nat)
    requires !m.closed && r < |m.readers| && !m.readers[r].closed
    ensures var at, (next, a) := m.pos, MemoryStep(m, Read(n));
            at < |m.data| ==>
              && a.Data? && |a.bytes| == (if n <= |m.data| - at then n else |m.data| - at)
              && a.bytes == m.data[at..at + |a.bytes|] && next.pos == at + |a.bytes|
    ensures var at, (next, a) := m.readers[r].pos, MemoryStep(m, ReadFrom(r, n));
            at < |m.data| ==>
              && a.Data? && |a.bytes| == (if n <= |m.data| - at then n else |m.data| - at)
              && a.bytes == m.data[at..at + |a.bytes|] && next.readers[r].pos == at + |a.bytes|
    ensures n > 0 && m.pos >= |m.data| ==> MemoryStep(m, Read(n)) == (m, EndOfFile)
  {
  }

  /** A seek counts from the start, the cursor or the end, and a read then starts there. */
  lemma SeekMeans(m: Memory, offset: int, whence: int, n: nat)
    requires !m.closed && 0 <= whence <= 2
    ensures var to := [0, m.pos, |m.data|][whence] + offset;
            var (next, a) := MemoryStep(m, Seek(offset, whence));
            && (a.Position? <==> 0 <= to <= MAX_INT64)
            && (!a.Position? ==> a == SeekRefused && next == m)
            && (a.Position? ==> a.at == to && next.pos == to)
            && (a.Position? && to + n <= |m.data| && n > 0 ==> MemoryStep(next, Read(n)).1 == Data(m.data[to..to + n]))
  {
  }

  /** A new reader starts at the beginning: whatever follows, it is handed the body from there. */
  lemma NewReaderReplays(m: Memory, ops: seq<Op>)
    requires !m.closed
    ensures var r, (next, a) := |m.readers|, MemoryStep(m, NewReader);
            && a == Opened(r) && r < |MemoryAfter(next, ops).readers|
            && MemoryAfter(next, ops).readers[r].pos <= |m.data|
            && Collected(next, r, ops) == m.data[..MemoryAfter(next, ops).readers[r].pos]
  {
    ReaderReplaysBody(MemoryStep(m, NewReader).0, |m.readers|, ops);
  }

  /** In every sequence of calls a call finds the storage closed exactly when it needs the storage and a `Close` came
      before; until then `Bytes` answers with the whole body, and the size is always known. */
  lemma {:induction false} ClosedIff(m: Memory, ops: seq<Op>, i: nat)
    requires !m.closed && i < |ops|
    ensures |MemoryTrace(m, ops)| == |ops|
    ensures MemoryTrace(m, ops)[i] == StorageClosed <==> NeedsStorage(ops[i]) && Close in ops[..i]
    ensures ops[i] == GetBytes && Close !in ops[..i] ==> MemoryTrace(m, ops)[i] == Data(m.data)
    ensures ops[i] == GetSize ==> MemoryTrace(m, ops)[i] == Length(|m.data|)
    decreases |ops|
  {
    TraceLength(m, ops);
    if i > 0 {
      var next := MemoryStep(m, ops[0]).0;
      assert ops[..i] == [ops[0]] + ops[1..][..i - 1];
      if ops[0] == Close {
        AfterClose(next, ops[1..], i - 1);
      } else {
        ClosedIff(next, ops[1..], i - 1);
      }
    }
  }

  lemma {:induction false} AfterClose(m: Memory, ops: seq<Op>, i: nat)
    requires m.closed && i < |ops|
    ensures |MemoryTrace(m, ops)| == |ops|
    ensures MemoryTrace(m, ops)[i] == StorageClosed <==> NeedsStorage(ops[i])
    ensures ops[i] == GetSize ==> MemoryTrace(m, ops)[i] == Length(|m.data|)
    decreases |ops|
  {
    TraceLength(m, ops);
    if i > 0 {
      AfterClose(MemoryStep(m, ops[0]).0, ops[1..], i - 1);
    }
  }

  // ----- The same promises for the file variant -----

  function DiskAfter(d: Disk, ops: seq<Op>): Disk
    decreases |ops|
  {
    if ops == [] then d else DiskAfter(DiskStep(d, ops[0]).0, ops[1..])
  }

  lemma {:induction false} DiskClosedForGood(d: Disk, ops: seq<Op>, i: nat)
    requires d.closed && i < |ops| && NeedsStorage(ops[i])
    ensures |DiskTrace(d, ops)| == |ops| && DiskTrace(d, ops)[i] == StorageClosed
    decreases |ops|
  {
    DiskTraceLength(d, ops);
    if i > 0 {
      DiskClosedForGood(DiskStep(d, ops[0]).0, ops[1..], i - 1);
    }
  }

  lemma {:induction false} DiskTraceLength(d: Disk, ops: seq<Op>)
    ensures |DiskTrace(d, ops)| == |ops|
    decreases |ops|
  {
    if ops != [] {
      DiskTraceLength(DiskStep(d, ops[0]).0, ops[1..]);
    }
  }

  function DiskCollected(d: Disk, r: nat, ops: seq<Op>): seq<Byte>
    decreases |ops|
  {
    if ops == [] then []
    else
      var (next, a) := DiskStep(d, ops[0]);
      (if ops[0].ReadFrom? && ops[0].reader == r && a.Data? then a.bytes else []) + DiskCollected(next, r, ops[1..])
  }

  lemma DiskReaderStep(d: Disk, r: nat, op: Op)
    requires r < |d.readers| && d.readers[r].pos <= |d.content|
    ensures var (next, a) := DiskStep(d, op);
            && next.content == d.content && r < |next.readers|
            && d.readers[r].pos <= next.readers[r].pos <= |d.content|
            && (if op.ReadFrom? && op.reader == r && a.Data? then a.bytes else [])
               == d.content[d.readers[r].pos..next.readers[r].pos]
  {
  }

  /** A reader's descriptor keeps the content alive: it replays the body although the storage seeks away and back,
      closes, and unlinks the file. */
  lemma {:induction false} DiskReaderReplaysBody(d: Disk, r: nat, ops: seq<Op>)
    requires r < |d.readers| && d.readers[r].pos <= |d.content|
    ensures var after := DiskAfter(d, ops);
            && after.content == d.content && r < |after.readers|
            && d.readers[r].pos <= after.readers[r].pos <= |d.content|
            && DiskCollected(d, r, ops) == d.content[d.readers[r].pos..after.readers[r].pos]
    decreases |ops|
  {
    hide DiskStep;
    if ops != [] {
      DiskReaderStep(d, r, ops[0]);
      DiskReaderReplaysBody(DiskStep(d, ops[0]).0, r, ops[1..]);
    }
  }

  /** Although `Bytes` works through the storage's own descriptor, only reads and seeks leave it elsewhere. */
  lemma {:induction false} DiskCursorIsPrivate(d: Disk, ops: seq<Op>)
    requires forall i :: 0 <= i < |ops| ==> !ops[i].Read? && !ops[i].Seek?
    ensures DiskAfter(d, ops).file.pos == d.file.pos
    decreases |ops|
  {
    if ops != [] {
      DiskCursorIsPrivate(DiskStep(d, ops[0]).0, ops[1..]);
    }
  }

  /** Before its end a read of `n` bytes hands out the next `n`, or all that are left, and moves the cursor past them.
      The same holds of a reader. */
  lemma DiskReadMeans(d: Disk, r: nat, n: nat)
    requires !d.closed && r < |d.readers| && !d.readers[r].closed
    ensures var at, (next, a) := d.file.pos, DiskStep(d, Read(n));
            at < |d.content| ==>
              && a.Data? && |a.bytes| == (if n <= |d.content| - at then n else |d.content| - at)
              && a.bytes == d.content[at..at + |a.bytes|] && next.file.pos == at + |a.bytes|
    ensures var at, (next, a) := d.readers[r].pos, DiskStep(d, ReadFrom(r, n));
            at < |d.content| ==>
              && a.Data? && |a.bytes| == (if n <= |d.content| - at then n else |d.content| - at)
              && a.bytes == d.content[at..at + |a.bytes|] && next.readers[r].pos == at + |a.bytes|
    ensures n > 0 && d.file.pos >= |d.content| ==> DiskStep(d, Read(n)) == (d, EndOfFile)
  {
  }

  /** A seek counts from the start, the cursor or the end, and a read then starts there. */
  lemma DiskSeekMeans(d: Disk, offset: int, whence: int, n: nat)
    requires !d.closed && 0 <= whence <= 2
    ensures var to := [0, d.file.pos, |d.content|][whence] + offset;
            var (next, a) := DiskStep(d, Seek(offset, whence));
            && (a.Position? <==> 0 <= to <= MAX_INT64 && to <= d.maxOffset)
            && (!a.Position? ==> a == SeekRefused && next == d)
            && (a.Position? ==> a.at == to && next.file.pos == to)
            && (a.Position? && to + n <= |d.content| && n > 0 ==> DiskStep(next, Read(n)).1 == Data(d.content[to..to + n]))
  {
  }

  /** The two origins that only a file knows: the next data is right there, the next hole is the end. */
  lemma DiskHolesMean(d: Disk, offset: int)
    requires !d.closed && 0 <= offset < |d.content|
    ensures DiskStep(d, Seek(offset, 3)) == (d.(file := d.file.(pos := offset)), Position(offset))
    ensures DiskStep(d, Seek(offset, 4)) == (d.(file := d.file.(pos := |d.content|)), Position(|d.content|))
  {
  }

  /** A new reader starts at the beginning: whatever follows, it is handed the body from there. */
  lemma DiskNewReaderReplays(d: Disk, ops: seq<Op>)
    requires !d.closed && d.linked
    ensures var r, (next, a) := |d.readers|, DiskStep(d, NewReader);
            && a == Opened(r) && r < |DiskAfter(next, ops).readers|
            && DiskAfter(next, ops).readers[r].pos <= |d.content|
            && DiskCollected(next, r, ops) == d.content[..DiskAfter(next, ops).readers[r].pos]
  {
    DiskReaderReplaysBody(DiskStep(d, NewReader).0, |d.readers|, ops);
  }

  /** In every sequence of calls a call finds the storage closed exactly when it needs the storage and a `Close` came
      before; until then `Bytes` answers with the whole body, and the size is always known. */
  lemma {:induction false} DiskClosedIff(d: Disk, ops: seq<Op>, i: nat)
    requires !d.closed && i < |ops| && d.size == |d.content|
    ensures |DiskTrace(d, ops)| == |ops|
    ensures DiskTrace(d, ops)[i] == StorageClosed <==> NeedsStorage(ops[i]) && Close in ops[..i]
    ensures ops[i] == GetBytes && Close !in ops[..i] ==> DiskTrace(d, ops)[i] == Data(d.content)
    ensures ops[i] == GetSize ==> DiskTrace(d, ops)[i] == Length(|d.content|)
    decreases |ops|
  {
    DiskTraceLength(d, ops);
    if i > 0 {
      var next := DiskStep(d, ops[0]).0;
      assert ops[..i] == [ops[0]] + ops[1..][..i - 1];
      if ops[0] == Close {
        DiskAfterClose(next, ops[1..], i - 1);
      } else {
        DiskClosedIff(next, ops[1..], i - 1);
      }
    }
  }

  lemma {:induction false} DiskAfterClose(d: Disk, ops: seq<Op>, i: nat)
    requires d.closed && i < |ops| && d.size == |d.content|
    ensures |DiskTrace(d, ops)| == |ops|
    ensures DiskTrace(d, ops)[i] == StorageClosed <==> NeedsStorage(ops[i])
    ensures ops[i] == GetSize ==> DiskTrace(d, ops)[i] == Length(|d.content|)
    decreases |ops|
  {
    DiskTraceLength(d, ops);
    if i > 0 {
      DiskAfterClose(DiskStep(d, ops[0]).0, ops[1..], i - 1);
    }
  }

  // ----- Creation -----

  datatype CacheConfig = CacheConfig(enabled: bool, threshold: int, maxSize: int)

  datatype CreateError = TooLarge | ReadFailed | DiskFailed

  datatype Created = InMemory(data: seq<Byte>) | OnDisk(data: seq<Byte>)

  predicate DiskAvailable(cfg: CacheConfig, usage: int, size: int) {
    cfg.enabled && usage + size <= cfg.maxSize
  }

  /** Falls back to memory when the cache file cannot be written. */
  function CreateFromData(cfg: CacheConfig, usage: int, data: seq<Byte>, diskWorks: bool): Created {
    if cfg.enabled && |data| >= cfg.threshold && DiskAvailable(cfg, usage, |data|) && diskWorks
    then OnDisk(data) else InMemory(data)
  }

  /** `io.LimitReader`: at most `limit` bytes, none when the limit is not positive. */
  function Limited(content: seq<Byte>, limit: int): seq<Byte> {
    if limit <= 0 then [] else if limit < |content| then content[..limit] else content
  }

  /** The stream is copied straight to a file when its announced length is large enough and there is room. */
  predicate Streamed(cfg: CacheConfig, usage: int, contentLength: int) {
    && cfg.enabled && contentLength > 0 && contentLength >= cfg.threshold
    && DiskAvailable(cfg, usage, contentLength)
  }

  function CreateFromReader(cfg: CacheConfig, usage: int, content: seq<Byte>, readable: bool,
                            contentLength: int, maxBytes: int, diskWorks: bool): Result<Created, CreateError>
  {
    if Streamed(cfg, usage, contentLength) then
      if !diskWorks || !readable then Err(DiskFailed)
      else if |Limited(content, maxBytes + 1)| > maxBytes then Err(TooLarge)
      else Ok(OnDisk(Limited(content, maxBytes + 1)))
    else if !readable then Err(ReadFailed)
    else if |Limited(content, maxBytes + 1)| > maxBytes then Err(TooLarge)
    else Ok(CreateFromData(cfg, usage, Limited(content, maxBytes + 1), diskWorks))
  }

  /** A storage holds the full content, which fits the limit: a body is never truncated. A fitting stream is
      refused exactly when it cannot be read, or goes straight to a file that cannot be written; a stream that
      exceeds the limit is always refused, as too large unless one of these failures comes first. */
  lemma CreationKeepsEverythingOrNothing(cfg: CacheConfig, usage: int, content: seq<Byte>, readable: bool,
                                         contentLength: int, maxBytes: int, diskWorks: bool)
    ensures var r := CreateFromReader(cfg, usage, content, readable, contentLength, maxBytes, diskWorks);
            var failing := !readable || (Streamed(cfg, usage, contentLength) && !diskWorks);
            && (r.Ok? <==> |content| <= maxBytes && !failing)
            && (r.Ok? ==> r.value.data == content)
            && (r == Err(TooLarge) <==> |content| > maxBytes && !failing)
  {
  }

  /** To see that a stream is too long, one byte beyond the limit is read and no more. */
  lemma ReadsAtMostOneByteMore(content: seq<Byte>, maxBytes: nat)
    ensures Limited(content, maxBytes + 1) <= content
    ensures |Limited(content, maxBytes + 1)| == if |content| <= maxBytes then |content| else maxBytes + 1
  {
  }

  /** Where the body ends up: on disk exactly when the cache is on and the announced length reaches the threshold with
      room for it, or else the actual size does and the file can be written. A file written after its size was known
      never makes the usage exceed the configured maximum; one written while it was read does so exactly when the
      stream was longer than announced and longer than the room. */
  lemma DiskChosenIff(cfg: CacheConfig, usage: int, content: seq<Byte>, readable: bool, contentLength: int, maxBytes: int,
                      diskWorks: bool)
    ensures var r := CreateFromReader(cfg, usage, content, readable, contentLength, maxBytes, diskWorks);
            var announced := cfg.enabled && contentLength > 0 && contentLength >= cfg.threshold && usage + contentLength <= cfg.maxSize;
            var fits := cfg.enabled && |content| >= cfg.threshold && usage + |content| <= cfg.maxSize && diskWorks;
            r.Ok? ==>
              && (r.value.OnDisk? <==> announced || fits)
              && (r.value.OnDisk? && usage + |content| > cfg.maxSize ==> announced && |content| > contentLength)
  {
  }

  // ----- The storage objects -----

  /** A descriptor on an inode: its offset moves with reads and seeks. */
  class File {
    const content: seq<Byte>
    const maxOffset: nat
    var offset: nat
    var open: bool

    constructor (content: seq<Byte>, maxOffset: nat)
      ensures this.content == content && this.maxOffset == maxOffset && offset == 0 && open
    {
      this.content, this.maxOffset := content, maxOffset;
      offset, open := 0, true;
    }

    method Read(n: nat) returns (a: Answer)
      requires open
      modifies this
      ensures open && (a, offset) == FileRead(content, old(offset), n)
    {
      if n == 0 {
        return Data([]);
      }
      if offset >= |content| {
        return EndOfFile;
      }
      var s := Slice(content, offset, n);
      offset := offset + |s|;
      a := Data(s);
    }

    method Seek(to: int, whence: int) returns (a: Answer)
      requires open
      modifies this
      ensures open
      ensures match FileTarget(old(offset), |content|, to, whence, maxOffset)
              case None => a == SeekRefused && offset == old(offset)
              case Some(p) => a == Position(p) && offset == p
    {
      var target := FileTarget(offset, |content|, to, whence, maxOffset);
      match target
      case None => a := SeekRefused;
      case Some(p) =>
        offset := p;
        a := Position(p);
    }

    /** Saves the offset, rewinds, reads everything and goes back: the cursor ends where it was. */
    method ReadWhole(size: nat) returns (a: Answer)
      requires open && size == |content| <= maxOffset <= MAX_INT64 && offset <= maxOffset
      modifies this
      ensures open && offset == old(offset) && a == Data(content)
    {
      var current := Seek(0, 1);
      var _ := Seek(0, 0);
      a := Read(size);
      assert Slice(content, 0, size) == content;
      var _ := Seek(current.at, 0);
    }

    method CloseDescriptor()
      modifies this
      ensures !open && offset == old(offset)
    {
      open := false;
    }
  }

  ghost function FileCursors(files: seq<File>): (s: seq<Cursor>)
    reads files
    ensures |s| == |files| && forall i :: 0 <= i < |files| ==> s[i] == Cursor(files[i].offset, !files[i].open)
  {
    if files == [] then []
    else FileCursors(files[..|files| - 1]) + [Cursor(files[|files| - 1].offset, !files[|files| - 1].open)]
  }

  /** The file variant: every call works through a descriptor. `readers` lists the descriptors handed out. */
  class DiskStorage {
    const file: File
    const size: nat
    var closed: bool
    var linked: bool
    var readers: seq<File>

    ghost predicate Valid()
      reads this, file
    {
      && size == |file.content| <= file.maxOffset <= MAX_INT64 && file.offset <= file.maxOffset
      && closed == !file.open
      && file !in readers
      && (forall i :: 0 <= i < |readers| ==> readers[i].content == file.content)
      && (forall i, j :: 0 <= i < j < |readers| ==> readers[i] != readers[j])
    }

    ghost function Value(): Disk
      reads this, file, readers
    {
      Disk(file.content, size, Cursor(file.offset, !file.open), closed, linked, FileCursors(readers), file.maxOffset)
    }

    constructor (data: seq<Byte>, maxOffset: nat)
      requires |data| <= maxOffset <= MAX_INT64
      ensures Valid() && fresh(file) && readers == [] && Value() == NewDisk(data, maxOffset)
    {
      file := new File(data, maxOffset);
      size := |data|;
      closed, linked, readers := false, true, [];
    }

    method Read(n: nat) returns (a: Answer)
      requires Valid()
      modifies file
      ensures Valid() && (Value(), a) == DiskStep(old(Value()), Op.Read(n))
    {
      if closed {
        return StorageClosed;
      }
      a := file.Read(n);
      assert FileCursors(readers) == old(FileCursors(readers));
    }

    method Seek(offset: int, whence: int) returns (a: Answer)
      requires Valid()
      modifies file
      ensures Valid() && (Value(), a) == DiskStep(old(Value()), Op.Seek(offset, whence))
    {
      if closed {
        return StorageClosed;
      }
      a := file.Seek(offset, whence);
      assert FileCursors(readers) == old(FileCursors(readers));
    }

    method Bytes() returns (a: Answer)
      requires Valid()
      modifies file
      ensures Valid() && (Value(), a) == DiskStep(old(Value()), GetBytes)
      ensures file.offset == old(file.offset)
      ensures !closed ==> a == Data(file.content)
    {
      if closed {
        return StorageClosed;
      }
      a := file.ReadWhole(size);
      assert Slice(file.content, 0, size) == file.content;
      assert FileCursors(readers) == old(FileCursors(readers));
    }

    method CloseStorage() returns (first: bool)
      requires Valid()
      modifies this, file
      ensures Valid() && Value() == DiskStep(old(Value()), Close).0
      ensures first == !old(closed)
    {
      first := !closed;
      if !closed {
        closed := true;
        file.CloseDescriptor();
        linked := false;
      }
      assert FileCursors(readers) == old(FileCursors(readers));
    }

    /** Opens the file a second time, at its start. */
    method NewReader() returns (a: Answer)
      requires Valid()
      modifies this
      ensures Valid() && (Value(), a) == DiskStep(old(Value()), Op.NewReader)
      ensures a.Opened? ==> |readers| > 0 && fresh(readers[|readers| - 1])
    {
      hide FileCursors;
      if closed {
        return StorageClosed;
      }
      if !linked {
        return OpenFailed;
      }
      var reader := new File(file.content, file.maxOffset);
      a := Opened(|readers|);
      readers := readers + [reader];
      assert FileCursors(readers) == old(FileCursors(readers)) + [Cursor(0, false)];
    }

    /** The cache cleaner takes the path away; every open descriptor keeps the content. */
    method RemoveFile()
      requires Valid()
      modifies this`linked
      ensures Valid() && Value() == DiskStep(old(Value()), Op.RemoveFile).0
    {
      linked := false;
    }

    /** A read on a descriptor that was handed out: it does not involve the storage. */
    method ReadFrom(reader: nat, n: nat) returns (a: Answer)
      requires Valid() && reader < |readers|
      modifies readers[reader]
      ensures Valid() && (Value(), a) == DiskStep(old(Value()), Op.ReadFrom(reader, n))
    {
      hide FileCursors;
      if !readers[reader].open {
        return ReaderClosed;
      }
      a := readers[reader].Read(n);
      assert FileCursors(readers) == old(FileCursors(readers))[reader := Cursor(readers[reader].offset, false)];
    }

    method CloseReader(reader: nat) returns (a: Answer)
      requires Valid() && reader < |readers|
      modifies readers[reader]
      ensures Valid() && (Value(), a) == DiskStep(old(Value()), Op.CloseReader(reader))
    {
      hide FileCursors;
      if !readers[reader].open {
        return ReaderClosed;
      }
      readers[reader].CloseDescriptor();
      a := Done;
      assert FileCursors(readers) == old(FileCursors(readers))[reader := Cursor(readers[reader].offset, true)];
    }
  }

  /** A reader over the buffer. Its close does nothing, which the ghost `closed` remembers. */
  class BufferReader {
    const data: seq<Byte>
    var cursor: nat
    ghost var closed: bool

    constructor (data: seq<Byte>)
      ensures this.data == data && cursor == 0 && !closed
    {
      this.data := data;
      cursor, closed := 0, false;
    }

    method Read(n: nat) returns (a: Answer)
      modifies this
      ensures (a, cursor) == BufferRead(data, old(cursor), n) && closed == old(closed)
    {
      if cursor >= |data| {
        return EndOfFile;
      }
      var s := Slice(data, cursor, n);
      cursor := cursor + |s|;
      a := Data(s);
    }
  }

  ghost function BufferCursors(buffers: seq<BufferReader>): (s: seq<Cursor>)
    reads buffers
    ensures |s| == |buffers| && forall i :: 0 <= i < |buffers| ==> s[i] == Cursor(buffers[i].cursor, buffers[i].closed)
  {
    if buffers == [] then []
    else BufferCursors(buffers[..|buffers| - 1]) + [Cursor(buffers[|buffers| - 1].cursor, buffers[|buffers| - 1].closed)]
  }

  /** The memory variant: a buffer and a reader of its own. `readers` lists the readers handed out. */
  class MemoryStorage {
    const data: seq<Byte>
    const reader: BufferReader
    var closed: bool
    var readers: seq<BufferReader>

    ghost predicate Valid()
      reads this
    {
      && reader.data == data && reader !in readers
      && (forall i :: 0 <= i < |readers| ==> readers[i].data == data)
      && (forall i, j :: 0 <= i < j < |readers| ==> readers[i] != readers[j])
    }

    ghost function Value(): Memory
      reads this, reader, readers
    {
      Memory(data, reader.cursor, closed, BufferCursors(readers))
    }

    constructor (data: seq<Byte>)
      ensures Valid() && fresh(reader) && readers == [] && Value() == NewMemory(data)
    {
      this.data := data;
      reader := new BufferReader(data);
      closed, readers := false, [];
    }

    method Read(n: nat) returns (a: Answer)
      requires Valid()
      modifies reader
      ensures Valid() && (Value(), a) == MemoryStep(old(Value()), Op.Read(n))
    {
      if closed {
        return StorageClosed;
      }
      a := reader.Read(n);
      assert BufferCursors(readers) == old(BufferCursors(readers));
    }

    method Seek(offset: int, whence: int) returns (a: Answer)
      requires Valid()
      modifies reader
      ensures Valid() && (Value(), a) == MemoryStep(old(Value()), Op.Seek(offset, whence))
    {
      if closed {
        return StorageClosed;
      }
      var target := Target(reader.cursor, |data|, offset, whence);
      match target {
        case None => a := SeekRefused;
        case Some(p) =>
          reader.cursor := p;
          a := Position(p);
      }
      assert BufferCursors(readers) == old(BufferCursors(readers));
    }

    method Bytes() returns (a: Answer)
      requires Valid()
      ensures a == MemoryStep(Value(), GetBytes).1
      ensures !closed ==> a == Data(data)
    {
      a := if closed then StorageClosed else Data(data);
    }

    method CloseStorage() returns (first: bool)
      requires Valid()
      modifies this
      ensures Valid() && Value() == MemoryStep(old(Value()), Close).0
      ensures first == !old(closed)
    {
      first := !closed;
      closed := true;
    }

    method NewReader() returns (a: Answer)
      requires Valid()
      modifies this
      ensures Valid() && (Value(), a) == MemoryStep(old(Value()), Op.NewReader)
      ensures a.Opened? ==> |readers| > 0 && fresh(readers[|readers| - 1])
    {
      hide BufferCursors;
      if closed {
        return StorageClosed;
      }
      var next := new BufferReader(data);
      a := Opened(|readers|);
      readers := readers + [next];
      assert BufferCursors(readers) == old(BufferCursors(readers)) + [Cursor(0, false)];
    }

    /** A read on a reader that was handed out: it does not involve the storage, nor does its close matter. */
    method ReadFrom(reader: nat, n: nat) returns (a: Answer)
      requires Valid() && reader < |readers|
      modifies readers[reader]
      ensures Valid() && (Value(), a) == MemoryStep(old(Value()), Op.ReadFrom(reader, n))
    {
      a := readers[reader].Read(n);
      assert BufferCursors(readers)
          == old(BufferCursors(readers))[reader := Cursor(readers[reader].cursor, readers[reader].closed)];
    }

    method CloseReader(reader: nat) returns (a: Answer)
      requires Valid() && reader < |readers|
      modifies readers[reader]
      ensures Valid() && (Value(), a) == MemoryStep(old(Value()), Op.CloseReader(reader))
    {
      readers[reader].closed := true;
      a := Done;
      assert BufferCursors(readers) == old(BufferCursors(readers))[reader := Cursor(readers[reader].cursor, true)];
    }
  }
}
