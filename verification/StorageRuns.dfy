/**
  Whole runs of operations on one body kept in memory and on the same body kept in a file: what the two
  answer, and exactly when they answer differently.
 */
module StorageRuns {
  import opened Bytes
  import opened BodyStorage

  /** Operations on the storage and on the replay readers it has handed out, numbered in order. */
  datatype Op =
    | Read(n: nat)
    | Seek(offset: int, whence: Whence)
    | ReadWhole
    | NewReader
    | ReaderRead(id: nat, n: nat)
    | ReaderClose(id: nat)
    | Close

  datatype MemorySystem = MemorySystem(storage: Memory, readers: seq<Cursor>)
  datatype DiskSystem = DiskSystem(storage: Disk, readers: seq<Descriptor>)

  function MemoryStart(data: seq<Byte>): MemorySystem {
    MemorySystem(Memory(data, Cursor(data, 0), false), [])
  }

  function DiskStart(data: seq<Byte>): DiskSystem {
    DiskSystem(Disk(Descriptor(data, 0, true), |data|, true, false), [])
  }

  function OnMemory(m: MemorySystem, step: Step<Memory>): Step<MemorySystem> {
    Step(m.(storage := step.next), step.answer)
  }

  function MemoryStep(m: MemorySystem, op: Op): Step<MemorySystem> {
    match op
    case Read(n) => OnMemory(m, MemoryRead(m.storage, n))
    case Seek(offset, whence) => OnMemory(m, MemorySeek(m.storage, offset, whence))
    case ReadWhole => OnMemory(m, MemoryBytes(m.storage))
    case NewReader =>
      if m.storage.closed then Step(m, Fails(StorageClosed))
      else Step(m.(readers := m.readers + [Cursor(m.storage.data, 0)]), NewHandle)
    case ReaderRead(id, n) =>
      if id >= |m.readers| then Step(m, Fails(NoSuchReader))
      else
        var read := CursorRead(m.readers[id], n);
        Step(m.(readers := m.readers[id := read.next]), read.answer)
    case ReaderClose(id) => Step(m, if id >= |m.readers| then Fails(NoSuchReader) else Done)
    case Close => OnMemory(m, MemoryClose(m.storage))
  }

  function OnDiskStorage(d: DiskSystem, step: Step<Disk>): Step<DiskSystem> {
    Step(d.(storage := step.next), step.answer)
  }

  function OnFile(d: DiskSystem, id: nat, step: Step<Descriptor>): Step<DiskSystem>
    requires id < |d.readers|
  {
    Step(d.(readers := d.readers[id := step.next]), step.answer)
  }

  function DiskStep(d: DiskSystem, op: Op): Step<DiskSystem> {
    match op
    case Read(n) => OnDiskStorage(d, DiskRead(d.storage, n))
    case Seek(offset, whence) => OnDiskStorage(d, DiskSeek(d.storage, offset, whence))
    case ReadWhole => OnDiskStorage(d, DiskBytes(d.storage))
    case NewReader =>
      var answer := DiskNewReader(d.storage);
      if !answer.NewHandle? then Step(d, answer)
      else Step(d.(readers := d.readers + [Descriptor(d.storage.file.content, 0, true)]), NewHandle)
    case ReaderRead(id, n) =>
      if id >= |d.readers| then Step(d, Fails(NoSuchReader)) else OnFile(d, id, FileRead(d.readers[id], n))
    case ReaderClose(id) =>
      if id >= |d.readers| then Step(d, Fails(NoSuchReader)) else OnFile(d, id, FileClose(d.readers[id]))
    case Close => OnDiskStorage(d, DiskClose(d.storage))
  }

  // ---------------------------------------------------------------- one step

  /** What a file-backed storage keeps: its file is open and named exactly while it is not closed. */
  predicate DiskInv(d: DiskSystem, data: seq<Byte>) {
    && d.storage.file.content == data
    && d.storage.size == |data|
    && d.storage.file.open == d.storage.linked == !d.storage.closed
    && forall i :: 0 <= i < |d.readers| ==> d.readers[i].content == data
  }

  /** The two systems hold the same bytes at the same positions; a closed reader's position is not compared. */
  predicate Agree(m: MemorySystem, d: DiskSystem, data: seq<Byte>) {
    && m.storage.data == m.storage.reader.data == data
    && DiskInv(d, data)
    && m.storage.closed == d.storage.closed
    && m.storage.reader.pos == d.storage.file.pos
    && |m.readers| == |d.readers|
    && forall i :: 0 <= i < |m.readers| ==>
         m.readers[i].data == data && (d.readers[i].open ==> m.readers[i].pos == d.readers[i].pos)
  }

  predicate Answerable(n: nat, pos: nat, data: seq<Byte>) {
    n > 0 || pos < |data|
  }

  /** No empty read at the end of the body, and no use of a reader after it was closed. */
  predicate Regular(d: DiskSystem, op: Op) {
    match op
    case Read(n) => d.storage.closed || Answerable(n, d.storage.file.pos, d.storage.file.content)
    case ReaderRead(id, n) =>
      id < |d.readers| ==> d.readers[id].open && Answerable(n, d.readers[id].pos, d.readers[id].content)
    case ReaderClose(id) => id < |d.readers| ==> d.readers[id].open
    case _ => true
  }

  /** Reading the whole file through the shared cursor returns every byte and puts the cursor back. */
  lemma WholeBodyKeepsCursor(d: Disk)
    requires !d.closed && d.file.open && d.size == |d.file.content|
    ensures DiskBytes(d) == Step(d, Data(d.file.content))
  {
    var saved := FileSeek(d.file, 0, Current);
    var rewound := FileSeek(saved.next, 0, Start);
    assert rewound.next == Descriptor(d.file.content, 0, true);
    assert ReadFull(rewound.next, d.size).answer == Data(d.file.content);
  }

  /** Every step keeps the agreement, and the answers are equal exactly when the operation is regular. */
  lemma StepAgrees(m: MemorySystem, d: DiskSystem, op: Op, data: seq<Byte>)
    requires Agree(m, d, data)
    ensures Agree(MemoryStep(m, op).next, DiskStep(d, op).next, data)
    ensures MemoryStep(m, op).answer == DiskStep(d, op).answer <==> Regular(d, op)
  {
    match op
    case ReadWhole => if !d.storage.closed { WholeBodyKeepsCursor(d.storage); }
    case _ =>
  }

  // ---------------------------------------------------------------- runs

  function MemoryEnd(m: MemorySystem, ops: seq<Op>): MemorySystem
    decreases |ops|
  {
    if ops == [] then m else MemoryEnd(MemoryStep(m, ops[0]).next, ops[1..])
  }

  function MemoryAnswers(m: MemorySystem, ops: seq<Op>): (r: seq<Answer>)
    ensures |r| == |ops|
    decreases |ops|
  {
    if ops == [] then [] else [MemoryStep(m, ops[0]).answer] + MemoryAnswers(MemoryStep(m, ops[0]).next, ops[1..])
  }

  function DiskEnd(d: DiskSystem, ops: seq<Op>): DiskSystem
    decreases |ops|
  {
    if ops == [] then d else DiskEnd(DiskStep(d, ops[0]).next, ops[1..])
  }

  function DiskAnswers(d: DiskSystem, ops: seq<Op>): (r: seq<Answer>)
    ensures |r| == |ops|
    decreases |ops|
  {
    if ops == [] then [] else [DiskStep(d, ops[0]).answer] + DiskAnswers(DiskStep(d, ops[0]).next, ops[1..])
  }

  predicate RegularRun(d: DiskSystem, ops: seq<Op>)
    decreases |ops|
  {
    ops == [] || (Regular(d, ops[0]) && RegularRun(DiskStep(d, ops[0]).next, ops[1..]))
  }

  /** Over any run the two storages give the same answers exactly when every operation was regular. */
  lemma {:induction false} RunAgrees(m: MemorySystem, d: DiskSystem, ops: seq<Op>, data: seq<Byte>)
    requires Agree(m, d, data)
    ensures Agree(MemoryEnd(m, ops), DiskEnd(d, ops), data)
    ensures MemoryAnswers(m, ops) == DiskAnswers(d, ops) <==> RegularRun(d, ops)
    decreases |ops|
  {
    if ops != [] {
      StepAgrees(m, d, ops[0], data);
      var m', d' := MemoryStep(m, ops[0]).next, DiskStep(d, ops[0]).next;
      RunAgrees(m', d', ops[1..], data);
      assert MemoryAnswers(m, ops)[0] == MemoryStep(m, ops[0]).answer
          && DiskAnswers(d, ops)[0] == DiskStep(d, ops[0]).answer;
      assert MemoryAnswers(m, ops)[1..] == MemoryAnswers(m', ops[1..])
          && DiskAnswers(d, ops)[1..] == DiskAnswers(d', ops[1..]);
      assert MemoryAnswers(m, ops) == [MemoryAnswers(m, ops)[0]] + MemoryAnswers(m, ops)[1..];
      assert DiskAnswers(d, ops) == [DiskAnswers(d, ops)[0]] + DiskAnswers(d, ops)[1..];
    }
  }

  /** A caller's discipline: nonempty reads only, and each reader left alone once it is closed. */
  predicate Disciplined(ops: seq<Op>, released: set<nat>)
    decreases |ops|
  {
    ops == [] ||
    match ops[0]
    case Read(n) => n > 0 && Disciplined(ops[1..], released)
    case ReaderRead(id, n) => n > 0 && id !in released && Disciplined(ops[1..], released)
    case ReaderClose(id) => id !in released && Disciplined(ops[1..], released + {id})
    case _ => Disciplined(ops[1..], released)
  }

  lemma {:induction false} DisciplinedIsRegular(d: DiskSystem, ops: seq<Op>, released: set<nat>)
    requires Disciplined(ops, released)
    requires forall i: nat :: i < |d.readers| && !d.readers[i].open ==> i in released
    ensures RegularRun(d, ops)
    decreases |ops|
  {
    if ops != [] {
      var next := DiskStep(d, ops[0]).next;
      match ops[0]
      case ReaderClose(id) => DisciplinedIsRegular(next, ops[1..], released + {id});
      case _ => DisciplinedIsRegular(next, ops[1..], released);
    }
  }

  /** A caller with that discipline cannot tell a body in memory from the same body on disk. */
  lemma Interchangeable(data: seq<Byte>, ops: seq<Op>)
    requires Disciplined(ops, {})
    ensures MemoryAnswers(MemoryStart(data), ops) == DiskAnswers(DiskStart(data), ops)
  {
    RunAgrees(MemoryStart(data), DiskStart(data), ops, data);
    DisciplinedIsRegular(DiskStart(data), ops, {});
  }

  // ---------------------------------------------------------------- replay and closing

  /** The bytes that reader `id` delivered during a run. */
  function Delivered(ops: seq<Op>, answers: seq<Answer>, id: nat): seq<Byte>
    requires |ops| == |answers|
    decreases |ops|
  {
    if ops == [] then [] else Piece(ops[0], answers[0], id) + Delivered(ops[1..], answers[1..], id)
  }

  function Piece(op: Op, answer: Answer, id: nat): seq<Byte> {
    if op.ReaderRead? && op.id == id && answer.Data? then answer.bytes else []
  }

  /**
    Whatever else happens to the storage or to other readers, closing the storage included, a file reader
    delivers the body in order from where it stood, nothing skipped and nothing repeated.
   */
  lemma {:induction false} DiskReplays(d: DiskSystem, ops: seq<Op>, id: nat)
    requires id < |d.readers| && d.readers[id].pos <= |d.readers[id].content|
    ensures id < |DiskEnd(d, ops).readers|
    ensures d.readers[id].pos <= DiskEnd(d, ops).readers[id].pos <= |d.readers[id].content|
    ensures Delivered(ops, DiskAnswers(d, ops), id)
            == d.readers[id].content[d.readers[id].pos..DiskEnd(d, ops).readers[id].pos]
    decreases |ops|
  {
    if ops != [] {
      var next := DiskStep(d, ops[0]).next;
      DiskReaderStep(d, ops[0], id);
      DiskReplays(next, ops[1..], id);
      assert DiskAnswers(d, ops)[1..] == DiskAnswers(next, ops[1..]);
    }
  }

  lemma DiskReaderStep(d: DiskSystem, op: Op, id: nat)
    requires id < |d.readers| && d.readers[id].pos <= |d.readers[id].content|
    ensures var next, was := DiskStep(d, op).next, d.readers[id];
            && id < |next.readers|
            && next.readers[id].content == was.content
            && was.pos <= next.readers[id].pos <= |was.content|
            && Piece(op, DiskStep(d, op).answer, id) == was.content[was.pos..next.readers[id].pos]
  {
  }

  lemma {:induction false} MemoryReplays(m: MemorySystem, ops: seq<Op>, id: nat)
    requires id < |m.readers| && m.readers[id].pos <= |m.readers[id].data|
    ensures id < |MemoryEnd(m, ops).readers|
    ensures m.readers[id].pos <= MemoryEnd(m, ops).readers[id].pos <= |m.readers[id].data|
    ensures Delivered(ops, MemoryAnswers(m, ops), id)
            == m.readers[id].data[m.readers[id].pos..MemoryEnd(m, ops).readers[id].pos]
    decreases |ops|
  {
    if ops != [] {
      var next := MemoryStep(m, ops[0]).next;
      MemoryReaderStep(m, ops[0], id);
      MemoryReplays(next, ops[1..], id);
      assert MemoryAnswers(m, ops)[1..] == MemoryAnswers(next, ops[1..]);
    }
  }

  lemma MemoryReaderStep(m: MemorySystem, op: Op, id: nat)
    requires id < |m.readers| && m.readers[id].pos <= |m.readers[id].data|
    ensures var next, was := MemoryStep(m, op).next, m.readers[id];
            && id < |next.readers|
            && next.readers[id].data == was.data
            && was.pos <= next.readers[id].pos <= |was.data|
            && Piece(op, MemoryStep(m, op).answer, id) == was.data[was.pos..next.readers[id].pos]
  {
  }

  predicate AsksStorage(op: Op) {
    op.Read? || op.Seek? || op.ReadWhole? || op.NewReader?
  }

  /** From the first Close on, every operation that asks the storage itself reports that it is closed. */
  lemma {:induction false} ClosedForGood(m: MemorySystem, d: DiskSystem, ops: seq<Op>, k: nat)
    requires m.storage.closed && d.storage.closed && k < |ops| && AsksStorage(ops[k])
    ensures MemoryAnswers(m, ops)[k] == DiskAnswers(d, ops)[k] == Fails(StorageClosed)
    decreases |ops|
  {
    if k > 0 {
      ClosedForGood(MemoryStep(m, ops[0]).next, DiskStep(d, ops[0]).next, ops[1..], k - 1);
    }
  }

  /** The shortest run that tells the two apart: an empty read of an empty body. */
  lemma EmptyReadDiffers()
    ensures MemoryAnswers(MemoryStart([]), [Read(0)]) == [Fails(EndOfFile)]
    ensures DiskAnswers(DiskStart([]), [Read(0)]) == [Data([])]
  {
  }

  /** The other difference: a replay reader that was closed still reads in memory, and fails on disk. */
  lemma ClosedReaderDiffers(data: seq<Byte>, n: nat)
    requires data != [] && n > 0
    ensures var ops := [NewReader, ReaderClose(0), ReaderRead(0, n)];
            && MemoryAnswers(MemoryStart(data), ops) == [NewHandle, Done, Data(Chunk(data, 0, n))]
            && DiskAnswers(DiskStart(data), ops) == [NewHandle, Done, Fails(FileClosed)]
  {
    var read := ReaderRead(0, n);
    var m, d := MemoryStep(MemoryStart(data), NewReader).next, DiskStep(DiskStart(data), NewReader).next;
    var m', d' := MemoryStep(m, ReaderClose(0)).next, DiskStep(d, ReaderClose(0)).next;
    assert [NewReader, ReaderClose(0), read][1..] == [ReaderClose(0), read] && [ReaderClose(0), read][1..] == [read];
    assert [read][1..] == [];
    assert MemoryAnswers(m', [read]) == [Data(Chunk(data, 0, n))] && DiskAnswers(d', [read]) == [Fails(FileClosed)];
    assert MemoryAnswers(m, [ReaderClose(0), read]) == [Done] + MemoryAnswers(m', [read]);
    assert DiskAnswers(d, [ReaderClose(0), read]) == [Done] + DiskAnswers(d', [read]);
  }
}
