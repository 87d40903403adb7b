/**
  Request bodies kept in memory or in a file behind one interface. What each operation does to a storage is
  a function of its state; the classes update that state in place.
 */
module BodyStorage {
  import opened Bytes
  import opened CacheStats

  datatype Whence = Start | Current | End

  datatype Failure =
    | StorageClosed | FileClosed | FileMissing | EndOfFile | UnexpectedEnd | BadPosition | NoSuchReader
    | TooLarge | DiskFailed

  datatype Answer =
    | Data(bytes: seq<Byte>)
    | At(position: nat)
    | NewHandle
    | Done
    | Fails(failure: Failure)

  datatype Step<S> = Step(next: S, answer: Answer)

  /** At most `n` bytes from position `pos`. */
  function Chunk(data: seq<Byte>, pos: nat, n: nat): seq<Byte> {
    if pos >= |data| then []
    else if pos + n <= |data| then data[pos..pos + n]
    else data[pos..]
  }

  function SeekTarget(size: nat, pos: nat, offset: int, whence: Whence): int {
    offset + match whence case Start => 0 case Current => pos case End => size
  }

  // ---------------------------------------------------------------- cursors

  /** A reader over bytes in memory. Closing one that was handed out does nothing. */
  datatype Cursor = Cursor(data: seq<Byte>, pos: nat)

  function CursorRead(c: Cursor, n: nat): Step<Cursor> {
    if c.pos >= |c.data| then Step(c, Fails(EndOfFile))
    else
      var chunk := Chunk(c.data, c.pos, n);
      Step(c.(pos := c.pos + |chunk|), Data(chunk))
  }

  function CursorSeek(c: Cursor, offset: int, whence: Whence): Step<Cursor> {
    var target := SeekTarget(|c.data|, c.pos, offset, whence);
    if target < 0 then Step(c, Fails(BadPosition)) else Step(c.(pos := target), At(target))
  }

  class BytesReader {
    const data: seq<Byte>
    var pos: nat

    constructor (data: seq<Byte>)
      ensures View() == Cursor(data, 0)
    {
      this.data, pos := data, 0;
    }

    function View(): Cursor
      reads this
    {
      Cursor(data, pos)
    }

    method Read(n: nat) returns (a: Answer)
      modifies this
      ensures Step(View(), a) == CursorRead(old(View()), n)
    {
      if pos >= |data| {
        return Fails(EndOfFile);
      }
      var end := if pos + n <= |data| then pos + n else |data|;
      assert data[pos..end] == Chunk(data, pos, n);
      a := Data(data[pos..end]);
      pos := end;
    }

    method Seek(offset: int, whence: Whence) returns (a: Answer)
      modifies this
      ensures Step(View(), a) == CursorSeek(old(View()), offset, whence)
    {
      var target := SeekTarget(|data|, pos, offset, whence);
      if target < 0 {
        return Fails(BadPosition);
      }
      pos := target;
      a := At(target);
    }
  }

  /** An open file. Unlike a memory reader it answers an empty read with no bytes, and can be closed. */
  datatype Descriptor = Descriptor(content: seq<Byte>, pos: nat, open: bool)

  function FileRead(f: Descriptor, n: nat): Step<Descriptor> {
    if !f.open then Step(f, Fails(FileClosed))
    else if n == 0 then Step(f, Data([]))
    else if f.pos >= |f.content| then Step(f, Fails(EndOfFile))
    else
      var chunk := Chunk(f.content, f.pos, n);
      Step(f.(pos := f.pos + |chunk|), Data(chunk))
  }

  function FileSeek(f: Descriptor, offset: int, whence: Whence): Step<Descriptor> {
    var target := SeekTarget(|f.content|, f.pos, offset, whence);
    if !f.open then Step(f, Fails(FileClosed))
    else if target < 0 then Step(f, Fails(BadPosition))
    else Step(f.(pos := target), At(target))
  }

  function FileClose(f: Descriptor): Step<Descriptor> {
    if !f.open then Step(f, Fails(FileClosed)) else Step(f.(open := false), Done)
  }

  /** Exactly `n` bytes or a failure. */
  function ReadFull(f: Descriptor, n: nat): Step<Descriptor> {
    if n == 0 then Step(f, Data([]))
    else
      var read := FileRead(f, n);
      if read.answer.Data? && |read.answer.bytes| < n then read.(answer := Fails(UnexpectedEnd)) else read
  }

  class OpenFile {
    const content: seq<Byte>
    var pos: nat
    var open: bool

    constructor (content: seq<Byte>)
      ensures View() == Descriptor(content, 0, true)
    {
      this.content, pos, open := content, 0, true;
    }

    function View(): Descriptor
      reads this
    {
      Descriptor(content, pos, open)
    }

    method Read(n: nat) returns (a: Answer)
      modifies this
      ensures Step(View(), a) == FileRead(old(View()), n)
    {
      if !open {
        return Fails(FileClosed);
      }
      if n == 0 {
        return Data([]);
      }
      if pos >= |content| {
        return Fails(EndOfFile);
      }
      var end := if pos + n <= |content| then pos + n else |content|;
      assert content[pos..end] == Chunk(content, pos, n);
      a := Data(content[pos..end]);
      pos := end;
    }

    method ReadAll(n: nat) returns (a: Answer)
      modifies this
      ensures Step(View(), a) == ReadFull(old(View()), n)
    {
      if n == 0 {
        return Data([]);
      }
      a := Read(n);
      if a.Data? && |a.bytes| < n {
        a := Fails(UnexpectedEnd);
      }
    }

    method Seek(offset: int, whence: Whence) returns (a: Answer)
      modifies this
      ensures Step(View(), a) == FileSeek(old(View()), offset, whence)
    {
      if !open {
        return Fails(FileClosed);
      }
      var target := SeekTarget(|content|, pos, offset, whence);
      if target < 0 {
        return Fails(BadPosition);
      }
      pos := target;
      a := At(target);
    }

    method Close() returns (a: Answer)
      modifies this
      ensures Step(View(), a) == FileClose(old(View()))
    {
      if !open {
        return Fails(FileClosed);
      }
      open := false;
      a := Done;
    }
  }

  // ---------------------------------------------------------------- storages

  datatype Memory = Memory(data: seq<Byte>, reader: Cursor, closed: bool)

  function MemoryRead(m: Memory, n: nat): Step<Memory> {
    if m.closed then Step(m, Fails(StorageClosed))
    else
      var read := CursorRead(m.reader, n);
      Step(m.(reader := read.next), read.answer)
  }

  function MemorySeek(m: Memory, offset: int, whence: Whence): Step<Memory> {
    if m.closed then Step(m, Fails(StorageClosed))
    else
      var sought := CursorSeek(m.reader, offset, whence);
      Step(m.(reader := sought.next), sought.answer)
  }

  function MemoryBytes(m: Memory): Step<Memory> {
    Step(m, if m.closed then Fails(StorageClosed) else Data(m.data))
  }

  function MemoryClose(m: Memory): Step<Memory> {
    Step(m.(closed := true), Done)
  }

  class MemoryStorage {
    const data: seq<Byte>
    const reader: BytesReader
    var closed: bool

    constructor (data: seq<Byte>, stats: Counters)
      modifies stats
      ensures View() == Memory(data, Cursor(data, 0), false) && fresh(reader)
      ensures stats.View() == Opened(old(stats.View()), InMemory, |data|)
    {
      stats.IncrementMemoryBuffers(|data|);
      var r := new BytesReader(data);
      this.data, reader, closed := data, r, false;
    }

    function View(): Memory
      reads this, reader
    {
      Memory(data, reader.View(), closed)
    }

    method Read(n: nat) returns (a: Answer)
      modifies reader
      ensures Step(View(), a) == MemoryRead(old(View()), n)
    {
      if closed {
        return Fails(StorageClosed);
      }
      a := reader.Read(n);
    }

    method Seek(offset: int, whence: Whence) returns (a: Answer)
      modifies reader
      ensures Step(View(), a) == MemorySeek(old(View()), offset, whence)
    {
      if closed {
        return Fails(StorageClosed);
      }
      a := reader.Seek(offset, whence);
    }

    method Bytes() returns (a: Answer)
      ensures Step(View(), a) == MemoryBytes(View())
    {
      a := if closed then Fails(StorageClosed) else Data(data);
    }

    /** Only the first call releases the counters. */
    method Close(stats: Counters)
      modifies this, stats
      ensures View() == MemoryClose(old(View())).next
      ensures stats.View() == if old(closed) then old(stats.View()) else Released(old(stats.View()), InMemory, |data|)
    {
      if !closed {
        closed := true;
        stats.DecrementMemoryBuffers(|data|);
      }
    }

    method NewReader() returns (a: Answer, r: BytesReader?)
      ensures a == if closed then Fails(StorageClosed) else NewHandle
      ensures (r == null) == closed
      ensures r != null ==> fresh(r) && r.View() == Cursor(data, 0)
    {
      if closed {
        return Fails(StorageClosed), null;
      }
      r := new BytesReader(data);
      a := NewHandle;
    }
  }

  /** `linked` says whether the cache file still has its name. */
  datatype Disk = Disk(file: Descriptor, size: nat, linked: bool, closed: bool)

  function DiskRead(d: Disk, n: nat): Step<Disk> {
    if d.closed then Step(d, Fails(StorageClosed))
    else
      var read := FileRead(d.file, n);
      Step(d.(file := read.next), read.answer)
  }

  function DiskSeek(d: Disk, offset: int, whence: Whence): Step<Disk> {
    if d.closed then Step(d, Fails(StorageClosed))
    else
      var sought := FileSeek(d.file, offset, whence);
      Step(d.(file := sought.next), sought.answer)
  }

  /** Save the cursor, rewind, read the whole file, restore the cursor. */
  function DiskBytes(d: Disk): Step<Disk> {
    if d.closed then Step(d, Fails(StorageClosed))
    else
      var saved := FileSeek(d.file, 0, Current);
      if saved.answer.Fails? then Step(d.(file := saved.next), saved.answer)
      else
        var rewound := FileSeek(saved.next, 0, Start);
        if rewound.answer.Fails? then Step(d.(file := rewound.next), rewound.answer)
        else
          var read := ReadFull(rewound.next, d.size);
          if read.answer.Fails? then Step(d.(file := read.next), read.answer)
          else
            var restored := FileSeek(read.next, if saved.answer.At? then saved.answer.position else 0, Start);
            Step(d.(file := restored.next), if restored.answer.Fails? then restored.answer else read.answer)
  }

  function DiskClose(d: Disk): Step<Disk> {
    if d.closed then Step(d, Done)
    else Step(d.(closed := true, linked := false, file := FileClose(d.file).next), Done)
  }

  function DiskNewReader(d: Disk): Answer {
    if d.closed then Fails(StorageClosed) else if !d.linked then Fails(FileMissing) else NewHandle
  }

  class DiskStorage {
    const file: OpenFile
    const size: nat
    var linked: bool
    var closed: bool

    constructor (data: seq<Byte>, stats: Counters)
      modifies stats
      ensures View() == Disk(Descriptor(data, 0, true), |data|, true, false) && fresh(file)
      ensures stats.View() == Opened(old(stats.View()), OnDisk, |data|)
    {
      var f := new OpenFile(data);
      stats.IncrementDiskFiles(|data|);
      file, size, linked, closed := f, |data|, true, false;
    }

    function View(): Disk
      reads this, file
    {
      Disk(file.View(), size, linked, closed)
    }

    method Read(n: nat) returns (a: Answer)
      modifies file
      ensures Step(View(), a) == DiskRead(old(View()), n)
    {
      if closed {
        return Fails(StorageClosed);
      }
      a := file.Read(n);
    }

    method Seek(offset: int, whence: Whence) returns (a: Answer)
      modifies file
      ensures Step(View(), a) == DiskSeek(old(View()), offset, whence)
    {
      if closed {
        return Fails(StorageClosed);
      }
      a := file.Seek(offset, whence);
    }

    method Bytes() returns (a: Answer)
      modifies file
      ensures Step(View(), a) == DiskBytes(old(View()))
    {
      if closed {
        return Fails(StorageClosed);
      }
      var saved := file.Seek(0, Current);
      if saved.Fails? {
        return saved;
      }
      var rewound := file.Seek(0, Start);
      if rewound.Fails? {
        return rewound;
      }
      a := file.ReadAll(size);
      if a.Fails? {
        return;
      }
      var restored := file.Seek(saved.position, Start);
      if restored.Fails? {
        a := restored;
      }
    }

    /** Only the first call closes the file, removes it and releases the counters. */
    method Close(stats: Counters)
      modifies this, file, stats
      ensures View() == DiskClose(old(View())).next
      ensures stats.View() == if old(closed) then old(stats.View()) else Released(old(stats.View()), OnDisk, size)
    {
      if !closed {
        closed := true;
        var _ := file.Close();
        linked := false;
        stats.DecrementDiskFiles(size);
      }
    }

    method NewReader() returns (a: Answer, r: OpenFile?)
      ensures a == DiskNewReader(View())
      ensures r != null <==> a.NewHandle?
      ensures r != null ==> fresh(r) && r.View() == Descriptor(file.content, 0, true)
    {
      if closed {
        return Fails(StorageClosed), null;
      }
      if !linked {
        return Fails(FileMissing), null;
      }
      r := new OpenFile(file.content);
      a := NewHandle;
    }
  }

  // ---------------------------------------------------------------- creating a storage

  datatype Storage = FromMemory(memory: MemoryStorage) | FromDisk(disk: DiskStorage)

  datatype Body = Body(kind: Kind, data: seq<Byte>)
  datatype Creation = Created(body: Body) | Refused(failure: Failure)

  function KindFor(stats: Stats, config: Config, size: nat, diskWorks: bool): Kind {
    if config.enabled && size >= config.threshold && DiskAvailable(stats, config, size) && diskWorks
    then OnDisk else InMemory
  }

  const MAX_INT64 := 0x7FFF_FFFF_FFFF_FFFF

  /** `maxBytes + 1` in 64-bit arithmetic. */
  function Successor(x: int): int {
    if x == MAX_INT64 then -MAX_INT64 - 1 else x + 1
  }

  /** What a reader limited to `limit` bytes delivers of a stream. */
  function Limited(stream: seq<Byte>, limit: int): seq<Byte> {
    if limit <= 0 then [] else if limit <= |stream| then stream[..limit] else stream
  }

  predicate StreamsToDisk(stats: Stats, config: Config, contentLength: int) {
    && config.enabled && contentLength > 0 && contentLength >= config.threshold
    && DiskAvailable(stats, config, contentLength)
  }

  /** What creation from a reader returns. */
  function CreationFrom(stats: Stats, config: Config, stream: seq<Byte>, contentLength: int, maxBytes: int,
                        diskWorks: bool): Creation {
    var data := Limited(stream, Successor(maxBytes));
    if StreamsToDisk(stats, config, contentLength) then
      if !diskWorks then Refused(DiskFailed)
      else if |data| > maxBytes then Refused(TooLarge)
      else Created(Body(OnDisk, data))
    else if |data| > maxBytes then Refused(TooLarge)
    else Created(Body(KindFor(stats, config, |data|, diskWorks), data))
  }

  /** The counters after a body is created; only creation from a reader counts a hit. */
  function StatsCreated(stats: Stats, body: Body): Stats {
    Hit(Opened(stats, body.kind, |body.data|), body.kind)
  }

  ghost predicate Holds(s: Storage, body: Body)
    reads match s case FromMemory(m) => {m as object, m.reader} case FromDisk(d) => {d as object, d.file}
  {
    match s
    case FromMemory(m) => body.kind.InMemory? && m.View() == Memory(body.data, Cursor(body.data, 0), false)
    case FromDisk(d) => body.kind.OnDisk? && d.View() == Disk(Descriptor(body.data, 0, true), |body.data|, true, false)
  }

  method CreateBodyStorage(config: Config, stats: Counters, data: seq<Byte>, diskWorks: bool) returns (s: Storage)
    modifies stats
    ensures var kind := KindFor(old(stats.View()), config, |data|, diskWorks);
            Holds(s, Body(kind, data)) && stats.View() == Opened(old(stats.View()), kind, |data|)
  {
    if config.enabled && |data| >= config.threshold && DiskAvailable(stats.View(), config, |data|) {
      if diskWorks {
        var d := new DiskStorage(data, stats);
        return FromDisk(d);
      }
      var m := new MemoryStorage(data, stats);
      return FromMemory(m);
    }
    var m := new MemoryStorage(data, stats);
    s := FromMemory(m);
  }

  method CreateBodyStorageFromReader(config: Config, stats: Counters, stream: seq<Byte>, contentLength: int,
                                     maxBytes: int, diskWorks: bool)
    returns (c: Creation, made: seq<Storage>)
    modifies stats
    ensures c == CreationFrom(old(stats.View()), config, stream, contentLength, maxBytes, diskWorks)
    ensures c.Created? ==>
              |made| == 1 && Holds(made[0], c.body) && stats.View() == StatsCreated(old(stats.View()), c.body)
    ensures c.Refused? ==> made == [] && stats.View() == old(stats.View())
  {
    var data := Limited(stream, Successor(maxBytes));
    if StreamsToDisk(stats.View(), config, contentLength) {
      if !diskWorks {
        return Refused(DiskFailed), [];
      }
      if |data| > maxBytes {
        return Refused(TooLarge), [];
      }
      var d := new DiskStorage(data, stats);
      stats.CountHit(OnDisk);
      return Created(Body(OnDisk, data)), [FromDisk(d)];
    }
    if |data| > maxBytes {
      return Refused(TooLarge), [];
    }
    var s := CreateBodyStorage(config, stats, data, diskWorks);
    var kind := if s.FromMemory? then InMemory else OnDisk;
    stats.CountHit(kind);
    return Created(Body(kind, data)), [s];
  }

  /** What the size gate promises: the whole stream when it fits, a refusal when it does not. */
  predicate GateMet(c: Creation, stream: seq<Byte>, maxBytes: int) {
    if |stream| <= maxBytes then c.Created? && c.body.data == stream else c == Refused(TooLarge)
  }

  /**
    With a working disk the gate holds except at the largest 64-bit limit, where adding one wraps and any
    nonempty stream is taken for an empty one.
   */
  lemma SizeGate(stats: Stats, config: Config, stream: seq<Byte>, contentLength: int, maxBytes: int)
    requires -MAX_INT64 - 1 <= maxBytes <= MAX_INT64
    ensures GateMet(CreationFrom(stats, config, stream, contentLength, maxBytes, true), stream, maxBytes)
            <==> maxBytes != MAX_INT64 || stream == []
  {
  }

  // ---------------------------------------------------------------- reading and seeking written out

  /** A read of up to `n` bytes at `pos` delivers the bytes that are there, and as many of them as it may. */
  predicate ReadsFrom(data: seq<Byte>, pos: nat, n: nat, bytes: seq<Byte>) {
    && |bytes| == (if n <= |data| - pos then n else |data| - pos)
    && forall i :: 0 <= i < |bytes| ==> bytes[i] == data[pos + i]
  }

  lemma ReadsWrittenOut(m: Memory, d: Disk, n: nat)
    ensures !m.closed && m.reader.pos < |m.reader.data| ==>
              var read := MemoryRead(m, n);
              && read.answer.Data? && ReadsFrom(m.reader.data, m.reader.pos, n, read.answer.bytes)
              && read.next.reader.pos == m.reader.pos + |read.answer.bytes|
    ensures !d.closed && d.file.open && d.file.pos < |d.file.content| ==>
              var read := DiskRead(d, n);
              && read.answer.Data? && ReadsFrom(d.file.content, d.file.pos, n, read.answer.bytes)
              && read.next.file.pos == d.file.pos + |read.answer.bytes|
  {
  }

  /** Where a seek goes: from the start, from the cursor or from the end, and nowhere before the start. */
  lemma SeeksWrittenOut(m: Memory, d: Disk, offset: int, whence: Whence)
    requires !m.closed && !d.closed && d.file.open
    ensures var target := if whence == Start then offset else if whence == Current then m.reader.pos + offset
                          else |m.reader.data| + offset;
            var sought := MemorySeek(m, offset, whence);
            if target < 0 then sought == Step(m, Fails(BadPosition))
            else sought.answer == At(target) && sought.next.reader.pos == target
    ensures var target := if whence == Start then offset else if whence == Current then d.file.pos + offset
                          else |d.file.content| + offset;
            var sought := DiskSeek(d, offset, whence);
            if target < 0 then sought == Step(d, Fails(BadPosition))
            else sought.answer == At(target) && sought.next.file.pos == target
  {
  }

  /** A body of known size goes to disk when caching is on, it is large enough, it fits, and the disk takes it. */
  lemma DiskWhen(stats: Stats, config: Config, size: nat, diskWorks: bool)
    ensures KindFor(stats, config, size, diskWorks) == OnDisk
            <==> config.enabled && size >= config.threshold && stats.diskBytes + size <= config.maximum && diskWorks
  {
  }
}
