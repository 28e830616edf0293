/** The reusable request body: two storages behind one interface, the usage counters they keep, and
    the choice between them. */
module BodyStorage {
  import opened Wrappers

  type Bytes = seq<bv8>

  // ------------------------------------------------------------ the common specification

  /** What both storages implement. The position may lie beyond the end. */
  datatype State = State(contents: Bytes, pos: nat, closed: bool)

  datatype Outcome = Data(bytes: Bytes) | EndOfFile | StorageClosed

  function Available(s: State, n: nat): nat {
    if s.pos >= |s.contents| then 0 else if n <= |s.contents| - s.pos then n else |s.contents| - s.pos
  }

  /** Reading into a buffer of n bytes. */
  function ReadSpec(s: State, n: nat): (State, Outcome) {
    if s.closed then (s, StorageClosed)
    else if s.pos >= |s.contents| then (s, EndOfFile)
    else (s.(pos := s.pos + Available(s, n)), Data(s.contents[s.pos..s.pos + Available(s, n)]))
  }

  /** The same on disk, where an empty buffer never reports the end. */
  function DiskReadSpec(s: State, n: nat): (State, Outcome) {
    if n == 0 && !s.closed then (s, Data([])) else ReadSpec(s, n)
  }

  datatype Whence = Start | FromCurrent | End | Invalid

  datatype Sought = At(pos: nat) | SeekFailed | SeekClosed

  function Target(s: State, offset: int, whence: Whence): Option<int> {
    match whence
    case Start => Some(offset)
    case FromCurrent => Some(s.pos + offset)
    case End => Some(|s.contents| + offset)
    case Invalid => None
  }

  function SeekSpec(s: State, offset: int, whence: Whence): (State, Sought) {
    var t := Target(s, offset, whence);
    if s.closed then (s, SeekClosed)
    else if t.None? || t.value < 0 then (s, SeekFailed)
    else (s.(pos := t.value), At(t.value))
  }

  // ------------------------------------------------------------------------- counters

  datatype Counters = Counters(diskFiles: int, diskBytes: int, memoryBuffers: int, memoryBytes: int)

  function AddDisk(c: Counters, size: nat): Counters {
    c.(diskFiles := c.diskFiles + 1, diskBytes := c.diskBytes + size)
  }

  /** The disk counters are reset to zero where they would become negative. */
  function DropDisk(c: Counters, size: nat): Counters {
    c.(diskFiles := if c.diskFiles - 1 < 0 then 0 else c.diskFiles - 1,
       diskBytes := if c.diskBytes - size < 0 then 0 else c.diskBytes - size)
  }

  function AddMemory(c: Counters, size: nat): Counters {
    c.(memoryBuffers := c.memoryBuffers + 1, memoryBytes := c.memoryBytes + size)
  }

  function DropMemory(c: Counters, size: nat): Counters {
    c.(memoryBuffers := c.memoryBuffers - 1, memoryBytes := c.memoryBytes - size)
  }

  class Stats {
    var diskFiles: int
    var diskBytes: int
    var memoryBuffers: int
    var memoryBytes: int

    function Counts(): Counters
      reads this
    {
      Counters(diskFiles, diskBytes, memoryBuffers, memoryBytes)
    }

    method IncrementDiskFiles(size: nat)
      modifies this
      ensures Counts() == AddDisk(old(Counts()), size)
    {
      diskFiles := diskFiles + 1;
      diskBytes := diskBytes + size;
    }

    method DecrementDiskFiles(size: nat)
      modifies this
      ensures Counts() == DropDisk(old(Counts()), size)
    {
      diskFiles := diskFiles - 1;
      if diskFiles < 0 { diskFiles := 0; }
      diskBytes := diskBytes - size;
      if diskBytes < 0 { diskBytes := 0; }
    }

    method IncrementMemoryBuffers(size: nat)
      modifies this
      ensures Counts() == AddMemory(old(Counts()), size)
    {
      memoryBuffers := memoryBuffers + 1;
      memoryBytes := memoryBytes + size;
    }

    method DecrementMemoryBuffers(size: nat)
      modifies this
      ensures Counts() == DropMemory(old(Counts()), size)
    {
      memoryBuffers := memoryBuffers - 1;
      memoryBytes := memoryBytes - size;
    }
  }

  // -------------------------------------------------------------------- memory storage

  class MemoryStorage {
    const data: Bytes
    var offset: nat
    var closed: bool

    function View(): State
      reads this
    {
      State(data, offset, closed)
    }

    constructor (data: Bytes, stats: Stats)
      modifies stats
      ensures View() == State(data, 0, false)
      ensures stats.Counts() == AddMemory(old(stats.Counts()), |data|)
    {
      this.data := data;
      offset := 0;
      closed := false;
      new;
      stats.IncrementMemoryBuffers(|data|);
    }

    method Read(n: nat) returns (out: Outcome)
      modifies this
      ensures (View(), out) == ReadSpec(old(View()), n)
    {
      if closed { return StorageClosed; }
      if offset >= |data| { return EndOfFile; }
      var k := if n <= |data| - offset then n else |data| - offset;
      out := Data(data[offset..offset + k]);
      offset := offset + k;
    }

    method Seek(delta: int, whence: Whence) returns (out: Sought)
      modifies this
      ensures (View(), out) == SeekSpec(old(View()), delta, whence)
    {
      if closed { return SeekClosed; }
      if whence.Invalid? { return SeekFailed; }
      var base := if whence.Start? then 0 else if whence.FromCurrent? then offset else |data|;
      if base + delta < 0 { return SeekFailed; }
      offset := base + delta;
      out := At(offset);
    }

    method Close(stats: Stats)
      modifies this, stats
      ensures View() == old(View()).(closed := true)
      ensures stats.Counts() == if old(closed) then old(stats.Counts()) else DropMemory(old(stats.Counts()), |data|)
    {
      if !closed {
        closed := true;
        stats.DecrementMemoryBuffers(|data|);
      }
    }

    method GetBytes() returns (out: Option<Bytes>)
      ensures out == if closed then None else Some(View().contents)
    {
      out := if closed then None else Some(data);
    }
  }

  // ---------------------------------------------------------------------- disk storage

  /** An open file and its offset. */
  datatype File = File(contents: Bytes, offset: nat)

  /** Reading a file: an empty buffer never reports the end. */
  function ReadFile(f: File, n: nat): (File, Outcome) {
    if n == 0 then (f, Data([])) else
    if f.offset >= |f.contents| then (f, EndOfFile)
    else
      var k := if n <= |f.contents| - f.offset then n else |f.contents| - f.offset;
      (f.(offset := f.offset + k), Data(f.contents[f.offset..f.offset + k]))
  }

  function SeekFile(f: File, delta: int, whence: Whence): (File, Sought) {
    var t := Target(State(f.contents, f.offset, false), delta, whence);
    if t.None? || t.value < 0 then (f, SeekFailed) else (f.(offset := t.value), At(t.value))
  }

  class DiskStorage {
    var file: File
    const size: nat
    var closed: bool

    ghost predicate Valid()
      reads this
    {
      size == |file.contents|
    }

    function View(): State
      reads this
    {
      State(file.contents, file.offset, closed)
    }

    constructor (data: Bytes, stats: Stats)
      modifies stats
      ensures Valid() && View() == State(data, 0, false)
      ensures stats.Counts() == AddDisk(old(stats.Counts()), |data|)
    {
      file := File(data, 0);
      size := |data|;
      closed := false;
      new;
      stats.IncrementDiskFiles(|data|);
    }

    method Read(n: nat) returns (out: Outcome)
      requires Valid()
      modifies this`file
      ensures Valid() && (View(), out) == DiskReadSpec(old(View()), n)
    {
      if closed { return StorageClosed; }
      var (f, o) := ReadFile(file, n);
      file := f;
      out := o;
    }

    method Seek(delta: int, whence: Whence) returns (out: Sought)
      requires Valid()
      modifies this`file
      ensures Valid() && (View(), out) == SeekSpec(old(View()), delta, whence)
    {
      if closed { return SeekClosed; }
      var (f, o) := SeekFile(file, delta, whence);
      file := f;
      out := o;
    }

    method Close(stats: Stats)
      requires Valid()
      modifies this`closed, stats
      ensures Valid() && View() == old(View()).(closed := true)
      ensures stats.Counts() == if old(closed) then old(stats.Counts()) else DropDisk(old(stats.Counts()), |View().contents|)
    {
      if !closed {
        closed := true;
        stats.DecrementDiskFiles(size);
      }
    }

    /** Save the position, read everything from the start, restore the position. */
    method GetBytes() returns (out: Option<Bytes>)
      requires Valid()
      modifies this`file
      ensures Valid() && View() == old(View())
      ensures out == if closed then None else Some(View().contents)
    {
      if closed { return None; }
      var (f0, here) := SeekFile(file, 0, FromCurrent);
      file := f0;
      if !here.At? { return None; }
      var (f1, start) := SeekFile(file, 0, Start);
      file := f1;
      var (f2, data) := ReadFile(file, size);
      file := f2;
      if !data.Data? || |data.bytes| != size { return None; }
      var (f3, back) := SeekFile(file, here.pos, Start);
      file := f3;
      out := Some(data.bytes);
      assert file.contents[0..size] == file.contents;
    }
  }

  // --------------------------------------------------------------------------- choice

  datatype Config = Config(enabled: bool, thresholdMB: int, maxSizeMB: int)

  const MIB := 1048576

  predicate DiskCacheAvailable(cfg: Config, c: Counters, size: int) {
    cfg.enabled && c.diskBytes + size <= cfg.maxSizeMB * MIB
  }

  /** Where in-memory data goes, as long as the disk works. */
  predicate WantsDisk(cfg: Config, c: Counters, size: nat) {
    cfg.enabled && size >= cfg.thresholdMB * MIB && DiskCacheAvailable(cfg, c, size)
  }

  /** Whether a body is streamed to disk, judged by its declared length alone. */
  predicate StreamsToDisk(cfg: Config, c: Counters, declared: int) {
    cfg.enabled && declared > 0 && declared >= cfg.thresholdMB * MIB && DiskCacheAvailable(cfg, c, declared)
  }

  datatype Handle = Memory(m: MemoryStorage) | Disk(d: DiskStorage)

  function Object(h: Handle): object { match h case Memory(m) => m case Disk(d) => d }

  ghost predicate ValidHandle(h: Handle)
    reads Object(h)
  {
    h.Disk? ==> h.d.Valid()
  }

  function ViewOf(h: Handle): State
    reads Object(h)
  {
    match h case Memory(m) => m.View() case Disk(d) => d.View()
  }

  function AddTo(c: Counters, disk: bool, size: nat): Counters {
    if disk then AddDisk(c, size) else AddMemory(c, size)
  }

  method CreateBodyStorage(cfg: Config, stats: Stats, data: Bytes, diskWorks: bool) returns (h: Handle)
    modifies stats
    ensures fresh(Object(h)) && ValidHandle(h) && ViewOf(h) == State(data, 0, false)
    ensures h.Disk? <==> diskWorks && WantsDisk(cfg, old(stats.Counts()), |data|)
    ensures stats.Counts() == AddTo(old(stats.Counts()), h.Disk?, |data|)
  {
    if WantsDisk(cfg, stats.Counts(), |data|) {
      if diskWorks {
        var d := new DiskStorage(data, stats);
        return Disk(d);
      }
    }
    var m := new MemoryStorage(data, stats);
    h := Memory(m);
  }

  datatype Error = TooLarge | DiskFailed | ReadFailed | Closed

  datatype Created = Ok(h: Handle) | Err(e: Error)

  /** What arrives on the wire: the bytes and whether reading them breaks off with an error. */
  datatype Wire = Wire(bytes: Bytes, fails: bool)

  /** Why a body is refused, if it is. A reader is not read beyond maxBytes + 1. */
  function Refusal(cfg: Config, c: Counters, wire: Wire, declared: int, maxBytes: nat, diskWorks: bool): Option<Error> {
    if StreamsToDisk(cfg, c, declared) && !diskWorks then Some(DiskFailed)
    else if |wire.bytes| > maxBytes then Some(TooLarge)
    else if wire.fails then Some(if StreamsToDisk(cfg, c, declared) then DiskFailed else ReadFailed)
    else None
  }

  predicate ChoosesDisk(cfg: Config, c: Counters, size: nat, declared: int, diskWorks: bool) {
    StreamsToDisk(cfg, c, declared) || (diskWorks && WantsDisk(cfg, c, size))
  }

  method CreateBodyStorageFromReader(cfg: Config, stats: Stats, wire: Wire, declared: int, maxBytes: nat, diskWorks: bool)
    returns (r: Created)
    modifies stats
    ensures r.Err? ==> stats.Counts() == old(stats.Counts())
    ensures Refusal(cfg, old(stats.Counts()), wire, declared, maxBytes, diskWorks)
              == match r case Ok(_) => None case Err(e) => Some(e)
    ensures r.Ok? ==>
      && fresh(Object(r.h)) && ValidHandle(r.h) && ViewOf(r.h) == State(wire.bytes, 0, false)
      && (r.h.Disk? <==> ChoosesDisk(cfg, old(stats.Counts()), |wire.bytes|, declared, diskWorks))
      && stats.Counts() == AddTo(old(stats.Counts()), r.h.Disk?, |wire.bytes|)
  {
    if StreamsToDisk(cfg, stats.Counts(), declared) {
      if !diskWorks { return Err(DiskFailed); }
      var written := wire.bytes[..if |wire.bytes| <= maxBytes then |wire.bytes| else maxBytes + 1];
      if wire.fails && |wire.bytes| <= maxBytes { return Err(DiskFailed); }
      if |written| > maxBytes { return Err(TooLarge); }
      var d := new DiskStorage(written, stats);
      return Ok(Disk(d));
    }
    var data := wire.bytes[..if |wire.bytes| <= maxBytes then |wire.bytes| else maxBytes + 1];
    if wire.fails && |wire.bytes| <= maxBytes { return Err(ReadFailed); }
    if |data| > maxBytes { return Err(TooLarge); }
    var h := CreateBodyStorage(cfg, stats, data, diskWorks);
    r := Ok(h);
  }
}
