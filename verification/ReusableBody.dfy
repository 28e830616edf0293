/** The request context that caches a body storage and hands it out rewound. */
module ReusableBody {
  import opened Wrappers
  import opened BodyStorage

  const DEFAULT_MB := 128

  /** The size limit in bytes; a non-positive setting means the default. */
  function MaxBytes(maxMB: int): nat { (if maxMB <= 0 then DEFAULT_MB else maxMB) * MIB }

  /** A body that has been closed: reading it fails. */
  const SPENT := Wire([], true)

  /** The body of the request: what arrives on the wire, or the storage that replaced it, whose closing
      is hidden from the server. */
  datatype Body = Raw(wire: Wire) | Stored(h: Handle)

  method SeekStart(h: Handle) returns (ok: bool)
    requires ValidHandle(h)
    modifies Object(h)
    ensures ValidHandle(h)
    ensures ok == !old(ViewOf(h)).closed
    ensures ViewOf(h) == if ok then old(ViewOf(h)).(pos := 0) else old(ViewOf(h))
  {
    var out;
    match h {
      case Memory(m) => out := m.Seek(0, Start);
      case Disk(d) => out := d.Seek(0, Start);
    }
    ok := out.At?;
  }

  method CloseHandle(h: Handle, stats: Stats)
    requires ValidHandle(h)
    modifies Object(h), stats
    ensures ValidHandle(h) && ViewOf(h) == old(ViewOf(h)).(closed := true)
    ensures stats.Counts() == if old(ViewOf(h)).closed then old(stats.Counts())
      else DropFrom(old(stats.Counts()), h.Disk?, |ViewOf(h).contents|)
  {
    match h {
      case Memory(m) => m.Close(stats);
      case Disk(d) => d.Close(stats);
    }
  }

  /** Decoding an open storage. JSON on disk is decoded as a stream, which has consumed some bytes when it
      returns; everything else is decoded from all bytes at once. Success rewinds. */
  method DecodeBody(h: Handle, json: bool, decodes: Bytes -> bool, streams: Bytes -> bool, consumed: nat) returns (ok: bool)
    requires ValidHandle(h) && !ViewOf(h).closed
    modifies Object(h)
    ensures ValidHandle(h) && !ViewOf(h).closed && ViewOf(h).contents == old(ViewOf(h)).contents
    ensures ok <==> if h.Disk? && json then streams(ViewOf(h).contents) else decodes(ViewOf(h).contents)
    ensures ok ==> ViewOf(h).pos == 0
  {
    if h.Disk? && json {
      var start := SeekStart(h);
      var out := h.d.Read(consumed);
      if !streams(h.d.file.contents) { return false; }
    } else {
      var data;
      match h {
        case Memory(m) => data := m.GetBytes();
        case Disk(d) => data := d.GetBytes();
      }
      if !decodes(data.value) { return false; }
    }
    ok := SeekStart(h);
  }

  function DropFrom(c: Counters, disk: bool, size: nat): Counters {
    if disk then DropDisk(c, size) else DropMemory(c, size)
  }

  datatype Decoded = Decoded | Undecodable | NoBody(e: Error)

  class Context {
    var storage: Option<Handle>
    var cached: Option<Bytes>
    var body: Body
    const declared: int

    /** A storage that replaced the body is the cached one, or has been cleaned up and closed. */
    ghost predicate Valid()
      reads this, Footprint()
    {
      && (storage.Some? ==> ValidHandle(storage.value))
      && (body.Stored? ==> ValidHandle(body.h) && (storage == Some(body.h) || ViewOf(body.h).closed))
    }

    ghost function Footprint(): set<object>
      reads this
    {
      (if storage.Some? then {Object(storage.value)} else {}) + (if body.Stored? then {Object(body.h)} else {})
    }

    /** What reading the body yields when no storage is cached. */
    function Arriving(): Wire
      reads this
    {
      if body.Raw? then body.wire else SPENT
    }

    /** GetRequestBody */
    method GetRequestBody(cfg: Config, stats: Stats, maxMB: int, diskWorks: bool) returns (r: Created)
      requires Valid()
      modifies this, Footprint(), stats
      ensures Valid() && fresh(Footprint() - old(Footprint()))
      ensures cached == old(cached)
      // An open cached storage is handed out rewound, whole.
      ensures old(storage).Some? ==>
        && storage == old(storage) && body == old(body) && stats.Counts() == old(stats.Counts())
        && r == (if old(ViewOf(storage.value)).closed then Err(Closed) else Ok(storage.value))
        && ViewOf(storage.value) == if r.Ok? then old(ViewOf(storage.value)).(pos := 0) else old(ViewOf(storage.value))
      // A legacy byte cache is never refused.
      ensures old(storage).None? && old(cached).Some? ==>
        r.Ok? && storage == Some(r.h) && ViewOf(r.h) == State(old(cached).value, 0, false)
      // Otherwise the body is read, once, and refused or stored.
      ensures old(storage).None? && old(cached).None? ==>
        && body == (if old(body).Raw? then Raw(SPENT) else old(body))
        && Refusal(cfg, old(stats.Counts()), old(Arriving()), declared, MaxBytes(maxMB), diskWorks)
             == (match r case Ok(_) => None case Err(e) => Some(e))
        && (r.Ok? ==> storage == Some(r.h) && ViewOf(r.h) == State(old(Arriving()).bytes, 0, false))
        && (r.Err? ==> storage == None && stats.Counts() == old(stats.Counts()))
    {
      if storage.Some? {
        var ok := SeekStart(storage.value);
        return if ok then Ok(storage.value) else Err(Closed);
      }
      if cached.Some? {
        var h := CreateBodyStorage(cfg, stats, cached.value, diskWorks);
        storage := Some(h);
        return Ok(h);
      }
      r := CreateBodyStorageFromReader(cfg, stats, Arriving(), declared, MaxBytes(maxMB), diskWorks);
      if body.Raw? { body := Raw(SPENT); }
      if r.Ok? { storage := Some(r.h); }
    }

    /** UnmarshalBodyReusable. JSON on disk is decoded as a stream, which has consumed some bytes when
        it returns and may accept what decoding all bytes at once rejects. */
    method UnmarshalBodyReusable(cfg: Config, stats: Stats, maxMB: int, diskWorks: bool,
                                 json: bool, decodes: Bytes -> bool, streams: Bytes -> bool, consumed: nat)
      returns (result: Decoded)
      requires Valid()
      modifies this, Footprint(), stats
      ensures Valid() && fresh(Footprint() - old(Footprint()))
      // Decoding sees the whole body, and success leaves it rewound.
      ensures !result.NoBody? ==> storage.Some? && !ViewOf(storage.value).closed
      ensures !result.NoBody? ==>
        (result.Decoded? <==>
          if storage.value.Disk? && json then streams(ViewOf(storage.value).contents)
          else decodes(ViewOf(storage.value).contents))
      ensures result.Decoded? ==> ViewOf(storage.value).pos == 0 && body == Stored(storage.value)
      ensures old(storage).Some? ==>
        storage == old(storage) && ViewOf(storage.value).contents == old(ViewOf(storage.value)).contents
      ensures old(storage).None? && !result.NoBody? ==>
        ViewOf(storage.value).contents == if old(cached).Some? then old(cached).value else old(Arriving()).bytes
    {
      var r := GetRequestBody(cfg, stats, maxMB, diskWorks);
      if r.Err? { return NoBody(r.e); }
      var ok := DecodeBody(r.h, json, decodes, streams, consumed);
      if !ok { return Undecodable; }
      body := Stored(r.h);
      result := Decoded;
    }

    /** CleanupBodyStorage */
    method Cleanup(stats: Stats)
      requires Valid()
      modifies this`storage, Footprint(), stats
      ensures Valid() && storage == None
      ensures old(storage).Some? ==>
        && ViewOf(old(storage).value) == old(ViewOf(storage.value)).(closed := true)
        && stats.Counts() == if old(ViewOf(storage.value)).closed then old(stats.Counts())
             else DropFrom(old(stats.Counts()), old(storage).value.Disk?, |old(ViewOf(storage.value)).contents|)
      ensures old(storage).None? ==> stats.Counts() == old(stats.Counts())
    {
      if storage.Some? {
        CloseHandle(storage.value, stats);
        storage := None;
      }
    }
  }
}
