/** The Ogg page scanner behind the Opus duration: it reads 27-byte headers, skips page bodies by
    their lacing values and resynchronises byte by byte on anything else. Page layout after
    section 6 of RFC 3533; the 48 kHz granule clock after section 4 of RFC 7845. */
module OggScan {

  type Byte = x: int | 0 <= x < 256

  const HEADER: nat := 27
  const SAMPLE_RATE: real := 48000.0

  // ---------------------------------------------------------- integers in pages

  const TWO64: int := 0x1_0000_0000_0000_0000

  function Pow256(n: nat): nat { if n == 0 then 1 else 256 * Pow256(n - 1) }

  /** The unsigned value of the n bytes at `pos`, least significant first. */
  function LittleEndian(data: seq<Byte>, pos: nat, n: nat): nat
    requires pos + n <= |data|
    decreases n
  {
    if n == 0 then 0 else data[pos] + 256 * LittleEndian(data, pos + 1, n - 1)
  }

  /** The n low bytes of an unsigned value, least significant first. */
  function ToBytes(v: nat, n: nat): (bytes: seq<Byte>)
    ensures |bytes| == n
  {
    if n == 0 then [] else [v % 256] + ToBytes(v / 256, n - 1)
  }

  /** int64(x) for an unsigned 64-bit x. */
  function Signed(u: int): int { if u >= TWO64 / 2 then u - TWO64 else u }

  function Unsigned(g: int): int { if g < 0 then g + TWO64 else g }

  /** The sum of the bytes from `lo` up to `hi`. */
  function Sum(data: seq<Byte>, lo: nat, hi: nat): nat
    requires hi <= |data|
  {
    if lo >= hi then 0 else Sum(data, lo, hi - 1) + data[hi - 1]
  }

  // ------------------------------------------------------------------ the scanner

  /** "OggS" with room for a whole header. */
  predicate AtPage(data: seq<Byte>, pos: nat) {
    pos + HEADER <= |data|
    && data[pos] == 0x4F && data[pos + 1] == 0x67 && data[pos + 2] == 0x67 && data[pos + 3] == 0x53
  }

  function GranuleAt(data: seq<Byte>, pos: nat): int
    requires pos + HEADER <= |data|
  {
    Signed(LittleEndian(data, pos + 6, 8))
  }

  /** The lacing values of the page at `pos` are all there. */
  predicate LacingComplete(data: seq<Byte>, pos: nat)
    requires pos + HEADER <= |data|
  {
    pos + HEADER + data[pos + 26] <= |data|
  }

  function NextPage(data: seq<Byte>, pos: nat): (next: nat)
    requires pos + HEADER <= |data| && LacingComplete(data, pos)
    ensures next >= pos + HEADER
  {
    var body := pos + HEADER + data[pos + 26];
    body + Sum(data, pos + HEADER, body)
  }

  /** The offsets the scanner takes for page headers, starting at `pos`. */
  function Headers(data: seq<Byte>, pos: nat): seq<nat>
    decreases if pos < |data| then |data| - pos else 0
  {
    if pos + HEADER > |data| then []
    else if !AtPage(data, pos) then Headers(data, pos + 1)
    else if !LacingComplete(data, pos) then [pos]
    else [pos] + Headers(data, NextPage(data, pos))
  }

  function Larger(a: int, b: int): int { if a > b then a else b }

  /** The largest of `best` and the granule positions of the headers from `pos` on. */
  function MaxFrom(data: seq<Byte>, pos: nat, best: int): int
    decreases if pos < |data| then |data| - pos else 0
  {
    if pos + HEADER > |data| then best
    else if !AtPage(data, pos) then MaxFrom(data, pos + 1, best)
    else
      var m := Larger(best, GranuleAt(data, pos));
      if !LacingComplete(data, pos) then m else MaxFrom(data, NextPage(data, pos), m)
  }

  /** MaxFrom is what its name says: the maximum over the visited headers. */
  lemma {:induction false} MaxFromIsMax(data: seq<Byte>, pos: nat, best: int)
    ensures best <= MaxFrom(data, pos, best)
    ensures forall i :: 0 <= i < |Headers(data, pos)| ==>
              Headers(data, pos)[i] + HEADER <= |data|
              && GranuleAt(data, Headers(data, pos)[i]) <= MaxFrom(data, pos, best)
    ensures MaxFrom(data, pos, best) == best
            || exists i :: 0 <= i < |Headers(data, pos)| && Headers(data, pos)[i] + HEADER <= |data|
                 && GranuleAt(data, Headers(data, pos)[i]) == MaxFrom(data, pos, best)
    decreases if pos < |data| then |data| - pos else 0
  {
    var hs := Headers(data, pos);
    if pos + HEADER > |data| {
    } else if !AtPage(data, pos) {
      MaxFromIsMax(data, pos + 1, best);
    } else {
      assert hs[0] == pos;
      var m := Larger(best, GranuleAt(data, pos));
      if LacingComplete(data, pos) {
        var next := NextPage(data, pos);
        MaxFromIsMax(data, next, m);
        var rest := Headers(data, next);
        assert hs == [pos] + rest;
        assert forall i :: 0 < i < |hs| ==> hs[i] == rest[i - 1];
        if MaxFrom(data, next, m) != m {
          var j :| 0 <= j < |rest| && rest[j] + HEADER <= |data| && GranuleAt(data, rest[j]) == MaxFrom(data, next, m);
          assert hs[j + 1] == rest[j];
        }
      }
    }
  }

  method PageSize(data: seq<Byte>, lo: nat, hi: nat) returns (size: nat)
    requires lo <= hi <= |data|
    ensures size == Sum(data, lo, hi)
  {
    size := 0;
    for i := lo to hi
      invariant size == Sum(data, lo, i)
    {
      size := size + data[i];
    }
  }

  /** getOpusDuration over a reader that returns as many bytes as it has: the loop ends on every
      input, with the largest granule position among the headers it stopped at. */
  method GetOpusDuration(data: seq<Byte>) returns (total: int, duration: real)
    ensures total == MaxFrom(data, 0, 0)
    ensures duration * 48000.0 == total as real
  {
    var pos: nat := 0;
    total := 0;
    while pos + HEADER <= |data|
      invariant MaxFrom(data, 0, 0) == MaxFrom(data, pos, total)
      decreases |data| - pos
    {
      var at := pos;
      pos := pos + HEADER;
      if !(data[at] == 0x4F && data[at + 1] == 0x67 && data[at + 2] == 0x67 && data[at + 3] == 0x53) {
        pos := pos - 26;
        continue;
      }
      var granulePos := Signed(LittleEndian(data, at + 6, 8));
      if granulePos > total { total := granulePos; }
      var numSegments := data[at + 26];
      if pos + numSegments > |data| { break; }
      var pageSize := PageSize(data, pos, pos + numSegments);
      pos := pos + numSegments + pageSize;
    }
    duration := total as real / SAMPLE_RATE;
  }

  // --------------------------------------------------------------- Ogg streams

  /** A page: version, header type, granule position, serial number, sequence number and checksum
      (twelve bytes in all), lacing values and the body they measure out. */
  datatype Page = Page(version: Byte, headerType: Byte, granule: int, ids: seq<Byte>, lacing: seq<Byte>, body: seq<Byte>)

  predicate WellFormed(p: Page) {
    && -(TWO64 / 2) <= p.granule < TWO64 / 2
    && |p.ids| == 12 && |p.lacing| <= 255 && |p.body| == Sum(p.lacing, 0, |p.lacing|)
  }

  /** The 26 bytes before the segment count. */
  function Head(p: Page): (head: seq<Byte>)
    requires |p.ids| == 12 && -(TWO64 / 2) <= p.granule < TWO64 / 2
    ensures |head| == 26
  {
    [0x4F, 0x67, 0x67, 0x53, p.version, p.headerType] + ToBytes(Unsigned(p.granule), 8) + p.ids
  }

  function Encode(p: Page): (e: seq<Byte>)
    requires WellFormed(p)
    ensures |e| == PageLength(p)
  {
    Head(p) + [|p.lacing|] + p.lacing + p.body
  }

  function PageLength(p: Page): nat { HEADER + |p.lacing| + |p.body| }

  /** Bytes that are not a page, followed by a page. */
  datatype Chunk = Chunk(junk: seq<Byte>, page: Page)

  predicate WellFormedChunks(cs: seq<Chunk>) {
    forall i :: 0 <= i < |cs| ==> WellFormed(cs[i].page)
  }

  function Stream(cs: seq<Chunk>, tail: seq<Byte>): seq<Byte>
    requires WellFormedChunks(cs)
  {
    if cs == [] then tail else cs[0].junk + (Encode(cs[0].page) + Stream(cs[1..], tail))
  }

  /** Where the pages of a stream start, the stream itself starting at `base`. */
  function PageOffsets(cs: seq<Chunk>, base: nat): seq<nat> {
    if cs == [] then []
    else
      var at := base + |cs[0].junk|;
      [at] + PageOffsets(cs[1..], at + PageLength(cs[0].page))
  }

  /** No header in the bytes between, before or after the pages: the capture pattern does not occur
      at any of their positions with room for a header behind it. */
  predicate NoFalseMatch(data: seq<Byte>, cs: seq<Chunk>, base: nat) {
    if cs == [] then forall p :: base <= p < |data| ==> !AtPage(data, p)
    else
      var at := base + |cs[0].junk|;
      && (forall p :: base <= p < at ==> !AtPage(data, p))
      && NoFalseMatch(data, cs[1..], at + PageLength(cs[0].page))
  }

  /** The largest of `best` and the granule positions of the pages. */
  function MaxOfPages(cs: seq<Chunk>, best: int): int {
    if cs == [] then best else MaxOfPages(cs[1..], Larger(best, cs[0].page.granule))
  }

  lemma {:induction false} SkipJunk(data: seq<Byte>, pos: nat, stop: nat, best: int)
    requires pos <= stop && stop + HEADER <= |data|
    requires forall p :: pos <= p < stop ==> !AtPage(data, p)
    ensures Headers(data, pos) == Headers(data, stop)
    ensures MaxFrom(data, pos, best) == MaxFrom(data, stop, best)
    decreases stop - pos
  {
    if pos < stop { SkipJunk(data, pos + 1, stop, best); }
  }

  lemma {:induction false} SkipTail(data: seq<Byte>, pos: nat, best: int)
    requires forall p :: pos <= p < |data| ==> !AtPage(data, p)
    ensures Headers(data, pos) == [] && MaxFrom(data, pos, best) == best
    decreases if pos < |data| then |data| - pos else 0
  {
    if pos + HEADER <= |data| { SkipTail(data, pos + 1, best); }
  }

  // --------------------------------------------------------- pages in their place

  /** `data` holds `part` at `pos`. */
  predicate Holds(data: seq<Byte>, pos: nat, part: seq<Byte>) {
    pos + |part| <= |data| && forall i :: 0 <= i < |part| ==> data[pos + i] == part[i]
  }

  lemma {:induction false} SumInPlace(data: seq<Byte>, pos: nat, part: seq<Byte>, n: nat)
    requires Holds(data, pos, part) && n <= |part|
    ensures Sum(data, pos, pos + n) == Sum(part, 0, n)
  {
    if n > 0 { SumInPlace(data, pos, part, n - 1); }
  }

  lemma {:induction false} BytesInPlace(data: seq<Byte>, pos: nat, v: nat, n: nat)
    requires v < Pow256(n) && Holds(data, pos, ToBytes(v, n))
    ensures LittleEndian(data, pos, n) == v
    decreases n
  {
    if n > 0 {
      var rest := ToBytes(v / 256, n - 1);
      assert forall i :: 0 <= i < n - 1 ==> rest[i] == ToBytes(v, n)[i + 1];
      BytesInPlace(data, pos + 1, v / 256, n - 1);
      assert data[pos] == ToBytes(v, n)[0];
    }
  }

  lemma GranuleInPlace(data: seq<Byte>, pos: nat, g: int)
    requires -(TWO64 / 2) <= g < TWO64 / 2 && Holds(data, pos, ToBytes(Unsigned(g), 8))
    ensures Signed(LittleEndian(data, pos, 8)) == g
  {
    assert Pow256(8) == TWO64 by { assert Pow256(4) == 0x1_0000_0000; }
    BytesInPlace(data, pos, Unsigned(g), 8);
  }

  /** Placing a concatenation places its parts. */
  lemma HoldsParts(data: seq<Byte>, pos: nat, a: seq<Byte>, b: seq<Byte>)
    requires Holds(data, pos, a + b)
    ensures Holds(data, pos, a) && Holds(data, pos + |a|, b)
  {
    var c := a + b;
    assert forall i :: 0 <= i < |a| ==> a[i] == c[i];
    forall i | 0 <= i < |b| ensures data[pos + |a| + i] == b[i] {
      assert c[|a| + i] == b[i];
      assert data[pos + (|a| + i)] == c[|a| + i];
    }
  }

  /** The scanner recognises a header at `pos`, reads the granule position of page `p` there and
      skips exactly that page. */
  predicate PageAt(data: seq<Byte>, pos: nat, p: Page) {
    && AtPage(data, pos) && GranuleAt(data, pos) == p.granule
    && LacingComplete(data, pos) && NextPage(data, pos) == pos + PageLength(p)
  }

  lemma HeadInPlace(data: seq<Byte>, pos: nat, p: Page)
    requires WellFormed(p) && pos + HEADER <= |data| && Holds(data, pos, Head(p))
    ensures AtPage(data, pos) && GranuleAt(data, pos) == p.granule
  {
    var capture := [0x4F, 0x67, 0x67, 0x53, p.version, p.headerType];
    var g := ToBytes(Unsigned(p.granule), 8);
    HoldsParts(data, pos, capture + g, p.ids);
    HoldsParts(data, pos, capture, g);
    assert data[pos + 0] == capture[0] && data[pos + 1] == capture[1];
    assert data[pos + 2] == capture[2] && data[pos + 3] == capture[3];
    GranuleInPlace(data, pos + 6, p.granule);
  }

  lemma PageInPlace(data: seq<Byte>, pos: nat, p: Page)
    requires WellFormed(p) && Holds(data, pos, Encode(p))
    ensures PageAt(data, pos, p)
  {
    var head := Head(p);
    HoldsParts(data, pos, head + [|p.lacing|] + p.lacing, p.body);
    HoldsParts(data, pos, head + [|p.lacing|], p.lacing);
    HoldsParts(data, pos, head, [|p.lacing|]);
    HeadInPlace(data, pos, p);
    assert data[pos + 26 + 0] == [|p.lacing|][0];
    SumInPlace(data, pos + HEADER, p.lacing, |p.lacing|);
  }

  /** Every page of the stream is where PageOffsets says. */
  predicate LaidOut(data: seq<Byte>, cs: seq<Chunk>, base: nat) {
    cs != [] ==>
      var at := base + |cs[0].junk|;
      PageAt(data, at, cs[0].page) && LaidOut(data, cs[1..], at + PageLength(cs[0].page))
  }

  lemma {:induction false} StreamIsLaidOut(data: seq<Byte>, cs: seq<Chunk>, tail: seq<Byte>, base: nat)
    requires WellFormedChunks(cs) && Holds(data, base, Stream(cs, tail))
    ensures LaidOut(data, cs, base)
    decreases |cs|
  {
    if cs != [] {
      var at := base + |cs[0].junk|;
      var page, rest := Encode(cs[0].page), Stream(cs[1..], tail);
      HoldsParts(data, base, cs[0].junk, page + rest);
      HoldsParts(data, at, page, rest);
      PageInPlace(data, at, cs[0].page);
      StreamIsLaidOut(data, cs[1..], tail, at + |page|);
    }
  }

  lemma VisitPage(data: seq<Byte>, pos: nat, p: Page, best: int)
    requires PageAt(data, pos, p)
    ensures pos + HEADER <= |data|
    ensures Headers(data, pos) == [pos] + Headers(data, pos + PageLength(p))
    ensures MaxFrom(data, pos, best) == MaxFrom(data, pos + PageLength(p), Larger(best, p.granule))
  {
  }

  /** The scanner stops at the pages of a stream, in order, and nowhere else. */
  lemma {:induction false} ScansPages(data: seq<Byte>, cs: seq<Chunk>, base: nat, best: int)
    requires LaidOut(data, cs, base) && NoFalseMatch(data, cs, base)
    ensures Headers(data, base) == PageOffsets(cs, base)
    ensures MaxFrom(data, base, best) == MaxOfPages(cs, best)
    decreases |cs|
  {
    if cs == [] {
      SkipTail(data, base, best);
    } else {
      var at := base + |cs[0].junk|;
      VisitPage(data, at, cs[0].page, best);
      SkipJunk(data, base, at, best);
      ScansPages(data, cs[1..], at + PageLength(cs[0].page), Larger(best, cs[0].page.granule));
    }
  }

  /** Where a stream of chunks ends. */
  function EndOf(cs: seq<Chunk>, base: nat): nat {
    if cs == [] then base else EndOf(cs[1..], base + |cs[0].junk| + PageLength(cs[0].page))
  }

  /** No header in the bytes before and between the pages, nor in the junk behind them. */
  predicate NoFalseMatchUntil(data: seq<Byte>, cs: seq<Chunk>, base: nat, stop: nat) {
    if cs == [] then forall p :: base <= p < stop ==> !AtPage(data, p)
    else
      var at := base + |cs[0].junk|;
      && (forall p :: base <= p < at ==> !AtPage(data, p))
      && NoFalseMatchUntil(data, cs[1..], at + PageLength(cs[0].page), stop)
  }

  /** A last page that is cut off behind its header still counts, and ends the scan. */
  lemma {:induction false} ScansCutPage(data: seq<Byte>, cs: seq<Chunk>, base: nat, stop: nat, best: int)
    requires LaidOut(data, cs, base) && EndOf(cs, base) <= stop && NoFalseMatchUntil(data, cs, base, stop)
    requires AtPage(data, stop) && (LacingComplete(data, stop) ==> NextPage(data, stop) + HEADER > |data|)
    ensures Headers(data, base) == PageOffsets(cs, base) + [stop]
    ensures MaxFrom(data, base, best) == Larger(MaxOfPages(cs, best), GranuleAt(data, stop))
    decreases |cs|
  {
    if cs == [] {
      SkipJunk(data, base, stop, best);
    } else {
      var at := base + |cs[0].junk|;
      VisitPage(data, at, cs[0].page, best);
      SkipJunk(data, base, at, best);
      ScansCutPage(data, cs[1..], at + PageLength(cs[0].page), stop, Larger(best, cs[0].page.granule));
    }
  }

  lemma {:induction false} MaxOfPagesIsMax(cs: seq<Chunk>, best: int)
    ensures best <= MaxOfPages(cs, best)
    ensures forall i :: 0 <= i < |cs| ==> cs[i].page.granule <= MaxOfPages(cs, best)
    ensures MaxOfPages(cs, best) == best || exists i :: 0 <= i < |cs| && cs[i].page.granule == MaxOfPages(cs, best)
  {
    if cs != [] {
      var first := Larger(best, cs[0].page.granule);
      MaxOfPagesIsMax(cs[1..], first);
      var m := MaxOfPages(cs, best);
      assert forall i :: 0 < i < |cs| ==> cs[i] == cs[1..][i - 1];
      if m != first {
        var j :| 0 <= j < |cs| - 1 && cs[1..][j].page.granule == m;
        assert cs[j + 1].page.granule == m;
      }
    }
  }

  /** On every stream of well-formed pages, with any junk before, between and after them that holds
      no false header, the scanner visits exactly the page headers and reports the largest of zero
      and all signed granule positions. */
  lemma ScansStreams(cs: seq<Chunk>, tail: seq<Byte>)
    requires WellFormedChunks(cs) && NoFalseMatch(Stream(cs, tail), cs, 0)
    ensures
      var data := Stream(cs, tail);
      var total := MaxFrom(data, 0, 0);
      && Headers(data, 0) == PageOffsets(cs, 0)
      && 0 <= total
      && (forall i :: 0 <= i < |cs| ==> cs[i].page.granule <= total)
      && (total == 0 || exists i :: 0 <= i < |cs| && cs[i].page.granule == total)
  {
    var data := Stream(cs, tail);
    assert Holds(data, 0, data);
    StreamIsLaidOut(data, cs, tail, 0);
    ScansPages(data, cs, 0, 0);
    MaxOfPagesIsMax(cs, 0);
  }
}
