/** How versions are written: segments joined by dots, an optional pre-release suffix after a hyphen,
    optional build metadata after a plus sign, an optional leading v, and blanks around. */
module VersionText {
  import opened Wrappers
  import opened Text
  import opened Version

  datatype Written = Written(
    before: string, prefix: string, segments: seq<string>, suffix: Option<string>, build: Option<string>, after: string)

  /** The core and the suffix. */
  function Body(w: Written): string {
    Join(w.segments, '.') + if w.suffix.Some? then ['-'] + w.suffix.value else ""
  }

  function Spelled(w: Written): string {
    w.before + (w.prefix + Body(w) + BuildText(w)) + w.after
  }

  predicate SegmentText(s: string) {
    forall i :: 0 <= i < |s| ==> s[i] != '.' && s[i] != '-' && s[i] != '+' && !IsSpace(s[i])
  }

  predicate StartsWith(s: string, c: char) { s != "" && s[0] == c }

  /** A version as people write it; the first segment does not start with a v of its own. */
  predicate WellWritten(w: Written) {
    && AllCut(w.before, Space) && AllCut(w.after, Space) && (w.prefix == "" || w.prefix == ['v'] || w.prefix == ['V'])
    && |w.segments| >= 1 && (forall i :: 0 <= i < |w.segments| ==> SegmentText(w.segments[i]))
    && !StartsWith(w.segments[0], 'v') && !StartsWith(w.segments[0], 'V')
    && (w.suffix.Some? ==> '+' !in w.suffix.value && Trimmed(w.suffix.value, Space))
  }

  // ------------------------------------------------------------------ pieces

  lemma {:induction false} JoinedChars(segs: seq<string>)
    requires forall i :: 0 <= i < |segs| ==> SegmentText(segs[i])
    ensures forall i :: 0 <= i < |Join(segs, '.')| ==>
              Join(segs, '.')[i] != '-' && Join(segs, '.')[i] != '+' && !IsSpace(Join(segs, '.')[i])
  {
    if |segs| > 1 { JoinedChars(segs[1..]); }
  }

  lemma JoinedStart(segs: seq<string>, c: char)
    requires |segs| >= 1 && !StartsWith(segs[0], c) && c != '.'
    ensures !StartsWith(Join(segs, '.'), c)
  {
  }

  /** What the body looks like: no plus sign, no blank at either end, no v in front. */
  lemma BodyShape(w: Written)
    requires WellWritten(w)
    ensures '+' !in Body(w) && Trimmed(Body(w), Space) && !StartsWith(Body(w), 'v') && !StartsWith(Body(w), 'V')
  {
    JoinedChars(w.segments);
    JoinedStart(w.segments, 'v');
    JoinedStart(w.segments, 'V');
  }

  lemma IndexOfFirst(s: string, rest: string, c: char)
    requires c !in s
    ensures IndexOf(s + [c] + rest, c) == |s|
    ensures IndexOf(s, c) == |s|
  {
    var t := s + [c] + rest;
    var i := IndexOf(t, c);
    assert forall k :: 0 <= k < i ==> t[k] == t[..i][k] && t[k] != c;
    assert forall k :: 0 <= k < |s| ==> t[k] == s[k];
    assert t[|s|] == c;
  }

  lemma {:induction false} SplitsAtDots(segs: seq<string>)
    requires |segs| >= 1 && forall i :: 0 <= i < |segs| ==> SegmentText(segs[i])
    ensures Split(Join(segs, '.'), '.') == segs
  {
    forall p | p in segs ensures '.' !in p {
      var i :| 0 <= i < |segs| && segs[i] == p;
    }
    SplitJoin(segs, '.');
  }

  lemma BodySplits(w: Written)
    requires WellWritten(w)
    ensures SplitVersionCore(Body(w)) == Parsed(w.segments, if w.suffix.Some? then w.suffix.value else "")
  {
    var core := Join(w.segments, '.');
    JoinedChars(w.segments);
    SplitsAtDots(w.segments);
    assert '-' !in core;
    if w.suffix.Some? {
      var body := core + ['-'] + w.suffix.value;
      assert Body(w) == body;
      IndexOfFirst(core, w.suffix.value, '-');
      assert body[..|core|] == core && body[|core| + 1..] == w.suffix.value;
    } else {
      assert Body(w) == core;
      IndexOfFirst(core, "", '-');
      assert core[..|core|] == core;
    }
  }

  // -------------------------------------------------------------- normalization

  /** Removing the leading v in either case. */
  function Unprefixed(s: string): string { TrimPrefix(TrimPrefix(s, 'v'), 'V') }

  lemma UnprefixedBody(prefix: string, rest: string)
    requires prefix == "" || prefix == ['v'] || prefix == ['V']
    requires !StartsWith(rest, 'v') && !StartsWith(rest, 'V')
    ensures Unprefixed(prefix + rest) == rest
  {
    var s := prefix + rest;
    if prefix == "" {
      assert s == rest;
    } else {
      assert s[0] == prefix[0] && s[1..] == rest;
    }
  }

  function BuildText(w: Written): string { if w.build.Some? then ['+'] + w.build.value else "" }

  /** A head and what remains of the build part behind it once blanks are trimmed. */
  lemma TrimmedBuild(head: string, build: Option<string>) returns (left: string)
    requires Trimmed(head, Space)
    ensures TrimSpace(head + if build.Some? then ['+'] + build.value else "") == head + left
    ensures left == "" || left[0] == '+'
  {
    if build.Some? {
      var h := head + ['+'];
      assert h + build.value == head + (['+'] + build.value);
      var rest := TrimKeepsHead(h, build.value, Space);
      left := ['+'] + rest;
      assert h + rest == head + left;
    } else {
      left := "";
      assert head + "" == head;
      TrimKeepsTrimmed(head, Space);
    }
  }

  lemma HeadTrimmed(prefix: string, body: string)
    requires (prefix == "" || prefix == ['v'] || prefix == ['V']) && Trimmed(body, Space)
    ensures Trimmed(prefix + body, Space)
  {
    var head := prefix + body;
    if prefix == "" {
      assert head == body;
    } else if body == "" {
      assert head == prefix;
    } else {
      assert head[0] == prefix[0] && head[|head| - 1] == body[|body| - 1];
    }
  }

  lemma Reassociate(a: string, b: string, c: string)
    ensures a + b + c == a + (b + c)
  {
  }

  /** The text without the blanks around it: the body in full, and what remains of the build part. */
  lemma TrimmedSpelling(w: Written) returns (left: string)
    requires WellWritten(w)
    ensures TrimSpace(Spelled(w)) == w.prefix + (Body(w) + left)
    ensures left == "" || left[0] == '+'
  {
    BodyShape(w);
    HeadTrimmed(w.prefix, Body(w));
    left := TrimmedPieces(w.before, w.prefix + Body(w), w.build, w.after);
    Reassociate(w.prefix, Body(w), left);
  }

  lemma TrimmedPieces(before: string, head: string, build: Option<string>, after: string) returns (left: string)
    requires AllCut(before, Space) && AllCut(after, Space) && Trimmed(head, Space)
    ensures TrimSpace(before + (head + if build.Some? then ['+'] + build.value else "") + after) == head + left
    ensures left == "" || left[0] == '+'
  {
    TrimAround(before, head + if build.Some? then ['+'] + build.value else "", after, Space);
    left := TrimmedBuild(head, build);
  }

  lemma NormalizesToBody(w: Written)
    requires WellWritten(w)
    ensures NormalizeVersion(Spelled(w)) == Body(w)
  {
    var left := TrimmedSpelling(w);
    BodyShape(w);
    NormalizesHead(w.prefix, Body(w), left);
  }

  lemma NormalizesHead(prefix: string, body: string, left: string)
    requires prefix == "" || prefix == ['v'] || prefix == ['V']
    requires '+' !in body && Trimmed(body, Space) && !StartsWith(body, 'v') && !StartsWith(body, 'V')
    requires left == "" || left[0] == '+'
    ensures
      var unprefixed := Unprefixed(prefix + (body + left));
      TrimSpace(unprefixed[..IndexOf(unprefixed, '+')]) == body
  {
    assert !StartsWith(body + left, 'v') && !StartsWith(body + left, 'V');
    UnprefixedBody(prefix, body + left);
    CutAtPlus(body, left);
    TrimKeepsTrimmed(body, Space);
  }

  lemma CutAtPlus(body: string, left: string)
    requires '+' !in body && (left == "" || left[0] == '+')
    ensures (body + left)[..IndexOf(body + left, '+')] == body
  {
    if left == "" {
      IndexOfFirst(body, "", '+');
      assert body + left == body;
    } else {
      assert body + left == body + ['+'] + left[1..];
      IndexOfFirst(body, left[1..], '+');
    }
  }

  /** Whatever surrounds it, a well-written version parses to its segments and its suffix. */
  lemma ParsesAsWritten(w: Written)
    requires WellWritten(w)
    ensures Parse(Spelled(w)) == Parsed(w.segments, if w.suffix.Some? then w.suffix.value else "")
  {
    NormalizesToBody(w);
    BodySplits(w);
  }

  // --------------------------------------------------------------------- the order

  predicate NumericWritten(w: Written) {
    WellWritten(w) && forall i :: 0 <= i < |w.segments| ==> IsNumeric(w.segments[i])
  }

  function SuffixOf(w: Written): string { if w.suffix.Some? then w.suffix.value else "" }

  lemma WrittenIsNumeric(w: Written)
    requires NumericWritten(w)
    ensures NumericVersion(Spelled(w)) && NumericCore(w.segments)
  {
    ParsesAsWritten(w);
    NormalizesToBody(w);
    var text := Join(w.segments, '.');
    assert w.segments[0] != "";
    assert text != "";
  }

  /** Versions as written compare by the values of their segments, missing ones as zero, and then a
      release above its pre-releases; prefix, build and blanks do not matter. */
  lemma WrittenOrder(a: Written, b: Written)
    requires NumericWritten(a) && NumericWritten(b)
    ensures NumericCore(a.segments) && NumericCore(b.segments)
    ensures CompareVersions(Spelled(a), Spelled(b)) == Newer <==>
      || Precedes(a.segments, b.segments)
      || (SameValues(a.segments, b.segments)
          && PreReleaseAtMost(SuffixOf(a), SuffixOf(b)) && SuffixOf(a) != SuffixOf(b))
    ensures CompareVersions(Spelled(a), Spelled(b)) == Equal <==>
      SameValues(a.segments, b.segments) && SuffixOf(a) == SuffixOf(b)
  {
    WrittenIsNumeric(a);
    WrittenIsNumeric(b);
    ParsesAsWritten(a);
    ParsesAsWritten(b);
    CoresByValue(a.segments, b.segments);
  }

  /** A higher number decides, however it is spelled: 1.10.0 is above 1.9.0. */
  lemma HigherSegmentWins(a: Written, b: Written, k: nat)
    requires NumericWritten(a) && NumericWritten(b) && k < |a.segments| && k < |b.segments|
    requires forall i :: 0 <= i < k ==> NumVal(a.segments[i]) == NumVal(b.segments[i])
    requires NumVal(a.segments[k]) > NumVal(b.segments[k])
    ensures CompareVersions(Spelled(a), Spelled(b)) == Older && CompareVersions(Spelled(b), Spelled(a)) == Newer
  {
    WrittenOrder(b, a);
    HigherPrecedes(b.segments, a.segments, k);
    VersionsConverse(Spelled(b), Spelled(a));
  }

  lemma HigherPrecedes(l: seq<string>, r: seq<string>, k: nat)
    requires NumericCore(l) && NumericCore(r) && k < |l| && k < |r| && NumVal(l[k]) < NumVal(r[k])
    requires forall i :: 0 <= i < k ==> NumVal(l[i]) == NumVal(r[i])
    ensures Precedes(l, r)
  {
    assert Value(l, k) < Value(r, k);
    assert forall i: nat :: i < k ==> Value(l, i) == Value(r, i);
    assert PrecedesAt(l, r, k);
  }
}
