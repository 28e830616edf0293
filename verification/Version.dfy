/** Ordering of version strings: dot-separated core segments of any length, a pre-release
    suffix after the first '-', and build metadata after '+' ignored. */
module Version {
  import opened Text

  datatype Comparison = Equal | Newer | Older | Unknown

  datatype Parsed = Parsed(core: seq<string>, preRelease: string)

  // ------------------------------------------------------------------ parsing

  function IndexOf(s: string, c: char): (i: nat)
    ensures i <= |s| && c !in s[..i]
    ensures i < |s| ==> s[i] == c
  {
    if s == "" || s[0] == c then 0 else
      var i := 1 + IndexOf(s[1..], c);
      assert s[..i] == [s[0]] + s[1..][..i - 1];
      i
  }

  function TrimPrefix(s: string, c: char): string {
    if s != "" && s[0] == c then s[1..] else s
  }

  function NormalizeVersion(raw: string): string {
    var unprefixed := TrimPrefix(TrimPrefix(TrimSpace(raw), 'v'), 'V');
    TrimSpace(unprefixed[..IndexOf(unprefixed, '+')])
  }

  function SplitVersionCore(value: string): Parsed {
    var i := IndexOf(value, '-');
    Parsed(Split(value[..i], '.'), if i < |value| then value[i + 1..] else "")
  }

  // ----------------------------------------------------------------- segments

  predicate IsDigit(c: char) { '0' <= c <= '9' }

  predicate Digits(s: string) { forall i :: 0 <= i < |s| ==> IsDigit(s[i]) }

  predicate IsNumeric(s: string) { s != "" && Digits(s) }

  method IsNumericSegment(segment: string) returns (numeric: bool)
    ensures numeric <==> IsNumeric(segment)
  {
    if segment == "" { return false; }
    for i := 0 to |segment|
      invariant forall j :: 0 <= j < i ==> IsDigit(segment[j])
    {
      if segment[i] < '0' || segment[i] > '9' { return false; }
    }
    return true;
  }

  /** Leading zeros dropped, then length, then bytes: no integer is ever formed. */
  function CompareNumericSegments(left: string, right: string): int {
    CompareTrimmed(TrimLeft(left, Only('0')), TrimLeft(right, Only('0')))
  }

  function CompareTrimmed(l: string, r: string): int {
    if |l| != |r| then (if |l| > |r| then 1 else -1) else Compare(l, r)
  }

  function Pow10(n: nat): nat { if n == 0 then 1 else 10 * Pow10(n - 1) }

  function Digit(c: char): nat
    requires IsDigit(c)
  {
    (c - '0') as nat
  }

  /** The integer a digit string denotes. */
  function NumVal(s: string): nat
    requires Digits(s)
  {
    if s == "" then 0 else Digit(s[0]) * Pow10(|s| - 1) + NumVal(s[1..])
  }

  function Sign(n: int): int { if n < 0 then -1 else if n == 0 then 0 else 1 }

  lemma {:induction false} NumValBelow(s: string)
    requires Digits(s)
    ensures NumVal(s) < Pow10(|s|)
  {
    if s != "" {
      NumValBelow(s[1..]);
      AtMostNine(Digit(s[0]), Pow10(|s| - 1));
    }
  }

  lemma AtMostNine(d: nat, p: nat)
    requires d <= 9
    ensures d * p <= 9 * p
  {
  }

  lemma NumValAtLeast(s: string)
    requires IsNumeric(s) && s[0] != '0'
    ensures NumVal(s) >= Pow10(|s| - 1)
  {
    assert Digit(s[0]) >= 1;
    assert Digit(s[0]) * Pow10(|s| - 1) >= Pow10(|s| - 1);
  }

  lemma {:induction false} Pow10Monotone(m: nat, n: nat)
    requires m <= n
    ensures Pow10(m) <= Pow10(n)
  {
    if m < n { Pow10Monotone(m, n - 1); }
  }

  lemma {:induction false} NumValSkipZeros(s: string, n: nat)
    requires Digits(s) && n <= |s| && forall i :: 0 <= i < n ==> s[i] == '0'
    ensures Digits(s[n..]) && NumVal(s[n..]) == NumVal(s)
  {
    if n > 0 {
      NumValSkipZeros(s[1..], n - 1);
      assert s[1..][n - 1..] == s[n..];
      assert NumVal(s) == 0 * Pow10(|s| - 1) + NumVal(s[1..]);
    } else {
      assert s[n..] == s;
    }
  }

  lemma NumValTrim(s: string)
    requires Digits(s)
    ensures Digits(TrimLeft(s, Only('0'))) && NumVal(TrimLeft(s, Only('0'))) == NumVal(s)
  {
    NumValSkipZeros(s, SkipLeft(s, Only('0'), 0));
  }

  lemma LongerIsGreater(l: string, r: string)
    requires Digits(l) && Digits(r) && |l| > |r| && l[0] != '0'
    ensures NumVal(l) > NumVal(r)
  {
    NumValAtLeast(l);
    NumValBelow(r);
    Pow10Monotone(|r|, |l| - 1);
  }

  lemma {:induction false} SameLengthOrder(l: string, r: string)
    requires Digits(l) && Digits(r) && |l| == |r|
    ensures Less(l, r) <==> NumVal(l) < NumVal(r)
    ensures l == r <==> NumVal(l) == NumVal(r)
  {
    if l != "" {
      SameLengthOrder(l[1..], r[1..]);
      NumValBelow(l[1..]);
      NumValBelow(r[1..]);
      assert l == [l[0]] + l[1..] && r == [r[0]] + r[1..];
      var p, x, y := Pow10(|l| - 1), NumVal(l[1..]), NumVal(r[1..]);
      if Digit(l[0]) < Digit(r[0]) {
        LeadingDigit(Digit(l[0]), Digit(r[0]), p, x, y);
      } else if Digit(l[0]) > Digit(r[0]) {
        LeadingDigit(Digit(r[0]), Digit(l[0]), p, y, x);
      }
    }
  }

  lemma LeadingDigit(d: nat, e: nat, p: nat, x: nat, y: nat)
    requires d < e && x < p
    ensures d * p + x < e * p + y
  {
    MulGap(d, e, p);
  }

  lemma {:induction false} MulGap(d: nat, e: nat, p: nat)
    requires d < e
    ensures d * p + p <= e * p
  {
    if d + 1 < e { MulGap(d, e - 1, p); }
    assert e * p == (e - 1) * p + p;
  }

  lemma TrimmedIsInteger(l: string, r: string)
    requires Digits(l) && Digits(r)
    requires (l != "" ==> l[0] != '0') && (r != "" ==> r[0] != '0')
    ensures CompareTrimmed(l, r) == Sign(NumVal(l) - NumVal(r))
  {
    if |l| > |r| {
      LongerIsGreater(l, r);
    } else if |l| < |r| {
      LongerIsGreater(r, l);
    } else {
      SameLengthOrder(l, r);
    }
  }

  /** On digit strings of any length the comparison is integer comparison. */
  lemma NumericIsInteger(left: string, right: string)
    requires Digits(left) && Digits(right)
    ensures CompareNumericSegments(left, right) == Sign(NumVal(left) - NumVal(right))
  {
    NumValTrim(left);
    NumValTrim(right);
    TrimmedIsInteger(TrimLeft(left, Only('0')), TrimLeft(right, Only('0')));
  }

  // -------------------------------------------------------------------- cores

  function Segment(core: seq<string>, i: nat): string {
    if i < |core| then core[i] else "0"
  }

  function CompareSegments(l: string, r: string): int {
    if l == r then 0
    else if IsNumeric(l) && IsNumeric(r) then CompareNumericSegments(l, r)
    else if Less(r, l) then 1
    else -1
  }

  /** The first nonzero segment comparison among positions i, ..., n - 1. */
  function CompareUpTo(left: seq<string>, right: seq<string>, i: nat, n: nat): int
    decreases n - i
  {
    if i >= n then 0
    else
      var c := CompareSegments(Segment(left, i), Segment(right, i));
      if c != 0 then c else CompareUpTo(left, right, i + 1, n)
  }

  function Max(a: nat, b: nat): nat { if a > b then a else b }

  function CompareCores(left: seq<string>, right: seq<string>): int {
    CompareUpTo(left, right, 0, Max(|left|, |right|))
  }

  method CompareVersionCores(left: seq<string>, right: seq<string>) returns (result: int)
    ensures result == CompareCores(left, right)
  {
    var length := |left|;
    if |right| > length { length := |right|; }
    var i := 0;
    while i < length
      invariant i <= length
      invariant CompareCores(left, right) == CompareUpTo(left, right, i, length)
    {
      var leftSegment := "0";
      if i < |left| { leftSegment := left[i]; }
      var rightSegment := "0";
      if i < |right| { rightSegment := right[i]; }
      i := i + 1;
      if leftSegment == rightSegment { continue; }
      var leftNumeric := IsNumericSegment(leftSegment);
      var rightNumeric := IsNumericSegment(rightSegment);
      if leftNumeric && rightNumeric {
        result := CompareNumericSegments(leftSegment, rightSegment);
        if result != 0 { return; }
        continue;
      }
      if Less(rightSegment, leftSegment) { return 1; }
      return -1;
    }
    return 0;
  }

  lemma SegmentsConverse(l: string, r: string)
    ensures CompareSegments(r, l) == -CompareSegments(l, r)
    ensures -1 <= CompareSegments(l, r) <= 1
  {
    if IsNumeric(l) && IsNumeric(r) {
      NumericConverse(l, r);
    } else {
      LessConverse(l, r);
    }
  }

  lemma NumericConverse(l: string, r: string)
    requires Digits(l) && Digits(r)
    ensures CompareNumericSegments(r, l) == -CompareNumericSegments(l, r)
    ensures -1 <= CompareNumericSegments(l, r) <= 1
  {
    NumericIsInteger(l, r);
    NumericIsInteger(r, l);
  }

  lemma LessConverse(l: string, r: string)
    ensures l != r ==> (Less(l, r) <==> !Less(r, l))
  {
    LessTotal(l, r);
    if Less(l, r) { LessAsymmetric(l, r); }
  }

  lemma {:induction false} UpToConverse(left: seq<string>, right: seq<string>, i: nat, n: nat)
    ensures CompareUpTo(right, left, i, n) == -CompareUpTo(left, right, i, n)
    decreases n - i
  {
    if i < n {
      SegmentsConverse(Segment(left, i), Segment(right, i));
      UpToConverse(left, right, i + 1, n);
    }
  }

  // ----------------------------------------------------------------- versions

  function ComparePreRelease(current: string, latest: string): Comparison {
    if current == latest then Equal
    else if current == "" then Older
    else if latest == "" then Newer
    else if Less(current, latest) then Newer
    else Older
  }

  function CompareParsed(current: Parsed, latest: Parsed): Comparison {
    var c := CompareCores(current.core, latest.core);
    if c > 0 then Older
    else if c < 0 then Newer
    else ComparePreRelease(current.preRelease, latest.preRelease)
  }

  function Parse(v: string): Parsed { SplitVersionCore(NormalizeVersion(v)) }

  function CompareVersions(current: string, latest: string): Comparison {
    var c, l := NormalizeVersion(current), NormalizeVersion(latest);
    if c == "" || l == "" then Unknown
    else CompareParsed(Parse(current), Parse(latest))
  }

  function Converse(c: Comparison): Comparison {
    match c case Newer => Older case Older => Newer case _ => c
  }

  lemma ParsedConverse(a: Parsed, b: Parsed)
    ensures CompareParsed(b, a) == Converse(CompareParsed(a, b))
    ensures CompareParsed(a, b) != Unknown
  {
    UpToConverse(a.core, b.core, 0, Max(|a.core|, |b.core|));
    LessConverse(a.preRelease, b.preRelease);
  }

  /** Swapping the arguments swaps newer and older, for all inputs; unknown means a side is empty. */
  lemma VersionsConverse(a: string, b: string)
    ensures CompareVersions(b, a) == Converse(CompareVersions(a, b))
    ensures CompareVersions(a, b) == Unknown <==> NormalizeVersion(a) == "" || NormalizeVersion(b) == ""
  {
    ParsedConverse(Parse(a), Parse(b));
  }

  // -------------------------------------------------- the order on numeric cores

  predicate NumericCore(core: seq<string>) {
    forall i :: 0 <= i < |core| ==> IsNumeric(core[i])
  }

  /** The value of the i-th segment; segments that are missing count as zero. */
  function Value(core: seq<string>, i: nat): nat
    requires NumericCore(core)
  {
    if i < |core| then NumVal(core[i]) else 0
  }

  /** `a` precedes `b` at the first position where their values differ. */
  ghost predicate Precedes(a: seq<string>, b: seq<string>)
    requires NumericCore(a) && NumericCore(b)
  {
    exists k: nat :: PrecedesAt(a, b, k)
  }

  ghost predicate PrecedesAt(a: seq<string>, b: seq<string>, k: nat)
    requires NumericCore(a) && NumericCore(b)
  {
    Value(a, k) < Value(b, k) && forall j: nat :: j < k ==> Value(a, j) == Value(b, j)
  }

  ghost predicate SameValues(a: seq<string>, b: seq<string>)
    requires NumericCore(a) && NumericCore(b)
  {
    forall i: nat :: Value(a, i) == Value(b, i)
  }

  lemma PrecedesExcludes(a: seq<string>, b: seq<string>, k: nat)
    requires NumericCore(a) && NumericCore(b) && PrecedesAt(a, b, k)
    ensures Precedes(a, b) && !Precedes(b, a) && !SameValues(a, b)
  {
    if m: nat :| PrecedesAt(b, a, m) {
      assert false;
    }
  }

  lemma SegmentValues(a: seq<string>, b: seq<string>, i: nat)
    requires NumericCore(a) && NumericCore(b)
    ensures CompareSegments(Segment(a, i), Segment(b, i)) == Sign(Value(a, i) - Value(b, i))
  {
    assert NumVal("0") == 0;
    NumericIsInteger(Segment(a, i), Segment(b, i));
  }

  lemma {:induction false} UpToValues(a: seq<string>, b: seq<string>, i: nat, n: nat)
    requires NumericCore(a) && NumericCore(b) && n >= |a| && n >= |b|
    requires forall j: nat :: j < i ==> Value(a, j) == Value(b, j)
    ensures CompareUpTo(a, b, i, n) < 0 <==> Precedes(a, b)
    ensures CompareUpTo(a, b, i, n) > 0 <==> Precedes(b, a)
    ensures CompareUpTo(a, b, i, n) == 0 <==> SameValues(a, b)
    decreases n - i
  {
    if i < n {
      SegmentValues(a, b, i);
      if Value(a, i) < Value(b, i) {
        PrecedesExcludes(a, b, i);
      } else if Value(a, i) > Value(b, i) {
        PrecedesExcludes(b, a, i);
      } else {
        UpToValues(a, b, i + 1, n);
      }
    } else {
      assert SameValues(a, b);
    }
  }

  /** On numeric cores the segment loop decides the lexicographic order of the zero-padded
      integer sequences. */
  lemma CoresByValue(a: seq<string>, b: seq<string>)
    requires NumericCore(a) && NumericCore(b)
    ensures CompareCores(a, b) < 0 <==> Precedes(a, b)
    ensures CompareCores(a, b) > 0 <==> Precedes(b, a)
    ensures CompareCores(a, b) == 0 <==> SameValues(a, b)
  {
    UpToValues(a, b, 0, Max(|a|, |b|));
  }

  lemma PrecedesTransitive(a: seq<string>, b: seq<string>, c: seq<string>)
    requires NumericCore(a) && NumericCore(b) && NumericCore(c)
    requires Precedes(a, b) && Precedes(b, c)
    ensures Precedes(a, c)
  {
    var k: nat :| PrecedesAt(a, b, k);
    var m: nat :| PrecedesAt(b, c, m);
    assert PrecedesAt(a, c, if k < m then k else m);
  }

  lemma PrecedesRespectsValues(a: seq<string>, b: seq<string>, c: seq<string>)
    requires NumericCore(a) && NumericCore(b) && NumericCore(c)
    requires (Precedes(a, b) && SameValues(b, c)) || (SameValues(a, b) && Precedes(b, c))
    ensures Precedes(a, c)
  {
    if Precedes(a, b) && SameValues(b, c) {
      var k: nat :| PrecedesAt(a, b, k);
      assert PrecedesAt(a, c, k);
    } else {
      var k: nat :| PrecedesAt(b, c, k);
      assert PrecedesAt(a, c, k);
    }
  }

  predicate NumericVersion(v: string) {
    NormalizeVersion(v) != "" && NumericCore(Parse(v).core)
  }

  /** `b` is at least as high as `a`. */
  predicate AtMost(a: string, b: string) {
    CompareVersions(a, b) in {Equal, Newer}
  }

  /** A release (no suffix) ranks above every pre-release of the same core. */
  predicate PreReleaseAtMost(a: string, b: string) {
    a == b || b == "" || (a != "" && Less(a, b))
  }

  lemma PreReleaseTransitive(a: string, b: string, c: string)
    requires PreReleaseAtMost(a, b) && PreReleaseAtMost(b, c)
    ensures PreReleaseAtMost(a, c)
  {
    if Less(a, b) && Less(b, c) { LessTransitive(a, b, c); }
  }

  /** What "at most" means on numeric versions, in terms of integers and suffixes alone. */
  lemma AtMostMeaning(a: string, b: string)
    requires NumericVersion(a) && NumericVersion(b)
    ensures AtMost(a, b) <==>
              || Precedes(Parse(a).core, Parse(b).core)
              || (SameValues(Parse(a).core, Parse(b).core)
                  && PreReleaseAtMost(Parse(a).preRelease, Parse(b).preRelease))
  {
    CoresByValue(Parse(a).core, Parse(b).core);
    LessTotal(Parse(a).preRelease, Parse(b).preRelease);
  }

  lemma AtMostTransitive(a: string, b: string, c: string)
    requires NumericVersion(a) && NumericVersion(b) && NumericVersion(c)
    requires AtMost(a, b) && AtMost(b, c)
    ensures AtMost(a, c)
  {
    AtMostMeaning(a, b);
    AtMostMeaning(b, c);
    AtMostMeaning(a, c);
    var x, y, z := Parse(a), Parse(b), Parse(c);
    if Precedes(x.core, y.core) && Precedes(y.core, z.core) {
      PrecedesTransitive(x.core, y.core, z.core);
    } else if Precedes(x.core, y.core) || Precedes(y.core, z.core) {
      PrecedesRespectsValues(x.core, y.core, z.core);
    } else {
      PreReleaseTransitive(x.preRelease, y.preRelease, z.preRelease);
    }
  }

  lemma AtMostTotal(a: string, b: string)
    requires NormalizeVersion(a) != "" && NormalizeVersion(b) != ""
    ensures AtMost(a, b) || AtMost(b, a)
    ensures CompareVersions(a, b) == Equal <==> AtMost(a, b) && AtMost(b, a)
  {
    VersionsConverse(a, b);
  }

  /** Versions with numeric cores are totally preordered, and equality is the order both ways. */
  lemma TotalPreorder(a: string, b: string, c: string)
    requires NumericVersion(a) && NumericVersion(b) && NumericVersion(c)
    ensures AtMost(a, a)
    ensures AtMost(a, b) || AtMost(b, a)
    ensures AtMost(a, b) && AtMost(b, c) ==> AtMost(a, c)
    ensures CompareVersions(a, b) == Equal <==> AtMost(a, b) && AtMost(b, a)
  {
    AtMostTotal(a, a);
    AtMostTotal(a, b);
    if AtMost(a, b) && AtMost(b, c) { AtMostTransitive(a, b, c); }
  }

  /** A version made of one segment of digits and letters before 'v'. */
  predicate Plain(s: string) {
    s != "" && forall i :: 0 <= i < |s| ==> IsDigit(s[i]) || 'a' <= s[i] <= 'u'
  }

  lemma PlainTrimmed(s: string)
    requires Plain(s)
    ensures TrimSpace(s) == s
  {
    assert !IsSpace(s[0]) && !IsSpace(s[|s| - 1]);
    TrimKeepsTrimmed(s, Space);
  }

  lemma PlainParses(s: string)
    requires Plain(s)
    ensures NormalizeVersion(s) == s && Parse(s) == Parsed([s], "")
  {
    PlainTrimmed(s);
    assert '+' !in s && '-' !in s && '.' !in s;
    assert s[..IndexOf(s, '+')] == s && s[..IndexOf(s, '-')] == s;
    SplitNoSep(s, '.');
  }

  // --------------------------------------------------- where transitivity ends

  predicate SegmentAtMost(l: string, r: string) { CompareSegments(l, r) <= 0 }

  lemma SegmentOrder(l: string, r: string)
    ensures if IsNumeric(l) && IsNumeric(r) then SegmentAtMost(l, r) <==> NumVal(l) <= NumVal(r)
            else SegmentAtMost(l, r) <==> l == r || Less(l, r)
  {
    if IsNumeric(l) && IsNumeric(r) { NumericIsInteger(l, r); } else { LessConverse(l, r); }
  }

  /** A chain of segments is broken exactly when two of the three are numbers and the third is not, and
      the texts order them against their values. */
  predicate Breaks(a: string, b: string, c: string) {
    if IsNumeric(a) && IsNumeric(c) then !IsNumeric(b) && NumVal(a) > NumVal(c)
    else IsNumeric(b) && (IsNumeric(a) || IsNumeric(c)) && Less(c, a)
  }

  lemma SegmentsBreakIff(a: string, b: string, c: string)
    requires SegmentAtMost(a, b) && SegmentAtMost(b, c)
    ensures SegmentAtMost(a, c) <==> !Breaks(a, b, c)
  {
    SegmentOrder(a, b);
    SegmentOrder(b, c);
    SegmentOrder(a, c);
    LessConverse(a, c);
    if Less(a, b) && Less(b, c) { LessTransitive(a, b, c); }
    if Less(a, c) { LessAsymmetric(a, c); }
  }

  /** At most, from the i-th segment on and by the suffix where all of them agree. */
  predicate AtMostFrom(l: Parsed, r: Parsed, i: nat, n: nat) {
    var c := CompareUpTo(l.core, r.core, i, n);
    c < 0 || (c == 0 && PreReleaseAtMost(l.preRelease, r.preRelease))
  }

  predicate Ties(l: Parsed, r: Parsed, i: nat) { CompareSegments(Segment(l.core, i), Segment(r.core, i)) == 0 }

  /** Where a chain of versions breaks: at the first position that decides it the segments break, or the
      outer two tie there although the middle one lies between, and compare the wrong way round beyond. */
  predicate ChainBreaks(a: Parsed, b: Parsed, c: Parsed, i: nat, n: nat)
    decreases n - i
  {
    i < n &&
    if Ties(a, b, i) && Ties(b, c, i) then ChainBreaks(a, b, c, i + 1, n)
    else Breaks(Segment(a.core, i), Segment(b.core, i), Segment(c.core, i)) || (Ties(a, c, i) && !AtMostFrom(a, c, i + 1, n))
  }

  lemma TiesTransitive(a: string, b: string, c: string)
    requires CompareSegments(a, b) == 0 && CompareSegments(b, c) == 0
    ensures CompareSegments(a, c) == 0
  {
    if IsNumeric(a) && IsNumeric(b) { NumericIsInteger(a, b); }
    if IsNumeric(b) && IsNumeric(c) { NumericIsInteger(b, c); }
    if IsNumeric(a) && IsNumeric(c) { NumericIsInteger(a, c); }
  }

  lemma {:induction false} ChainBreaksIff(a: Parsed, b: Parsed, c: Parsed, i: nat, n: nat)
    requires AtMostFrom(a, b, i, n) && AtMostFrom(b, c, i, n)
    ensures AtMostFrom(a, c, i, n) <==> !ChainBreaks(a, b, c, i, n)
    decreases n - i
  {
    if i >= n {
      PreReleaseTransitive(a.preRelease, b.preRelease, c.preRelease);
    } else {
      var x, y, z := Segment(a.core, i), Segment(b.core, i), Segment(c.core, i);
      SegmentsConverse(x, z);
      if CompareSegments(x, y) == 0 && CompareSegments(y, z) == 0 {
        TiesTransitive(x, y, z);
        ChainBreaksIff(a, b, c, i + 1, n);
      } else {
        SegmentsBreakIff(x, y, z);
      }
    }
  }

  /** The padding beyond both cores decides nothing. */
  lemma {:induction false} PaddingTies(l: seq<string>, r: seq<string>, i: nat, m: nat, n: nat)
    requires |l| <= m <= n && |r| <= m
    ensures CompareUpTo(l, r, i, n) == CompareUpTo(l, r, i, m)
    decreases n - i
  {
    if i < n { PaddingTies(l, r, i + 1, m, n); }
  }

  lemma AtMostAsFrom(a: string, b: string, n: nat)
    requires NormalizeVersion(a) != "" && NormalizeVersion(b) != "" && |Parse(a).core| <= n && |Parse(b).core| <= n
    ensures AtMost(a, b) <==> AtMostFrom(Parse(a), Parse(b), 0, n)
  {
    var l, r := Parse(a).core, Parse(b).core;
    PaddingTies(l, r, 0, Max(|l|, |r|), n);
  }

  /** Transitivity of the version order, exactly, for all versions. */
  lemma VersionsBreakIff(a: string, b: string, c: string, n: nat)
    requires AtMost(a, b) && AtMost(b, c)
    requires |Parse(a).core| <= n && |Parse(b).core| <= n && |Parse(c).core| <= n
    ensures AtMost(a, c) <==> !ChainBreaks(Parse(a), Parse(b), Parse(c), 0, n)
  {
    AtMostAsFrom(a, b, n);
    AtMostAsFrom(b, c, n);
    AtMostAsFrom(a, c, n);
    ChainBreaksIff(Parse(a), Parse(b), Parse(c), 0, n);
  }

  /** Every digit string is a numeric version of one segment. */
  lemma NumbersAreVersions(s: string)
    requires IsNumeric(s)
    ensures NumericVersion(s) && Parse(s) == Parsed([s], "")
  {
    PlainParses(s);
  }

  lemma PlainNewer(a: string, b: string)
    requires Plain(a) && Plain(b) && CompareSegments(a, b) == -1
    ensures CompareVersions(a, b) == Newer
  {
    PlainParses(a);
    PlainParses(b);
    SingleSegment(a, b);
  }

  lemma SingleSegment(a: string, b: string)
    requires CompareSegments(a, b) == -1
    ensures CompareCores([a], [b]) == -1
  {
    assert Segment([a], 0) == a && Segment([b], 0) == b;
  }

  /** Without the numeric restriction the order is not transitive: "10" is below "1a" and
      "1a" below "9" as strings, while "9" is below "10" as integers. */
  lemma MixedVersionsCycle(ten: string, mixed: string, nine: string)
    requires ten == ['1', '0'] && mixed == ['1', 'a'] && nine == ['9']
    ensures CompareVersions(ten, mixed) == Newer
    ensures CompareVersions(mixed, nine) == Newer
    ensures CompareVersions(nine, ten) == Newer
  {
    TenBelowMixed(ten, mixed);
    MixedBelowNine(mixed, nine);
    NineBelowTen(nine, ten);
  }

  lemma TenBelowMixed(ten: string, mixed: string)
    requires ten == ['1', '0'] && mixed == ['1', 'a']
    ensures CompareVersions(ten, mixed) == Newer
  {
    assert !IsDigit(mixed[1]);
    assert mixed[1..] == ['a'] && ten[1..] == ['0'];
    assert !Less(mixed[1..], ten[1..]);
    PlainNewer(ten, mixed);
  }

  lemma MixedBelowNine(mixed: string, nine: string)
    requires mixed == ['1', 'a'] && nine == ['9']
    ensures CompareVersions(mixed, nine) == Newer
  {
    assert !IsDigit(mixed[1]);
    assert !Less(nine, mixed);
    PlainNewer(mixed, nine);
  }

  lemma NineBelowTen(nine: string, ten: string)
    requires nine == ['9'] && ten == ['1', '0']
    ensures CompareVersions(nine, ten) == Newer
  {
    ShorterIsBelow(nine, ten);
    PlainNewer(nine, ten);
  }

  lemma ShorterIsBelow(l: string, r: string)
    requires IsNumeric(l) && IsNumeric(r) && l[0] != '0' && r[0] != '0' && |l| < |r|
    ensures CompareSegments(l, r) == -1
  {
    assert TrimLeft(l, Only('0')) == l;
    assert TrimLeft(r, Only('0')) == r;
  }
}
