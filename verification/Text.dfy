/** Strings as the Go `strings` package treats them: trimming, splitting, joining
    and bytewise ordering. Code-point order on `char` agrees with the byte order of
    UTF-8, so `Less` is Go's `<` on valid strings. */
module Text {

  /** unicode.IsSpace */
  predicate IsSpace(c: char) {
    '\t' <= c <= '\r' || c == ' ' || c == '\U{85}' || c == '\U{A0}' || c == '\U{1680}'
    || '\U{2000}' <= c <= '\U{200A}' || '\U{2028}' <= c <= '\U{2029}'
    || c == '\U{202F}' || c == '\U{205F}' || c == '\U{3000}'
  }

  /** What a trimming function removes: white space, or one given character. */
  datatype Cut = Space | Only(c: char)

  predicate Cuts(cut: Cut, c: char) {
    match cut case Space => IsSpace(c) case Only(d) => c == d
  }

  // ---------------------------------------------------------------- trimming

  /** The first position from i on that is not cut. */
  function SkipLeft(s: string, cut: Cut, i: nat): (r: nat)
    requires i <= |s|
    ensures i <= r <= |s|
    ensures r < |s| ==> !Cuts(cut, s[r])
    ensures forall j :: i <= j < r ==> Cuts(cut, s[j])
    decreases |s| - i
  {
    if i < |s| && Cuts(cut, s[i]) then SkipLeft(s, cut, i + 1) else i
  }

  /** The end of the text before j without its cut tail. */
  function SkipRight(s: string, cut: Cut, j: nat): (r: nat)
    requires j <= |s|
    ensures r <= j
    ensures r > 0 ==> !Cuts(cut, s[r - 1])
    ensures forall i :: r <= i < j ==> Cuts(cut, s[i])
  {
    if j > 0 && Cuts(cut, s[j - 1]) then SkipRight(s, cut, j - 1) else j
  }

  function TrimLeft(s: string, cut: Cut): string { s[SkipLeft(s, cut, 0)..] }

  function TrimRight(s: string, cut: Cut): string { s[..SkipRight(s, cut, |s|)] }

  function Trim(s: string, cut: Cut): (r: string)
    ensures Trimmed(r, cut)
  {
    TrimRight(TrimLeft(s, cut), cut)
  }

  function TrimSpace(s: string): (r: string)
    ensures Trimmed(r, Space)
  {
    Trim(s, Space)
  }

  /** Neither end of `s` carries a character to cut. */
  predicate Trimmed(s: string, cut: Cut) {
    s != "" ==> !Cuts(cut, s[0]) && !Cuts(cut, s[|s| - 1])
  }

  lemma TrimKeepsTrimmed(s: string, cut: Cut)
    requires Trimmed(s, cut)
    ensures Trim(s, cut) == s
  {
    assert SkipLeft(s, cut, 0) == 0;
    assert TrimLeft(s, cut) == s;
    assert SkipRight(s, cut, |s|) == |s|;
  }

  /** Trimming removes characters and never introduces one. */
  lemma TrimIsInfix(s: string, cut: Cut, c: char)
    requires c in Trim(s, cut)
    ensures c in s
  {
    var l := TrimLeft(s, cut);
    assert c in l;
  }

  /** A non-blank text starts, once trimmed, with its first character that is not cut. */
  lemma TrimStarts(s: string, cut: Cut)
    ensures
      var i := SkipLeft(s, cut, 0);
      if i == |s| then Trim(s, cut) == "" else Trim(s, cut) != "" && Trim(s, cut)[0] == s[i]
  {
    var i := SkipLeft(s, cut, 0);
    var l := TrimLeft(s, cut);
    if i < |s| {
      assert l[0] == s[i];
    }
  }

  lemma {:induction false} SkipLeftAppend(s: string, t: string, cut: Cut, i: nat)
    requires i <= |s| && SkipLeft(s, cut, i) < |s|
    ensures SkipLeft(s + t, cut, i) == SkipLeft(s, cut, i)
    decreases |s| - i
  {
    assert (s + t)[i] == s[i];
    if Cuts(cut, s[i]) { SkipLeftAppend(s, t, cut, i + 1); }
  }

  /** What follows a non-blank text does not change how its trimmed form starts. */
  lemma TrimStartAppend(s: string, t: string, cut: Cut)
    requires Trim(s, cut) != ""
    ensures Trim(s + t, cut) != "" && Trim(s + t, cut)[0] == Trim(s, cut)[0]
  {
    TrimStarts(s, cut);
    TrimStarts(s + t, cut);
    SkipLeftAppend(s, t, cut, 0);
  }

  lemma {:induction false} SkipLeftShift(c: char, s: string, t: string, cut: Cut, i: nat)
    requires i <= |s| && t == [c] + s
    ensures SkipLeft(t, cut, i + 1) == SkipLeft(s, cut, i) + 1
    decreases |s| - i
  {
    if i < |s| {
      assert t[i + 1] == s[i];
      if Cuts(cut, s[i]) { SkipLeftShift(c, s, t, cut, i + 1); }
    }
  }

  /** A cut character in front makes no difference. */
  lemma TrimFront(c: char, s: string, cut: Cut)
    requires Cuts(cut, c)
    ensures Trim([c] + s, cut) == Trim(s, cut)
  {
    var t := [c] + s;
    SkipLeftShift(c, s, t, cut, 0);
    assert SkipLeft(t, cut, 0) == SkipLeft(t, cut, 1);
    assert TrimLeft(t, cut) == TrimLeft(s, cut);
  }

  lemma {:induction false} SkipRightPrefix(s: string, t: string, cut: Cut, j: nat)
    requires j <= |s| <= |t| && s == t[..|s|]
    ensures SkipRight(t, cut, j) == SkipRight(s, cut, j)
  {
    if j > 0 { SkipRightPrefix(s, t, cut, j - 1); }
  }

  lemma TrimRightBack(c: char, l: string, cut: Cut)
    requires Cuts(cut, c)
    ensures TrimRight(l + [c], cut) == TrimRight(l, cut)
  {
    var t := l + [c];
    assert t[..|l|] == l;
    SkipRightPrefix(l, t, cut, |l|);
    assert SkipRight(t, cut, |t|) == SkipRight(t, cut, |l|);
  }

  /** Nor does one at the end. */
  lemma TrimBack(c: char, s: string, cut: Cut)
    requires Cuts(cut, c)
    ensures Trim(s + [c], cut) == Trim(s, cut)
  {
    var t := s + [c];
    if SkipLeft(s, cut, 0) < |s| {
      SkipLeftAppend(s, [c], cut, 0);
      assert TrimLeft(t, cut) == TrimLeft(s, cut) + [c];
      TrimRightBack(c, TrimLeft(s, cut), cut);
    } else {
      TrimStarts(s, cut);
      TrimStarts(t, cut);
    }
  }

  /** Nothing but characters to cut. */
  predicate AllCut(s: string, cut: Cut) { forall i :: 0 <= i < |s| ==> Cuts(cut, s[i]) }

  lemma {:induction false} TrimFrontAll(b: string, s: string, cut: Cut)
    requires AllCut(b, cut)
    ensures Trim(b + s, cut) == Trim(s, cut)
  {
    if b == "" {
      assert b + s == s;
    } else {
      var c, tail := b[0], b[1..];
      TrimFrontAll(tail, s, cut);
      TrimFront(c, tail + s, cut);
      Reassociated(c, tail, s, b);
    }
  }

  lemma Reassociated(c: char, tail: string, s: string, b: string)
    requires b != "" && c == b[0] && tail == b[1..]
    ensures b + s == [c] + (tail + s)
  {
  }

  lemma ReassociatedBack(s: string, init: string, c: char, b: string)
    requires b != "" && init == b[..|b| - 1] && c == b[|b| - 1]
    ensures s + b == (s + init) + [c]
  {
  }

  /** Characters to cut on both sides. */
  lemma TrimAround(before: string, s: string, after: string, cut: Cut)
    requires AllCut(before, cut) && AllCut(after, cut)
    ensures Trim(before + s + after, cut) == Trim(s, cut)
  {
    TrimBackAll(before + s, after, cut);
    TrimFrontAll(before, s, cut);
  }

  lemma {:induction false} TrimBackAll(s: string, b: string, cut: Cut)
    requires AllCut(b, cut)
    ensures Trim(s + b, cut) == Trim(s, cut)
  {
    if b == "" {
      assert s + b == s;
    } else {
      var init, c := b[..|b| - 1], b[|b| - 1];
      TrimBackAll(s, init, cut);
      TrimBack(c, s + init, cut);
      ReassociatedBack(s, init, c, b);
    }
  }

  /** A text with no character to cut at either end survives trimming, whatever follows it. */
  lemma TrimKeepsHead(h: string, rest: string, cut: Cut) returns (left: string)
    requires h != "" && Trimmed(h, cut)
    ensures Trim(h + rest, cut) == h + left
  {
    var t := h + rest;
    assert t[0] == h[0] && t[|h| - 1] == h[|h| - 1];
    assert TrimLeft(t, cut) == t;
    var j := SkipRight(t, cut, |t|);
    assert j >= |h|;
    left := t[|h|..j];
    assert t[..j] == h + left;
  }

  predicate HasPrefix(s: string, prefix: string) {
    |prefix| <= |s| && s[..|prefix|] == prefix
  }

  // ------------------------------------------------------- splitting, joining

  function Split(s: string, sep: char): (parts: seq<string>)
    ensures |parts| >= 1
    ensures forall p :: p in parts ==> sep !in p
  {
    if s == "" then [""]
    else
      var rest := Split(s[1..], sep);
      if s[0] == sep then [""] + rest
      else
        assert rest[0] in rest;
        [[s[0]] + rest[0]] + rest[1..]
  }

  function Join(parts: seq<string>, sep: char): string {
    if |parts| == 0 then ""
    else if |parts| == 1 then parts[0]
    else parts[0] + [sep] + Join(parts[1..], sep)
  }

  lemma {:induction false} SplitNoSep(s: string, sep: char)
    requires sep !in s
    ensures Split(s, sep) == [s]
  {
    if s != "" {
      SplitNoSep(s[1..], sep);
      assert [s[0]] + s[1..] == s;
    }
  }

  lemma {:induction false} SplitPrefix(head: string, tail: string, sep: char)
    requires sep !in head
    ensures Split(head + [sep] + tail, sep) == [head] + Split(tail, sep)
  {
    var s := head + [sep] + tail;
    if head == "" {
      assert s[1..] == tail;
    } else {
      SplitPrefix(head[1..], tail, sep);
      assert s[1..] == head[1..] + [sep] + tail;
      assert [s[0]] + head[1..] == head;
    }
  }

  /** Splitting undoes joining for any non-empty list of separator-free parts. */
  lemma {:induction false} SplitJoin(parts: seq<string>, sep: char)
    requires |parts| >= 1
    requires forall p :: p in parts ==> sep !in p
    ensures Split(Join(parts, sep), sep) == parts
  {
    if |parts| == 1 {
      SplitNoSep(parts[0], sep);
    } else {
      SplitPrefix(parts[0], Join(parts[1..], sep), sep);
      SplitJoin(parts[1..], sep);
      assert [parts[0]] + parts[1..] == parts;
    }
  }

  lemma {:induction false} JoinConcat(a: seq<string>, b: seq<string>, sep: char)
    requires |a| >= 1 && |b| >= 1
    ensures Join(a + b, sep) == Join(a, sep) + ([sep] + Join(b, sep))
  {
    if |a| == 1 {
      assert (a + b)[1..] == b;
    } else {
      assert (a + b)[1..] == a[1..] + b;
      JoinConcat(a[1..], b, sep);
    }
  }

  /** Joining undoes splitting, for every text. */
  lemma {:induction false} JoinSplit(s: string, sep: char)
    ensures Join(Split(s, sep), sep) == s
  {
    if s != "" {
      var c, t := s[0], s[1..];
      var rest := Split(t, sep);
      JoinSplit(t, sep);
      assert s == [c] + t;
      if c == sep {
        var parts := [""] + rest;
        assert parts[1..] == rest;
      } else {
        JoinFirst(c, rest, sep);
      }
    }
  }

  lemma JoinFirst(c: char, rest: seq<string>, sep: char)
    requires |rest| >= 1
    ensures Join([[c] + rest[0]] + rest[1..], sep) == [c] + Join(rest, sep)
  {
    var parts := [[c] + rest[0]] + rest[1..];
    if |rest| == 1 {
      assert parts == [[c] + rest[0]];
    } else {
      assert parts[1..] == rest[1..];
    }
  }

  /** What a trimmed and split text can hold: separator-free parts, the first and last non-empty. */
  predicate Lines(parts: seq<string>, sep: char) {
    && |parts| >= 1 && (forall i :: 0 <= i < |parts| ==> sep !in parts[i])
    && parts[0] != "" && parts[|parts| - 1] != ""
  }

  lemma {:induction false} JoinEnds(parts: seq<string>, sep: char)
    requires |parts| >= 1 && parts[|parts| - 1] != ""
    ensures Join(parts, sep) != ""
    ensures
      var text, last := Join(parts, sep), parts[|parts| - 1];
      text[|text| - 1] == last[|last| - 1]
    ensures parts[0] != "" ==> Join(parts, sep)[0] == parts[0][0]
  {
    if |parts| > 1 { JoinEnds(parts[1..], sep); }
  }

  /** The stored form `strings.Split(strings.Trim(s, sep), sep)` reads back what Join wrote. */
  lemma SplitTrimJoin(parts: seq<string>, sep: char)
    requires Lines(parts, sep)
    ensures Join(parts, sep) != "" && Split(Trim(Join(parts, sep), Only(sep)), sep) == parts
  {
    JoinEnds(parts, sep);
    TrimKeepsTrimmed(Join(parts, sep), Only(sep));
    SplitJoin(parts, sep);
  }

  lemma SplitStart(s: string, sep: char)
    requires s != "" && s[0] != sep
    ensures Split(s, sep)[0] != ""
  {
  }

  lemma {:induction false} SplitStop(s: string, sep: char)
    requires s != "" && s[|s| - 1] != sep
    ensures
      var parts := Split(s, sep);
      parts[|parts| - 1] != ""
  {
    if |s| > 1 {
      var rest := Split(s[1..], sep);
      SplitStop(s[1..], sep);
      if s[0] != sep && |rest| > 1 {
        var parts := [[s[0]] + rest[0]] + rest[1..];
        assert parts[|parts| - 1] == rest[|rest| - 1];
      }
    }
  }

  /** Conversely, whatever non-empty text is trimmed and split is of that form. */
  lemma TrimSplitLines(s: string, sep: char)
    requires Trim(s, Only(sep)) != ""
    ensures Lines(Split(Trim(s, Only(sep)), sep), sep)
  {
    var parts := Split(Trim(s, Only(sep)), sep);
    SplitStart(Trim(s, Only(sep)), sep);
    SplitStop(Trim(s, Only(sep)), sep);
    assert forall i :: 0 <= i < |parts| ==> parts[i] in parts;
  }

  // ------------------------------------------------------------------ ordering

  predicate Less(a: string, b: string) {
    if b == "" then false
    else if a == "" then true
    else if a[0] != b[0] then a[0] < b[0]
    else Less(a[1..], b[1..])
  }

  /** strings.Compare */
  function Compare(a: string, b: string): int {
    if a == b then 0 else if Less(a, b) then -1 else 1
  }

  /** One text is below another when it is a proper beginning of it, or has the lower character where
      they first differ. */
  lemma {:induction false} LessMeaning(a: string, b: string)
    ensures Less(a, b) <==>
      exists k :: 0 <= k <= |a| && k < |b| && a[..k] == b[..k] && (k == |a| || a[k] < b[k])
  {
    if a != "" && b != "" && a[0] == b[0] {
      LessMeaning(a[1..], b[1..]);
      if k :| 0 <= k <= |a[1..]| && k < |b[1..]| && a[1..][..k] == b[1..][..k] && (k == |a[1..]| || a[1..][k] < b[1..][k]) {
        assert a[..k + 1] == [a[0]] + a[1..][..k] && b[..k + 1] == [b[0]] + b[1..][..k];
        assert a[..k + 1] == b[..k + 1] && (k + 1 == |a| || a[k + 1] < b[k + 1]);
      }
      if k :| 0 <= k <= |a| && k < |b| && a[..k] == b[..k] && (k == |a| || a[k] < b[k]) {
        assert k > 0;
        assert a[1..][..k - 1] == a[..k][1..] && b[1..][..k - 1] == b[..k][1..];
        assert a[1..][..k - 1] == b[1..][..k - 1] && (k - 1 == |a[1..]| || a[1..][k - 1] < b[1..][k - 1]);
      }
    } else if b != "" {
      assert a[..0] == b[..0];
      DifferAtOnce(a, b);
    }
  }

  lemma DifferAtOnce(a: string, b: string)
    ensures a != "" && b != "" && a[0] != b[0] ==> forall k :: 0 < k <= |a| && k < |b| ==> a[..k] != b[..k]
  {
    forall k | 0 < k <= |a| && k < |b| && a[..k] == b[..k] ensures a[0] == b[0] {
      assert a[0] == a[..k][0] && b[0] == b[..k][0];
    }
  }

  lemma {:induction false} LessIrreflexive(a: string)
    ensures !Less(a, a)
  {
    if a != "" { LessIrreflexive(a[1..]); }
  }

  lemma {:induction false} LessTotal(a: string, b: string)
    ensures a == b || Less(a, b) || Less(b, a)
  {
    if a != "" && b != "" && a[0] == b[0] {
      LessTotal(a[1..], b[1..]);
      assert a == [a[0]] + a[1..];
      assert b == [b[0]] + b[1..];
    }
  }

  lemma {:induction false} LessTransitive(a: string, b: string, c: string)
    requires Less(a, b) && Less(b, c)
    ensures Less(a, c)
  {
    if a != "" && a[0] == b[0] && b[0] == c[0] {
      LessTransitive(a[1..], b[1..], c[1..]);
    }
  }

  lemma LessAsymmetric(a: string, b: string)
    requires Less(a, b)
    ensures !Less(b, a) && a != b
  {
    LessIrreflexive(a);
    if Less(b, a) { LessTransitive(a, b, a); }
  }
}
