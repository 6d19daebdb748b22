/** The Python string operations the access code leans on, over ASCII:
    `strip`, `lower`, `startswith`. */
module TextOps {

  predicate IsSpace(c: char) {
    c == ' ' || '\t' <= c <= '\r' || '\U{1c}' <= c <= '\U{1f}'
  }

  function LStrip(s: string): (r: string)
    ensures |r| <= |s|
    ensures r == s[|s| - |r|..]
    ensures r == "" || !IsSpace(r[0])
  {
    if s != "" && IsSpace(s[0]) then LStrip(s[1..]) else s
  }

  function RStrip(s: string): (r: string)
    ensures |r| <= |s|
    ensures r == s[..|r|]
    ensures r == "" || !IsSpace(r[|r| - 1])
  {
    if s != "" && IsSpace(s[|s| - 1]) then RStrip(s[..|s| - 1]) else s
  }

  /** `s.strip()` */
  function Strip(s: string): (r: string)
    ensures r == "" || !IsSpace(r[0])
    ensures r == "" || !IsSpace(r[|r| - 1])
  {
    var l := LStrip(s);
    var r := RStrip(l);
    r
  }

  /** No space at either end. */
  predicate Trimmed(s: string) {
    s == "" || (!IsSpace(s[0]) && !IsSpace(s[|s| - 1]))
  }

  lemma {:induction false} StripOfTrimmed(s: string)
    requires Trimmed(s)
    ensures Strip(s) == s
  {
  }

  lemma {:induction false} StripIsTrimmed(s: string)
    ensures Trimmed(Strip(s))
  {
  }

  function LowerChar(c: char): char {
    if 'A' <= c <= 'Z' then c - 'A' + 'a' else c
  }

  /** `s.lower()` */
  function Lower(s: string): (r: string)
    ensures |r| == |s|
    ensures forall i :: 0 <= i < |s| ==> r[i] == LowerChar(s[i])
  {
    seq(|s|, i requires 0 <= i < |s| => LowerChar(s[i]))
  }

  lemma {:induction false} LowerKeepsTrimmed(s: string)
    requires Trimmed(s)
    ensures Trimmed(Lower(s))
  {
  }

  function UpperChar(c: char): char {
    if 'a' <= c <= 'z' then c - 'a' + 'A' else c
  }

  /** `s.upper()` */
  function Upper(s: string): (r: string)
    ensures |r| == |s|
    ensures forall i :: 0 <= i < |s| ==> r[i] == UpperChar(s[i])
  {
    seq(|s|, i requires 0 <= i < |s| => UpperChar(s[i]))
  }

  /** `s.startswith(p)` */
  predicate StartsWith(s: string, p: string) {
    p <= s
  }

  // ---------------------------------------------------------------- spelled out

  /** t is s with every capital A to Z made small, and nothing else changed. */
  ghost predicate IsSmallFormOf(t: string, s: string) {
    && |t| == |s|
    && forall i :: 0 <= i < |s| ==>
         t[i] as int == s[i] as int + if 65 <= s[i] as int <= 90 then 32 else 0
  }

  ghost predicate NoCapital(s: string) {
    forall i :: 0 <= i < |s| ==> !(65 <= s[i] as int <= 90)
  }

  /** One spelling apart from the case of letters. */
  ghost predicate SameButCase(s: string, t: string) {
    && |s| == |t|
    && forall i :: 0 <= i < |s| ==>
         || s[i] == t[i]
         || (65 <= s[i] as int <= 90 && t[i] as int == s[i] as int + 32)
         || (65 <= t[i] as int <= 90 && s[i] as int == t[i] as int + 32)
  }

  lemma {:induction false} LowerIsSmallForm(s: string, t: string)
    ensures IsSmallFormOf(t, s) <==> t == Lower(s)
    ensures NoCapital(Lower(s))
    ensures NoCapital(s) ==> Lower(s) == s
  {
    assert |t| == |s| && (forall i :: 0 <= i < |s| ==> t[i] == Lower(s)[i]) ==> t == Lower(s);
  }

  lemma {:induction false} SameLower(s: string, t: string)
    ensures Lower(s) == Lower(t) <==> SameButCase(s, t)
  {
    if Lower(s) == Lower(t) {
      forall i | 0 <= i < |s| ensures LowerChar(s[i]) == LowerChar(t[i]) {
        assert Lower(s)[i] == Lower(t)[i];
      }
    }
    if SameButCase(s, t) {
      assert forall i :: 0 <= i < |s| ==> Lower(s)[i] == Lower(t)[i];
    }
  }

  /** A string is the upper-case form of s exactly when it has no small letter and differs in case alone. */
  lemma {:induction false} UpperSpelled(s: string, t: string)
    ensures t == Upper(s) <==> SameButCase(t, s) && forall i :: 0 <= i < |t| ==> !(97 <= t[i] as int <= 122)
  {
    assert |t| == |s| && (forall i :: 0 <= i < |s| ==> t[i] == Upper(s)[i]) ==> t == Upper(s);
  }

  /** Space, tab, the line ends between, and the four separators of ASCII. */
  ghost predicate AllSpace(s: string) {
    forall i :: 0 <= i < |s| ==>
      var c := s[i] as int;
      c == 32 || 9 <= c <= 13 || 28 <= c <= 31
  }

  /** What is stripped is the space at both ends, all of it and nothing else. */
  lemma {:induction false} StripSpelled(s: string) returns (before: string, after: string)
    ensures s == before + Strip(s) + after && AllSpace(before) && AllSpace(after)
    ensures Strip(s) != "" ==> !AllSpace([Strip(s)[0]]) && !AllSpace([Strip(s)[|Strip(s)| - 1]])
  {
    hide LStrip, RStrip, IsSpace, AllSpace;
    var l := LStrip(s);
    var r := RStrip(l);
    LStripSpelled(s);
    RStripSpelled(l);
    SolidEnds(r);
    before, after := s[..|s| - |l|], l[|r|..];
    ThreeParts(s, l, r);
  }

  lemma {:induction false} ThreeParts<T>(s: seq<T>, l: seq<T>, r: seq<T>)
    requires |r| <= |l| <= |s| && l == s[|s| - |l|..] && r == l[..|r|]
    ensures s == s[..|s| - |l|] + r + l[|r|..]
  {
  }

  lemma {:induction false} SolidEnds(r: string)
    requires r == "" || (!IsSpace(r[0]) && !IsSpace(r[|r| - 1]))
    ensures r != "" ==> !AllSpace([r[0]]) && !AllSpace([r[|r| - 1]])
  {
    if r != "" {
      assert [r[0]][0] == r[0] && [r[|r| - 1]][0] == r[|r| - 1];
    }
  }

  lemma {:induction false} LStripSpelled(s: string)
    ensures AllSpace(s[..|s| - |LStrip(s)|])
  {
    hide LStrip;
    var cut := s[..|s| - |LStrip(s)|];
    forall i | 0 <= i < |cut| ensures AllSpace([cut[i]]) {
      LStripAt(s, i);
    }
    assert forall i :: 0 <= i < |cut| ==> [cut[i]][0] == cut[i];
  }

  lemma {:induction false} LStripAt(s: string, i: nat)
    requires i < |s| - |LStrip(s)|
    ensures AllSpace([s[i]])
  {
    hide LStrip, IsSpace, AllSpace;
    LStripStep(s);
    SpaceSpelled(s[0]);
    if i > 0 {
      LStripAt(s[1..], i - 1);
      assert s[1..][i - 1] == s[i];
    }
  }

  lemma {:induction false} SpaceSpelled(c: char)
    ensures IsSpace(c) <==> AllSpace([c])
  {
    assert [c][0] == c;
  }

  lemma {:induction false} LStripStep(s: string)
    ensures LStrip(s) == if s != "" && IsSpace(s[0]) then LStrip(s[1..]) else s
  {
  }

  lemma {:induction false} RStripSpelled(s: string)
    ensures AllSpace(s[|RStrip(s)|..])
  {
    if s != "" && IsSpace(s[|s| - 1]) {
      RStripSpelled(s[..|s| - 1]);
      assert s[|RStrip(s)|..] == s[..|s| - 1][|RStrip(s)|..] + [s[|s| - 1]];
    }
  }
}
