/**
 packages/validation/src/domain.ts: what a custom domain is reduced to before it is stored, and which
 reduced names are accepted. Lower-casing and the URL parser are parameters.
 */
module Hostname {
  import opened Prelude
  import opened Text

  /** The length of the longest `[a-z]+` prefix. */
  function LetterRun(s: string): (n: nat)
    ensures n <= |s| && (forall i :: 0 <= i < n ==> IsLower(s[i])) && (n < |s| ==> !IsLower(s[n]))
  {
    if s == "" || !IsLower(s[0]) then 0 else 1 + LetterRun(s[1..])
  }

  predicate HasScheme(s: string) {
    var n := LetterRun(s);
    0 < n && n + 3 <= |s| && s[n..n + 3] == "://"
  }

  /** replace(/^[a-z]+:\/\//, "") */
  function StripScheme(s: string): string {
    if HasScheme(s) then s[LetterRun(s) + 3..] else s
  }

  /** One trailing character, as replace(/\/$/, "") and replace(/\.$/, "") remove it. */
  function StripLast(s: string, c: char): string {
    if s != "" && s[|s| - 1] == c then s[..|s| - 1] else s
  }

  function Strip(s: string): string {
    StripLast(StripLast(StripScheme(s), '/'), '.')
  }

  function Normalize(input: string, lower: string -> string): string {
    Strip(lower(Trim(input)))
  }

  /** normalizeHostname, reassigning its value step by step. */
  method NormalizeHostname(input: string, lower: string -> string) returns (value: string)
    ensures value == Normalize(input, lower)
  {
    value := lower(Trim(input));
    if HasScheme(value) {
      value := value[LetterRun(value) + 3..];
    }
    if |value| > 0 && value[|value| - 1] == '/' {
      value := value[..|value| - 1];
    }
    if |value| > 0 && value[|value| - 1] == '.' {
      value := value[..|value| - 1];
    }
  }

  // ----- isValidHostname -----

  predicate IsLabelChar(c: char) {
    IsAlnum(c) || c == '-'
  }

  /** DNS_LABEL_RE */
  predicate IsLabel(part: string) {
    1 <= |part| <= 63 && part[0] != '-' && part[|part| - 1] != '-' && forall i :: 0 <= i < |part| ==>
        IsLabelChar(part[i])
  }

  /** IPV4_RE */
  predicate IsDottedQuad(s: string) {
    var parts := Split(s, '.');
    |parts| == 4 && forall k :: 0 <= k < 4 ==> 1 <= |parts[k]| <= 3 && forall i :: 0 <= i < |parts[k]| ==>
        IsDigit(parts[k][i])
  }

  const NON_PUBLIC_SUFFIXES: seq<string> :=
    ["localhost", "local", "localdomain", "internal", "intranet", "lan", "home.arpa", "arpa", "invalid", "test"]

  predicate EndsWith(s: string, suffix: string) {
    |suffix| <= |s| && s[|s| - |suffix|..] == suffix
  }

  predicate IsNonPublic(s: string) {
    exists k :: 0 <= k < |NON_PUBLIC_SUFFIXES| && (s == NON_PUBLIC_SUFFIXES[k]
        || EndsWith(s, "." + NON_PUBLIC_SUFFIXES[k]))
  }

  /** `urlAgrees` is the last check: `http://<hostname>` parses with this hostname, path "/", no query or fragment. */
  predicate IsValidHostname(s: string, urlAgrees: string -> bool) {
    && s != "" && ' ' !in s && ':' !in s && '[' !in s
    && !IsDottedQuad(s)
    && '.' in s
    && |s| <= 253 && (forall k :: 0 <= k < |Split(s, '.')| ==> IsLabel(Split(s, '.')[k]))
    && !IsNonPublic(s)
    && urlAgrees(s)
  }

  datatype Parsed = Accepted(hostname: string) | Required | Rejected

  /** domainHostnameSchema */
  function ParseDomain(input: string, lower: string -> string, urlAgrees: string -> bool): Parsed {
    if input == "" then Required
    else
      var value := Normalize(input, lower);
      if IsValidHostname(value, urlAgrees) then Accepted(value) else Rejected
  }

  // ----- accepted names -----

  predicate LabelChars(s: string) {
    forall i :: 0 <= i < |s| ==> IsLabelChar(s[i])
  }

  lemma {:induction false} CharsOfParts(s: string, c: char)
    requires forall k :: 0 <= k < |Split(s, c)| ==> LabelChars(Split(s, c)[k])
    ensures forall i :: 0 <= i < |s| ==> IsLabelChar(s[i]) || s[i] == c
  {
    if s != "" {
      var rest, parts := Split(s[1..], c), Split(s, c);
      if s[0] == c {
        assert rest == parts[1..];
      } else {
        assert LabelChars(parts[0]);
        assert rest[0] == parts[0][1..] && forall k :: 1 <= k < |rest| ==> rest[k] == parts[k];
        assert parts[0][0] == s[0];
      }
      CharsOfParts(s[1..], c);
      forall i | 0 <= i < |s| ensures IsLabelChar(s[i]) || s[i] == c {
        assert i > 0 ==> s[i] == s[1..][i - 1];
      }
    }
  }

  lemma {:induction false} SplitEnds(s: string, c: char)
    ensures Split(s, c)[0] != "" ==> s != "" && s[0] == Split(s, c)[0][0]
    ensures var last := Split(s, c)[|Split(s, c)| - 1];
            last != "" ==> s != "" && s[|s| - 1] == last[|last| - 1]
  {
    if s != "" {
      SplitEnds(s[1..], c);
      var rest, parts := Split(s[1..], c), Split(s, c);
      if s[1..] == "" {
        assert rest == [""];
      }
    }
  }

  /** Label characters and dots, with a label character at both ends. */
  predicate NameText(s: string) {
    s != "" && IsLabelChar(s[0]) && IsLabelChar(s[|s| - 1]) && forall i :: 0 <= i < |s| ==>
        IsLabelChar(s[i]) || s[i] == '.'
  }

  lemma LabelsMakeNameText(s: string)
    requires forall k :: 0 <= k < |Split(s, '.')| ==> IsLabel(Split(s, '.')[k])
    ensures NameText(s)
  {
    var parts := Split(s, '.');
    assert IsLabel(parts[0]) && IsLabel(parts[|parts| - 1]);
    forall k | 0 <= k < |parts| ensures LabelChars(parts[k]) {
      assert IsLabel(parts[k]);
    }
    CharsOfParts(s, '.');
    SplitEnds(s, '.');
  }

  lemma AcceptedIsNameText(s: string, urlAgrees: string -> bool)
    requires IsValidHostname(s, urlAgrees)
    ensures NameText(s)
  {
    LabelsMakeNameText(s);
  }

  /** An accepted name is its labels, joined: at least two, each of 1 to 63 letters, digits and inner
      hyphens, at most 253 characters in all (section 2.3.4 of RFC 1035); never four decimal groups. */
  lemma AcceptedLabels(s: string, urlAgrees: string -> bool)
    requires IsValidHostname(s, urlAgrees)
    ensures Join(Split(s, '.'), '.') == s && |s| <= 253 && |Split(s, '.')| >= 2
    ensures forall k :: 0 <= k < |Split(s, '.')| ==> IsLabel(Split(s, '.')[k])
    ensures exists k, i :: 0 <= k < |Split(s, '.')| && 0 <= i < |Split(s, '.')[k]|
                           && (|Split(s, '.')| != 4 || |Split(s, '.')[k]| > 3 || !IsDigit(Split(s, '.')[k][i]))
  {
    JoinSplit(s, '.');
    DotSplits(s);
    var parts := Split(s, '.');
    assert IsLabel(parts[0]);
    if |parts| == 4 {
      var k :| 0 <= k < 4 && !(1 <= |parts[k]| <= 3 && forall i :: 0 <= i < |parts[k]| ==> IsDigit(parts[k][i]));
      assert IsLabel(parts[k]);
      if |parts[k]| <= 3 {
        var i :| 0 <= i < |parts[k]| && !IsDigit(parts[k][i]);
      } else {
        assert |parts[k]| > 3 && 0 < |parts[k]|;
      }
    }
  }

  lemma {:induction false} DotSplits(s: string)
    ensures '.' in s ==> |Split(s, '.')| >= 2
  {
    if s != "" {
      DotSplits(s[1..]);
      assert '.' in s ==> s[0] == '.' || '.' in s[1..];
    }
  }

  /** `s` is the reserved name `suffix`, or some `p` in front of a dot and that name. */
  predicate Under(s: string, p: string, suffix: string) {
    s == suffix || s == p + "." + suffix
  }

  /** Refused as non-public: exactly the reserved names and every name under one of them, at any depth,
      but not names that merely end in the same letters. */
  lemma NonPublicExactly(s: string)
    ensures IsNonPublic(s) <==>
              exists k, p :: 0 <= k < |NON_PUBLIC_SUFFIXES| && Under(s, p, NON_PUBLIC_SUFFIXES[k])
  {
    if IsNonPublic(s) {
      var k :| 0 <= k < |NON_PUBLIC_SUFFIXES| && (s == NON_PUBLIC_SUFFIXES[k]
          || EndsWith(s, "." + NON_PUBLIC_SUFFIXES[k]));
      SuffixSplits(s, NON_PUBLIC_SUFFIXES[k]);
      var p :| Under(s, p, NON_PUBLIC_SUFFIXES[k]);
    }
    forall k, p | 0 <= k < |NON_PUBLIC_SUFFIXES| && Under(s, p, NON_PUBLIC_SUFFIXES[k]) ensures IsNonPublic(s) {
      SuffixEnds(p, NON_PUBLIC_SUFFIXES[k]);
    }
  }

  lemma SuffixSplits(s: string, suffix: string)
    requires s == suffix || EndsWith(s, "." + suffix)
    ensures exists p :: Under(s, p, suffix)
  {
    if s == suffix {
      assert Under(s, "", suffix);
    } else {
      var p := s[..|s| - |suffix| - 1];
      assert s == p + ("." + suffix) == p + "." + suffix;
      assert Under(s, p, suffix);
    }
  }

  lemma SuffixEnds(p: string, suffix: string)
    ensures EndsWith(p + "." + suffix, "." + suffix)
  {
    assert (p + "." + suffix)[|p|..] == "." + suffix;
  }

  // ----- what reduces to an accepted name -----

  /** A scheme prefix, as lower-cased text: nothing, or letters and "://". */
  predicate IsScheme(p: string) {
    p == "" || (|p| > 3 && p[|p| - 3..] == "://" && forall i :: 0 <= i < |p| - 3 ==> IsLower(p[i]))
  }

  predicate IsEnding(t: string) {
    t == "" || t == "/" || t == "." || t == "./"
  }

  lemma {:induction false} LetterRunIs(s: string, n: nat)
    requires n <= |s| && (forall i :: 0 <= i < n ==> IsLower(s[i])) && (n < |s| ==> !IsLower(s[n]))
    ensures LetterRun(s) == n
  {
    if n > 0 {
      LetterRunIs(s[1..], n - 1);
    }
  }

  lemma NoColonNoScheme(s: string)
    requires ':' !in s
    ensures !HasScheme(s)
  {
    var n := LetterRun(s);
    if n + 3 <= |s| {
      assert s[n..n + 3][0] == s[n];
    }
  }

  lemma StripSchemePrefix(p: string, rest: string)
    requires IsScheme(p) && ':' !in rest
    ensures StripScheme(p + rest) == rest
  {
    var s := p + rest;
    if p == "" {
      assert s == rest;
      NoColonNoScheme(rest);
    } else {
      var n := |p| - 3;
      assert s[n] == p[n] == p[n..][0];
      LetterRunIs(s, n);
      assert s[n..n + 3] == p[n..];
    }
  }

  lemma StripLastUndone(w: string, c: char)
    ensures w == StripLast(w, c) || w == StripLast(w, c) + [c]
  {
  }

  lemma StripSchemeUndone(v: string)
    ensures exists p | IsScheme(p) :: v == p + StripScheme(v)
  {
    var p := v[..|v| - |StripScheme(v)|];
    assert v == p + StripScheme(v);
    if HasScheme(v) {
      assert p[|p| - 3..] == v[LetterRun(v)..LetterRun(v) + 3];
    }
    assert IsScheme(p);
  }

  lemma EndingUndone(w: string)
    ensures exists t | IsEnding(t) :: w == StripLast(StripLast(w, '/'), '.') + t
  {
    var x := StripLast(w, '/');
    var h := StripLast(x, '.');
    StripLastUndone(w, '/');
    StripLastUndone(x, '.');
    if x == h {
      assert w == h + "" || w == h + "/";
      assert IsEnding("") && IsEnding("/");
    } else if w == x {
      assert w == h + "." && IsEnding(".");
    } else {
      assert w == h + "./" && IsEnding("./");
    }
  }

  lemma StrippedHasForm(v: string, h: string)
    requires Strip(v) == h
    ensures exists p, t | IsScheme(p) && IsEnding(t) :: v == p + h + t
  {
    var w := StripScheme(v);
    assert h == StripLast(StripLast(w, '/'), '.');
    assert exists p | IsScheme(p) :: v == p + w by {
      StripSchemeUndone(v);
    }
    assert exists t | IsEnding(t) :: w == h + t by {
      EndingUndone(w);
    }
    var p :| IsScheme(p) && v == p + w;
    var t :| IsEnding(t) && w == h + t;
    assert p + w == p + h + t;
  }

  lemma FormStrips(p: string, h: string, t: string)
    requires NameText(h) && IsScheme(p) && IsEnding(t)
    ensures Strip(p + h + t) == h
  {
    assert p + h + t == p + (h + t);
    StripSchemePrefix(p, h + t);
    StripEnding(h, t);
  }

  /** Reducing gives an accepted name exactly when the lower-cased text is that name with an optional
      scheme before it and "", "/", "." or "./" after it. */
  lemma StripsToExactly(v: string, h: string, urlAgrees: string -> bool)
    requires IsValidHostname(h, urlAgrees)
    ensures Strip(v) == h <==> exists p, t | IsScheme(p) && IsEnding(t) :: v == p + h + t
  {
    AcceptedIsNameText(h, urlAgrees);
    if Strip(v) == h {
      StrippedHasForm(v, h);
    }
    forall p, t | IsScheme(p) && IsEnding(t) && v == p + h + t ensures Strip(v) == h {
      FormStrips(p, h, t);
    }
  }

  lemma StripEnding(h: string, t: string)
    requires h != "" && h[|h| - 1] != '/' && h[|h| - 1] != '.' && IsEnding(t)
    ensures StripLast(StripLast(h + t, '/'), '.') == h
  {
    var s := h + t;
    if t == "" {
      assert s == h;
    } else if t == "/" {
      assert s[..|s| - 1] == h;
    } else if t == "." {
      assert s[|s| - 1] == '.' && s[..|s| - 1] == h;
    } else {
      assert s[..|s| - 1] == h + ".";
      assert (h + ".")[..|h|] == h;
    }
  }

  lemma LabelCharIsPlain(c: char)
    requires IsLabelChar(c) || c == '.'
    ensures c < '\U{0080}' && LowerChar(c) == c && !IsSpace(c)
  {
  }

  lemma NameTextIsLower(h: string)
    requires NameText(h)
    ensures IsAscii(h) && AsciiLower(h) == h
  {
    forall i | 0 <= i < |h| ensures h[i] < '\U{0080}' && AsciiLower(h)[i] == h[i] {
      LabelCharIsPlain(h[i]);
    }
  }

  lemma AsciiLowerConcat(a: string, b: string)
    ensures AsciiLower(a + b) == AsciiLower(a) + AsciiLower(b)
  {
  }

  lemma LowerSpelling(h: string, scheme: string, name: string, ending: string)
    requires IsEnding(ending) && IsAscii(scheme) && IsAscii(name) && AsciiLower(name) == h
    ensures IsAscii(scheme + name + ending) && AsciiLower(scheme + name + ending) == AsciiLower(scheme) + h + ending
  {
    AsciiLowerConcat(scheme + name, ending);
    AsciiLowerConcat(scheme, name);
    EndingIsLower(ending);
  }

  lemma EndingIsLower(t: string)
    requires IsEnding(t)
    ensures IsAscii(t) && AsciiLower(t) == t
  {
  }

  lemma SpellingStrips(h: string, scheme: string, name: string, ending: string, lower: string -> string)
    requires LowersAscii(lower) && NameText(h)
    requires IsEnding(ending) && IsAscii(scheme) && IsScheme(AsciiLower(scheme)) && IsAscii(name)
        && AsciiLower(name) == h
    ensures Strip(lower(scheme + name + ending)) == h
  {
    LowerSpelling(h, scheme, name, ending);
    FormStrips(AsciiLower(scheme), h, ending);
  }

  lemma Regroup(a: string, b: string, c: string, d: string, e: string)
    ensures a + b + c + d + e == a + (b + c + d) + e
  {
  }

  lemma SpellingTrims(h: string, before: string, scheme: string, name: string, ending: string, after: string)
    requires NameText(h) && AllSpace(before) && AllSpace(after)
    requires IsEnding(ending) && IsScheme(AsciiLower(scheme)) && AsciiLower(name) == h
    ensures Trim(before + scheme + name + ending + after) == scheme + name + ending
  {
    var middle := scheme + name + ending;
    Regroup(before, scheme, name, ending, after);
    MiddleHasNoSpaceAtEnds(scheme, name, ending, h);
    TrimAround(before, middle, after);
  }

  lemma SpellingNormalizes(h: string, before: string, scheme: string, name: string, ending: string, after: string,
      lower: string -> string)
    requires LowersAscii(lower) && NameText(h)
    requires AllSpace(before) && AllSpace(after) && IsEnding(ending)
    requires IsAscii(scheme) && IsScheme(AsciiLower(scheme)) && IsAscii(name) && AsciiLower(name) == h
    ensures Normalize(before + scheme + name + ending + after, lower) == h
  {
    SpellingTrims(h, before, scheme, name, ending, after);
    SpellingStrips(h, scheme, name, ending, lower);
  }

  /** Whatever the letter case, surrounding white space, alphabetic scheme, and trailing slash or dot, an
      accepted name is reduced to itself, so all its spellings collide. */
  lemma SpellingsCollide(h: string, before: string, scheme: string, name: string, ending: string, after: string,
                         lower: string -> string, urlAgrees: string -> bool)
    requires LowersAscii(lower) && IsValidHostname(h, urlAgrees)
    requires AllSpace(before) && AllSpace(after) && IsEnding(ending)
    requires IsAscii(scheme) && IsScheme(AsciiLower(scheme)) && IsAscii(name) && AsciiLower(name) == h
    ensures ParseDomain(before + scheme + name + ending + after, lower, urlAgrees) == Accepted(h)
  {
    AcceptedIsNameText(h, urlAgrees);
    SpellingNormalizes(h, before, scheme, name, ending, after, lower);
  }

  /** Every accepted name is stored as it is: reducing it again changes nothing. */
  lemma AcceptedIsFixedPoint(h: string, lower: string -> string, urlAgrees: string -> bool)
    requires LowersAscii(lower) && IsValidHostname(h, urlAgrees)
    ensures Normalize(h, lower) == h && ParseDomain(h, lower, urlAgrees) == Accepted(h)
  {
    AcceptedIsNameText(h, urlAgrees);
    NameTextNormalizes(h, lower);
  }

  lemma NameTextNormalizes(h: string, lower: string -> string)
    requires LowersAscii(lower) && NameText(h)
    ensures Normalize(h, lower) == h
  {
    NameTextIsLower(h);
    LabelCharIsPlain(h[0]);
    LabelCharIsPlain(h[|h| - 1]);
    TrimAround("", h, "");
    FormStrips("", h, "");
    assert "" + h + "" == h;
  }

  lemma LowersToPlain(c: char)
    requires IsLabelChar(LowerChar(c))
    ensures !IsSpace(c)
  {
  }

  lemma MiddleHasNoSpaceAtEnds(scheme: string, name: string, ending: string, h: string)
    requires IsScheme(AsciiLower(scheme)) && AsciiLower(name) == h && IsEnding(ending)
    requires NameText(h)
    ensures var middle := scheme + name + ending;
            middle != "" && !IsSpace(middle[0]) && !IsSpace(middle[|middle| - 1])
  {
    var middle := scheme + name + ending;
    LowersToPlain(name[0]);
    LowersToPlain(name[|name| - 1]);
    if scheme != "" {
      assert LowerChar(scheme[0]) == AsciiLower(scheme)[0];
      LowersToPlain(scheme[0]);
    }
    if ending != "" {
      assert middle[|middle| - 1] == ending[|ending| - 1];
    } else {
      assert middle[|middle| - 1] == name[|name| - 1];
    }
  }

  // ----- acceptance -----

  /** The 63-character label of letters, digits and inner hyphens, spelled out. */
  predicate IsDnsLabel(part: string) {
    && 1 <= |part| <= 63
    && (forall i :: 0 <= i < |part| ==>
          'a' <= part[i] <= 'z' || '0' <= part[i] <= '9' || (part[i] == '-' && 0 < i < |part| - 1))
  }

  /** One to three decimal digits. */
  predicate IsDecimalGroup(part: string) {
    1 <= |part| <= 3 && forall i :: 0 <= i < |part| ==> '0' <= part[i] <= '9'
  }

  lemma LabelExactly(part: string)
    ensures IsLabel(part) <==> IsDnsLabel(part)
  {
    if IsDnsLabel(part) {
      assert part[0] != '-' && part[|part| - 1] != '-';
    }
  }

  lemma NameTextIsPlain(s: string)
    requires NameText(s)
    ensures ' ' !in s && ':' !in s && '[' !in s
  {
  }

  lemma {:induction false} TwoPartsHaveDot(s: string)
    requires |Split(s, '.')| >= 2
    ensures '.' in s
  {
    if s[0] != '.' {
      TwoPartsHaveDot(s[1..]);
      assert '.' in s[1..];
    }
  }

  /** A name is accepted if and only if it has two or more labels, no more than 253 characters, is not four decimal
      groups, is no reserved name nor under one, and the URL parser agrees: the checks for spaces, colons,
      brackets and dots add nothing. */
  lemma AcceptedExactly(s: string, urlAgrees: string -> bool)
    ensures IsValidHostname(s, urlAgrees) <==>
              && |Split(s, '.')| >= 2 && |s| <= 253
              && (forall k :: 0 <= k < |Split(s, '.')| ==> IsDnsLabel(Split(s, '.')[k]))
              && !(|Split(s, '.')| == 4 && forall k :: 0 <= k < 4 ==> IsDecimalGroup(Split(s, '.')[k]))
              && !(exists k, p :: 0 <= k < |NON_PUBLIC_SUFFIXES| && Under(s, p, NON_PUBLIC_SUFFIXES[k]))
              && urlAgrees(s)
  {
    var parts := Split(s, '.');
    NonPublicExactly(s);
    DotSplits(s);
    forall k | 0 <= k < |parts| ensures IsLabel(parts[k]) <==> IsDnsLabel(parts[k]) {
      LabelExactly(parts[k]);
    }
    assert IsDottedQuad(s) <==> |parts| == 4 && forall k :: 0 <= k < 4 ==> IsDecimalGroup(parts[k]) by {
      QuadExactly(s);
    }
    if |parts| >= 2 && (forall k :: 0 <= k < |parts| ==> IsDnsLabel(parts[k])) {
      TwoPartsHaveDot(s);
      LabelsMakeNameText(s);
      NameTextIsPlain(s);
    }
  }

  lemma QuadExactly(s: string)
    ensures var parts := Split(s, '.');
            IsDottedQuad(s) <==> |parts| == 4 && forall k :: 0 <= k < 4 ==> IsDecimalGroup(parts[k])
  {
    var parts := Split(s, '.');
    if |parts| == 4 {
      assert forall k :: 0 <= k < 4 ==>
          (IsDecimalGroup(parts[k]) <==>
             1 <= |parts[k]| <= 3 && forall i :: 0 <= i < |parts[k]| ==> IsDigit(parts[k][i]));
    }
  }

  /** The schema stores exactly the reduced text, when it is acceptable. */
  lemma ParsesExactly(input: string, h: string, lower: string -> string, urlAgrees: string -> bool)
    ensures ParseDomain(input, lower, urlAgrees) == Accepted(h) <==>
              input != "" && h == Normalize(input, lower) && IsValidHostname(h, urlAgrees)
    ensures ParseDomain(input, lower, urlAgrees) == Required <==> input == ""
  {
  }
}
