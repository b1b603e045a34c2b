/**
 The slug both creation forms derive from a name (ClientProvisioningWizard.tsx and
 CreateRestaurantPage.tsx hold the same function), against the slug grammar of the API.
 */
module Slug {
  import opened Text

  /** replace(/[^a-z0-9]+/g, "-"): every longest run of other characters becomes one hyphen. */
  function Collapse(s: string): string
    decreases |s|
  {
    if s == "" then ""
    else if IsAlnum(s[0]) then [s[0]] + Collapse(s[1..])
    else "-" + Collapse(DropOther(s))
  }

  function DropOther(s: string): (r: string)
    ensures |r| <= |s| && (s != "" && !IsAlnum(s[0]) ==> |r| < |s|)
    ensures r != "" ==> IsAlnum(r[0])
  {
    if s != "" && !IsAlnum(s[0]) then DropOther(s[1..]) else s
  }

  /** replace(/^-+|-+$/g, "") */
  function StripHyphens(s: string): string {
    StripTrailing(StripLeading(s))
  }

  function StripLeading(s: string): string {
    if s != "" && s[0] == '-' then StripLeading(s[1..]) else s
  }

  function StripTrailing(s: string): string {
    if s != "" && s[|s| - 1] == '-' then StripTrailing(s[..|s| - 1]) else s
  }

  function Slugify(value: string, lower: string -> string): string {
    StripHyphens(Collapse(Trim(lower(value))))
  }

  /** slugPattern: `[a-z0-9]+` groups joined by single hyphens. */
  predicate IsSlug(s: string) {
    forall k :: 0 <= k < |Split(s, '-')| ==> IsWord(Split(s, '-')[k])
  }

  predicate IsWord(w: string) {
    w != "" && forall i :: 0 <= i < |w| ==> IsAlnum(w[i])
  }

  // ----- the words of a text -----

  function WordLength(s: string): (n: nat)
    ensures n <= |s| && (forall i :: 0 <= i < n ==> IsAlnum(s[i])) && (n < |s| ==> !IsAlnum(s[n]))
    ensures s != "" && IsAlnum(s[0]) ==> n > 0
  {
    if s == "" || !IsAlnum(s[0]) then 0 else 1 + WordLength(s[1..])
  }

  /** The longest alphanumeric runs of a text, in order. */
  function Words(s: string): (ws: seq<string>)
    ensures forall k :: 0 <= k < |ws| ==> IsWord(ws[k])
    decreases |s|
  {
    if s == "" then []
    else if !IsAlnum(s[0]) then Words(s[1..])
    else [s[..WordLength(s)]] + Words(s[WordLength(s)..])
  }

  lemma {:induction false} WordsSkipOther(s: string)
    ensures Words(DropOther(s)) == Words(s)
    decreases |s|
  {
    if s != "" && !IsAlnum(s[0]) {
      WordsSkipOther(s[1..]);
    }
  }

  lemma {:induction false} CollapseWord(w: string, rest: string)
    requires IsWord(w)
    ensures Collapse(w + rest) == w + Collapse(rest)
    decreases |w|
  {
    assert (w + rest)[1..] == w[1..] + rest;
    if |w| > 1 {
      CollapseWord(w[1..], rest);
    } else {
      assert w[1..] + rest == rest;
    }
  }

  lemma {:induction false} StripTrailingAfter(a: string, b: string)
    requires StripTrailing(b) != ""
    ensures StripTrailing(a + b) == a + StripTrailing(b)
    decreases |b|
  {
    var s := a + b;
    if b[|b| - 1] == '-' {
      assert s[..|s| - 1] == a + b[..|b| - 1];
      StripTrailingAfter(a, b[..|b| - 1]);
    }
  }

  lemma StripTrailingWord(w: string, tail: string)
    requires IsWord(w) && (tail == "" || tail == "-")
    ensures StripTrailing(w + tail) == w
  {
    assert IsAlnum(w[|w| - 1]);
    assert w + "" == w;
    if tail == "-" {
      assert (w + "-")[..|w|] == w;
    }
  }

  /** A text that starts with a word: collapsing and stripping joins its words. */
  lemma {:induction false} CollapseJoinsWords(s: string)
    requires s != "" && IsAlnum(s[0])
    ensures StripTrailing(Collapse(s)) == Join(Words(s), '-') && Words(s) != [] && Join(Words(s), '-') != ""
    decreases |s|
  {
    var n := WordLength(s);
    var w, rest := s[..n], s[n..];
    assert s == w + rest && IsWord(w);
    CollapseWord(w, rest);
    if rest == "" {
      StripTrailingWord(w, "");
      assert Words(s) == [w];
    } else {
      var next := DropOther(rest);
      WordsSkipOther(rest);
      if next == "" {
        StripTrailingWord(w, "-");
        assert Words(s) == [w];
      } else {
        CollapseJoinsWords(next);
        StripTrailingAfter(w + "-", Collapse(next));
        assert w + ("-" + Collapse(next)) == w + "-" + Collapse(next);
        assert Words(s)[1..] == Words(next);
      }
    }
  }

  lemma StripLeadingAlnum(s: string)
    requires s == "" || IsAlnum(s[0])
    ensures StripLeading(s) == s && StripLeading("-" + s) == s
  {
    assert ("-" + s)[1..] == s;
  }

  /** On every text: the slug steps give its words joined by single hyphens. */
  lemma CollapseStripIsWords(s: string)
    ensures StripHyphens(Collapse(s)) == Join(Words(s), '-')
  {
    var t := DropOther(s);
    WordsSkipOther(s);
    if t != "" {
      CollapseJoinsWords(t);
    }
    StripLeadingAlnum(Collapse(t));
    if s != "" && !IsAlnum(s[0]) {
      assert Collapse(s) == "-" + Collapse(t);
    }
  }

  lemma {:induction false} WordsAppendOther(s: string, c: char)
    requires !IsAlnum(c)
    ensures Words(s + [c]) == Words(s)
    decreases |s|
  {
    if s == "" {
      assert s + [c] == [c] && [c][1..] == "";
    } else if !IsAlnum(s[0]) {
      assert (s + [c])[1..] == s[1..] + [c];
      WordsAppendOther(s[1..], c);
    } else {
      var n := WordLength(s);
      WordLengthAppend(s, c);
      assert (s + [c])[..n] == s[..n] && (s + [c])[n..] == s[n..] + [c];
      WordsAppendOther(s[n..], c);
    }
  }

  lemma {:induction false} WordLengthAppend(s: string, c: char)
    requires !IsAlnum(c)
    ensures WordLength(s + [c]) == WordLength(s)
    decreases |s|
  {
    if s != "" && IsAlnum(s[0]) {
      assert (s + [c])[1..] == s[1..] + [c];
      WordLengthAppend(s[1..], c);
    }
  }

  lemma {:induction false} WordsTrimStart(s: string)
    ensures Words(TrimStart(s)) == Words(s)
  {
    if s != "" && IsSpace(s[0]) {
      WordsTrimStart(s[1..]);
    }
  }

  lemma {:induction false} WordsTrimEnd(s: string)
    ensures Words(TrimEnd(s)) == Words(s)
  {
    if s != "" && IsSpace(s[|s| - 1]) {
      WordsTrimEnd(s[..|s| - 1]);
      WordsAppendOther(s[..|s| - 1], s[|s| - 1]);
      assert s == s[..|s| - 1] + [s[|s| - 1]];
    }
  }

  /** The slug of any text is its lower-cased words joined by hyphens. */
  lemma SlugifyIsWords(value: string, lower: string -> string)
    ensures Slugify(value, lower) == Join(Words(lower(value)), '-')
  {
    CollapseStripIsWords(Trim(lower(value)));
    WordsTrimEnd(TrimStart(lower(value)));
    WordsTrimStart(lower(value));
  }

  /** The trim step never matters. */
  lemma TrimIsRedundant(value: string, lower: string -> string)
    ensures Slugify(value, lower) == StripHyphens(Collapse(lower(value)))
  {
    SlugifyIsWords(value, lower);
    CollapseStripIsWords(lower(value));
  }

  // ----- the slug grammar -----

  lemma {:induction false} SplitWord(w: string)
    requires IsWord(w)
    ensures Split(w, '-') == [w]
    decreases |w|
  {
    if |w| == 1 {
      assert w[1..] == "";
    } else {
      SplitWord(w[1..]);
    }
    assert w == [w[0]] + w[1..];
  }

  lemma {:induction false} SplitWordAnd(w: string, rest: string)
    requires IsWord(w)
    ensures Split(w + "-" + rest, '-') == [w] + Split(rest, '-')
    decreases |w|
  {
    var s := w + "-" + rest;
    if |w| == 1 {
      assert s[1..] == "-" + rest && ("-" + rest)[1..] == rest;
    } else {
      SplitWordAnd(w[1..], rest);
      assert s[1..] == w[1..] + "-" + rest;
    }
    assert w == [w[0]] + w[1..];
  }

  ghost predicate AllWords(ws: seq<string>) {
    forall k :: 0 <= k < |ws| ==> IsWord(ws[k])
  }

  /** Joining words and splitting at hyphens are inverse. */
  lemma {:induction false} SplitJoin(ws: seq<string>)
    requires AllWords(ws) && ws != []
    ensures Split(Join(ws, '-'), '-') == ws
    decreases |ws|
  {
    if |ws| == 1 {
      SplitWord(ws[0]);
    } else {
      assert AllWords(ws[1..]);
      SplitJoin(ws[1..]);
      SplitWordAnd(ws[0], Join(ws[1..], '-'));
      assert Join(ws, '-') == ws[0] + "-" + Join(ws[1..], '-');
      assert ws == [ws[0]] + ws[1..];
    }
  }

  lemma {:induction false} WordsOfJoin(ws: seq<string>)
    requires AllWords(ws)
    ensures Words(Join(ws, '-')) == ws
    decreases |ws|
  {
    if |ws| == 1 {
      WordsOfWordAnd(ws[0], "");
      assert ws[0] + "" == ws[0];
    } else if |ws| > 1 {
      var rest := Join(ws[1..], '-');
      assert AllWords(ws[1..]);
      WordsOfJoin(ws[1..]);
      WordsOfWordAnd(ws[0], "-" + rest);
      assert Join(ws, '-') == ws[0] + ("-" + rest);
      assert ("-" + rest)[1..] == rest;
      assert ws == [ws[0]] + ws[1..];
    }
  }

  lemma WordsOfWordAnd(w: string, rest: string)
    requires IsWord(w) && (rest == "" || !IsAlnum(rest[0]))
    ensures Words(w + rest) == [w] + Words(rest)
  {
    WordLengthIs(w + rest, |w|);
    assert (w + rest)[..|w|] == w && (w + rest)[|w|..] == rest;
  }

  lemma {:induction false} WordLengthIs(s: string, n: nat)
    requires n <= |s| && (forall i :: 0 <= i < n ==> IsAlnum(s[i])) && (n < |s| ==> !IsAlnum(s[n]))
    ensures WordLength(s) == n
    decreases n
  {
    if n > 0 {
      WordLengthIs(s[1..], n - 1);
    }
  }

  /** The result for every input is "" or a word of the slug grammar. */
  lemma SlugifyGivesSlug(value: string, lower: string -> string)
    ensures Slugify(value, lower) == "" || IsSlug(Slugify(value, lower))
  {
    SlugifyIsWords(value, lower);
    var ws := Words(lower(value));
    if ws != [] {
      SplitJoin(ws);
    }
  }

  lemma {:induction false} PartsAlnum(s: string)
    requires AllWords(Split(s, '-'))
    ensures forall i :: 0 <= i < |s| ==> IsAlnum(s[i]) || s[i] == '-'
    decreases |s|
  {
    JoinSplit(s, '-');
    JoinChars(Split(s, '-'));
  }

  lemma {:induction false} JoinChars(ws: seq<string>)
    requires AllWords(ws)
    ensures forall i :: 0 <= i < |Join(ws, '-')| ==> IsAlnum(Join(ws, '-')[i]) || Join(ws, '-')[i] == '-'
    decreases |ws|
  {
    if |ws| > 1 {
      assert AllWords(ws[1..]);
      JoinChars(ws[1..]);
    }
  }

  /** Slugs are ASCII and already in lower case. */
  lemma SlugIsLower(s: string, lower: string -> string)
    requires LowersAscii(lower) && IsSlug(s)
    ensures lower(s) == s
  {
    PartsAlnum(s);
    assert forall i :: 0 <= i < |s| ==> AsciiLower(s)[i] == s[i];
    assert IsAscii(s);
  }

  /** slugify is the identity exactly on "" and on slugs. */
  lemma IdentityExactlyOnSlugs(value: string, lower: string -> string)
    requires LowersAscii(lower)
    ensures Slugify(value, lower) == value <==> value == "" || IsSlug(value)
  {
    SlugifyGivesSlug(value, lower);
    SlugifyIsWords(value, lower);
    if IsSlug(value) {
      SlugIsLower(value, lower);
      JoinSplit(value, '-');
      WordsOfJoin(Split(value, '-'));
    } else if value == "" {
      assert IsAscii("") && AsciiLower("") == "";
    }
  }

  lemma SlugifyIdempotent(value: string, lower: string -> string)
    requires LowersAscii(lower)
    ensures Slugify(Slugify(value, lower), lower) == Slugify(value, lower)
  {
    SlugifyGivesSlug(value, lower);
    IdentityExactlyOnSlugs(Slugify(value, lower), lower);
  }
}
