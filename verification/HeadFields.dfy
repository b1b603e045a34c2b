/**
 Which field of the input each managed tag shows while it is applied, named field by field.
 */
module HeadFields {
  import opened Prelude
  import opened HeadTags
  import opened HeadRoundTrip

  /** The first match of the selector is the one the head had, or a created one, and carries the value. */
  ghost predicate Shows(p: Page, q: Page, s: Selector, attr: string, value: string) {
    var was, now := Find(p.nodes, s), Find(q.nodes, s);
    && now < |q.nodes| && GetAttribute(q.nodes[now], attr) == Some(value)
    && (if was < |p.nodes| then now == was else now >= |p.nodes|)
  }

  /** The selector matches what it matched, unchanged. */
  ghost predicate LeavesAlone(p: Page, q: Page, s: Selector) {
    && |p.nodes| <= |q.nodes|
    && (forall x :: 0 <= x < |p.nodes| && Matches(p.nodes[x], s) ==> q.nodes[x] == p.nodes[x])
    && (forall x :: 0 <= x < |q.nodes| && Matches(q.nodes[x], s) ==> x < |p.nodes| && Matches(p.nodes[x], s))
  }

  predicate Given(field: Option<string>) {
    field.Some? && field.value != ""
  }

  /** An optional field: shown when it is given, and its tag left alone when it is absent or empty. */
  ghost predicate ShowsField(p: Page, q: Page, attr: string, key: string, field: Option<string>) {
    if Given(field) then Shows(p, q, Selector("meta", attr, key), "content", field.value)
    else LeavesAlone(p, q, Selector("meta", attr, key))
  }

  // ----- the tags, by their fields -----

  predicate Named(t: Tag, attr: string, key: string, field: Option<string>) {
    Given(field) && t == MetaTag(attr, key, field.value)
  }

  predicate NamesOpenGraph(t: Tag, og: OpenGraph) {
    || Named(t, "property", "og:title", og.title)
    || Named(t, "property", "og:description", og.description)
    || Named(t, "property", "og:type", og.kind)
    || Named(t, "property", "og:url", og.url)
    || Named(t, "property", "og:site_name", og.siteName)
    || Named(t, "property", "og:image", og.image)
  }

  predicate NamesTwitter(t: Tag, twitter: Twitter) {
    || Named(t, "name", "twitter:card", twitter.card)
    || Named(t, "name", "twitter:title", twitter.title)
    || Named(t, "name", "twitter:description", twitter.description)
    || Named(t, "name", "twitter:image", twitter.image)
  }

  predicate NamesBasic(t: Tag, input: SeoMetaInput) {
    || t == Tag(Selector("meta", "name", "description"), "content", input.description)
    || t == Tag(Selector("link", "rel", "canonical"), "href", input.canonicalUrl)
  }

  lemma InMetaIf(t: Tag, attr: string, key: string, field: Option<string>)
    ensures t in MetaIf(attr, key, field) <==> Named(t, attr, key, field)
  {
  }

  lemma InOpenGraph(t: Tag, og: OpenGraph)
    ensures t in OpenGraphTags(og) <==> NamesOpenGraph(t, og)
  {
    InMetaIf(t, "property", "og:title", og.title);
    InMetaIf(t, "property", "og:description", og.description);
    InMetaIf(t, "property", "og:type", og.kind);
    InMetaIf(t, "property", "og:url", og.url);
    InMetaIf(t, "property", "og:site_name", og.siteName);
    InMetaIf(t, "property", "og:image", og.image);
  }

  lemma InTwitter(t: Tag, twitter: Twitter)
    ensures t in TwitterTags(twitter) <==> NamesTwitter(t, twitter)
  {
    InMetaIf(t, "name", "twitter:card", twitter.card);
    InMetaIf(t, "name", "twitter:title", twitter.title);
    InMetaIf(t, "name", "twitter:description", twitter.description);
    InMetaIf(t, "name", "twitter:image", twitter.image);
  }

  /** The tags set are those of the given fields, and no others. */
  lemma TagsExactly(t: Tag, input: SeoMetaInput)
    ensures t in TagsOf(input) <==>
        NamesBasic(t, input) || NamesOpenGraph(t, input.og) || NamesTwitter(t, input.twitter)
  {
    InOpenGraph(t, input.og);
    InTwitter(t, input.twitter);
    assert t in BasicTags(input) <==> NamesBasic(t, input);
  }

  // ----- on a head where no element matches two supplied selectors -----

  /** No later tag writes to the element that a tag found. */
  lemma NotTouchedAgain(p: Page, tags: seq<Tag>, i: nat)
    requires Disjoint(p.nodes, SUPPLIED) && TagsFrom(tags, SUPPLIED) && i < |tags|
    requires Find(p.nodes, tags[i].selector) < |p.nodes|
    ensures Untouched(p, tags, Find(p.nodes, tags[i].selector), i + 1)
  {
    forall k | i + 1 <= k < |tags| ensures Find(p.nodes, tags[k].selector) != Find(p.nodes, tags[i].selector) {
      if Find(p.nodes, tags[k].selector) == Find(p.nodes, tags[i].selector) {
        SharedMatch(p, tags, i, k, SUPPLIED);
      }
    }
  }

  lemma TagShows(p: Page, input: SeoMetaInput, t: Tag)
    requires WellFormed(p) && Disjoint(p.nodes, SUPPLIED) && t in TagsOf(input)
    ensures Shows(p, Apply(p, input).0, t.selector, t.attr, t.value)
  {
    var tags := TagsOf(input);
    InputTags(input);
    var i :| 0 <= i < |tags| && tags[i] == t;
    if Find(p.nodes, t.selector) < |p.nodes| {
      NotTouchedAgain(p, tags, i);
    }
    SuppliedValueShows(p, input.title, tags, i);
    PlaceOf(p, input.title, tags, i);
  }

  lemma PlaceOf(p: Page, title: string, tags: seq<Tag>, i: nat)
    requires WellFormed(p) && ManagedTags(tags) && i < |tags|
    ensures var was, q := Find(p.nodes, tags[i].selector), ApplyTags(p, title, tags).0;
            var now := Find(q.nodes, tags[i].selector);
            if was < |p.nodes| then now == was else now >= |p.nodes|
  {
    var (q, u) := ApplyTags(p, title, tags);
    AppliedShape(p, title, tags);
    FirstMatchWhileApplied(p, tags, q, u, i);
    SuppliedIsFound(p, title, tags, i);
  }

  lemma AbsentKeepsMatches(p: Page, tags: seq<Tag>, q: Page, u: Undo, s: Selector, supplied: set<Selector>)
    requires Shape(p, tags, q, u) && Disjoint(p.nodes, supplied) && TagsFrom(tags, supplied)
    requires s in supplied && forall k :: 0 <= k < |tags| ==> tags[k].selector != s
    ensures |p.nodes| <= |q.nodes|
    ensures forall x :: 0 <= x < |p.nodes| && Matches(p.nodes[x], s) ==> q.nodes[x] == p.nodes[x]
  {
    forall x | 0 <= x < |p.nodes| && Matches(p.nodes[x], s) ensures q.nodes[x] == p.nodes[x] {
      MatchedOnlyBy(p, tags, x, s, supplied);
      NeverWritten(p, tags, x);
    }
  }

  lemma AbsentAddsNoMatch(p: Page, tags: seq<Tag>, q: Page, u: Undo, t: Tag)
    requires Shape(p, tags, q, u) && ManagedTags(tags) && Managed(t)
    requires forall k :: 0 <= k < |tags| ==> tags[k].selector != t.selector
    ensures |p.nodes| <= |q.nodes|
    ensures forall x :: 0 <= x < |q.nodes| && Matches(q.nodes[x], t.selector) ==>
              x < |p.nodes| && Matches(p.nodes[x], t.selector)
  {
    MatchesKept(p, tags, q, u, t);
    forall x | |p.nodes| <= x < |q.nodes| ensures !Matches(q.nodes[x], t.selector) {
      CreatedForOthers(p, tags, q.nodes[x], p.next + x - |p.nodes|, t);
    }
  }

  lemma AbsentLeavesAlone(p: Page, title: string, tags: seq<Tag>, s: Selector, supplied: set<Selector>)
    requires WellFormed(p) && Disjoint(p.nodes, supplied) && TagsFrom(tags, supplied) && ManagedSelectors(supplied)
    requires s in supplied && forall k :: 0 <= k < |tags| ==> tags[k].selector != s
    ensures LeavesAlone(p, ApplyTags(p, title, tags).0, s)
  {
    var (q, u) := ApplyTags(p, title, tags);
    AppliedShape(p, title, tags);
    AbsentKeepsMatches(p, tags, q, u, s, supplied);
    AbsentAddsNoMatch(p, tags, q, u, Tag(s, ValueAttribute(s.tag), ""));
  }

  lemma CreatedForOthers(p: Page, tags: seq<Tag>, n: Node, id: nat, t: Tag)
    requires ManagedTags(tags) && Managed(t) && CreatedBy(p, tags, n, id)
    requires forall k :: 0 <= k < |tags| ==> tags[k].selector != t.selector
    ensures !Matches(n, t.selector)
  {
    var j :| 0 <= j < |tags| && n == Created(tags[j], id);
    CreatedMatchesOnly(tags[j], t, id);
  }

  lemma MatchedOnlyBy(p: Page, tags: seq<Tag>, x: nat, s: Selector, supplied: set<Selector>)
    requires Disjoint(p.nodes, supplied) && TagsFrom(tags, supplied) && s in supplied
    requires x < |p.nodes| && Matches(p.nodes[x], s) && forall k :: 0 <= k < |tags| ==> tags[k].selector != s
    ensures Untouched(p, tags, x, 0)
  {
    assert OneSelector(p.nodes[x], supplied);
  }

  /** The tag of an optional field is set exactly when the field is given, with the field's value. */
  ghost predicate SetExactly(input: SeoMetaInput, attr: string, key: string, field: Option<string>) {
    && (Given(field) ==> MetaTag(attr, key, field.value) in TagsOf(input))
    && (!Given(field) ==> forall t :: t in TagsOf(input) ==> t.selector != Selector("meta", attr, key))
  }

  /** One optional field, told from the tags that are set. */
  lemma FieldShows(p: Page, input: SeoMetaInput, attr: string, key: string, field: Option<string>)
    requires WellFormed(p) && Disjoint(p.nodes, SUPPLIED) && Selector("meta", attr, key) in SUPPLIED
    requires SetExactly(input, attr, key, field)
    ensures ShowsField(p, Apply(p, input).0, attr, key, field)
  {
    if Given(field) {
      TagShows(p, input, MetaTag(attr, key, field.value));
    } else {
      InputTags(input);
      AbsentLeavesAlone(p, input.title, TagsOf(input), Selector("meta", attr, key), SUPPLIED);
    }
  }

  /** One named field among the others: set exactly when given, if no other name has its selector. */
  lemma SetByName(input: SeoMetaInput, attr: string, key: string, field: Option<string>)
    requires Given(field) ==> MetaTag(attr, key, field.value) in TagsOf(input)
    requires forall t :: t in TagsOf(input) && t.selector == Selector("meta", attr, key) ==> Given(field)
    ensures SetExactly(input, attr, key, field)
  {
  }

  lemma OpenGraphAttribute(t: Tag, og: OpenGraph)
    requires NamesOpenGraph(t, og)
    ensures t.selector.attr == "property"
  {
  }

  lemma TwitterAttribute(t: Tag, twitter: Twitter)
    requires NamesTwitter(t, twitter)
    ensures t.selector.attr == "name"
  {
  }

  lemma BasicSelector(t: Tag, input: SeoMetaInput)
    requires NamesBasic(t, input)
    ensures t.selector == Selector("meta", "name", "description") || t.selector == Selector("link", "rel", "canonical")
  {
  }

  lemma OpenGraphTag(input: SeoMetaInput, t: Tag)
    requires t in TagsOf(input) && t.selector.attr == "property"
    ensures NamesOpenGraph(t, input.og)
  {
    TagsExactly(t, input);
    assert |"property"| == 8 && |"name"| == 4 && |"rel"| == 3;
    if NamesTwitter(t, input.twitter) {
      TwitterAttribute(t, input.twitter);
    } else if NamesBasic(t, input) {
      BasicSelector(t, input);
    }
  }

  lemma TwitterTag(input: SeoMetaInput, t: Tag)
    requires t in TagsOf(input) && t.selector.attr == "name" && t.selector.key != "description"
    ensures NamesTwitter(t, input.twitter)
  {
    TagsExactly(t, input);
    assert |"property"| == 8 && |"name"| == 4 && |"rel"| == 3;
    if NamesOpenGraph(t, input.og) {
      OpenGraphAttribute(t, input.og);
    } else if NamesBasic(t, input) {
      BasicSelector(t, input);
    }
  }

  predicate IsOpenGraphField(og: OpenGraph, key: string, field: Option<string>) {
    || (key == "og:title" && field == og.title)
    || (key == "og:description" && field == og.description)
    || (key == "og:type" && field == og.kind)
    || (key == "og:url" && field == og.url)
    || (key == "og:site_name" && field == og.siteName)
    || (key == "og:image" && field == og.image)
  }

  predicate IsTwitterField(twitter: Twitter, key: string, field: Option<string>) {
    || (key == "twitter:card" && field == twitter.card)
    || (key == "twitter:title" && field == twitter.title)
    || (key == "twitter:description" && field == twitter.description)
    || (key == "twitter:image" && field == twitter.image)
  }

  lemma OpenGraphKeys(t: Tag, og: OpenGraph, key: string, field: Option<string>)
    requires IsOpenGraphField(og, key, field) && NamesOpenGraph(t, og) && t.selector.key == key
    ensures Given(field)
  {
  }

  lemma TwitterKeys(t: Tag, twitter: Twitter, key: string, field: Option<string>)
    requires IsTwitterField(twitter, key, field) && NamesTwitter(t, twitter) && t.selector.key == key
    ensures Given(field)
  {
  }

  lemma OpenGraphSet(input: SeoMetaInput, key: string, field: Option<string>)
    requires IsOpenGraphField(input.og, key, field)
    ensures SetExactly(input, "property", key, field)
  {
    if Given(field) {
      TagsExactly(MetaTag("property", key, field.value), input);
    }
    forall t | t in TagsOf(input) && t.selector == Selector("meta", "property", key) ensures Given(field) {
      OpenGraphTag(input, t);
      OpenGraphKeys(t, input.og, key, field);
    }
    SetByName(input, "property", key, field);
  }

  lemma TwitterSet(input: SeoMetaInput, key: string, field: Option<string>)
    requires IsTwitterField(input.twitter, key, field)
    ensures SetExactly(input, "name", key, field)
  {
    if Given(field) {
      TagsExactly(MetaTag("name", key, field.value), input);
    }
    assert key[0] == 't' && "description"[0] == 'd';
    forall t | t in TagsOf(input) && t.selector == Selector("meta", "name", key) ensures Given(field) {
      TwitterTag(input, t);
      TwitterKeys(t, input.twitter, key, field);
    }
    SetByName(input, "name", key, field);
  }

  ghost predicate OpenGraphShows(p: Page, q: Page, og: OpenGraph) {
    && ShowsField(p, q, "property", "og:title", og.title)
    && ShowsField(p, q, "property", "og:description", og.description)
    && ShowsField(p, q, "property", "og:type", og.kind)
    && ShowsField(p, q, "property", "og:url", og.url)
    && ShowsField(p, q, "property", "og:site_name", og.siteName)
    && ShowsField(p, q, "property", "og:image", og.image)
  }

  ghost predicate TwitterShows(p: Page, q: Page, twitter: Twitter) {
    && ShowsField(p, q, "name", "twitter:card", twitter.card)
    && ShowsField(p, q, "name", "twitter:title", twitter.title)
    && ShowsField(p, q, "name", "twitter:description", twitter.description)
    && ShowsField(p, q, "name", "twitter:image", twitter.image)
  }

  /** The page `q` shows the input on top of `p`, field by field. */
  ghost predicate ShowsInput(p: Page, q: Page, input: SeoMetaInput) {
    && q.title == input.title
    && Shows(p, q, Selector("meta", "name", "description"), "content", input.description)
    && Shows(p, q, Selector("link", "rel", "canonical"), "href", input.canonicalUrl)
    && OpenGraphShows(p, q, input.og)
    && TwitterShows(p, q, input.twitter)
  }

  lemma OpenGraphIsShown(p: Page, input: SeoMetaInput)
    requires WellFormed(p) && Disjoint(p.nodes, SUPPLIED)
    ensures OpenGraphShows(p, Apply(p, input).0, input.og)
  {
    OpenGraphSet(input, "og:title", input.og.title);
    FieldShows(p, input, "property", "og:title", input.og.title);
    OpenGraphSet(input, "og:description", input.og.description);
    FieldShows(p, input, "property", "og:description", input.og.description);
    OpenGraphSet(input, "og:type", input.og.kind);
    FieldShows(p, input, "property", "og:type", input.og.kind);
    OpenGraphSet(input, "og:url", input.og.url);
    FieldShows(p, input, "property", "og:url", input.og.url);
    OpenGraphSet(input, "og:site_name", input.og.siteName);
    FieldShows(p, input, "property", "og:site_name", input.og.siteName);
    OpenGraphSet(input, "og:image", input.og.image);
    FieldShows(p, input, "property", "og:image", input.og.image);
  }

  lemma TwitterIsShown(p: Page, input: SeoMetaInput)
    requires WellFormed(p) && Disjoint(p.nodes, SUPPLIED)
    ensures TwitterShows(p, Apply(p, input).0, input.twitter)
  {
    TwitterSet(input, "twitter:card", input.twitter.card);
    FieldShows(p, input, "name", "twitter:card", input.twitter.card);
    TwitterSet(input, "twitter:title", input.twitter.title);
    FieldShows(p, input, "name", "twitter:title", input.twitter.title);
    TwitterSet(input, "twitter:description", input.twitter.description);
    FieldShows(p, input, "name", "twitter:description", input.twitter.description);
    TwitterSet(input, "twitter:image", input.twitter.image);
    FieldShows(p, input, "name", "twitter:image", input.twitter.image);
  }

  /** While applied, on a head where no element matches two supplied selectors: the title is the input's, description
      and canonical link are always shown, and each optional field is shown by its own tag when it is given and
      leaves that tag alone when it is absent or empty. */
  lemma FieldsShow(p: Page, input: SeoMetaInput)
    requires WellFormed(p) && Disjoint(p.nodes, SUPPLIED)
    ensures ShowsInput(p, Apply(p, input).0, input)
  {
    var description := Tag(Selector("meta", "name", "description"), "content", input.description);
    var canonical := Tag(Selector("link", "rel", "canonical"), "href", input.canonicalUrl);
    AppliedTitle(p, input.title, TagsOf(input));
    TagsExactly(description, input);
    TagsExactly(canonical, input);
    TagShows(p, input, description);
    TagShows(p, input, canonical);
    OpenGraphIsShown(p, input);
    TwitterIsShown(p, input);
  }

  /** A JSON-LD script is the one new element, at the end: its type and its text. */
  lemma ScriptShows(p: Page, json: string)
    ensures var q := AppendScript(p, json);
            && q.title == p.title && |q.nodes| == |p.nodes| + 1 && q.nodes[..|p.nodes|] == p.nodes
            && var script := q.nodes[|p.nodes|];
            && script.tag == "script" && script.text == json && script.id == p.next
            && script.attrs == map["type" := "application/ld+json"]
  {
  }
}
