/**
 What packages/utils/src/seoMeta.ts does to a document head, on values: a head is the sequence of its
 elements, each with an identity, and every managed tag is looked up, written and undone by selector.
 */
module HeadTags {
  import opened Prelude

  datatype Node = Node(id: nat, tag: string, attrs: map<string, string>, text: string)

  /** The selector `tag[attr="key"]`. */
  datatype Selector = Selector(tag: string, attr: string, key: string)

  /** One managed tag: where it is, which attribute carries its value, and the value. */
  datatype Tag = Tag(selector: Selector, attr: string, value: string)

  /** `next` numbers the elements still to be created. */
  datatype Page = Page(title: string, nodes: seq<Node>, next: nat)

  /** An entry of `restores`: the attribute an element had before, or that it had none. */
  datatype Restore = Restore(id: nat, attr: string, previous: Option<string>)

  /** What the cleanup closure captured. */
  datatype Undo = Undo(title: string, restores: seq<Restore>, created: seq<nat>)

  datatype OpenGraph = OpenGraph(title: Option<string>, description: Option<string>, kind: Option<string>,
                                 url: Option<string>, siteName: Option<string>, image: Option<string>)

  datatype Twitter = Twitter(card: Option<string>, title: Option<string>, description: Option<string>,
      image: Option<string>)

  /** An absent `og` or `twitter` object is one with no field. */
  datatype SeoMetaInput = SeoMetaInput(title: string, description: string, canonicalUrl: string, og: OpenGraph,
      twitter: Twitter)

  function MetaTag(attr: string, key: string, content: string): Tag {
    Tag(Selector("meta", attr, key), "content", content)
  }

  /** `if (value) setMeta(...)`: an absent or empty value writes nothing. */
  function MetaIf(attr: string, key: string, value: Option<string>): seq<Tag> {
    if value.Some? && value.value != "" then [MetaTag(attr, key, value.value)] else []
  }

  function BasicTags(input: SeoMetaInput): seq<Tag> {
    [MetaTag("name", "description", input.description),
        Tag(Selector("link", "rel", "canonical"), "href", input.canonicalUrl)]
  }

  function OpenGraphTags(og: OpenGraph): seq<Tag> {
    MetaIf("property", "og:title", og.title)
    + MetaIf("property", "og:description", og.description)
    + MetaIf("property", "og:type", og.kind)
    + MetaIf("property", "og:url", og.url)
    + MetaIf("property", "og:site_name", og.siteName)
    + MetaIf("property", "og:image", og.image)
  }

  function TwitterTags(twitter: Twitter): seq<Tag> {
    MetaIf("name", "twitter:card", twitter.card)
    + MetaIf("name", "twitter:title", twitter.title)
    + MetaIf("name", "twitter:description", twitter.description)
    + MetaIf("name", "twitter:image", twitter.image)
  }

  /** The tags of lines 77 to 99, in the order they are set. */
  function TagsOf(input: SeoMetaInput): seq<Tag> {
    BasicTags(input) + OpenGraphTags(input.og) + TwitterTags(input.twitter)
  }

  predicate Matches(n: Node, s: Selector) {
    n.tag == s.tag && s.attr in n.attrs && n.attrs[s.attr] == s.key
  }

  /** querySelector: the index of the first match, or the length when there is none. */
  function Find(nodes: seq<Node>, s: Selector): (i: nat)
    ensures i <= |nodes| && (i < |nodes| ==> Matches(nodes[i], s))
    ensures forall k :: 0 <= k < i ==> !Matches(nodes[k], s)
  {
    if nodes == [] || Matches(nodes[0], s) then 0 else 1 + Find(nodes[1..], s)
  }

  function GetAttribute(n: Node, attr: string): Option<string> {
    if attr in n.attrs then Some(n.attrs[attr]) else None
  }

  function PutAttribute(n: Node, attr: string, value: Option<string>): Node {
    n.(attrs := if value.Some? then n.attrs[attr := value.value] else n.attrs - {attr})
  }

  function Created(t: Tag, id: nat): Node {
    Node(id, t.selector.tag, map[t.selector.attr := t.selector.key, t.attr := t.value], "")
  }

  function SetTag(p: Page, u: Undo, t: Tag): (Page, Undo) {
    var i := Find(p.nodes, t.selector);
    if i < |p.nodes| then
      var n := p.nodes[i];
      (p.(nodes := p.nodes[i := PutAttribute(n, t.attr, Some(t.value))]),
       u.(restores := u.restores + [Restore(n.id, t.attr, GetAttribute(n, t.attr))]))
    else
      (p.(nodes := p.nodes + [Created(t, p.next)], next := p.next + 1), u.(created := u.created + [p.next]))
  }

  function ApplyTags(p: Page, title: string, tags: seq<Tag>): (Page, Undo) {
    if tags == [] then (p.(title := title), Undo(p.title, [], []))
    else
      var (q, u) := ApplyTags(p, title, tags[..|tags| - 1]);
      SetTag(q, u, tags[|tags| - 1])
  }

  function Apply(p: Page, input: SeoMetaInput): (Page, Undo) {
    ApplyTags(p, input.title, TagsOf(input))
  }

  function RestoreNode(n: Node, r: Restore): Node {
    if n.id == r.id then PutAttribute(n, r.attr, r.previous) else n
  }

  /** The restores run in the order they were logged. */
  function ReplayNode(n: Node, rs: seq<Restore>): Node {
    if rs == [] then n else RestoreNode(ReplayNode(n, rs[..|rs| - 1]), rs[|rs| - 1])
  }

  function Replay(nodes: seq<Node>, rs: seq<Restore>): seq<Node> {
    seq(|nodes|, i requires 0 <= i < |nodes| => ReplayNode(nodes[i], rs))
  }

  /** The nodes left when the elements `ids` are removed. */
  function Without(nodes: seq<Node>, ids: seq<nat>): seq<Node> {
    if nodes == [] then []
    else if nodes[|nodes| - 1].id in ids then Without(nodes[..|nodes| - 1], ids)
    else Without(nodes[..|nodes| - 1], ids) + [nodes[|nodes| - 1]]
  }

  function Cleanup(p: Page, u: Undo): Page {
    Page(u.title, Without(Replay(p.nodes, u.restores), u.created), p.next)
  }

  // ----- well-formed heads and managed tags -----

  ghost predicate WellFormed(p: Page) {
    && (forall i :: 0 <= i < |p.nodes| ==> p.nodes[i].id < p.next)
    && (forall i, j :: 0 <= i < j < |p.nodes| ==> p.nodes[i].id != p.nodes[j].id)
  }

  /** Meta tags are looked up by name or property and carry `content`; the link by rel, with `href`. */
  predicate Managed(t: Tag) {
    || (t.selector.tag == "meta" && (t.selector.attr == "name" || t.selector.attr == "property") && t.attr == "content")
    || (t.selector.tag == "link" && t.selector.attr == "rel" && t.attr == "href")
  }

  ghost predicate ManagedTags(tags: seq<Tag>) {
    && (forall i :: 0 <= i < |tags| ==> Managed(tags[i]))
    && (forall i, j :: 0 <= i < j < |tags| ==> tags[i].selector != tags[j].selector)
  }

  /** Every selector applySeoMeta can supply. */
  const SUPPLIED: set<Selector> :=
    {Selector("meta", "name", "description"), Selector("link", "rel", "canonical"),
     Selector("meta", "property", "og:title"), Selector("meta", "property", "og:description"),
     Selector("meta", "property", "og:type"), Selector("meta", "property", "og:url"),
     Selector("meta", "property", "og:site_name"), Selector("meta", "property", "og:image"),
     Selector("meta", "name", "twitter:card"), Selector("meta", "name", "twitter:title"),
     Selector("meta", "name", "twitter:description"), Selector("meta", "name", "twitter:image")}

  /** The place of each supplied selector in the order of the source. */
  function Rank(s: Selector): nat {
    if s.key == "description" then 0
    else if s.key == "canonical" then 1
    else if s.key == "og:title" then 2
    else if s.key == "og:description" then 3
    else if s.key == "og:type" then 4
    else if s.key == "og:url" then 5
    else if s.key == "og:site_name" then 6
    else if s.key == "og:image" then 7
    else if s.key == "twitter:card" then 8
    else if s.key == "twitter:title" then 9
    else if s.key == "twitter:description" then 10
    else 11
  }

  ghost predicate Ranked(tags: seq<Tag>, lo: nat, hi: nat) {
    && (forall i :: 0 <= i < |tags| ==> tags[i].selector in SUPPLIED)
    && (forall i :: 0 <= i < |tags| ==> Managed(tags[i]) && lo <= Rank(tags[i].selector) < hi)
    && (forall i, j :: 0 <= i < j < |tags| ==> Rank(tags[i].selector) < Rank(tags[j].selector))
  }

  lemma RankedConcat(a: seq<Tag>, b: seq<Tag>, lo: nat, mid: nat, hi: nat)
    requires lo <= mid <= hi && Ranked(a, lo, mid) && Ranked(b, mid, hi)
    ensures Ranked(a + b, lo, hi)
  {
  }

  lemma MetaIfRanked(attr: string, key: string, value: Option<string>, k: nat)
    requires attr == "name" || attr == "property"
    requires Rank(Selector("meta", attr, key)) == k && Selector("meta", attr, key) in SUPPLIED
    ensures Ranked(MetaIf(attr, key, value), k, k + 1)
  {
  }

  lemma OpenGraphRanked(og: OpenGraph)
    ensures Ranked(OpenGraphTags(og), 2, 8)
  {
    MetaIfRanked("property", "og:title", og.title, 2);
    MetaIfRanked("property", "og:description", og.description, 3);
    MetaIfRanked("property", "og:type", og.kind, 4);
    MetaIfRanked("property", "og:url", og.url, 5);
    MetaIfRanked("property", "og:site_name", og.siteName, 6);
    MetaIfRanked("property", "og:image", og.image, 7);
    var t2 := MetaIf("property", "og:title", og.title);
    var t3 := t2 + MetaIf("property", "og:description", og.description);
    var t4 := t3 + MetaIf("property", "og:type", og.kind);
    var t5 := t4 + MetaIf("property", "og:url", og.url);
    var t6 := t5 + MetaIf("property", "og:site_name", og.siteName);
    RankedConcat(t2, MetaIf("property", "og:description", og.description), 2, 3, 4);
    RankedConcat(t3, MetaIf("property", "og:type", og.kind), 2, 4, 5);
    RankedConcat(t4, MetaIf("property", "og:url", og.url), 2, 5, 6);
    RankedConcat(t5, MetaIf("property", "og:site_name", og.siteName), 2, 6, 7);
    RankedConcat(t6, MetaIf("property", "og:image", og.image), 2, 7, 8);
  }

  lemma TwitterRanked(twitter: Twitter)
    ensures Ranked(TwitterTags(twitter), 8, 12)
  {
    MetaIfRanked("name", "twitter:card", twitter.card, 8);
    MetaIfRanked("name", "twitter:title", twitter.title, 9);
    MetaIfRanked("name", "twitter:description", twitter.description, 10);
    MetaIfRanked("name", "twitter:image", twitter.image, 11);
    var t8 := MetaIf("name", "twitter:card", twitter.card);
    var t9 := t8 + MetaIf("name", "twitter:title", twitter.title);
    RankedConcat(t8, MetaIf("name", "twitter:title", twitter.title), 8, 9, 10);
    RankedConcat(t9, MetaIf("name", "twitter:description", twitter.description), 8, 10, 11);
    RankedConcat(t9 + MetaIf("name", "twitter:description", twitter.description),
                 MetaIf("name", "twitter:image", twitter.image), 8, 11, 12);
  }

  lemma BasicRanked(input: SeoMetaInput)
    ensures Ranked(BasicTags(input), 0, 2)
  {
  }

  /** Managed, with no selector twice, each one of the supplied selectors. */
  lemma RankedIsManaged(tags: seq<Tag>, hi: nat)
    requires Ranked(tags, 0, hi)
    ensures ManagedTags(tags) && forall i :: 0 <= i < |tags| ==> tags[i].selector in SUPPLIED
  {
  }

  /** The tags of any input are managed and no two share a selector. */
  lemma TagsAreManaged(input: SeoMetaInput)
    ensures ManagedTags(TagsOf(input)) && forall i :: 0 <= i < |TagsOf(input)| ==> TagsOf(input)[i].selector in SUPPLIED
  {
    BasicRanked(input);
    OpenGraphRanked(input.og);
    TwitterRanked(input.twitter);
    RankedConcat(BasicTags(input), OpenGraphTags(input.og), 0, 2, 8);
    RankedConcat(BasicTags(input) + OpenGraphTags(input.og), TwitterTags(input.twitter), 0, 8, 12);
    RankedIsManaged(TagsOf(input), 12);
  }
}
