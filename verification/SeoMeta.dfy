/**
 packages/utils/src/seoMeta.ts on a mutable document: elements are objects whose attributes are
 overwritten in place, and the cleanup object holds the element references its closures captured.
 */
module SeoMeta {
  import opened Prelude
  import opened HeadTags
  import HeadRoundTrip
  import HeadFields
  type Use = HeadRoundTrip.Use

  class Element {
    const id: nat
    const tag: string
    const text: string
    var attrs: map<string, string>

    constructor (id: nat, tag: string, text: string)
      ensures this.id == id && this.tag == tag && this.text == text && attrs == map[]
    {
      this.id, this.tag, this.text, this.attrs := id, tag, text, map[];
    }

    function Value(): Node
      reads this
    {
      Node(id, tag, attrs, text)
    }

    method SetAttribute(attr: string, value: string)
      modifies this
      ensures Value() == PutAttribute(old(Value()), attr, Some(value))
    {
      attrs := attrs[attr := value];
    }

    method RemoveAttribute(attr: string)
      modifies this
      ensures Value() == PutAttribute(old(Value()), attr, None)
    {
      attrs := attrs - {attr};
    }
  }

  function Values(elements: seq<Element>): seq<Node>
    reads elements
  {
    seq(|elements|, i requires 0 <= i < |elements| reads elements => elements[i].Value())
  }

  class Document {
    var title: string
    var head: seq<Element>
    var next: nat

    ghost function Page(): Page
      reads this, head
    {
      HeadTags.Page(title, Values(head), next)
    }

    ghost predicate Valid()
      reads this, head
    {
      && (forall i :: 0 <= i < |head| ==> head[i].id < next)
      && (forall i, j :: 0 <= i < j < |head| ==> head[i].id != head[j].id)
    }

    /** Identities are distinct, so the values form a well-formed page. */
    lemma ValidPage()
      requires Valid()
      ensures WellFormed(Page())
    {
      assert forall i :: 0 <= i < |head| ==> Values(head)[i].id == head[i].id;
    }

    method QuerySelector(s: Selector) returns (i: nat)
      ensures i == Find(Page().nodes, s)
    {
      i := 0;
      while i < |head| && !Matches(head[i].Value(), s)
        invariant i <= |head|
        invariant forall k :: 0 <= k < i ==> !Matches(head[k].Value(), s)
      {
        i := i + 1;
      }
      FindUnique(Values(head), s, i);
    }

    method IndexOf(el: Element) returns (i: nat)
      ensures i <= |head| && el !in head[..i] && (i < |head| ==> head[i] == el)
    {
      i := 0;
      while i < |head| && head[i] != el
        invariant i <= |head| && el !in head[..i]
      {
        i := i + 1;
      }
    }

    /** `document.head.appendChild(el)` */
    method Append(el: Element)
      requires Valid() && el !in head && el.id == next
      modifies this
      ensures Valid() && title == old(title) && next == old(next) + 1 && head == old(head) + [el]
      ensures Values(head) == old(Values(head)) + [el.Value()]
    {
      head := head + [el];
      next := next + 1;
    }

    /** `el.remove()`; `removeChild` is the same with the error of an absent child. */
    method Remove(el: Element) returns (present: bool)
      requires Valid() && forall e :: e in head && e.id == el.id ==> e == el
      modifies this
      ensures Valid() && present == (el in old(head)) && (forall e :: e in head ==> e in old(head))
      ensures title == old(title) && next == old(next)
      ensures Values(head) == Without(old(Values(head)), [el.id])
    {
      var i := IndexOf(el);
      present := i < |head|;
      WithoutElement(head, el, i);
      if present {
        head := head[..i] + head[i + 1..];
      }
    }
  }

  /** Removing by reference at i is removing by identity. */
  lemma WithoutElement(elements: seq<Element>, el: Element, i: nat)
    requires i <= |elements| && el !in elements[..i] && (i < |elements| ==> elements[i] == el)
    requires forall j, k :: 0 <= j < k < |elements| ==> elements[j].id != elements[k].id
    requires forall e :: e in elements && e.id == el.id ==> e == el
    ensures Without(Values(elements), [el.id]) == Values(if i < |elements| then elements[..i] + elements[i + 1..]
        else elements)
  {
    forall k | 0 <= k < |elements| && k != i ensures Values(elements)[k].id != el.id {
      assert elements[k] in elements;
      assert elements[k] == el ==> k >= i;
    }
    if i < |elements| {
      WithoutOne(Values(elements), el.id, i);
      DropValue(elements, i);
    } else {
      WithoutAbsent(Values(elements), el.id);
    }
  }

  lemma DropValue(elements: seq<Element>, i: nat)
    requires i < |elements|
    ensures Values(elements[..i] + elements[i + 1..]) == Values(elements)[..i] + Values(elements)[i + 1..]
  {
  }

  lemma FindUnique(nodes: seq<Node>, s: Selector, i: nat)
    requires i <= |nodes| && (i < |nodes| ==> Matches(nodes[i], s))
    requires forall k :: 0 <= k < i ==> !Matches(nodes[k], s)
    ensures Find(nodes, s) == i
  {
  }

  /** `el` is one of the document's elements, in the head or removed: no other has its identity. */
  ghost predicate Owns(head: seq<Element>, next: nat, el: Element) {
    el.id < next && forall e :: e in head && e.id == el.id ==> e == el
  }

  /** From one head to a later one: what is new was created in between. */
  ghost predicate Grows(head: seq<Element>, next: nat, later: seq<Element>, laterNext: nat) {
    next <= laterNext && forall e :: e in later ==> e in head || next <= e.id
  }

  lemma OwnsGrows(head: seq<Element>, next: nat, later: seq<Element>, laterNext: nat, el: Element)
    requires Owns(head, next, el) && Grows(head, next, later, laterNext)
    ensures Owns(later, laterNext, el)
  {
  }

  lemma OwnsAppended(head: seq<Element>, next: nat, el: Element, added: Element)
    requires Owns(head, next, el) && added.id == next
    ensures Owns(head + [added], next + 1, el)
  {
  }

  /** The closure applySeoMeta returns, with what it captured. */
  class CleanupHandle {
    var previousTitle: string
    var restores: seq<(Element, string, Option<string>)>
    var created: seq<Element>

    constructor (title: string)
      ensures previousTitle == title && restores == [] && created == []
    {
      previousTitle, restores, created := title, [], [];
    }

    ghost function Undo(): Undo
      reads this
    {
      HeadTags.Undo(previousTitle,
                    seq(|restores|, i requires 0 <= i < |restores| reads this => Restore(restores[i].0.id,
                        restores[i].1, restores[i].2)),
                    seq(|created|, i requires 0 <= i < |created| reads this => created[i].id))
    }

    /** `restores.push(...)`: the attribute an element had is captured with its reference. */
    method LogRestore(existing: Element, attr: string, previous: Option<string>)
      modifies this
      ensures restores == old(restores) + [(existing, attr, previous)] && created == old(created)
      ensures Undo() == old(Undo()).(restores := old(Undo()).restores + [Restore(existing.id, attr, previous)])
    {
      restores := restores + [(existing, attr, previous)];
    }

    /** `created.push(el)` */
    method LogCreated(el: Element)
      modifies this
      ensures created == old(created) + [el] && restores == old(restores)
      ensures Undo() == old(Undo()).(created := old(Undo()).created + [el.id])
    {
      created := created + [el];
    }

    /** The captured references are the document's own elements. */
    ghost predicate For(doc: Document)
      reads this, doc
    {
      && (forall k :: 0 <= k < |restores| ==> Owns(doc.head, doc.next, restores[k].0))
      && (forall k :: 0 <= k < |created| ==> Owns(doc.head, doc.next, created[k]))
    }

    /** Right after applying, every captured element is still in the head. */
    ghost predicate Inside(doc: Document)
      reads this, doc
    {
      forall k :: 0 <= k < |restores| ==> restores[k].0 in doc.head
    }

    ghost function Captured(): set<Element>
      reads this
    {
      set k | 0 <= k < |restores| :: restores[k].0
    }

    /** One restore closure: it writes through the captured reference, wherever the element is now. */
    method RestoreOne(doc: Document, k: nat)
      requires doc.Valid() && For(doc) && k < |restores|
      modifies restores[k].0
      ensures doc.Valid() && For(doc)
      ensures forall x :: 0 <= x < |doc.head| ==> doc.head[x].Value() == RestoreNode(old(doc.head[x].Value()),
          Undo().restores[k])
    {
      var (existing, attr, previous) := restores[k];
      if previous.None? {
        existing.RemoveAttribute(attr);
      } else {
        existing.SetAttribute(attr, previous.value);
      }
      forall x | 0 <= x < |doc.head| ensures doc.head[x].Value() == RestoreNode(old(doc.head[x].Value()),
          Undo().restores[k]) {
        assert doc.head[x] in doc.head;
      }
    }

    method RestoreAll(doc: Document)
      requires doc.Valid() && For(doc)
      modifies Captured()
      ensures doc.Valid() && For(doc)
      ensures Values(doc.head) == Replay(old(Values(doc.head)), Undo().restores)
    {
      ghost var rs := Undo().restores;
      var k := 0;
      while k < |restores|
        invariant k <= |restores| && doc.Valid() && For(doc) && Undo().restores == rs
        invariant Values(doc.head) == Replay(old(Values(doc.head)), rs[..k])
      {
        assert rs[..k + 1][..k] == rs[..k];
        assert restores[k].0 in Captured();
        ghost var before := Values(doc.head);
        RestoreOne(doc, k);
        k := k + 1;
        forall x | 0 <= x < |doc.head| ensures Values(doc.head)[x] == ReplayNode(old(Values(doc.head))[x], rs[..k]) {
          assert doc.head[x].Value() == RestoreNode(before[x], rs[k - 1]);
        }
      }
      assert rs[..k] == rs;
    }

    /** The cleanup closure. */
    method Run(doc: Document)
      requires doc.Valid() && For(doc)
      modifies doc, Captured()
      ensures doc.Valid() && doc.Page() == Cleanup(old(doc.Page()), Undo())
      ensures forall e :: e in doc.head ==> e in old(doc.head)
    {
      doc.title := previousTitle;
      RestoreAll(doc);
      RemoveCreated(doc);
    }

    method RemoveCreated(doc: Document)
      requires doc.Valid() && For(doc)
      modifies doc
      ensures doc.Valid() && doc.title == old(doc.title) && doc.next == old(doc.next)
      ensures Values(doc.head) == Without(old(Values(doc.head)), Undo().created)
      ensures forall e :: e in doc.head ==> e in old(doc.head)
    {
      ghost var ids := Undo().created;
      WithoutNone(Values(doc.head));
      var k := 0;
      while k < |created|
        invariant k <= |created|
        invariant doc.Valid() && For(doc) && doc.title == old(doc.title) && doc.next == old(doc.next)
        invariant Values(doc.head) == Without(old(Values(doc.head)), ids[..k])
        invariant forall e :: e in doc.head ==> e in old(doc.head)
      {
        WithoutOneMore(old(Values(doc.head)), ids[..k], ids[k]);
        assert ids[..k + 1] == ids[..k] + [ids[k]];
        var _ := doc.Remove(created[k]);
        k := k + 1;
      }
      assert ids[..k] == ids;
    }
  }

  lemma {:induction false} WithoutNone(nodes: seq<Node>)
    ensures Without(nodes, []) == nodes
    decreases |nodes|
  {
    if nodes != [] {
      WithoutNone(nodes[..|nodes| - 1]);
    }
  }

  lemma {:induction false} WithoutOneMore(nodes: seq<Node>, ids: seq<nat>, id: nat)
    ensures Without(Without(nodes, ids), [id]) == Without(nodes, ids + [id])
    decreases |nodes|
  {
    if nodes != [] {
      var init, last := nodes[..|nodes| - 1], nodes[|nodes| - 1];
      WithoutOneMore(init, ids, id);
      if last.id !in ids {
        var kept := Without(init, ids) + [last];
        assert kept[..|kept| - 1] == Without(init, ids);
      }
    }
  }

  lemma {:induction false} WithoutAbsent(nodes: seq<Node>, id: nat)
    requires forall k :: 0 <= k < |nodes| ==> nodes[k].id != id
    ensures Without(nodes, [id]) == nodes
    decreases |nodes|
  {
    if nodes != [] {
      WithoutAbsent(nodes[..|nodes| - 1], id);
    }
  }

  lemma {:induction false} WithoutOne(nodes: seq<Node>, id: nat, i: nat)
    requires i < |nodes| && nodes[i].id == id
    requires forall k :: 0 <= k < |nodes| && k != i ==> nodes[k].id != id
    ensures Without(nodes, [id]) == nodes[..i] + nodes[i + 1..]
    decreases |nodes|
  {
    var init, last := nodes[..|nodes| - 1], nodes[|nodes| - 1];
    if i == |init| {
      WithoutAbsent(init, id);
      assert nodes[..i] + nodes[i + 1..] == init;
    } else {
      WithoutOne(init, id, i);
      assert init[..i] + init[i + 1..] + [last] == nodes[..i] + nodes[i + 1..];
    }
  }

  method WriteExisting(doc: Document, handle: CleanupHandle, i: nat, t: Tag)
    requires doc.Valid() && handle.For(doc) && handle.Inside(doc) && i < |doc.head|
    modifies doc.head[i], handle
    ensures doc.Valid() && handle.For(doc) && handle.Inside(doc)
    ensures Values(doc.head) == old(Values(doc.head))[i := PutAttribute(old(doc.head[i].Value()), t.attr,
        Some(t.value))]
    ensures handle.Undo() == old(handle.Undo()).(
              restores := old(handle.Undo()).restores + [Restore(doc.head[i].id, t.attr,
                  GetAttribute(old(doc.head[i].Value()), t.attr))])
  {
    var existing := doc.head[i];
    var previous := GetAttribute(existing.Value(), t.attr);
    existing.SetAttribute(t.attr, t.value);
    handle.LogRestore(existing, t.attr, previous);
  }

  method NewElement(t: Tag, id: nat) returns (el: Element)
    ensures fresh(el) && el.id == id && el.Value() == Created(t, id)
  {
    el := new Element(id, t.selector.tag, "");
    el.SetAttribute(t.selector.attr, t.selector.key);
    el.SetAttribute(t.attr, t.value);
  }

  method CreateTag(doc: Document, handle: CleanupHandle, t: Tag) returns (el: Element)
    requires doc.Valid() && handle.For(doc) && handle.Inside(doc)
    modifies doc, handle
    ensures doc.Valid() && handle.For(doc) && handle.Inside(doc) && doc.title == old(doc.title)
        && doc.next == old(doc.next) + 1
    ensures Values(doc.head) == old(Values(doc.head)) + [Created(t, old(doc.next))]
    ensures handle.Undo() == old(handle.Undo()).(created := old(handle.Undo()).created + [old(doc.next)])
    ensures fresh(el) && el.id == old(doc.next) && doc.head == old(doc.head) + [el]
  {
    el := NewElement(t, doc.next);
    doc.Append(el);
    forall c | Owns(old(doc.head), old(doc.next), c) ensures Owns(doc.head, doc.next, c) {
      OwnsAppended(old(doc.head), old(doc.next), c, el);
    }
    assert Owns(doc.head, doc.next, el);
    handle.LogCreated(el);
  }

  method SetTag(doc: Document, handle: CleanupHandle, t: Tag)
    requires doc.Valid() && handle.For(doc) && handle.Inside(doc)
    modifies doc, doc.head, handle
    ensures doc.Valid() && handle.For(doc) && handle.Inside(doc)
    ensures (doc.Page(), handle.Undo()) == HeadTags.SetTag(old(doc.Page()), old(handle.Undo()), t)
    ensures Grows(old(doc.head), old(doc.next), doc.head, doc.next)
    ensures forall i :: 0 <= i < |doc.head| ==> doc.head[i] in old(doc.head) || fresh(doc.head[i])
  {
    var i := doc.QuerySelector(t.selector);
    if i < |doc.head| {
      WriteExisting(doc, handle, i, t);
    } else {
      var _ := CreateTag(doc, handle, t);
    }
  }

  method SetTags(doc: Document, handle: CleanupHandle, tags: seq<Tag>, ghost p: Page, ghost title: string)
    requires doc.Valid() && handle.For(doc) && handle.Inside(doc)
    requires (doc.Page(), handle.Undo()) == ApplyTags(p, title, [])
    modifies doc, doc.head, handle
    ensures doc.Valid() && handle.For(doc) && handle.Inside(doc)
    ensures (doc.Page(), handle.Undo()) == ApplyTags(p, title, tags)
    ensures Grows(old(doc.head), old(doc.next), doc.head, doc.next)
    ensures forall i :: 0 <= i < |doc.head| ==> doc.head[i] in old(doc.head) || fresh(doc.head[i])
  {
    var k := 0;
    assert tags[..0] == [];
    while k < |tags|
      invariant k <= |tags| && doc.Valid() && handle.For(doc) && handle.Inside(doc)
      invariant forall i :: 0 <= i < |doc.head| ==> doc.head[i] in old(doc.head) || fresh(doc.head[i])
      invariant Grows(old(doc.head), old(doc.next), doc.head, doc.next)
      invariant (doc.Page(), handle.Undo()) == ApplyTags(p, title, tags[..k])
    {
      assert tags[..k + 1][..k] == tags[..k];
      SetTag(doc, handle, tags[k]);
      k := k + 1;
    }
    assert tags[..k] == tags;
  }

  method ApplySeoMeta(doc: Document, input: SeoMetaInput) returns (handle: CleanupHandle)
    requires doc.Valid()
    modifies doc, doc.head
    ensures fresh(handle) && doc.Valid() && handle.For(doc) && handle.Inside(doc)
    ensures (doc.Page(), handle.Undo()) == Apply(old(doc.Page()), input)
    ensures HeadRoundTrip.Disjoint(old(doc.Page().nodes), SUPPLIED) ==>
              HeadFields.ShowsInput(old(doc.Page()), doc.Page(), input)
    ensures Grows(old(doc.head), old(doc.next), doc.head, doc.next)
    ensures forall i :: 0 <= i < |doc.head| ==> doc.head[i] in old(doc.head) || fresh(doc.head[i])
  {
    ghost var p := doc.Page();
    handle := new CleanupHandle(doc.title);
    doc.title := input.title;
    assert Values(doc.head) == p.nodes;
    assert handle.Undo() == HeadTags.Undo(p.title, [], []);
    var tags := TagsOf(input);
    assert HeadTags.WellFormed(p) by {
      doc.ValidPage();
    }
    SetTags(doc, handle, tags, p, input.title);
    if HeadRoundTrip.Disjoint(p.nodes, SUPPLIED) {
      HeadFields.FieldsShow(p, input);
    }
  }

  method ApplyJsonLd(doc: Document, json: string) returns (script: Element)
    requires doc.Valid()
    modifies doc
    ensures fresh(script) && script.id == old(doc.next) && doc.Valid() && doc.head == old(doc.head) + [script]
    ensures doc.Page() == HeadRoundTrip.AppendScript(old(doc.Page()), json)
  {
    script := new Element(doc.next, "script", json);
    script.SetAttribute("type", "application/ld+json");
    doc.Append(script);
  }

  /** A component over its life: apply, show what is inside, clean up. */
  method RunUse(doc: Document, use: Use)
    requires doc.Valid()
    modifies doc, doc.head
    ensures doc.Valid() && doc.Page() == HeadRoundTrip.RunUse(old(doc.Page()), use)
    ensures Grows(old(doc.head), old(doc.next), doc.head, doc.next)
    ensures forall i :: 0 <= i < |doc.head| ==> doc.head[i] in old(doc.head) || fresh(doc.head[i])
    decreases use, 0
  {
    match use {
      case Seo(input, inner) => RunSeo(doc, input, inner);
      case JsonLd(json, inner) => RunJsonLd(doc, json, inner);
    }
  }

  lemma OwnedStays(head: seq<Element>, next: nat, later: seq<Element>, laterNext: nat)
    requires Grows(head, next, later, laterNext)
    ensures forall el :: Owns(head, next, el) ==> Owns(later, laterNext, el)
  {
    forall el | Owns(head, next, el) ensures Owns(later, laterNext, el) {
      OwnsGrows(head, next, later, laterNext, el);
    }
  }

  method RunSeo(doc: Document, input: SeoMetaInput, inner: seq<Use>)
    requires doc.Valid()
    modifies doc, doc.head
    ensures doc.Valid() && doc.Page() == Cleanup(HeadRoundTrip.RunUses(Apply(old(doc.Page()), input).0, inner),
        Apply(old(doc.Page()), input).1)
    ensures Grows(old(doc.head), old(doc.next), doc.head, doc.next)
    ensures forall i :: 0 <= i < |doc.head| ==> doc.head[i] in old(doc.head) || fresh(doc.head[i])
    decreases inner, 1
  {
    var handle := ApplySeoMeta(doc, input);
    ghost var head, next := doc.head, doc.next;
    RunUses(doc, inner);
    OwnedStays(head, next, doc.head, doc.next);
    handle.Run(doc);
  }

  method RunJsonLd(doc: Document, json: string, inner: seq<Use>)
    requires doc.Valid()
    modifies doc, doc.head
    ensures doc.Valid() && doc.Page() == HeadRoundTrip.RunUse(old(doc.Page()), HeadRoundTrip.JsonLd(json, inner))
    ensures Grows(old(doc.head), old(doc.next), doc.head, doc.next)
    ensures forall i :: 0 <= i < |doc.head| ==> doc.head[i] in old(doc.head) || fresh(doc.head[i])
    decreases inner, 1
  {
    ghost var p := doc.Page();
    var script := ApplyJsonLd(doc, json);
    ghost var head, next := doc.head, doc.next;
    assert Owns(head, next, script);
    RunUses(doc, inner);
    OwnsGrows(head, next, doc.head, doc.next, script);
    assert doc.Page() == HeadRoundTrip.RunUses(HeadRoundTrip.AppendScript(p, json), inner);
    ghost var shown := doc.head;
    assert forall e :: e in shown ==> e in old(doc.head) || fresh(e) by {
      assert forall e :: e in shown ==> e in head || fresh(e);
    }
    var _ := doc.Remove(script);
    assert forall i :: 0 <= i < |doc.head| ==> doc.head[i] in shown;
  }

  method RunUses(doc: Document, uses: seq<Use>)
    requires doc.Valid()
    modifies doc, doc.head
    ensures doc.Valid() && doc.Page() == HeadRoundTrip.RunUses(old(doc.Page()), uses)
    ensures Grows(old(doc.head), old(doc.next), doc.head, doc.next)
    ensures forall i :: 0 <= i < |doc.head| ==> doc.head[i] in old(doc.head) || fresh(doc.head[i])
    decreases uses, 0
  {
    if |uses| > 0 {
      RunUse(doc, uses[0]);
      RunUses(doc, uses[1..]);
    }
  }

  /** On a head where no element matches two supplied selectors, any nested uses give the document back. */
  method ShowThenLeave(doc: Document, uses: seq<Use>)
    requires doc.Valid() && HeadRoundTrip.Disjoint(doc.Page().nodes, SUPPLIED)
    modifies doc, doc.head
    ensures doc.Valid() && HeadRoundTrip.SameDocument(old(doc.Page()), doc.Page())
  {
    doc.ValidPage();
    HeadRoundTrip.NestedUsesRestore(doc.Page(), uses);
    RunUses(doc, uses);
  }
}
