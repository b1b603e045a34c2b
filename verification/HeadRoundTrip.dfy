/**
 Applying the managed tags and running the cleanup, on every head: exactly when the document comes
 back, what holds in between, and why well-nested uses compose.
 */
module HeadRoundTrip {
  import opened Prelude
  import opened HeadTags

  // ----- the elements of the original head, as tags are applied -----

  /** Element x of the head after `tags`: each tag whose first match it is wrote its value there. */
  ghost function After(p: Page, tags: seq<Tag>, x: nat): Node
    requires x < |p.nodes|
  {
    if tags == [] then p.nodes[x]
    else
      var t := tags[|tags| - 1];
      var n := After(p, tags[..|tags| - 1], x);
      if Find(p.nodes, t.selector) == x then PutAttribute(n, t.attr, Some(t.value)) else n
  }

  /** Element x once the restores of `tags` have run forward: as it was before the last write to it. */
  ghost function Undone(p: Page, tags: seq<Tag>, x: nat): Node
    requires x < |p.nodes|
  {
    if tags == [] then p.nodes[x]
    else
      var init := tags[..|tags| - 1];
      if Find(p.nodes, tags[|tags| - 1].selector) == x then After(p, init, x) else Undone(p, init, x)
  }

  ghost predicate SameElement(a: Node, b: Node) {
    a.id == b.id && a.tag == b.tag && a.text == b.text
    && forall attr {:trigger GetAttribute(a, attr)} {:trigger GetAttribute(b, attr)} ::
         attr != "content" && attr != "href" ==> GetAttribute(a, attr) == GetAttribute(b, attr)
  }

  lemma SameElementMatches(a: Node, b: Node, t: Tag)
    requires SameElement(a, b) && Managed(t)
    ensures Matches(a, t.selector) == Matches(b, t.selector)
  {
    var attr := t.selector.attr;
    assert attr != "content" && attr != "href";
    assert GetAttribute(a, attr) == GetAttribute(b, attr);
  }

  lemma FindIsFirst(nodes: seq<Node>, s: Selector, i: nat)
    requires i < |nodes| && Matches(nodes[i], s) && forall k :: 0 <= k < i ==> !Matches(nodes[k], s)
    ensures Find(nodes, s) == i
  {
  }

  ghost predicate CreatedBy(p: Page, tags: seq<Tag>, n: Node, id: nat) {
    exists i :: 0 <= i < |tags| && Find(p.nodes, tags[i].selector) == |p.nodes| && n == Created(tags[i], id)
  }

  /** The shape of the head after `tags`: the original elements in place, each written as After says,
      then the created ones, one per tag that had no match. */
  ghost predicate Shape(p: Page, tags: seq<Tag>, q: Page, u: Undo) {
    && |q.nodes| == |p.nodes| + |u.created| && q.next == p.next + |u.created|
    && (forall x :: 0 <= x < |p.nodes| ==> q.nodes[x] == After(p, tags, x) && SameElement(q.nodes[x], p.nodes[x]))
    && (forall x :: |p.nodes| <= x < |q.nodes| ==> CreatedBy(p, tags, q.nodes[x], p.next + x - |p.nodes|))
    && (forall k :: 0 <= k < |u.created| ==> u.created[k] == p.next + k)
    && (forall r :: 0 <= r < |u.restores| ==> u.restores[r].id < p.next)
  }

  lemma CreatedMatchesOnly(s: Tag, t: Tag, id: nat)
    requires Managed(s) && Managed(t)
    ensures Matches(Created(s, id), t.selector) <==> s.selector == t.selector
  {
  }

  ghost predicate Fresh(tags: seq<Tag>, t: Tag) {
    Managed(t) && forall i :: 0 <= i < |tags| ==> tags[i].selector != t.selector
  }

  /** A further tag finds in the applied head what it would have found in the original one. */
  lemma FindUnchanged(p: Page, tags: seq<Tag>, q: Page, u: Undo, t: Tag)
    requires Shape(p, tags, q, u) && ManagedTags(tags) && Fresh(tags, t)
    ensures Find(q.nodes, t.selector) == (if Find(p.nodes, t.selector) < |p.nodes| then Find(p.nodes, t.selector)
        else |q.nodes|)
  {
    forall x | 0 <= x < |p.nodes| ensures Matches(q.nodes[x], t.selector) == Matches(p.nodes[x], t.selector) {
      SameElementMatches(q.nodes[x], p.nodes[x], t);
    }
    forall x | |p.nodes| <= x < |q.nodes| ensures !Matches(q.nodes[x], t.selector) {
      var j :| 0 <= j < |tags| && q.nodes[x] == Created(tags[j], p.next + x - |p.nodes|);
      CreatedMatchesOnly(tags[j], t, p.next + x - |p.nodes|);
    }
    if Find(p.nodes, t.selector) < |p.nodes| {
      FindIsFirst(q.nodes, t.selector, Find(p.nodes, t.selector));
    }
  }

  lemma WriteKeepsElement(a: Node, b: Node, t: Tag)
    requires SameElement(a, b) && Managed(t)
    ensures SameElement(PutAttribute(a, t.attr, Some(t.value)), b)
  {
    var a' := PutAttribute(a, t.attr, Some(t.value));
    forall attr | attr != "content" && attr != "href" ensures GetAttribute(a', attr) == GetAttribute(b, attr) {
      assert GetAttribute(a, attr) == GetAttribute(b, attr);
    }
  }

  lemma CreatedStays(p: Page, tags: seq<Tag>, n: Node, id: nat)
    requires tags != [] && CreatedBy(p, tags[..|tags| - 1], n, id)
    ensures CreatedBy(p, tags, n, id)
  {
    var init := tags[..|tags| - 1];
    var i :| 0 <= i < |init| && Find(p.nodes, init[i].selector) == |p.nodes| && n == Created(init[i], id);
    assert tags[i] == init[i];
  }

  lemma ShapeWrite(p: Page, tags: seq<Tag>, q: Page, u: Undo)
    requires WellFormed(p) && ManagedTags(tags) && tags != []
    requires Shape(p, tags[..|tags| - 1], q, u) && Find(p.nodes, tags[|tags| - 1].selector) < |p.nodes|
    requires Find(q.nodes, tags[|tags| - 1].selector) == Find(p.nodes, tags[|tags| - 1].selector)
    ensures Shape(p, tags, SetTag(q, u, tags[|tags| - 1]).0, SetTag(q, u, tags[|tags| - 1]).1)
  {
    var t := tags[|tags| - 1];
    var (q', u') := SetTag(q, u, t);
    var i := Find(p.nodes, t.selector);
    forall x | 0 <= x < |p.nodes| ensures q'.nodes[x] == After(p, tags, x) && SameElement(q'.nodes[x], p.nodes[x]) {
      if x == i {
        WriteKeepsElement(q.nodes[i], p.nodes[i], t);
      }
    }
    forall x | |p.nodes| <= x < |q'.nodes| ensures CreatedBy(p, tags, q'.nodes[x], p.next + x - |p.nodes|) {
      assert q'.nodes[x] == q.nodes[x];
      CreatedStays(p, tags, q.nodes[x], p.next + x - |p.nodes|);
    }
    assert q.nodes[i].id == p.nodes[i].id < p.next;
  }

  lemma CreatedLast(p: Page, tags: seq<Tag>, id: nat)
    requires tags != [] && Find(p.nodes, tags[|tags| - 1].selector) == |p.nodes|
    ensures CreatedBy(p, tags, Created(tags[|tags| - 1], id), id)
  {
  }

  lemma ShapeCreate(p: Page, tags: seq<Tag>, q: Page, u: Undo)
    requires WellFormed(p) && ManagedTags(tags) && tags != []
    requires Shape(p, tags[..|tags| - 1], q, u) && Find(p.nodes, tags[|tags| - 1].selector) == |p.nodes|
    requires Find(q.nodes, tags[|tags| - 1].selector) == |q.nodes|
    ensures Shape(p, tags, SetTag(q, u, tags[|tags| - 1]).0, SetTag(q, u, tags[|tags| - 1]).1)
  {
    var t := tags[|tags| - 1];
    var (q', u') := SetTag(q, u, t);
    assert q'.nodes == q.nodes + [Created(t, q.next)];
    forall x | |p.nodes| <= x < |q'.nodes| ensures CreatedBy(p, tags, q'.nodes[x], p.next + x - |p.nodes|) {
      if x < |q.nodes| {
        CreatedStays(p, tags, q.nodes[x], p.next + x - |p.nodes|);
      } else {
        CreatedLast(p, tags, q.next);
      }
    }
    forall x | 0 <= x < |p.nodes| ensures q'.nodes[x] == After(p, tags, x) && SameElement(q'.nodes[x], p.nodes[x]) {
      assert q'.nodes[x] == q.nodes[x];
    }
  }

  lemma {:induction false} AppliedShape(p: Page, title: string, tags: seq<Tag>)
    requires WellFormed(p) && ManagedTags(tags)
    ensures Shape(p, tags, ApplyTags(p, title, tags).0, ApplyTags(p, title, tags).1)
    decreases |tags|
  {
    if tags != [] {
      AppliedShape(p, title, tags[..|tags| - 1]);
      var (q, u) := ApplyTags(p, title, tags[..|tags| - 1]);
      FindUnchanged(p, tags[..|tags| - 1], q, u, tags[|tags| - 1]);
      if Find(p.nodes, tags[|tags| - 1].selector) < |p.nodes| {
        ShapeWrite(p, tags, q, u);
      } else {
        ShapeCreate(p, tags, q, u);
      }
    }
  }

  // ----- what the cleanup gives back -----

  lemma PutAttributeLaws(n: Node, attr: string, v: Option<string>, w: Option<string>)
    ensures PutAttribute(PutAttribute(n, attr, v), attr, w) == PutAttribute(n, attr, w)
    ensures PutAttribute(n, attr, GetAttribute(n, attr)) == n
  {
    var m := n.attrs;
    assert v.Some? && w.Some? ==> m[attr := v.value][attr := w.value] == m[attr := w.value];
    assert v.Some? && w.None? ==> m[attr := v.value] - {attr} == m - {attr};
    assert v.None? && w.Some? ==> (m - {attr})[attr := w.value] == m[attr := w.value];
    assert v.None? && w.None? ==> (m - {attr}) - {attr} == m - {attr};
    assert attr in m ==> m[attr := m[attr]] == m;
    assert attr !in m ==> m - {attr} == m;
  }

  /** The attribute every managed write to an element with this tag name goes to. */
  ghost function ValueAttribute(tag: string): string {
    if tag == "meta" then "content" else "href"
  }

  ghost predicate OneAttribute(n: Node, rs: seq<Restore>) {
    forall k :: 0 <= k < |rs| && rs[k].id == n.id ==> rs[k].attr == ValueAttribute(n.tag)
  }

  lemma {:induction false} ReplayTouchesOneAttribute(n: Node, rs: seq<Restore>, w: Option<string>)
    requires OneAttribute(n, rs)
    ensures ReplayNode(n, rs).id == n.id
    ensures PutAttribute(ReplayNode(n, rs), ValueAttribute(n.tag), w) == PutAttribute(n, ValueAttribute(n.tag), w)
    decreases |rs|
  {
    if rs != [] {
      var init, r := rs[..|rs| - 1], rs[|rs| - 1];
      forall k | 0 <= k < |init| && init[k].id == n.id ensures init[k].attr == ValueAttribute(n.tag) {
        assert rs[k] == init[k];
      }
      ReplayTouchesOneAttribute(n, init, w);
      PutAttributeLaws(ReplayNode(n, init), r.attr, r.previous, w);
    }
  }

  ghost predicate LogOk(p: Page, rs: seq<Restore>) {
    forall x :: 0 <= x < |p.nodes| ==> OneAttribute(p.nodes[x], rs)
  }

  /** The newest entry brings an element back to what it was before the newest write. */
  lemma ReplayOfWrite(n: Node, rs: seq<Restore>, attr: string, value: string)
    requires OneAttribute(n, rs) && attr == ValueAttribute(n.tag)
    ensures ReplayNode(PutAttribute(n, attr, Some(value)), rs + [Restore(n.id, attr, GetAttribute(n, attr))]) == n
  {
    var r := Restore(n.id, attr, GetAttribute(n, attr));
    assert (rs + [r])[..|rs|] == rs;
    var written := PutAttribute(n, attr, Some(value));
    ReplayTouchesOneAttribute(written, rs, r.previous);
    PutAttributeLaws(n, attr, Some(value), r.previous);
  }

  lemma {:induction false} ReplayKeepsId(n: Node, rs: seq<Restore>)
    ensures ReplayNode(n, rs).id == n.id
    decreases |rs|
  {
    if rs != [] {
      ReplayKeepsId(n, rs[..|rs| - 1]);
    }
  }

  lemma ReplayOfOther(n: Node, rs: seq<Restore>, r: Restore)
    requires r.id != n.id
    ensures ReplayNode(n, rs + [r]) == ReplayNode(n, rs)
  {
    assert (rs + [r])[..|rs|] == rs;
    ReplayKeepsId(n, rs);
  }

  /** The log restores each element to what it was before the last write to it. */
  lemma {:induction false} ReplayUndoes(p: Page, title: string, tags: seq<Tag>)
    requires WellFormed(p) && ManagedTags(tags)
    ensures LogOk(p, ApplyTags(p, title, tags).1.restores)
    ensures forall x :: 0 <= x < |p.nodes| ==>
              ReplayNode(After(p, tags, x), ApplyTags(p, title, tags).1.restores) == Undone(p, tags, x)
    decreases |tags|
  {
    if tags != [] {
      var init, t := tags[..|tags| - 1], tags[|tags| - 1];
      ReplayUndoes(p, title, init);
      AppliedShape(p, title, init);
      var (q, u) := ApplyTags(p, title, init);
      FindUnchanged(p, init, q, u, t);
      var i := Find(p.nodes, t.selector);
      if i < |p.nodes| {
        var n := q.nodes[i];
        var r := Restore(n.id, t.attr, GetAttribute(n, t.attr));
        assert n.tag == t.selector.tag && t.attr == ValueAttribute(n.tag);
        forall x | 0 <= x < |p.nodes|
          ensures ReplayNode(After(p, tags, x), u.restores + [r]) == Undone(p, tags, x)
              && OneAttribute(p.nodes[x], u.restores + [r])
        {
          assert OneAttribute(p.nodes[x], u.restores);
          if x == i {
            ReplayOfWrite(n, u.restores, t.attr, t.value);
          } else {
            ReplayOfOther(q.nodes[x], u.restores, r);
          }
        }
      }
    }
  }

  lemma {:induction false} WithoutOthers(nodes: seq<Node>, ids: seq<nat>, k: nat)
    requires k <= |nodes|
    requires forall x :: 0 <= x < k ==> nodes[x].id !in ids
    requires forall x :: k <= x < |nodes| ==> nodes[x].id in ids
    ensures Without(nodes, ids) == nodes[..k]
    decreases |nodes|
  {
    if nodes != [] {
      var init := nodes[..|nodes| - 1];
      if k == |nodes| {
        WithoutOthers(init, ids, k - 1);
        assert init[..k - 1] + [nodes[k - 1]] == nodes[..k];
      } else {
        WithoutOthers(init, ids, k);
        assert init[..k] == nodes[..k];
      }
    }
  }

  /** What the cleanup leaves are the original elements, replayed. */
  lemma CleanupKeepsOriginals(p: Page, tags: seq<Tag>, q: Page, u: Undo)
    requires WellFormed(p) && Shape(p, tags, q, u)
    ensures |p.nodes| <= |q.nodes| && Cleanup(q, u).nodes == Replay(q.nodes, u.restores)[..|p.nodes|]
  {
    var back := Replay(q.nodes, u.restores);
    forall x | 0 <= x < |back| ensures back[x].id == q.nodes[x].id {
      ReplayKeepsId(q.nodes[x], u.restores);
    }
    forall x | |p.nodes| <= x < |q.nodes| ensures back[x].id in u.created {
      assert u.created[x - |p.nodes|] == p.next + x - |p.nodes| == q.nodes[x].id;
    }
    WithoutOthers(back, u.created, |p.nodes|);
  }

  /** On every head: the cleanup brings back the title, removes what was created, and leaves each
      element as it was before the last write to it. */
  lemma CleanupLeaves(p: Page, title: string, tags: seq<Tag>)
    requires WellFormed(p) && ManagedTags(tags)
    ensures var (q, u) := ApplyTags(p, title, tags);
            && Cleanup(q, u).title == p.title && |Cleanup(q, u).nodes| == |p.nodes|
            && forall x :: 0 <= x < |p.nodes| ==> Cleanup(q, u).nodes[x] == Undone(p, tags, x)
  {
    var (q, u) := ApplyTags(p, title, tags);
    AppliedShape(p, title, tags);
    ReplayUndoes(p, title, tags);
    CleanupKeepsOriginals(p, tags, q, u);
    AppliedTitle(p, title, tags);
  }

  lemma {:induction false} AppliedTitle(p: Page, title: string, tags: seq<Tag>)
    ensures ApplyTags(p, title, tags).0.title == title && ApplyTags(p, title, tags).1.title == p.title
    decreases |tags|
  {
    if tags != [] {
      AppliedTitle(p, title, tags[..|tags| - 1]);
    }
  }

  // ----- exactly when the document comes back -----

  /** Tags i and j are the last two of `tags` whose first match is one and the same element. */
  ghost predicate LastTwoOn(p: Page, tags: seq<Tag>, i: nat, j: nat) {
    && i < j < |tags| && Find(p.nodes, tags[i].selector) < |p.nodes|
    && Find(p.nodes, tags[j].selector) == Find(p.nodes, tags[i].selector)
    && forall k :: i < k < |tags| && k != j ==> Find(p.nodes, tags[k].selector) != Find(p.nodes, tags[i].selector)
  }

  /** No element is clobbered: whenever an element is the match of several tags, the last but one of
      them wrote the value it had anyway. */
  ghost predicate NoClobber(p: Page, tags: seq<Tag>) {
    forall i: nat, j: nat :: LastTwoOn(p, tags, i, j) ==>
      GetAttribute(p.nodes[Find(p.nodes, tags[i].selector)], tags[i].attr) == Some(tags[i].value)
  }

  ghost predicate Untouched(p: Page, tags: seq<Tag>, x: nat, from: nat) {
    forall k :: from <= k < |tags| ==> Find(p.nodes, tags[k].selector) != x
  }

  lemma {:induction false} AfterUntouched(p: Page, tags: seq<Tag>, x: nat, from: nat)
    requires x < |p.nodes| && from <= |tags| && Untouched(p, tags, x, from)
    ensures After(p, tags, x) == After(p, tags[..from], x) && Undone(p, tags, x) == Undone(p, tags[..from], x)
    decreases |tags|
  {
    if from == |tags| {
      assert tags[..from] == tags;
    } else {
      var init := tags[..|tags| - 1];
      forall k | from <= k < |init| ensures Find(p.nodes, init[k].selector) != x {
        assert init[k] == tags[k];
      }
      AfterUntouched(p, init, x, from);
      assert init[..from] == tags[..from];
    }
  }

  /** The last tag before `upTo` whose first match is x, or None. */
  ghost function LastOn(p: Page, tags: seq<Tag>, x: nat, upTo: nat): (r: Option<nat>)
    requires upTo <= |tags|
    ensures r.Some? ==> r.value < upTo && Find(p.nodes, tags[r.value].selector) == x
    ensures forall k :: (if r.Some? then r.value + 1 else 0) <= k < upTo ==> Find(p.nodes, tags[k].selector) != x
  {
    if upTo == 0 then None
    else if Find(p.nodes, tags[upTo - 1].selector) == x then Some(upTo - 1)
    else LastOn(p, tags, x, upTo - 1)
  }

  /** What the last writer j of element x does to it, and what it leaves behind. */
  lemma LastWriter(p: Page, tags: seq<Tag>, x: nat, j: nat)
    requires x < |p.nodes| && j < |tags| && Find(p.nodes, tags[j].selector) == x && Untouched(p, tags, x, j + 1)
    ensures Undone(p, tags, x) == After(p, tags[..j], x)
    ensures After(p, tags, x) == PutAttribute(After(p, tags[..j], x), tags[j].attr, Some(tags[j].value))
  {
    AfterUntouched(p, tags, x, j + 1);
    assert tags[..j + 1][..j] == tags[..j];
  }

  lemma NeverWritten(p: Page, tags: seq<Tag>, x: nat)
    requires x < |p.nodes| && Untouched(p, tags, x, 0)
    ensures Undone(p, tags, x) == After(p, tags, x) == p.nodes[x]
  {
    AfterUntouched(p, tags, x, 0);
    assert tags[..0] == [];
  }

  /** An element written last by j, and by i before that, comes back exactly when i wrote its own value. */
  lemma UndoneByTwo(p: Page, tags: seq<Tag>, x: nat, i: nat, j: nat)
    requires ManagedTags(tags) && x < |p.nodes| && i < j < |tags|
    requires Find(p.nodes, tags[j].selector) == x && Untouched(p, tags, x, j + 1)
    requires Find(p.nodes, tags[i].selector) == x && Untouched(p, tags[..j], x, i + 1)
    ensures Undone(p, tags, x) == p.nodes[x] <==> GetAttribute(p.nodes[x], tags[i].attr) == Some(tags[i].value)
  {
    LastWriter(p, tags, x, j);
    LastWriter(p, tags[..j], x, i);
    assert tags[..j][..i] == tags[..i];
    WrittenIsOriginal(p, tags, x, i);
  }

  lemma UndoneByOne(p: Page, tags: seq<Tag>, x: nat, j: nat)
    requires x < |p.nodes| && j < |tags|
    requires Find(p.nodes, tags[j].selector) == x && Untouched(p, tags, x, j + 1) && Untouched(p, tags[..j], x, 0)
    ensures Undone(p, tags, x) == p.nodes[x]
  {
    LastWriter(p, tags, x, j);
    NeverWritten(p, tags[..j], x);
  }

  /** Element x comes back unless its last but one writer changed it. */
  lemma UndoneByLastTwo(p: Page, tags: seq<Tag>, x: nat)
    requires ManagedTags(tags) && x < |p.nodes|
    ensures var last := LastOn(p, tags, x, |tags|);
            var before := if last.Some? then LastOn(p, tags, x, last.value) else None;
            Undone(p, tags, x) == p.nodes[x] <==>
            (before.None? || GetAttribute(p.nodes[x], tags[before.value].attr) == Some(tags[before.value].value))
  {
    var last := LastOn(p, tags, x, |tags|);
    if last.None? {
      NeverWritten(p, tags, x);
    } else {
      var before := LastOn(p, tags, x, last.value);
      if before.None? {
        UndoneByOne(p, tags, x, last.value);
      } else {
        UndoneByTwo(p, tags, x, before.value, last.value);
      }
    }
  }

  /** However often x was written before, tag i leaves it original exactly when it writes its value. */
  lemma WrittenIsOriginal(p: Page, tags: seq<Tag>, x: nat, i: nat)
    requires ManagedTags(tags) && x < |p.nodes| && i < |tags| && Find(p.nodes, tags[i].selector) == x
    ensures PutAttribute(After(p, tags[..i], x), tags[i].attr, Some(tags[i].value)) == p.nodes[x] <==>
            GetAttribute(p.nodes[x], tags[i].attr) == Some(tags[i].value)
  {
    var n, attr, v := After(p, tags[..i], x), tags[i].attr, Some(tags[i].value);
    AfterOneAttribute(p, tags[..i], x, v);
    assert attr == ValueAttribute(p.nodes[x].tag);
    PutAttributeLaws(p.nodes[x], attr, v, v);
    assert GetAttribute(PutAttribute(n, attr, v), attr) == v;
  }

  lemma {:induction false} AfterOneAttribute(p: Page, tags: seq<Tag>, x: nat, w: Option<string>)
    requires ManagedTags(tags) && x < |p.nodes|
    ensures PutAttribute(After(p, tags, x), ValueAttribute(p.nodes[x].tag), w) == PutAttribute(p.nodes[x],
        ValueAttribute(p.nodes[x].tag), w)
    decreases |tags|
  {
    if tags != [] {
      var init, t := tags[..|tags| - 1], tags[|tags| - 1];
      AfterOneAttribute(p, init, x, w);
      PutAttributeLaws(After(p, init, x), t.attr, Some(t.value), w);
    }
  }

  lemma NoClobberUndoesAll(p: Page, tags: seq<Tag>)
    requires ManagedTags(tags)
    ensures NoClobber(p, tags) <==> forall x :: 0 <= x < |p.nodes| ==> Undone(p, tags, x) == p.nodes[x]
  {
    forall x | 0 <= x < |p.nodes| && NoClobber(p, tags) ensures Undone(p, tags, x) == p.nodes[x] {
      UndoneByLastTwo(p, tags, x);
      var last := LastOn(p, tags, x, |tags|);
      if last.Some? && LastOn(p, tags, x, last.value).Some? {
        assert LastTwoOn(p, tags, LastOn(p, tags, x, last.value).value, last.value);
      }
    }
    forall i: nat, j: nat | LastTwoOn(p, tags, i, j) && Undone(p, tags,
        Find(p.nodes, tags[i].selector)) == p.nodes[Find(p.nodes, tags[i].selector)]
      ensures GetAttribute(p.nodes[Find(p.nodes, tags[i].selector)], tags[i].attr) == Some(tags[i].value)
    {
      var x := Find(p.nodes, tags[i].selector);
      UndoneByLastTwo(p, tags, x);
      var last := LastOn(p, tags, x, |tags|);
      assert last == Some(j);
      assert LastOn(p, tags, x, j) == Some(i);
    }
  }

  /** Restoring in forward order gives back the exact document if and only if no element is clobbered. */
  lemma RestoresExactly(p: Page, title: string, tags: seq<Tag>)
    requires WellFormed(p) && ManagedTags(tags)
    ensures var (q, u) := ApplyTags(p, title, tags);
            (Cleanup(q, u).title == p.title && Cleanup(q, u).nodes == p.nodes) <==> NoClobber(p, tags)
  {
    CleanupLeaves(p, title, tags);
    NoClobberUndoesAll(p, tags);
  }

  /** A shell that carries description and og:description on one element keeps the page's description
      after the cleanup. */
  lemma SharedElementIsClobbered()
    ensures var p := Page("t", [Node(0, "meta", map["name" := "description", "property" := "og:description",
        "content" := "shell"], "")], 1);
            var tags := [MetaTag("name", "description", "a"), MetaTag("property", "og:description", "b")];
            var (q, u) := ApplyTags(p, "t", tags);
            WellFormed(p) && ManagedTags(tags) && GetAttribute(p.nodes[0], "content") == Some("shell")
            && |Cleanup(q, u).nodes| == 1 && GetAttribute(Cleanup(q, u).nodes[0], "content") == Some("a")
  {
    var n := Node(0, "meta", map["name" := "description", "property" := "og:description", "content" := "shell"], "");
    var p := Page("t", [n], 1);
    var a, b := MetaTag("name", "description", "a"), MetaTag("property", "og:description", "b");
    CleanupLeaves(p, "t", [a, b]);
    assert Matches(n, a.selector) && Matches(n, b.selector);
    assert Find(p.nodes, a.selector) == 0 && Find(p.nodes, b.selector) == 0;
    assert [a, b][..1] == [a] && [a][..0] == [];
    assert After(p, [], 0) == n;
    assert After(p, [a], 0) == PutAttribute(n, "content", Some("a"));
    assert Undone(p, [a, b], 0) == After(p, [a, b][..1], 0);
  }

  // ----- while the tags are applied -----

  function Count(nodes: seq<Node>, s: Selector): nat {
    if nodes == [] then 0
    else Count(nodes[..|nodes| - 1], s) + if Matches(nodes[|nodes| - 1], s) then 1 else 0
  }

  lemma {:induction false} CountUpdate(nodes: seq<Node>, i: nat, n: Node, s: Selector)
    requires i < |nodes| && Matches(n, s) == Matches(nodes[i], s)
    ensures Count(nodes[i := n], s) == Count(nodes, s)
    decreases |nodes|
  {
    if i < |nodes| - 1 {
      CountUpdate(nodes[..|nodes| - 1], i, n, s);
      assert nodes[i := n][..|nodes| - 1] == nodes[..|nodes| - 1][i := n];
    } else {
      assert nodes[i := n][..|nodes| - 1] == nodes[..|nodes| - 1];
    }
  }

  lemma {:induction false} CountZero(nodes: seq<Node>, s: Selector)
    ensures Count(nodes, s) == 0 <==> Find(nodes, s) == |nodes|
    decreases |nodes|
  {
    if nodes != [] {
      var init := nodes[..|nodes| - 1];
      CountZero(init, s);
      var f := Find(init, s);
      if f < |init| {
        FindIsFirst(nodes, s, f);
      }
    }
  }

  ghost predicate Supplies(tags: seq<Tag>, s: Selector) {
    exists i :: 0 <= i < |tags| && tags[i].selector == s
  }

  lemma SuppliesOneMore(tags: seq<Tag>, s: Selector)
    requires tags != []
    ensures Supplies(tags, s) <==> Supplies(tags[..|tags| - 1], s) || tags[|tags| - 1].selector == s
  {
    var init := tags[..|tags| - 1];
    if Supplies(init, s) {
      var i :| 0 <= i < |init| && init[i].selector == s;
      assert tags[i].selector == s;
    }
    if Supplies(tags, s) {
      var i :| 0 <= i < |tags| && tags[i].selector == s;
      assert i < |init| ==> init[i] == tags[i];
    }
  }

  lemma SetTagCounts(q: Page, u: Undo, last: Tag, t: Tag)
    requires Managed(last) && Managed(t)
    ensures Count(SetTag(q, u, last).0.nodes, t.selector)
            == Count(q.nodes, t.selector) + if last.selector == t.selector && Count(q.nodes, t.selector) == 0 then 1
                else 0
  {
    var q' := SetTag(q, u, last).0;
    var i := Find(q.nodes, last.selector);
    CountZero(q.nodes, t.selector);
    if i < |q.nodes| {
      WriteKeepsElement(q.nodes[i], q.nodes[i], last);
      SameElementMatches(q'.nodes[i], q.nodes[i], t);
      CountUpdate(q.nodes, i, q'.nodes[i], t.selector);
    } else {
      CreatedMatchesOnly(last, t, q.next);
      assert q'.nodes[..|q'.nodes| - 1] == q.nodes;
    }
  }

  /** Any managed selector: a supplied one ends with the matches it had, or the one that was created;
      the others keep theirs. Nothing is ever duplicated. */
  lemma {:induction false} NeverDuplicates(p: Page, title: string, tags: seq<Tag>, t: Tag)
    requires ManagedTags(tags) && Managed(t)
    ensures var before := Count(p.nodes, t.selector);
            Count(ApplyTags(p, title, tags).0.nodes, t.selector) == if Supplies(tags, t.selector) && before == 0 then 1
                else before
    decreases |tags|
  {
    if tags != [] {
      var init := tags[..|tags| - 1];
      NeverDuplicates(p, title, init, t);
      var (q, u) := ApplyTags(p, title, init);
      SetTagCounts(q, u, tags[|tags| - 1], t);
      SuppliesOneMore(tags, t.selector);
    }
  }

  /** Managed writes never change which of the original elements match. */
  lemma MatchesKept(p: Page, tags: seq<Tag>, q: Page, u: Undo, t: Tag)
    requires Shape(p, tags, q, u) && Managed(t)
    ensures |p.nodes| <= |q.nodes|
    ensures forall x :: 0 <= x < |p.nodes| ==> Matches(q.nodes[x], t.selector) == Matches(p.nodes[x], t.selector)
  {
    forall x | 0 <= x < |p.nodes| ensures Matches(q.nodes[x], t.selector) == Matches(p.nodes[x], t.selector) {
      SameElementMatches(q.nodes[x], p.nodes[x], t);
    }
  }

  lemma CreatedForSelector(p: Page, tags: seq<Tag>, n: Node, id: nat, i: nat)
    requires ManagedTags(tags) && i < |tags| && CreatedBy(p, tags, n, id) && Matches(n, tags[i].selector)
    ensures n == Created(tags[i], id)
  {
    var j :| 0 <= j < |tags| && n == Created(tags[j], id);
    CreatedMatchesOnly(tags[j], tags[i], id);
    assert j == i;
  }

  /** Where a supplied selector's first match is while the tags are applied. */
  lemma FirstMatchWhileApplied(p: Page, tags: seq<Tag>, q: Page, u: Undo, i: nat)
    requires Shape(p, tags, q, u) && ManagedTags(tags) && i < |tags|
    ensures var m, f := Find(p.nodes, tags[i].selector), Find(q.nodes, tags[i].selector);
            && (m < |p.nodes| ==> f == m)
            && (m == |p.nodes| && f < |q.nodes| ==>
                f >= |p.nodes| && q.nodes[f] == Created(tags[i], p.next + f - |p.nodes|))
  {
    MatchesKept(p, tags, q, u, tags[i]);
    var m, f := Find(p.nodes, tags[i].selector), Find(q.nodes, tags[i].selector);
    if m < |p.nodes| {
      FindIsFirst(q.nodes, tags[i].selector, m);
    } else if f < |q.nodes| {
      assert forall x :: 0 <= x < |p.nodes| ==> !Matches(q.nodes[x], tags[i].selector);
      CreatedForSelector(p, tags, q.nodes[f], p.next + f - |p.nodes|, i);
    }
  }

  lemma SuppliedIsFound(p: Page, title: string, tags: seq<Tag>, i: nat)
    requires ManagedTags(tags) && i < |tags|
    ensures var q := ApplyTags(p, title, tags).0;
            Find(q.nodes, tags[i].selector) < |q.nodes|
  {
    NeverDuplicates(p, title, tags, tags[i]);
    assert Supplies(tags, tags[i].selector);
    CountZero(p.nodes, tags[i].selector);
    CountZero(ApplyTags(p, title, tags).0.nodes, tags[i].selector);
  }

  lemma WrittenValue(p: Page, tags: seq<Tag>, x: nat, i: nat)
    requires x < |p.nodes| && i < |tags| && Find(p.nodes, tags[i].selector) == x && Untouched(p, tags, x, i + 1)
    ensures GetAttribute(After(p, tags, x), tags[i].attr) == Some(tags[i].value)
  {
    LastWriter(p, tags, x, i);
  }

  /** Where a supplied value is to be read: in the element that matched before, or in the created one. */
  lemma SuppliedElement(p: Page, title: string, tags: seq<Tag>, i: nat)
    requires WellFormed(p) && ManagedTags(tags) && i < |tags|
    ensures var q := ApplyTags(p, title, tags).0;
            var m, f := Find(p.nodes, tags[i].selector), Find(q.nodes, tags[i].selector);
            && f < |q.nodes|
            && (m < |p.nodes| ==> f == m && q.nodes[f] == After(p, tags, m))
            && (m == |p.nodes| ==> exists id :: q.nodes[f] == Created(tags[i], id))
  {
    var (q, u) := ApplyTags(p, title, tags);
    AppliedShape(p, title, tags);
    FirstMatchWhileApplied(p, tags, q, u, i);
    SuppliedIsFound(p, title, tags, i);
  }

  /** While applied, the first match of a supplied selector carries its value, unless a later tag was
      set on the very same element. */
  lemma SuppliedValueShows(p: Page, title: string, tags: seq<Tag>, i: nat)
    requires WellFormed(p) && ManagedTags(tags) && i < |tags|
    requires Find(p.nodes, tags[i].selector) < |p.nodes| ==> Untouched(p, tags, Find(p.nodes, tags[i].selector), i + 1)
    ensures var q := ApplyTags(p, title, tags).0;
            var f := Find(q.nodes, tags[i].selector);
            f < |q.nodes| && GetAttribute(q.nodes[f], tags[i].attr) == Some(tags[i].value)
  {
    SuppliedElement(p, title, tags, i);
    var m := Find(p.nodes, tags[i].selector);
    if m < |p.nodes| {
      WrittenValue(p, tags, m, i);
    }
  }

  // ----- well-nested uses -----

  ghost predicate OneSelector(n: Node, supplied: set<Selector>) {
    forall s, t :: s in supplied && t in supplied && Matches(n, s) && Matches(n, t) ==> s == t
  }

  /** No element of the head matches two of the supplied selectors. */
  ghost predicate Disjoint(nodes: seq<Node>, supplied: set<Selector>) {
    forall x :: 0 <= x < |nodes| ==> OneSelector(nodes[x], supplied)
  }

  ghost predicate ManagedSelectors(supplied: set<Selector>) {
    forall s :: s in supplied ==> Managed(Tag(s, ValueAttribute(s.tag), ""))
  }

  ghost predicate TagsFrom(tags: seq<Tag>, supplied: set<Selector>) {
    ManagedTags(tags) && forall i :: 0 <= i < |tags| ==> tags[i].selector in supplied
  }

  lemma SharedMatch(p: Page, tags: seq<Tag>, i: nat, j: nat, supplied: set<Selector>)
    requires Disjoint(p.nodes, supplied) && i < |tags| && j < |tags|
    requires tags[i].selector in supplied && tags[j].selector in supplied
    requires Find(p.nodes, tags[i].selector) == Find(p.nodes, tags[j].selector) < |p.nodes|
    ensures tags[i].selector == tags[j].selector
  {
    assert OneSelector(p.nodes[Find(p.nodes, tags[i].selector)], supplied);
  }

  lemma DisjointNeverClobbers(p: Page, tags: seq<Tag>, supplied: set<Selector>)
    requires Disjoint(p.nodes, supplied) && TagsFrom(tags, supplied)
    ensures NoClobber(p, tags)
  {
    forall i: nat, j: nat | i < |tags| && j < |tags| && Find(p.nodes, tags[i].selector) == Find(p.nodes,
        tags[j].selector) < |p.nodes|
      ensures tags[i].selector == tags[j].selector
    {
      SharedMatch(p, tags, i, j, supplied);
    }
  }

  lemma SameElementOneSelector(a: Node, b: Node, supplied: set<Selector>)
    requires SameElement(a, b) && OneSelector(b, supplied) && ManagedSelectors(supplied)
    ensures OneSelector(a, supplied)
  {
    forall s | s in supplied && Matches(a, s) ensures Matches(b, s) {
      SameElementMatches(a, b, Tag(s, ValueAttribute(s.tag), ""));
    }
  }

  lemma CreatedOneSelector(t: Tag, id: nat, supplied: set<Selector>)
    requires Managed(t) && ManagedSelectors(supplied)
    ensures OneSelector(Created(t, id), supplied)
  {
    forall s | s in supplied && Matches(Created(t, id), s) ensures s == t.selector {
      CreatedMatchesOnly(t, Tag(s, ValueAttribute(s.tag), ""), id);
    }
  }

  lemma AppliedStaysWellFormed(p: Page, title: string, tags: seq<Tag>)
    requires WellFormed(p) && ManagedTags(tags)
    ensures WellFormed(ApplyTags(p, title, tags).0)
  {
    AppliedShape(p, title, tags);
    var q := ApplyTags(p, title, tags).0;
    forall x | 0 <= x < |q.nodes| ensures q.nodes[x].id == (if x < |p.nodes| then p.nodes[x].id
        else p.next + x - |p.nodes|) {
      assert x >= |p.nodes| ==> CreatedBy(p, tags, q.nodes[x], p.next + x - |p.nodes|);
    }
  }

  lemma ShapedOneSelector(p: Page, tags: seq<Tag>, n: Node, id: nat, supplied: set<Selector>)
    requires CreatedBy(p, tags, n, id) && ManagedTags(tags) && ManagedSelectors(supplied)
    ensures OneSelector(n, supplied)
  {
    var j :| 0 <= j < |tags| && n == Created(tags[j], id);
    CreatedOneSelector(tags[j], id, supplied);
  }

  lemma AppliedStaysDisjoint(p: Page, tags: seq<Tag>, q: Page, u: Undo, supplied: set<Selector>)
    requires Shape(p, tags, q, u) && Disjoint(p.nodes, supplied) && ManagedSelectors(supplied) && ManagedTags(tags)
    ensures Disjoint(q.nodes, supplied)
  {
    forall x | 0 <= x < |q.nodes| ensures OneSelector(q.nodes[x], supplied) {
      if x < |p.nodes| {
        SameElementOneSelector(q.nodes[x], p.nodes[x], supplied);
      } else {
        ShapedOneSelector(p, tags, q.nodes[x], p.next + x - |p.nodes|, supplied);
      }
    }
  }

  lemma ScriptStaysDisjoint(p: Page, json: string, supplied: set<Selector>)
    requires WellFormed(p) && Disjoint(p.nodes, supplied) && ManagedSelectors(supplied)
    ensures WellFormed(AppendScript(p, json)) && Disjoint(AppendScript(p, json).nodes, supplied)
  {
    var q := AppendScript(p, json);
    assert forall s :: s in supplied ==> !Matches(q.nodes[|p.nodes|], s);
  }

  lemma SuppliedAreManaged()
    ensures ManagedSelectors(SUPPLIED)
  {
  }

  lemma InputTags(input: SeoMetaInput)
    ensures TagsFrom(TagsOf(input), SUPPLIED) && ManagedSelectors(SUPPLIED)
  {
    TagsAreManaged(input);
    SuppliedAreManaged();
  }

  /** A component that applies tags or a JSON-LD script, shows others inside it, and cleans up. */
  datatype Use = Seo(input: SeoMetaInput, inner: seq<Use>) | JsonLd(json: string, inner: seq<Use>)

  /** applyJsonLd: one script element at the end of the head. */
  function AppendScript(p: Page, json: string): Page {
    p.(nodes := p.nodes + [Node(p.next, "script", map["type" := "application/ld+json"], json)], next := p.next + 1)
  }

  function RunUse(p: Page, use: Use): Page
    decreases use
  {
    match use
    case Seo(input, inner) =>
      var (q, u) := Apply(p, input);
      Cleanup(RunUses(q, inner), u)
    case JsonLd(json, inner) =>
      var r := RunUses(AppendScript(p, json), inner);
      r.(nodes := Without(r.nodes, [p.next]))
  }

  function RunUses(p: Page, uses: seq<Use>): Page
    decreases uses
  {
    if uses == [] then p else RunUses(RunUse(p, uses[0]), uses[1..])
  }

  ghost predicate SameDocument(p: Page, q: Page) {
    q.title == p.title && q.nodes == p.nodes && p.next <= q.next
  }

  /** One use on a disjoint head: what it shows is again a disjoint head, and its cleanup restores. */
  lemma AppliedPage(p: Page, input: SeoMetaInput)
    requires WellFormed(p) && Disjoint(p.nodes, SUPPLIED)
    ensures WellFormed(Apply(p, input).0) && Disjoint(Apply(p, input).0.nodes, SUPPLIED)
    ensures SameDocument(p, Cleanup(Apply(p, input).0, Apply(p, input).1))
  {
    var tags := TagsOf(input);
    InputTags(input);
    var (q, u) := ApplyTags(p, input.title, tags);
    AppliedShape(p, input.title, tags);
    AppliedStaysWellFormed(p, input.title, tags);
    AppliedStaysDisjoint(p, tags, q, u, SUPPLIED);
    DisjointNeverClobbers(p, tags, SUPPLIED);
    RestoresExactly(p, input.title, tags);
  }

  /** Any well-nested uses, however deep, leave the document as they found it. */
  lemma {:induction false} NestedUsesRestore(p: Page, uses: seq<Use>)
    requires WellFormed(p) && Disjoint(p.nodes, SUPPLIED)
    ensures SameDocument(p, RunUses(p, uses))
    decreases uses
  {
    if uses != [] {
      NestedUseRestores(p, uses[0]);
      NestedUsesRestore(RunUse(p, uses[0]), uses[1..]);
    }
  }

  lemma {:induction false} NestedUseRestores(p: Page, use: Use)
    requires WellFormed(p) && Disjoint(p.nodes, SUPPLIED)
    ensures SameDocument(p, RunUse(p, use))
    decreases use
  {
    match use
    case Seo(input, inner) =>
      var (q, u) := Apply(p, input);
      AppliedPage(p, input);
      NestedUsesRestore(q, inner);
      assert RunUse(p, use) == Cleanup(RunUses(q, inner), u);
    case JsonLd(json, inner) =>
      var q := AppendScript(p, json);
      SuppliedAreManaged();
      ScriptStaysDisjoint(p, json, SUPPLIED);
      NestedUsesRestore(q, inner);
      WithoutOthers(q.nodes, [p.next], |p.nodes|);
  }

  // ----- nested uses on every head -----

  /** At every level, each use leaves the document as it found it. */
  ghost predicate EachRestores(p: Page, uses: seq<Use>)
    decreases uses
  {
    uses != [] ==>
      && InnerRestores(p, uses[0]) && SameDocument(p, RunUse(p, uses[0]))
      && EachRestores(RunUse(p, uses[0]), uses[1..])
  }

  ghost predicate InnerRestores(p: Page, use: Use)
    decreases use
  {
    match use
    case Seo(input, inner) => EachRestores(Apply(p, input).0, inner)
    case JsonLd(json, inner) => EachRestores(AppendScript(p, json), inner)
  }

  /** At every level, no element is clobbered by the tags applied there. */
  ghost predicate NoneClobbers(p: Page, uses: seq<Use>)
    decreases uses
  {
    uses != [] ==> UseClobbersNothing(p, uses[0]) && NoneClobbers(RunUse(p, uses[0]), uses[1..])
  }

  ghost predicate UseClobbersNothing(p: Page, use: Use)
    decreases use
  {
    match use
    case Seo(input, inner) => NoClobber(p, TagsOf(input)) && NoneClobbers(Apply(p, input).0, inner)
    case JsonLd(json, inner) => NoneClobbers(AppendScript(p, json), inner)
  }

  lemma ApplyStaysWellFormed(p: Page, input: SeoMetaInput)
    requires WellFormed(p)
    ensures WellFormed(Apply(p, input).0)
  {
    TagsAreManaged(input);
    AppliedStaysWellFormed(p, input.title, TagsOf(input));
  }

  /** If what is inside restores, applying and cleaning up restores exactly when nothing is clobbered. */
  lemma SeoRestoresExactly(p: Page, input: SeoMetaInput, inner: seq<Use>)
    requires WellFormed(p) && SameDocument(Apply(p, input).0, RunUses(Apply(p, input).0, inner))
    ensures SameDocument(p, RunUse(p, Seo(input, inner))) <==> NoClobber(p, TagsOf(input))
  {
    var tags := TagsOf(input);
    TagsAreManaged(input);
    RestoresExactly(p, input.title, tags);
    AppliedShape(p, input.title, tags);
    var (q, u) := Apply(p, input);
    assert Cleanup(RunUses(q, inner), u).nodes == Cleanup(q, u).nodes && Cleanup(q, u).title == p.title by {
      AppliedTitle(p, input.title, tags);
    }
  }

  lemma ScriptRestores(p: Page, json: string, inner: seq<Use>)
    requires WellFormed(p) && SameDocument(AppendScript(p, json), RunUses(AppendScript(p, json), inner))
    ensures WellFormed(AppendScript(p, json)) && SameDocument(p, RunUse(p, JsonLd(json, inner)))
  {
    WithoutOthers(AppendScript(p, json).nodes, [p.next], |p.nodes|);
  }

  lemma {:induction false} EachRestoresAll(p: Page, uses: seq<Use>)
    requires EachRestores(p, uses)
    ensures SameDocument(p, RunUses(p, uses))
    decreases uses
  {
    if uses != [] {
      EachRestoresAll(RunUse(p, uses[0]), uses[1..]);
    }
  }

  /** On every head, and at any depth: each use restores the document it found if and only if none of them
      clobbers an element of the head it is applied to. */
  lemma {:induction false} NestedRestoresExactly(p: Page, uses: seq<Use>)
    requires WellFormed(p)
    ensures EachRestores(p, uses) <==> NoneClobbers(p, uses)
    decreases uses
  {
    if uses != [] {
      UseRestoresExactly(p, uses[0]);
      if SameDocument(p, RunUse(p, uses[0])) {
        NestedRestoresExactly(RunUse(p, uses[0]), uses[1..]);
      }
    }
  }

  lemma {:induction false} UseRestoresExactly(p: Page, use: Use)
    requires WellFormed(p)
    ensures InnerRestores(p, use) && SameDocument(p, RunUse(p, use)) <==> UseClobbersNothing(p, use)
    decreases use
  {
    match use
    case Seo(input, inner) =>
      ApplyStaysWellFormed(p, input);
      NestedRestoresExactly(Apply(p, input).0, inner);
      if EachRestores(Apply(p, input).0, inner) {
        EachRestoresAll(Apply(p, input).0, inner);
        SeoRestoresExactly(p, input, inner);
      }
    case JsonLd(json, inner) =>
      NestedRestoresExactly(AppendScript(p, json), inner);
      if EachRestores(AppendScript(p, json), inner) {
        EachRestoresAll(AppendScript(p, json), inner);
        ScriptRestores(p, json, inner);
      }
  }
}
