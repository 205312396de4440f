/** The undo overlay on lists without an order: rows are found by their primary key (ivm/join_utils.go). */
module UnorderedOverlay {
  import opened Values
  import opened Seqs
  import opened Views
  import opened JoinUtils

  /** The first node with the key of `row`; the length of the list if there is none. */
  function FirstWithKey(nodes: seq<Node>, row: Row, primaryKey: Key): (i: nat)
    ensures i <= |nodes|
    ensures i < |nodes| ==> RowEqualsForKey(row, nodes[i].row, primaryKey)
    ensures forall k | 0 <= k < i :: !RowEqualsForKey(row, nodes[k].row, primaryKey)
  {
    if nodes == [] || RowEqualsForKey(row, nodes[0].row, primaryKey) then 0
      else 1 + FirstWithKey(nodes[1..], row, primaryKey)
  }

  /** The relationship that a child change rewinds is sorted, at every depth that is reached. */
  ghost predicate ChildReady(schema: Schema, nodes: seq<Node>, overlay: Change, primaryKey: Key) {
    overlay.Child? ==>
      var i := FirstWithKey(nodes, overlay.node.row, primaryKey);
      i < |nodes| && overlay.rel in nodes[i].rels && overlay.rel in schema.rels ==>
        Ready(schema.rels[overlay.rel], nodes[i].rels[overlay.rel], overlay.change)
  }

  /** The code finds what it looks for. */
  ghost predicate Finds(schema: Schema, nodes: seq<Node>, overlay: Change, primaryKey: Key) {
    var i := FirstWithKey(nodes, overlay.node.row, primaryKey);
    match overlay
    case Remove(_) => true
    case Child(_, rel, c) => i < |nodes| && rel in nodes[i].rels && rel in schema.rels
      && Applies(schema.rels[rel], nodes[i].rels[rel], c)
    case _ => i < |nodes|
  }

  /** The node that the change put there is there and, for a child change, its relationship can be undone. */
  ghost predicate CanRewind(schema: Schema, nodes: seq<Node>, overlay: Change, primaryKey: Key) {
    var i := FirstWithKey(nodes, overlay.node.row, primaryKey);
    match overlay
    case Remove(_) => true
    case Child(_, rel, c) => i < |nodes| && rel in nodes[i].rels && rel in schema.rels
      && Undoable(schema.rels[rel], nodes[i].rels[rel], c)
    case _ => i < |nodes|
  }

  /** What the change removed is put in front, what it added is left out, and a child change rewinds the
      relationship of its node. */
  ghost function Rewound(schema: Schema, nodes: seq<Node>, overlay: Change, primaryKey: Key): seq<Node>
    requires CanRewind(schema, nodes, overlay, primaryKey)
  {
    var i := FirstWithKey(nodes, overlay.node.row, primaryKey);
    match overlay
    case Remove(n) => [n] + nodes
    case Add(_) => RemoveAt(nodes, i)
    case Edit(_, o) => [o] + RemoveAt(nodes, i)
    case Child(_, rel, c) => nodes[i :=
                                   Node(nodes[i].row,
                                        nodes[i].rels[rel := Undo(schema.rels[rel], nodes[i].rels[rel], c)])]
  }

  /** In some order, `nodes` are those of the list that the change makes of `before`; a primary key stands
      for one node. */
  ghost predicate MadeFrom(schema: Schema, before: seq<Node>, overlay: Change, nodes: seq<Node>, primaryKey: Key) {
    && TotalOrder(schema.cmp) && Sorted(schema.cmp, before) && Legal(schema, before, overlay)
    && multiset(nodes) == multiset(Apply(schema, before, overlay))
    && forall a, b | a in nodes && b in nodes && RowEqualsForKey(a.row, b.row, primaryKey) :: a == b
  }

  /** The loop of the overlay; None is a panic. In whatever order the nodes from after the change are given,
      it does not panic and gives the nodes from before the change. */
  method GenerateWithOverlayUnordered(nodes: seq<Node>, overlay: Change, schema: Schema, primaryKey: Key)
    returns (r: Option<seq<Node>>)
    requires ChildReady(schema, nodes, overlay, primaryKey)
    ensures r.None? <==> !Finds(schema, nodes, overlay, primaryKey)
    ensures CanRewind(schema, nodes, overlay, primaryKey) ==> r == Some(Rewound(schema, nodes, overlay, primaryKey))
    ensures forall before: seq<Node> | MadeFrom(schema, before, overlay, nodes, primaryKey) ::
              r.Some? && multiset(r.value) == multiset(before)
  {
    forall before: seq<Node> | MadeFrom(schema, before, overlay, nodes, primaryKey)
      ensures CanRewind(schema, nodes, overlay, primaryKey)
              && multiset(Rewound(schema, nodes, overlay, primaryKey)) == multiset(before)
    {
      UnorderedUndoes(schema, before, overlay, nodes, primaryKey);
    }
    r := RewindUnordered(nodes, overlay, schema, primaryKey);
  }

  method RewindUnordered(nodes: seq<Node>, overlay: Change, schema: Schema, primaryKey: Key)
    returns (r: Option<seq<Node>>)
    requires ChildReady(schema, nodes, overlay, primaryKey)
    ensures r.None? <==> !Finds(schema, nodes, overlay, primaryKey)
    ensures CanRewind(schema, nodes, overlay, primaryKey) ==> r == Some(Rewound(schema, nodes, overlay, primaryKey))
  {
    ghost var at := FirstWithKey(nodes, overlay.node.row, primaryKey);
    var result, changed := UnorderedLoop(nodes, overlay, primaryKey, if (overlay.Add? || overlay.Edit?)
                                         && at < |nodes| then RemoveAt(nodes, at) else nodes);
    if changed == |nodes| && !overlay.Remove? { return None; }
    assert [] + nodes == nodes;
    if !overlay.Child? {
      if overlay.Add? { assert result == RemoveAt(nodes, at); }
      return Some(result);
    }
    assert result == nodes;
    var node := nodes[changed];
    if overlay.rel !in schema.rels || overlay.rel !in node.rels { return None; }
    var inner := GenerateWithOverlay(node.rels[overlay.rel], overlay.change, schema.rels[overlay.rel]);
    if inner.None? { return None; }
    return Some(result[changed := Node(node.row, node.rels[overlay.rel := inner.value])]);
  }

  /** How much is there before element `i` is visited, when element `at` is left out. */
  ghost function Kept(i: nat, at: nat, drop: bool): nat {
    if drop && at < i then i - 1 else i
  }

  lemma Extend(front: seq<Node>, w: seq<Node>, d: nat)
    requires d < |w|
    ensures (front + w[..d]) + [w[d]] == front + w[..d + 1]
  {
  }

  lemma RemoveAtItems(nodes: seq<Node>, at: nat, w: seq<Node>)
    ensures at < |nodes| && w == RemoveAt(nodes, at) ==>
              |w| == |nodes| - 1 && forall i | 0 <= i < |nodes| && i != at ::
                Kept(i, at, true) < |w| && w[Kept(i, at, true)] == nodes[i]
  {
  }

  /** `changed` is the node that was found; a child overlay leaves it in place. */
  method UnorderedLoop(nodes: seq<Node>, overlay: Change, primaryKey: Key, ghost w: seq<Node>)
    returns (result: seq<Node>, changed: nat)
    requires w == if (overlay.Add? || overlay.Edit?) && FirstWithKey(nodes, overlay.node.row, primaryKey) < |nodes|
                  then RemoveAt(nodes, FirstWithKey(nodes, overlay.node.row, primaryKey)) else nodes
    ensures !overlay.Remove? ==> changed == FirstWithKey(nodes, overlay.node.row, primaryKey)
    ensures result == (if overlay.Remove? then [overlay.node] else if overlay.Edit? then [overlay.oldNode] else []) + w
  {
    hide RowEqualsForKey, FirstWithKey, RemoveAt;
    RemoveAtItems(nodes, FirstWithKey(nodes, overlay.node.row, primaryKey), w);
    result := if overlay.Remove? then [overlay.node] else if overlay.Edit? then [overlay.oldNode] else [];
    ghost var front, at, drop := result, FirstWithKey(nodes, overlay.node.row,
                                                      primaryKey), overlay.Add? || overlay.Edit?;
    var suppressed := false;
    changed := |nodes|;
    for i := 0 to |nodes|
      invariant suppressed <==> !overlay.Remove? && at < i
      invariant !overlay.Remove? ==> changed == if at < i then at else |nodes|
      invariant Kept(i, at, drop) <= |w| && result == front + w[..Kept(i, at, drop)]
    {
      var node := nodes[i];
      if !suppressed && !overlay.Remove? && RowEqualsForKey(overlay.node.row, node.row, primaryKey) {
        suppressed, changed := true, i;
        if !overlay.Child? { continue; }
      }
      Extend(front, w, Kept(i, at, drop));
      result := result + [node];
    }
    assert w[..|w|] == w;
  }

  // ----- the same nodes as before the change

  lemma InsertAtMultiset<T>(s: seq<T>, p: nat, x: T)
    requires p <= |s|
    ensures multiset(InsertAt(s, p, x)) == multiset(s) + multiset{x}
  {
    InsertAtSlices(s, p, x);
    assert s == s[..p] + s[p..];
  }

  lemma RemoveAtMultiset<T>(s: seq<T>, p: nat)
    requires p < |s|
    ensures multiset(RemoveAt(s, p)) + multiset{s[p]} == multiset(s)
  {
    InsertAtMultiset(RemoveAt(s, p), p, s[p]);
    assert InsertAt(RemoveAt(s, p), p, s[p]) == s;
  }

  /** A legal add, remove or edit, seen as nodes that go and come. */
  lemma ApplyMultiset(sch: Schema, s: seq<Node>, ch: Change)
    requires TotalOrder(sch.cmp) && Sorted(sch.cmp, s) && Legal(sch, s, ch) && !ch.Child?
    ensures ch.Add? ==> multiset(Apply(sch, s, ch)) == multiset(s) + multiset{ch.node}
    ensures ch.Remove? ==> multiset(Apply(sch, s, ch)) + multiset{ch.node} == multiset(s)
    ensures ch.Edit? ==> multiset(Apply(sch, s, ch)) + multiset{ch.oldNode} == multiset(s) + multiset{ch.node}
  {
    match ch
    case Add(n) => InsertAtMultiset(s, Pos(sch.cmp, s, n.row), n);
    case Remove(n) => MemberAt(sch.cmp, s, n); RemoveAtMultiset(s, Pos(sch.cmp, s, n.row));
    case Edit(n, o) =>
      var d := Delete(sch.cmp, s, o.row);
      MemberAt(sch.cmp, s, o);
      RemoveAtMultiset(s, Pos(sch.cmp, s, o.row));
      InsertAtMultiset(d, Pos(sch.cmp, d, n.row), n);
  }

  lemma Cancel<T>(a: multiset<T>, b: multiset<T>, x: T)
    requires a + multiset{x} == b + multiset{x}
    ensures a == b
  {
    forall y ensures a[y] == b[y] {
      assert (a + multiset{x})[y] == (b + multiset{x})[y];
    }
  }

  /** In whatever order the nodes of the list after the change are given, the overlay gives the nodes of
      the list before it, for child changes too. */
  lemma UnorderedUndoes(sch: Schema, before: seq<Node>, ch: Change, nodes: seq<Node>, primaryKey: Key)
    requires MadeFrom(sch, before, ch, nodes, primaryKey)
    ensures CanRewind(sch, nodes, ch, primaryKey)
    ensures multiset(Rewound(sch, nodes, ch, primaryKey)) == multiset(before)
  {
    if ch.Child? {
      ChildUndoes(sch, before, ch, nodes, primaryKey);
    } else {
      FlatUndoes(sch, before, ch, nodes, primaryKey);
    }
  }

  lemma FlatUndoes(sch: Schema, before: seq<Node>, ch: Change, nodes: seq<Node>, primaryKey: Key)
    requires MadeFrom(sch, before, ch, nodes, primaryKey) && !ch.Child?
    ensures CanRewind(sch, nodes, ch, primaryKey)
    ensures multiset(Rewound(sch, nodes, ch, primaryKey)) == multiset(before)
  {
    hide Legal, Apply, TotalOrder, Sorted, FirstWithKey, RowEqualsForKey;
    ApplyMultiset(sch, before, ch);
    if ch.Remove? {
      assert multiset(Rewound(sch, nodes, ch, primaryKey)) == multiset{ch.node} + multiset(nodes);
    } else {
      var i := FoundNode(sch, before, ch, nodes, primaryKey);
      RemoveAtMultiset(nodes, i);
      var rest := multiset(RemoveAt(nodes, i));
      if ch.Add? {
        Cancel(rest, multiset(before), ch.node);
      } else {
        assert multiset(Rewound(sch, nodes, ch, primaryKey)) == multiset{ch.oldNode} + rest;
        Cancel(rest + multiset{ch.oldNode}, multiset(before), ch.node);
      }
    }
  }

  /** The node of a child change is there as the change left it, and rewinding it gives the old node. */
  lemma ChildUndoes(sch: Schema, before: seq<Node>, ch: Change, nodes: seq<Node>, primaryKey: Key)
    requires MadeFrom(sch, before, ch, nodes, primaryKey) && ch.Child?
    ensures CanRewind(sch, nodes, ch, primaryKey)
    ensures multiset(Rewound(sch, nodes, ch, primaryKey)) == multiset(before)
  {
    hide FirstWithKey, RowEqualsForKey, Undo, Undoable, Sorted;
    var p, n, rel := Pos(sch.cmp, before, ch.node.row), ch.node, ch.rel;
    var m, inner := before[p], sch.rels[rel];
    UndoApply(inner, m.rels[rel], ch.change);
    var i := FoundNode(sch, before, ch, nodes, primaryKey);
    assert Apply(sch, before, ch) == before[p := n];
    assert n.rels[rel := m.rels[rel]] == m.rels;
    assert Rewound(sch, nodes, ch, primaryKey) == nodes[i := m];
    UpdateMultiset(nodes, i, m);
    UpdateMultiset(before, p, n);
    Cancel(multiset(nodes[i := m]), multiset(before), n);
  }

  lemma UpdateMultiset<T>(s: seq<T>, p: nat, x: T)
    requires p < |s|
    ensures multiset(s[p := x]) + multiset{s[p]} == multiset(s) + multiset{x}
  {
    assert s[p := x] == s[..p] + [x] + s[p + 1..] && s == s[..p] + [s[p]] + s[p + 1..];
  }

  lemma FoundNode(sch: Schema, before: seq<Node>, ch: Change, nodes: seq<Node>, primaryKey: Key) returns (i: nat)
    requires TotalOrder(sch.cmp) && Sorted(sch.cmp, before) && Legal(sch, before, ch) && !ch.Remove?
    requires multiset(nodes) == multiset(Apply(sch, before, ch))
    requires forall a, b | a in nodes && b in nodes && RowEqualsForKey(a.row, b.row, primaryKey) :: a == b
    ensures i == FirstWithKey(nodes, ch.node.row, primaryKey) < |nodes| && nodes[i] == ch.node
  {
    hide Legal, Apply, TotalOrder, Sorted, FirstWithKey;
    ApplyFacts(sch, before, ch);
    assert ch.node in multiset(nodes);
    var k :| 0 <= k < |nodes| && nodes[k] == ch.node;
    i := FirstWithKey(nodes, ch.node.row, primaryKey);
    assert RowEqualsForKey(ch.node.row, nodes[k].row, primaryKey);
    assert nodes[i] in nodes && nodes[k] in nodes;
  }
}
