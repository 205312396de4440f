/** What a join shows, and how a change of either side changes it (ivm/join.go). */
module JoinSpec {
  import opened Values
  import opened Seqs
  import opened Views
  import opened IdleChanges
  import opened JoinUtils
  import opened FilterChain
  import opened Fetching

  datatype Correlation = Correlation(parentKey: Key, childKey: Key, rel: string)

  /** The keys are of one length, and the constraints built from either side mean the join. */
  ghost predicate ValidKeys(j: Correlation) {
    |j.parentKey| == |j.childKey| && Consistent(j.parentKey, j.childKey) && Consistent(j.childKey, j.parentKey)
  }

  ghost predicate Joinable(j: Correlation, parent: Schema, child: Schema) {
    ValidKeys(j) && j.rel !in parent.rels && TotalOrder(parent.cmp) && TotalOrder(child.cmp)
  }

  function JoinSchema(j: Correlation, parent: Schema, child: Schema): Schema {
    Schema(parent.cmp, parent.rels[j.rel := child])
  }

  function ChildOf(j: Correlation, parent: Row): Node -> bool
    requires |j.parentKey| == |j.childKey|
  {
    (c: Node) => IsJoinMatch(parent, j.parentKey, c.row, j.childKey)
  }

  function ChildrenOf(j: Correlation, children: seq<Node>, parent: Row): seq<Node>
    requires |j.parentKey| == |j.childKey|
  {
    Filtered(children, ChildOf(j, parent))
  }

  /** The parent with its children as a relationship. */
  function Attach(j: Correlation, children: seq<Node>, parent: Node): Node
    requires |j.parentKey| == |j.childKey|
  {
    Node(parent.row, parent.rels[j.rel := ChildrenOf(j, children, parent.row)])
  }

  /** Every parent, in the parents' order, with its children in the children's order. */
  function Joined(j: Correlation, parents: seq<Node>, children: seq<Node>): seq<Node>
    requires |j.parentKey| == |j.childKey|
  {
    seq(|parents|, i requires 0 <= i < |parents| => Attach(j, children, parents[i]))
  }

  // ----- a change of the parent side

  function ParentStep(j: Correlation, children: seq<Node>, ch: Change): Change
    requires |j.parentKey| == |j.childKey|
  {
    match ch
    case Add(n) => Add(Attach(j, children, n))
    case Remove(n) => Remove(Attach(j, children, n))
    case Edit(n, o) => Edit(Attach(j, children, n), Attach(j, children, o))
    case Child(n, rel, c) => Child(Attach(j, children, n), rel, c)
  }

  lemma {:induction false} PosSameRows(cmp: Comparator, s: seq<Node>, t: seq<Node>, row: Row, i: nat)
    requires |s| == |t| && i <= |s| && forall k | 0 <= k < |s| :: s[k].row == t[k].row
    ensures PosFrom(cmp, s, row, i) == PosFrom(cmp, t, row, i)
    decreases |s| - i
  {
    if i < |s| { PosSameRows(cmp, s, t, row, i + 1); }
  }

  lemma SamePositions(j: Correlation, cmp: Comparator, parents: seq<Node>, children: seq<Node>, row: Row)
    requires |j.parentKey| == |j.childKey|
    ensures Pos(cmp, Joined(j, parents, children), row) == Pos(cmp, parents, row)
    ensures Has(cmp, Joined(j, parents, children), row) <==> Has(cmp, parents, row)
  {
    PosSameRows(cmp, Joined(j, parents, children), parents, row, 0);
  }

  lemma JoinedInsert(j: Correlation, parents: seq<Node>, children: seq<Node>, p: nat, n: Node)
    requires |j.parentKey| == |j.childKey| && p <= |parents|
    ensures Joined(j, InsertAt(parents, p, n), children)
            == InsertAt(Joined(j, parents, children), p, Attach(j, children, n))
  {
  }

  lemma JoinedRemove(j: Correlation, parents: seq<Node>, children: seq<Node>, p: nat)
    requires |j.parentKey| == |j.childKey| && p < |parents|
    ensures Joined(j, RemoveAt(parents, p), children) == RemoveAt(Joined(j, parents, children), p)
  {
  }

  lemma JoinedUpdate(j: Correlation, parents: seq<Node>, children: seq<Node>, p: nat, n: Node)
    requires |j.parentKey| == |j.childKey| && p < |parents|
    ensures Joined(j, parents[p := n], children) == Joined(j, parents, children)[p := Attach(j, children, n)]
  {
  }

  lemma JoinedMember(j: Correlation, parents: seq<Node>, children: seq<Node>, n: Node)
    requires |j.parentKey| == |j.childKey| && n in parents
    ensures Attach(j, children, n) in Joined(j, parents, children)
  {
    var i :| 0 <= i < |parents| && parents[i] == n;
    assert Joined(j, parents, children)[i] == Attach(j, children, n);
  }

  lemma JoinedDelete(j: Correlation, cmp: Comparator, parents: seq<Node>, children: seq<Node>, row: Row)
    requires |j.parentKey| == |j.childKey|
    ensures Joined(j, Delete(cmp, parents, row), children) == Delete(cmp, Joined(j, parents, children), row)
  {
    SamePositions(j, cmp, parents, children, row);
    if Has(cmp, parents, row) { JoinedRemove(j, parents, children, Pos(cmp, parents, row)); }
  }

  lemma JoinedInserted(j: Correlation, cmp: Comparator, parents: seq<Node>, children: seq<Node>, n: Node)
    requires |j.parentKey| == |j.childKey|
    ensures Joined(j, Insert(cmp, parents, n), children)
            == Insert(cmp, Joined(j, parents, children), Attach(j, children, n))
  {
    SamePositions(j, cmp, parents, children, n.row);
    JoinedInsert(j, parents, children, Pos(cmp, parents, n.row), n);
  }

  /** A change of the parents becomes one change of the join. */
  lemma ParentStepCarries(j: Correlation, parent: Schema, child: Schema, parents: seq<Node>, children: seq<Node>,
                          ch: Change)
    requires Joinable(j, parent, child) && Sorted(parent.cmp, parents) && Legal(parent, parents, ch)
    ensures var out, step := JoinSchema(j, parent, child), ParentStep(j, children, ch);
            Legal(out, Joined(j, parents, children), step)
            && Apply(out, Joined(j, parents, children), step) == Joined(j, Apply(parent, parents, ch), children)
  {
    VisibleStepCarries(j, parent, child, parents, children, ch);
  }

  /** The join need not have a relationship of its own for that, if only the change is not a child change
      of the relationship that it hides. */
  lemma VisibleStepCarries(j: Correlation, parent: Schema, child: Schema, parents: seq<Node>, children: seq<Node>,
                           ch: Change)
    requires |j.parentKey| == |j.childKey| && TotalOrder(parent.cmp) && Sorted(parent.cmp, parents)
             && Legal(parent, parents, ch)
    requires ch.Child? ==> ch.rel != j.rel
    ensures var out, step := JoinSchema(j, parent, child), ParentStep(j, children, ch);
            Legal(out, Joined(j, parents, children), step)
            && Apply(out, Joined(j, parents, children), step) == Joined(j, Apply(parent, parents, ch), children)
  {
    var cmp := parent.cmp;
    match ch
    case Add(n) =>
      JoinedInserted(j, cmp, parents, children, n);
      SamePositions(j, cmp, parents, children, n.row);
    case Remove(n) =>
      JoinedDelete(j, cmp, parents, children, n.row);
      JoinedMember(j, parents, children, n);
    case Edit(n, o) =>
      var d := Delete(cmp, parents, o.row);
      JoinedDelete(j, cmp, parents, children, o.row);
      JoinedMember(j, parents, children, o);
      JoinedInserted(j, cmp, d, children, n);
      SamePositions(j, cmp, d, children, n.row);
    case Child(n, rel, c) =>
      ParentChildCarries(j, parent, child, parents, children, ch);
  }

  lemma ParentChildCarries(j: Correlation, parent: Schema, child: Schema, parents: seq<Node>, children: seq<Node>,
                           ch: Change)
    requires |j.parentKey| == |j.childKey| && TotalOrder(parent.cmp) && Sorted(parent.cmp, parents)
             && Legal(parent, parents, ch)
    requires ch.Child? && ch.rel != j.rel
    ensures var out, step := JoinSchema(j, parent, child), ParentStep(j, children, ch);
            Legal(out, Joined(j, parents, children), step)
            && Apply(out, Joined(j, parents, children), step) == Joined(j, Apply(parent, parents, ch), children)
  {
    var out, v, p := JoinSchema(j, parent, child), Joined(j, parents, children), Pos(parent.cmp, parents, ch.node.row);
    var m, rel := parents[p], ch.rel;
    var list := Apply(parent.rels[rel], m.rels[rel], ch.change);
    SamePositions(j, parent.cmp, parents, children, ch.node.row);
    assert v[p] == Attach(j, children, m) && out.rels[rel] == parent.rels[rel];
    assert m.rels[rel := list][j.rel := ChildrenOf(j, children, m.row)]
      == m.rels[j.rel := ChildrenOf(j, children, m.row)][rel := list];
    assert Attach(j, children, ch.node) == Node(v[p].row, v[p].rels[rel := list]);
    JoinedUpdate(j, parents, children, p, ch.node);
  }

  /** A join whose relationship the parents already have hides theirs. What it then makes of a change of
      the parents fits the client's view, and carries it, unless it is a child change of the hidden
      relationship; and of those exactly the edits of a node to itself that happens to be among the
      children that hide it. */
  lemma SharedRelationshipIff(j: Correlation, parent: Schema, child: Schema, parents: seq<Node>, children: seq<Node>,
                              ch: Change)
    requires |j.parentKey| == |j.childKey| && TotalOrder(parent.cmp) && TotalOrder(child.cmp)
    requires Sorted(parent.cmp, parents) && Sorted(child.cmp, children) && Legal(parent, parents, ch)
    ensures var out, v, step := JoinSchema(j, parent, child), Joined(j, parents, children), ParentStep(j, children, ch);
            && (Legal(out, v, step) <==>
                  (ch.Child? && ch.rel == j.rel ==>
                   Idle(ch.change) && Legal(child, ChildrenOf(j, children, ch.node.row), ch.change)))
            && (Legal(out, v, step) ==> Apply(out, v, step) == Joined(j, Apply(parent, parents, ch), children))
  {
    if ch.Child? && ch.rel == j.rel {
      HiddenStep(j, parent, child, parents, children, ch);
    } else {
      VisibleStepCarries(j, parent, child, parents, children, ch);
    }
  }

  lemma HiddenStep(j: Correlation, parent: Schema, child: Schema, parents: seq<Node>, children: seq<Node>, ch: Change)
    requires |j.parentKey| == |j.childKey| && TotalOrder(parent.cmp) && TotalOrder(child.cmp)
    requires Sorted(parent.cmp, parents) && Sorted(child.cmp, children) && Legal(parent, parents, ch) && ch.Child?
             && ch.rel == j.rel
    ensures var out, v, step := JoinSchema(j, parent, child), Joined(j, parents, children), ParentStep(j, children, ch);
            && (Legal(out, v, step) <==>
                Idle(ch.change) && Legal(child, ChildrenOf(j, children, ch.node.row), ch.change))
            && (Legal(out, v, step) ==> Apply(out, v, step) == Joined(j, Apply(parent, parents, ch), children))
  {
    hide Filtered;
    var v, p, n := Joined(j, parents, children), Pos(parent.cmp, parents, ch.node.row), ch.node;
    var list, m := ChildrenOf(j, children, n.row), parents[Pos(parent.cmp, parents, ch.node.row)];
    FilteredFacts(child.cmp, children, ChildOf(j, n.row));
    SamePositions(j, parent.cmp, parents, children, n.row);
    if Legal(child, list, ch.change) { IdleIff(child, list, ch.change); }
    assert v[p] == Attach(j, children, m);
    assert n.rels[j.rel := list] == m.rels[j.rel := list];
    assert Attach(j, children, n) == v[p] && v[p].rels[j.rel] == list;
    assert v[p].rels[j.rel := Apply(child, list, ch.change)] == v[p].rels <==>
      Apply(child, list, ch.change) == list by {
      assert v[p].rels[j.rel := Apply(child, list, ch.change)][j.rel] == Apply(child, list, ch.change);
    }
    JoinedUpdate(j, parents, children, p, n);
  }

  /** In particular a child change of the hidden relationship that adds a node is never legal. */
  lemma SharedRelationshipIsIllegal(j: Correlation, parent: Schema, child: Schema, parents: seq<Node>,
                                    children: seq<Node>, ch: Change)
    requires |j.parentKey| == |j.childKey| && TotalOrder(parent.cmp) && TotalOrder(child.cmp)
    requires Sorted(parent.cmp, parents) && Legal(parent, parents, ch) && ch.Child? && ch.rel == j.rel && ch.change.Add?
    ensures !Legal(JoinSchema(j, parent, child), Joined(j, parents, children), ParentStep(j, children, ch))
  {
    var p := Pos(parent.cmp, parents, ch.node.row);
    var list := ChildrenOf(j, children, ch.node.row);
    SamePositions(j, parent.cmp, parents, children, ch.node.row);
    assert Joined(j, parents, children)[p] == Attach(j, children, parents[p]);
    assert Attach(j, children, ch.node).rels[j.rel] == list;
    assert |Insert(child.cmp, list, ch.change.node)| == |list| + 1;
  }

  // ----- a change of the child side

  /** The rows of the change agree on the child key: no edit moves a child to another parent. */
  ghost predicate KeepsKey(key: Key, ch: Change) {
    ch.Edit? ==> RowEqualsForKey(ch.oldNode.row, ch.node.row, key)
  }

  ghost predicate AllKeepKey(key: Key, chs: seq<Change>) {
    forall c | c in chs :: KeepsKey(key, c)
  }

  /** A change seen through one parent's list of children. */
  lemma ChildrenAfter(j: Correlation, child: Schema, children: seq<Node>, ch: Change, row: Row)
    requires ValidKeys(j) && TotalOrder(child.cmp) && Sorted(child.cmp, children) && Legal(child, children, ch)
             && KeepsKey(j.childKey, ch)
    ensures Sorted(child.cmp, ChildrenOf(j, children, row))
    ensures IsJoinMatch(row, j.parentKey, ch.node.row, j.childKey) ==>
              Legal(child, ChildrenOf(j, children, row), ch)
              && ChildrenOf(j, Apply(child, children, ch), row) == Apply(child, ChildrenOf(j, children, row), ch)
    ensures !IsJoinMatch(row, j.parentKey, ch.node.row, j.childKey) ==>
              ChildrenOf(j, Apply(child, children, ch), row) == ChildrenOf(j, children, row)
  {
    hide Legal, Apply, TotalOrder, Sorted, Filtered;
    ApplyFacts(child, children, ch);
    FilteredFacts(child.cmp, children, ChildOf(j, row));
    FilterApply(child, children, ch, ChildOf(j, row));
  }

  /** Parents that the change is not about are shown alike before and after. */
  lemma AttachAgrees(j: Correlation, child: Schema, children: seq<Node>, ch: Change, p: Node)
    requires ValidKeys(j) && TotalOrder(child.cmp) && Sorted(child.cmp, children) && Legal(child, children, ch)
             && KeepsKey(j.childKey, ch)
    requires !IsJoinMatch(p.row, j.parentKey, ch.node.row, j.childKey)
    ensures Attach(j, Apply(child, children, ch), p) == Attach(j, children, p)
  {
    ChildrenAfter(j, child, children, ch, p.row);
  }

  function ParentOf(j: Correlation, child: Row): Node -> bool
    requires |j.parentKey| == |j.childKey|
  {
    (p: Node) => IsJoinMatch(p.row, j.parentKey, child, j.childKey)
  }

  function ChildChanges(j: Correlation, matching: seq<Node>, after: seq<Node>, ch: Change): seq<Change>
    requires |j.parentKey| == |j.childKey|
  {
    seq(|matching|, i requires 0 <= i < |matching| => Child(Attach(j, after, matching[i]), j.rel, ch))
  }

  /** One child change for every parent that the changed child belongs to. */
  function ChildStep(j: Correlation, parents: seq<Node>, after: seq<Node>, ch: Change): seq<Change>
    requires |j.parentKey| == |j.childKey|
  {
    ChildChanges(j, Filtered(parents, ParentOf(j, ch.node.row)), after, ch)
  }

  // ----- what is shown while a child push is on its way

  /** A parent as it is shown when the child push has come to `pos`: parents behind it have the old children. */
  function Shower(j: Correlation, cmp: Comparator, before: seq<Node>, after: seq<Node>, pos: Option<Row>): Node -> Node
    requires |j.parentKey| == |j.childKey|
  {
    (p: Node) => Attach(j, if pos.Some? && cmp(p.row, pos.value) > 0 then before else after, p)
  }

  ghost function ShownAt(j: Correlation, cmp: Comparator, parents: seq<Node>, before: seq<Node>, after: seq<Node>,
                         pos: Option<Row>): seq<Node>
    requires |j.parentKey| == |j.childKey|
  {
    MapNodes(parents, Shower(j, cmp, before, after, pos))
  }

  lemma SelectedShown(j: Correlation, cmp: Comparator, parents: seq<Node>, before: seq<Node>, after: seq<Node>,
                      pos: Option<Row>, req: FetchRequest)
    requires |j.parentKey| == |j.childKey|
    ensures Selected(cmp, ShownAt(j, cmp, parents, before, after, pos), req)
            == MapNodes(Selected(cmp, parents, req), Shower(j, cmp, before, after, pos))
  {
    var f := Shower(j, cmp, before, after, pos);
    forall n: Node ensures f(n).row == n.row {
      assert f(n) == Attach(j, if pos.Some? && cmp(n.row, pos.value) > 0 then before else after, n);
    }
    SelectedMap(cmp, parents, f, req);
  }

  /** What is shown after the first `k` of the matching parents have been told. */
  ghost function Progress(j: Correlation, cmp: Comparator, parents: seq<Node>, matching: seq<Node>, before: seq<Node>,
                          after: seq<Node>, k: nat): seq<Node>
    requires |j.parentKey| == |j.childKey| && k <= |matching|
  {
    if k == 0 then Joined(j, parents, before) else ShownAt(j, cmp, parents, before, after, Some(matching[k - 1].row))
  }

  /** A child push: the children were `before`, and `matching` are the parents that the constraint selects. */
  ghost predicate ChildPush(j: Correlation, parent: Schema, child: Schema, parents: seq<Node>, matching: seq<Node>,
                            before: seq<Node>, ch: Change) {
    && Joinable(j, parent, child) && Sorted(parent.cmp, parents)
    && Sorted(child.cmp, before) && Legal(child, before, ch) && KeepsKey(j.childKey, ch)
    && matching == Filtered(parents, ParentOf(j, ch.node.row))
  }

  lemma Before(cmp: Comparator, s: seq<Node>, x: nat, i: nat)
    requires TotalOrder(cmp) && Sorted(cmp, s) && x < |s| && i < |s|
    ensures cmp(s[x].row, s[i].row) < 0 <==> x < i
    ensures cmp(s[x].row, s[i].row) > 0 <==> x > i
  {
    assert cmp(s[x].row, s[x].row) == 0;
  }

  /** No matching parent lies between two matching parents that follow each other. */
  lemma MatchingGap(cmp: Comparator, parents: seq<Node>, keep: Node -> bool, k: nat, x: nat)
    requires TotalOrder(cmp) && Sorted(cmp, parents) && x < |parents| && keep(parents[x])
             && k <= |Filtered(parents, keep)|
    requires k < |Filtered(parents, keep)| ==> cmp(parents[x].row, Filtered(parents, keep)[k].row) < 0
    ensures k > 0 && cmp(parents[x].row, Filtered(parents, keep)[k - 1].row) <= 0
  {
    var matching := Filtered(parents, keep);
    FilteredFacts(cmp, parents, keep);
    assert parents[x] in matching;
    var y :| 0 <= y < |matching| && matching[y] == parents[x];
    if k < |matching| { Before(cmp, matching, y, k); }
    Before(cmp, matching, y, k - 1);
  }

  lemma ShownOne(j: Correlation, cmp: Comparator, parents: seq<Node>, matching: seq<Node>, before: seq<Node>,
                 after: seq<Node>, k: nat, x: nat)
    requires |j.parentKey| == |j.childKey| && k <= |matching| && x < |parents|
    ensures |Progress(j, cmp, parents, matching, before, after, k)| == |parents|
    ensures Progress(j, cmp, parents, matching, before, after, k)[x] ==
            Attach(j, if k == 0 || cmp(parents[x].row, matching[k - 1].row) > 0 then before else after, parents[x])
  {
  }

  /** Telling the next matching parent changes what is shown of that parent, and nothing else. */
  lemma ProgressAt(j: Correlation, parent: Schema, child: Schema, parents: seq<Node>, matching: seq<Node>,
                   before: seq<Node>, ch: Change, k: nat, i: nat, x: nat)
    requires ChildPush(j, parent, child, parents, matching, before, ch) && k < |matching|
    requires i < |parents| && parents[i] == matching[k] && x < |parents|
    ensures var after := Apply(child, before, ch);
            var u, v := Progress(j, parent.cmp, parents, matching, before, after, k),
              Progress(j, parent.cmp, parents, matching, before, after, k + 1);
            |u| == |v| == |parents| && v[x] == if x == i then Attach(j, after, matching[k]) else u[x]
    ensures x == i ==>
              Progress(j, parent.cmp, parents, matching, before, Apply(child, before, ch), k)[x]
                == Attach(j, before, matching[k])
  {
    hide Legal, Apply, KeepsKey, Attach, Progress, IsJoinMatch, Filtered;
    var after, keep := Apply(child, before, ch), ParentOf(j, ch.node.row);
    ShownOne(j, parent.cmp, parents, matching, before, after, k, x);
    ShownOne(j, parent.cmp, parents, matching, before, after, k + 1, x);
    FilteredFacts(parent.cmp, parents, keep);
    Before(parent.cmp, parents, x, i);
    if k > 0 { Before(parent.cmp, matching, k, k - 1); }
    if x < i {
      if keep(parents[x]) {
        MatchingGap(parent.cmp, parents, keep, k, x);
      } else {
        AttachAgrees(j, child, before, ch, parents[x]);
      }
    } else if k > 0 {
      if x > i { Transitive(parent.cmp, matching[k - 1].row, matching[k].row, parents[x].row); }
    }
  }

  /** Telling the next matching parent carries what is shown one parent further. */
  lemma ProgressStep(j: Correlation, parent: Schema, child: Schema, parents: seq<Node>, matching: seq<Node>,
                     before: seq<Node>, ch: Change, k: nat)
    requires ChildPush(j, parent, child, parents, matching, before, ch) && k < |matching|
    ensures var out, after := JoinSchema(j, parent, child), Apply(child, before, ch);
            var u, v := Progress(j, parent.cmp, parents, matching, before, after, k),
              Progress(j, parent.cmp, parents, matching, before, after, k + 1);
            var c := Child(Attach(j, after, matching[k]), j.rel, ch);
            Legal(out, u, c) && Apply(out, u, c) == v
  {
    hide Legal, Apply, KeepsKey, Progress, IsJoinMatch, ChildrenOf;
    var out, after, m := JoinSchema(j, parent, child), Apply(child, before, ch), matching[k];
    var u, v := Progress(j, parent.cmp, parents, matching, before, after, k),
      Progress(j, parent.cmp, parents, matching, before, after, k + 1);
    FilteredMembers(parents, ParentOf(j, ch.node.row));
    assert m in matching;
    var i :| 0 <= i < |parents| && parents[i] == m;
    forall x | 0 <= x < |parents| ensures |u| == |v| == |parents|
      && v[x] == (if x == i then Attach(j, after, m) else u[x]) && (x == i ==> u[x] == Attach(j, before, m)) {
      ProgressAt(j, parent, child, parents, matching, before, ch, k, i, x);
    }
    ProgressLength(j, parent.cmp, parents, matching, before, after, k);
    ProgressLength(j, parent.cmp, parents, matching, before, after, k + 1);
    assert v == u[i := Attach(j, after, m)];
    ProgressSorted(j, parent.cmp, parents, matching, before, after, k);
    ChildrenAfter(j, child, before, ch, m.row);
    MapSetTwice(m.rels, j.rel, ChildrenOf(j, before, m.row), ChildrenOf(j, after, m.row));
    ChildAt(out, u, i, Child(Attach(j, after, m), j.rel, ch));
  }

  lemma ProgressSorted(j: Correlation, cmp: Comparator, parents: seq<Node>, matching: seq<Node>, before: seq<Node>,
                       after: seq<Node>, k: nat)
    requires |j.parentKey| == |j.childKey| && k <= |matching| && Sorted(cmp, parents)
    ensures Sorted(cmp, Progress(j, cmp, parents, matching, before, after, k))
  {
    var u := Progress(j, cmp, parents, matching, before, after, k);
    forall x, y | 0 <= x < y < |u| ensures cmp(u[x].row, u[y].row) < 0 {
      ShownOne(j, cmp, parents, matching, before, after, k, x);
      ShownOne(j, cmp, parents, matching, before, after, k, y);
    }
  }

  /** When all matching parents have been told, every parent is shown with its new children. */
  lemma ProgressEnds(j: Correlation, parent: Schema, child: Schema, parents: seq<Node>, matching: seq<Node>,
                     before: seq<Node>, ch: Change)
    requires ChildPush(j, parent, child, parents, matching, before, ch)
    ensures Progress(j, parent.cmp, parents, matching, before, Apply(child, before, ch), |matching|)
            == Joined(j, parents, Apply(child, before, ch))
  {
    hide Legal, Apply, KeepsKey, Attach, IsJoinMatch, Filtered, Progress;
    var after, keep := Apply(child, before, ch), ParentOf(j, ch.node.row);
    var u := Progress(j, parent.cmp, parents, matching, before, after, |matching|);
    forall x | 0 <= x < |parents| ensures |u| == |parents| && u[x] == Attach(j, after, parents[x]) {
      ShownOne(j, parent.cmp, parents, matching, before, after, |matching|, x);
      if keep(parents[x]) {
        MatchingGap(parent.cmp, parents, keep, |matching|, x);
      } else {
        AttachAgrees(j, child, before, ch, parents[x]);
      }
    }
    ProgressLength(j, parent.cmp, parents, matching, before, after, |matching|);
    assert u == Joined(j, parents, after);
  }

  lemma ProgressLength(j: Correlation, cmp: Comparator, parents: seq<Node>, matching: seq<Node>, before: seq<Node>,
                       after: seq<Node>, k: nat)
    requires |j.parentKey| == |j.childKey| && k <= |matching|
    ensures |Progress(j, cmp, parents, matching, before, after, k)| == |parents|
  {
  }

  lemma {:induction false} ChildChangesCarry(j: Correlation, parent: Schema, child: Schema, parents: seq<Node>,
                                             matching: seq<Node>, before: seq<Node>, ch: Change, k: nat)
    requires ChildPush(j, parent, child, parents, matching, before, ch) && k <= |matching|
    ensures var after := Apply(child, before, ch);
            Carries(JoinSchema(j, parent, child), Progress(j, parent.cmp, parents, matching, before, after, k),
                    ChildChanges(j, matching[k..], after, ch), Joined(j, parents, after))
    decreases |matching| - k
  {
    hide Legal, Apply, Attach, TotalOrder, Sorted, IsJoinMatch, KeepsKey, Carries, Progress, Joined;
    var out, after := JoinSchema(j, parent, child), Apply(child, before, ch);
    var u := Progress(j, parent.cmp, parents, matching, before, after, k);
    if k == |matching| {
      ProgressEnds(j, parent, child, parents, matching, before, ch);
      CarriesNone(out, u);
      assert ChildChanges(j, matching[k..], after, ch) == [];
    } else {
      var c := Child(Attach(j, after, matching[k]), j.rel, ch);
      ProgressStep(j, parent, child, parents, matching, before, ch, k);
      ChildChangesCarry(j, parent, child, parents, matching, before, ch, k + 1);
      CarriesCons(out, u, c, ChildChanges(j, matching[k + 1..], after, ch), Joined(j, parents, after));
      assert ChildChanges(j, matching[k..], after, ch) == [c] + ChildChanges(j, matching[k + 1..], after, ch);
    }
  }

  /** A change of the children becomes one change for each of its parents, and together they carry
      the join of the old children to the join of the new ones. */
  lemma ChildStepCarries(j: Correlation, parent: Schema, child: Schema, parents: seq<Node>, before: seq<Node>,
                         ch: Change)
    requires Joinable(j, parent, child) && Sorted(parent.cmp, parents)
    requires Sorted(child.cmp, before) && Legal(child, before, ch) && KeepsKey(j.childKey, ch)
    ensures var after := Apply(child, before, ch);
            Carries(JoinSchema(j, parent, child), Joined(j, parents, before), ChildStep(j, parents, after, ch),
                    Joined(j, parents, after))
  {
    hide Legal, Apply, Attach, TotalOrder, Sorted, IsJoinMatch, KeepsKey, Carries, Joined;
    var matching := Filtered(parents, ParentOf(j, ch.node.row));
    ChildChangesCarry(j, parent, child, parents, matching, before, ch, 0);
    assert matching[0..] == matching;
  }
}
