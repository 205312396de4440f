/**
  Changes of both sides of a join at once: what comes out when the parent side is told while the
  children are already shown after their own change, as in a parallel push (ivm/parallel.go, ivm/join.go).
 */
module Simultaneous {
  import opened Values
  import opened Views
  import opened JoinUtils
  import opened IdleChanges
  import opened JoinSpec

  /** Both sides of a join are about to change: the parents by `p`, the children by `c`. */
  ghost predicate BothChange(j: Correlation, parent: Schema, child: Schema, parents: seq<Node>, children: seq<Node>,
                             p: Change, c: Change) {
    && Joinable(j, parent, child)
    && Sorted(parent.cmp, parents) && Legal(parent, parents, p) && KeepsKey(j.parentKey, p)
    && Sorted(child.cmp, children) && Legal(child, children, c) && KeepsKey(j.childKey, c)
  }

  /** The changed child does not belong to the changed parent, or does not really change. */
  predicate Unrelated(j: Correlation, p: Change, c: Change)
    requires |j.parentKey| == |j.childKey|
  {
    Idle(c) || !IsJoinMatch(p.node.row, j.parentKey, c.node.row, j.childKey)
  }

  /** The children of a parent of row `row`, before and after. */
  lemma ListsDiffer(j: Correlation, parent: Schema, child: Schema, parents: seq<Node>, children: seq<Node>, p: Change,
                    c: Change, row: Row)
    requires BothChange(j, parent, child, parents, children, p, c)
    requires row == p.node.row || (p.Edit? && row == p.oldNode.row)
    ensures ChildrenOf(j, Apply(child, children, c), row) == ChildrenOf(j, children, row) <==> Unrelated(j, p, c)
    ensures !Unrelated(j, p, c) ==> !Legal(child, ChildrenOf(j, Apply(child, children, c), row), c)
    ensures IsJoinMatch(row, j.parentKey, c.node.row, j.childKey) <==>
              IsJoinMatch(p.node.row, j.parentKey, c.node.row, j.childKey)
  {
    hide Legal, Apply, TotalOrder, Sorted, ChildrenOf, IsJoinMatch, Idle;
    ChildrenAfter(j, child, children, c, row);
    if p.Edit? { SameKeySameMatches(p.oldNode.row, p.node.row, j.parentKey, c.node.row, j.childKey); }
    var list := ChildrenOf(j, children, row);
    if IsJoinMatch(row, j.parentKey, c.node.row, j.childKey) {
      IdleIff(child, list, c);
      if !Idle(c) { NotTwice(child, list, c); }
    }
  }

  lemma AttachSame(j: Correlation, a: seq<Node>, b: seq<Node>, n: Node)
    requires |j.parentKey| == |j.childKey|
    ensures Attach(j, a, n) == Attach(j, b, n) <==> ChildrenOf(j, a, n.row) == ChildrenOf(j, b, n.row)
  {
    assert Attach(j, a, n).rels[j.rel] == ChildrenOf(j, a, n.row)
      && Attach(j, b, n).rels[j.rel] == ChildrenOf(j, b, n.row);
  }

  /** The join emits the same for the parent side, whether or not it sees the change of the children
      already, exactly if the changes are unrelated. */
  lemma SameStepIff(j: Correlation, parent: Schema, child: Schema, parents: seq<Node>, children: seq<Node>, p: Change,
                    c: Change)
    requires BothChange(j, parent, child, parents, children, p, c)
    ensures ParentStep(j, Apply(child, children, c), p) == ParentStep(j, children, p) <==> Unrelated(j, p, c)
  {
    hide Legal, Apply, TotalOrder, Sorted, ChildrenOf, Attach, Unrelated;
    ListsDiffer(j, parent, child, parents, children, p, c, p.node.row);
    AttachSame(j, Apply(child, children, c), children, p.node);
    if p.Edit? {
      ListsDiffer(j, parent, child, parents, children, p, c, p.oldNode.row);
      AttachSame(j, Apply(child, children, c), children, p.oldNode);
    }
  }

  /** A remove, edit or child change of a parent, sent with other children than it is shown with, does not fit. */
  lemma StaleIsIllegal(j: Correlation, parent: Schema, child: Schema, parents: seq<Node>, shown: seq<Node>,
                       sent: seq<Node>, p: Change)
    requires Joinable(j, parent, child) && Sorted(parent.cmp, parents) && Legal(parent, parents, p) && !p.Add?
    requires ChildrenOf(j, shown, p.node.row) != ChildrenOf(j, sent, p.node.row)
    requires p.Edit? ==> ChildrenOf(j, shown, p.oldNode.row) != ChildrenOf(j, sent, p.oldNode.row)
    ensures !Legal(JoinSchema(j, parent, child), Joined(j, parents, shown), ParentStep(j, sent, p))
  {
    hide ChildrenOf;
    var v := Joined(j, parents, shown);
    match p
    case Remove(n) => StaleIsNotShown(j, parents, shown, sent, n);
    case Edit(_, o) => StaleIsNotShown(j, parents, shown, sent, o);
    case Child(n, rel, _) =>
      SamePositions(j, parent.cmp, parents, shown, n.row);
      var i := Pos(parent.cmp, parents, n.row);
      assert v[i] == Attach(j, shown, parents[i]) && v[i].rels[j.rel] == ChildrenOf(j, shown, n.row);
      assert Attach(j, sent, n).rels[j.rel] == ChildrenOf(j, sent, n.row);
  }

  lemma StaleIsNotShown(j: Correlation, parents: seq<Node>, shown: seq<Node>, sent: seq<Node>, n: Node)
    requires |j.parentKey| == |j.childKey| && ChildrenOf(j, shown, n.row) != ChildrenOf(j, sent, n.row)
    ensures Attach(j, sent, n) !in Joined(j, parents, shown)
  {
    hide ChildrenOf;
    forall i | 0 <= i < |parents| ensures Attach(j, sent, n) != Attach(j, shown, parents[i]) {
      assert Attach(j, sent, n).rels[j.rel] == ChildrenOf(j, sent, n.row);
      assert Attach(j, shown, parents[i]).rels[j.rel] == ChildrenOf(j, shown, parents[i].row);
    }
  }

  /** The child change of an added parent that was added with the change in it. */
  lemma AddedTwice(j: Correlation, parent: Schema, child: Schema, parents: seq<Node>, children: seq<Node>, p: Change,
                   c: Change, t: seq<Node>)
    requires BothChange(j, parent, child, parents, children, p, c) && !Unrelated(j, p, c) && p.Add?
    ensures var out, after := JoinSchema(j, parent, child), Apply(child, children, c);
            !Carries(out, Apply(out, Joined(j, parents, children), ParentStep(j, after, p)),
                     ChildStep(j, Apply(parent, parents, p), after, c), t)
  {
    hide Sorted, TotalOrder, ChildrenOf, Filtered, Carries, Joined, Attach, Apply, Legal;
    var out, after, now := JoinSchema(j, parent, child), Apply(child, children, c), Apply(parent, parents, p);
    var n, keep := p.node, ParentOf(j, c.node.row);
    var u := Apply(out, Joined(j, parents, children), ParentStep(j, after, p));
    AddedShown(j, parent, child, parents, children, p, c);
    ApplyFacts(parent, parents, p);
    FilteredFacts(parent.cmp, now, keep);
    var matching := Filtered(now, keep);
    assert n in matching;
    var k :| 0 <= k < |matching| && matching[k] == n;
    var chs := ChildStep(j, now, after, c);
    forall i | 0 <= i < k ensures chs[i].Child? && out.cmp(chs[i].node.row, chs[k].node.row) != 0 {
      AttachRow(j, after, matching[i]);
      AttachRow(j, after, n);
      Before(parent.cmp, matching, i, k);
    }
    StaysIllegal(out, u, chs, k, t);
  }

  lemma AttachRow(j: Correlation, children: seq<Node>, n: Node)
    requires |j.parentKey| == |j.childKey|
    ensures Attach(j, children, n).row == n.row
  {
  }

  lemma AddedShown(j: Correlation, parent: Schema, child: Schema, parents: seq<Node>, children: seq<Node>, p: Change,
                   c: Change)
    requires BothChange(j, parent, child, parents, children, p, c) && !Unrelated(j, p, c) && p.Add?
    ensures var out, after := JoinSchema(j, parent, child), Apply(child, children, c);
            var u := Apply(out, Joined(j, parents, children), ParentStep(j, after, p));
            Sorted(out.cmp, u) && !Legal(out, u, Child(Attach(j, after, p.node), j.rel, c))
  {
    var out, after, m := JoinSchema(j, parent, child), Apply(child, children, c),
      Attach(j, Apply(child, children, c), p.node);
    var v := Joined(j, parents, children);
    var u := Apply(out, v, Add(m));
    assert Sorted(out.cmp, v);
    SamePositions(j, parent.cmp, parents, children, p.node.row);
    ApplyFacts(out, v, Add(m));
    MemberAt(out.cmp, u, m);
    ListsDiffer(j, parent, child, parents, children, p, c, p.node.row);
    assert m.rels[j.rel] == ChildrenOf(j, after, p.node.row);
  }

  /** The view is carried exactly if the changes are unrelated: otherwise the client is sent a change that
      does not fit what it has. */
  lemma AtOnceIff(j: Correlation, parent: Schema, child: Schema, parents: seq<Node>, children: seq<Node>, p: Change,
                  c: Change)
    requires BothChange(j, parent, child, parents, children, p, c)
    ensures var after, now := Apply(child, children, c), Apply(parent, parents, p);
            Unrelated(j, p, c) <==> Carries(JoinSchema(j, parent, child), Joined(j, parents, children),
                                        [ParentStep(j, after, p)] + ChildStep(j, now, after, c), Joined(j, now, after))
  {
    hide Legal, Apply, TotalOrder, Sorted, Joined, Unrelated, ChildStep, ParentStep;
    var out, v := JoinSchema(j, parent, child), Joined(j, parents, children);
    var after, now := Apply(child, children, c), Apply(parent, parents, p);
    var first, second := ParentStep(j, after, p), ChildStep(j, now, after, c);
    assert ([first] + second)[1..] == second;
    if Unrelated(j, p, c) {
      SameStepIff(j, parent, child, parents, children, p, c);
      ApplyFacts(parent, parents, p);
      ParentStepCarries(j, parent, child, parents, children, p);
      ChildStepCarries(j, parent, child, now, children, c);
    } else if p.Add? {
      AddedTwice(j, parent, child, parents, children, p, c, Joined(j, now, after));
    } else {
      ListsDiffer(j, parent, child, parents, children, p, c, p.node.row);
      if p.Edit? { ListsDiffer(j, parent, child, parents, children, p, c, p.oldNode.row); }
      StaleIsIllegal(j, parent, child, parents, children, after, p);
    }
  }
}
