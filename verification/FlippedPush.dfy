/** Pushing a change of either side through the flipped join (ivm/flipped_join.go). */
module FlippedPush {
  import opened Values
  import opened Views
  import opened IdleChanges
  import opened JoinUtils
  import opened FilterChain
  import opened ChainPush
  import opened Fetching
  import opened JoinSpec
  import opened FlippedJoin

  /** What the flipped join shows: the parents that have children, with them. */
  function Inner(j: Correlation, parents: seq<Node>, children: seq<Node>): seq<Node>
    requires |j.parentKey| == |j.childKey|
  {
    Filtered(Joined(j, parents, children), HasChildren(j))
  }

  // ----- a list of changes through a gate

  ghost function GateOne(sch: Schema, s: seq<Node>, ch: Change, keep: Node -> bool): seq<Change> {
    var pre, post := Pre(sch, s, ch), Post(ch);
    Emitted(Gate(ch, pre, post, pre.Some? && keep(pre.value), post.Some? && keep(post.value)))
  }

  ghost function GateAll(sch: Schema, s: seq<Node>, chs: seq<Change>, keep: Node -> bool): seq<Change>
    decreases |chs|
  {
    if chs == [] then [] else GateOne(sch, s, chs[0], keep) + GateAll(sch, Apply(sch, s, chs[0]), chs[1..], keep)
  }

  lemma {:induction false} GateAllCarries(sch: Schema, s: seq<Node>, chs: seq<Change>, t: seq<Node>, keep: Node -> bool)
    requires TotalOrder(sch.cmp) && Sorted(sch.cmp, s) && Carries(sch, s, chs, t)
    ensures Carries(sch, Filtered(s, keep), GateAll(sch, s, chs, keep), Filtered(t, keep))
    decreases |chs|
  {
    if chs == [] {
      CarriesNone(sch, Filtered(s, keep));
    } else {
      var u := Apply(sch, s, chs[0]);
      ApplyFacts(sch, s, chs[0]);
      GateCarries(sch, s, chs[0], keep);
      GateAllCarries(sch, u, chs[1..], t, keep);
      CarriesConcat(sch, Filtered(s, keep), GateOne(sch, s, chs[0], keep), Filtered(u, keep),
                    GateAll(sch, u, chs[1..], keep), Filtered(t, keep));
    }
  }

  // ----- parents

  /** None is the panic on an edit that moves a parent to a key with children. Otherwise what is sent carries
      what the flipped join shows, unless the edit moves a parent with children to a key without: then
      nothing is sent, and the old parent stays with the client. */
  method PushParent(j: Correlation, ghost parent: Schema, ghost child: Schema, ghost parents: seq<Node>,
                    children: seq<Node>, ch: Change)
    returns (r: Option<seq<Change>>)
    requires Joinable(j, parent, child) && Sorted(parent.cmp, parents) && Legal(parent, parents, ch)
    ensures r.None? <==> ChildrenOf(j, children, ch.node.row) != [] && !KeepsKey(j.parentKey, ch)
    ensures r.Some? ==>
              var carried := Carries(JoinSchema(j, parent, child), Inner(j, parents, children), r.value,
                                     Inner(j, Apply(parent, parents, ch), children));
              carried <==> KeepsKey(j.parentKey, ch) || (ch.Edit? && ChildrenOf(j, children, ch.oldNode.row) == [])
  {
    ghost var out, s, step := JoinSchema(j, parent, child), Joined(j, parents, children), ParentStep(j, children, ch);
    ParentStepCarries(j, parent, child, parents, children, ch);
    JoinedInOrder(j, parent.cmp, parents, children);
    if KeepsKey(j.parentKey, ch) {
      GateCarries(out, s, step, HasChildren(j));
      ParentGate(j, parent, child, parents, children, ch);
    } else if ChildrenOf(j, children, ch.node.row) == [] {
      MovedAway(j, parent, child, parents, children, ch);
    }
    if |ChildrenOf(j, children, ch.node.row)| == 0 { return Some([]); }
    match ch
    case Edit(n, o) =>
      if !RowEqualsForKey(o.row, n.row, j.parentKey) { return None; }
      return Some([Edit(Attach(j, children, n), Attach(j, children, o))]);
    case Add(n) => return Some([Add(Attach(j, children, n))]);
    case Remove(n) => return Some([Remove(Attach(j, children, n))]);
    case Child(n, rel, c) => return Some([Child(Attach(j, children, n), rel, c)]);
  }

  /** An edit to a key without children changes what is shown exactly if the old parent had children. */
  lemma MovedAway(j: Correlation, parent: Schema, child: Schema, parents: seq<Node>, children: seq<Node>, ch: Change)
    requires Joinable(j, parent, child) && Sorted(parent.cmp, parents) && Legal(parent, parents, ch)
    requires ch.Edit? && ChildrenOf(j, children, ch.node.row) == []
    ensures Carries(JoinSchema(j, parent, child), Inner(j, parents, children), [],
                    Inner(j, Apply(parent, parents, ch), children))
            <==> ChildrenOf(j, children, ch.oldNode.row) == []
  {
    hide Apply, Legal, TotalOrder, Sorted, ChildrenOf, Joined, Filtered;
    var out, s, step := JoinSchema(j, parent, child), Joined(j, parents, children), ParentStep(j, children, ch);
    var keep, was := HasChildren(j), Attach(j, children, ch.oldNode);
    ParentStepCarries(j, parent, child, parents, children, ch);
    JoinedInOrder(j, parent.cmp, parents, children);
    GateCarries(out, s, step, keep);
    assert was.rels[j.rel] == ChildrenOf(j, children, ch.oldNode.row);
    if keep(was) {
      FilteredFacts(out.cmp, s, keep);
      var before, gone := Filtered(s, keep), Remove(was);
      assert [gone][1..] == [];
      IdleIff(out, before, gone);
    }
  }

  lemma JoinedInOrder(j: Correlation, cmp: Comparator, parents: seq<Node>, children: seq<Node>)
    requires |j.parentKey| == |j.childKey| && Sorted(cmp, parents)
    ensures Sorted(cmp, Joined(j, parents, children))
  {
  }

  /** Testing the new parent for children is gating on both the old and the new one. */
  lemma ParentGate(j: Correlation, parent: Schema, child: Schema, parents: seq<Node>, children: seq<Node>, ch: Change)
    requires Joinable(j, parent, child) && Sorted(parent.cmp, parents) && Legal(parent, parents, ch)
             && KeepsKey(j.parentKey, ch)
    requires Legal(JoinSchema(j, parent, child), Joined(j, parents, children), ParentStep(j, children, ch))
    ensures GateOne(JoinSchema(j, parent, child), Joined(j, parents, children), ParentStep(j, children, ch),
                    HasChildren(j))
            == if ChildrenOf(j, children, ch.node.row) == [] then [] else [ParentStep(j, children, ch)]
  {
    hide Legal, Apply, TotalOrder, Sorted, ChildrenOf, IsJoinMatch, Has, Joined;
    SameLengths(j, parent, child);
    PreIsNode(parent, parents, ch);
    if ch.Edit? {
      SameKeySameChildren(j, children, ch.oldNode.row, ch.node.row);
    } else if ch.Child? {
      ParentPre(j, parent, child, parents, children, ch);
    }
  }

  lemma ParentPre(j: Correlation, parent: Schema, child: Schema, parents: seq<Node>, children: seq<Node>, ch: Change)
    requires Joinable(j, parent, child) && Sorted(parent.cmp, parents) && Legal(parent, parents, ch) && ch.Child?
    ensures var pre := Pre(JoinSchema(j, parent, child), Joined(j, parents, children), ParentStep(j, children, ch));
            pre.Some? && pre.value.row == ch.node.row && j.rel in pre.value.rels
              && pre.value.rels[j.rel] == ChildrenOf(j, children, ch.node.row)
  {
    hide ChildrenOf;
    SamePositions(j, parent.cmp, parents, children, ch.node.row);
    var p := Pos(parent.cmp, parents, ch.node.row);
    assert Joined(j, parents, children)[p] == Attach(j, children, parents[p]);
  }

  /** Parents with one key have the same children. */
  lemma SameKeySameChildren(j: Correlation, children: seq<Node>, a: Row, b: Row)
    requires |j.parentKey| == |j.childKey| && RowEqualsForKey(a, b, j.parentKey)
    ensures ChildrenOf(j, children, a) == ChildrenOf(j, children, b)
  {
    forall c: Node ensures ChildOf(j, a)(c) == ChildOf(j, b)(c) {
      SameKeySameMatches(a, b, j.parentKey, c.row, j.childKey);
    }
    FilteredSame(children, ChildOf(j, a), ChildOf(j, b));
  }

  // ----- children

  /** What is sent for one parent of a changed child, when `hasChild` says that it has other children. */
  function FlipChange(j: Correlation, after: seq<Node>, ch: Change, hasChild: bool, p: Node): Change
    requires |j.parentKey| == |j.childKey|
  {
    if hasChild then Child(Attach(j, after, p), j.rel, ch)
    else
      var shown := Node(p.row, p.rels[j.rel := [ch.node]]);
      if ch.Add? then Add(shown) else Remove(shown)
  }

  /** Some child of the parent has another position than the changed one. */
  predicate OtherChild(j: Correlation, cmp: Comparator, after: seq<Node>, ch: Change, row: Row)
    requires |j.parentKey| == |j.childKey|
  {
    exists c | c in ChildrenOf(j, after, row) :: cmp(c.row, ch.node.row) != 0
  }

  method HasOther(nodes: seq<Node>, cmp: Comparator, row: Row) returns (found: bool)
    ensures found <==> exists c | c in nodes :: cmp(c.row, row) != 0
  {
    for i := 0 to |nodes|
      invariant forall k | 0 <= k < i :: cmp(nodes[k].row, row) == 0
    {
      if cmp(nodes[i].row, row) != 0 {
        assert nodes[i] in nodes;
        return true;
      }
    }
    return false;
  }

  /** The change of one parent, before and after, and whether it has children then. */
  lemma FlipGate(j: Correlation, parent: Schema, child: Schema, parents: seq<Node>, matching: seq<Node>,
                 before: seq<Node>, ch: Change, k: nat, hasChild: bool)
    requires ChildPush(j, parent, child, parents, matching, before, ch) && k < |matching|
    requires hasChild == (ch.Edit? || ch.Child?
                          || OtherChild(j, child.cmp, Apply(child, before, ch), ch, matching[k].row))
    ensures var after := Apply(child, before, ch);
            GateOne(JoinSchema(j, parent, child), Progress(j, parent.cmp, parents, matching, before, after, k),
                    Child(Attach(j, after, matching[k]), j.rel, ch), HasChildren(j))
            == [FlipChange(j, after, ch, hasChild, matching[k])]
  {
    hide Legal, Apply, TotalOrder, Sorted, KeepsKey, Progress, ChildrenOf, IsJoinMatch, Filtered, Pre;
    var after, m := Apply(child, before, ch), matching[k];
    var u := Progress(j, parent.cmp, parents, matching, before, after, k);
    var c := Child(Attach(j, after, m), j.rel, ch);
    FilteredMembers(parents, ParentOf(j, ch.node.row));
    assert m in matching;
    PreOfProgress(j, parent, child, parents, matching, before, ch, k);
    ChildrenAfter(j, child, before, ch, m.row);
    FlipSizes(child, ChildrenOf(j, before, m.row), ch, hasChild);
  }

  lemma PreOfProgress(j: Correlation, parent: Schema, child: Schema, parents: seq<Node>, matching: seq<Node>,
                      before: seq<Node>, ch: Change, k: nat)
    requires ChildPush(j, parent, child, parents, matching, before, ch) && k < |matching|
    ensures var after := Apply(child, before, ch);
            Pre(JoinSchema(j, parent, child), Progress(j, parent.cmp, parents, matching, before, after, k),
                Child(Attach(j, after, matching[k]), j.rel, ch))
            == Some(Attach(j, before, matching[k]))
  {
    hide Legal, Apply, KeepsKey, Progress, IsJoinMatch, ChildrenOf;
    var after, m := Apply(child, before, ch), matching[k];
    var u := Progress(j, parent.cmp, parents, matching, before, after, k);
    FilteredMembers(parents, ParentOf(j, ch.node.row));
    assert m in matching;
    var i :| 0 <= i < |parents| && parents[i] == m;
    ProgressAt(j, parent, child, parents, matching, before, ch, k, i, i);
    ProgressSorted(j, parent.cmp, parents, matching, before, after, k);
    assert parent.cmp(u[i].row, m.row) == 0;
    PosIsUnique(parent.cmp, u, i, m.row);
  }

  /** How one change moves a parent's list of children between empty and not. */
  lemma FlipSizes(child: Schema, list: seq<Node>, ch: Change, hasChild: bool)
    requires TotalOrder(child.cmp) && Sorted(child.cmp, list) && Legal(child, list, ch)
    requires hasChild == (ch.Edit? || ch.Child? || exists c | c in Apply(child, list, ch) ::
                          child.cmp(c.row, ch.node.row) != 0)
    ensures hasChild ==> list != [] && Apply(child, list, ch) != []
    ensures !hasChild && ch.Add? ==> list == [] && Apply(child, list, ch) == [ch.node]
    ensures !hasChild && !ch.Add? ==> ch.Remove? && list == [ch.node] && Apply(child, list, ch) == []
  {
    var after := Apply(child, list, ch);
    LegalSizes(child, list, ch);
    ApplyFacts(child, list, ch);
    LegalDeltaApart(child, list, ch);
    if ch.Add? {
      assert ch.node in after;
      if hasChild {
        var c :| c in after && child.cmp(c.row, ch.node.row) != 0;
        assert child.cmp(ch.node.row, ch.node.row) == 0;
        assert c in list;
      } else {
        NoMembers(list);
      }
    } else if ch.Remove? {
      assert ch.node in list;
      if !hasChild { NoMembers(after); }
    }
  }

  lemma LegalDeltaApart(child: Schema, list: seq<Node>, ch: Change)
    requires TotalOrder(child.cmp) && Sorted(child.cmp, list) && Legal(child, list, ch)
    ensures ch.Add? ==> forall x | x in list :: child.cmp(x.row, ch.node.row) != 0
    ensures ch.Remove? ==> forall x | x in list && x != ch.node :: child.cmp(x.row, ch.node.row) != 0
  {
    if ch.Add? { HasMeansMember(child.cmp, list, ch.node.row); }
    if ch.Remove? {
      forall x | x in list && x != ch.node ensures child.cmp(x.row, ch.node.row) != 0 {
        if child.cmp(x.row, ch.node.row) == 0 { SamePositionSameNode(child.cmp, list, x, ch.node); }
      }
    }
  }

  /** All parents of one child have the same children, so the answer for one parent is the answer for all. */
  lemma SameOther(j: Correlation, cmp: Comparator, after: seq<Node>, ch: Change, a: Row, b: Row)
    requires |j.parentKey| == |j.childKey|
    requires IsJoinMatch(a, j.parentKey, ch.node.row, j.childKey)
             && IsJoinMatch(b, j.parentKey, ch.node.row, j.childKey)
    ensures OtherChild(j, cmp, after, ch, a) <==> OtherChild(j, cmp, after, ch, b)
  {
    forall i | 0 <= i < |j.parentKey| ensures Get(a, j.parentKey[i]) == Get(b, j.parentKey[i]) {
      assert ValuesEqual(Get(a, j.parentKey[i]), Get(ch.node.row, j.childKey[i]));
      assert ValuesEqual(Get(b, j.parentKey[i]), Get(ch.node.row, j.childKey[i]));
    }
    SameKeySameChildren(j, after, a, b);
  }

  /** None is the panic on an edit that moves a child to other parents. Every other change of the
      children carries what the flipped join shows: a parent's first child makes it appear, its last
      child makes it disappear, and in between it is told of the child. */
  method PushChild(j: Correlation, ghost parent: Schema, child: Schema, cmp: Comparator, parents: seq<Node>,
                   ghost before: seq<Node>, after: seq<Node>, ch: Change)
    returns (r: Option<seq<Change>>)
    requires Joinable(j, parent, child) && cmp == parent.cmp && Sorted(parent.cmp, parents)
    requires Sorted(child.cmp, before) && Legal(child, before, ch) && after == Apply(child, before, ch)
    ensures r.None? <==> !KeepsKey(j.childKey, ch)
    ensures r.Some? ==>
              Carries(JoinSchema(j, parent, child), Inner(j, parents, before), r.value, Inner(j, parents, after))
  {
    if ch.Edit? && !RowEqualsForKey(ch.oldNode.row, ch.node.row, j.childKey) { return None; }
    var constraint := BuildJoinConstraint(ch.node.row, j.childKey, j.parentKey);
    FetchIsMatching(j, cmp, parents, ch.node.row);
    ghost var matching := Filtered(parents, ParentOf(j, ch.node.row));
    JoinedInOrder(j, parent.cmp, parents, before);
    ChildStepCarries(j, parent, child, parents, before, ch);
    GateAllCarries(JoinSchema(j, parent, child), Joined(j, parents, before), ChildStep(j, parents, after, ch),
                   Joined(j, parents, after), HasChildren(j));
    FlipsAreGates(j, parent, child, parents, matching, before, ch, 0);
    assert matching[0..] == matching;
    var changes: seq<Change> := [];
    if constraint.Some? {
      var parentNodes := Selected(cmp, parents, FetchRequest(constraint, None, false));
      changes := PushToParents(j, child.cmp, parentNodes, after, ch);
    }
    return Some(changes);
  }

  ghost function Flips(j: Correlation, cmp: Comparator, matching: seq<Node>, after: seq<Node>, ch: Change): seq<Change>
    requires |j.parentKey| == |j.childKey|
  {
    seq(|matching|, i requires 0 <= i < |matching| =>
      FlipChange(j, after, ch, ch.Edit? || ch.Child? || OtherChild(j, cmp, after, ch, matching[i].row), matching[i]))
  }

  /** The loop over the parents: once some parent is found to have other children, it is not asked again. */
  method PushToParents(j: Correlation, cmp: Comparator, parentNodes: seq<Node>, after: seq<Node>, ch: Change)
    returns (changes: seq<Change>)
    requires ValidKeys(j) && forall p | p in parentNodes :: IsJoinMatch(p.row, j.parentKey, ch.node.row, j.childKey)
    ensures changes == Flips(j, cmp, parentNodes, after, ch)
  {
    hide ChildrenOf, Filtered, FlipChange, OtherChild, IsJoinMatch, JoinConstraint;
    changes := [];
    var hasChild := ch.Edit? || ch.Child?;
    for i := 0 to |parentNodes|
      invariant changes == Flips(j, cmp, parentNodes[..i], after, ch)
      invariant hasChild <==>
                  ch.Edit? || ch.Child? || exists k | 0 <= k < i :: OtherChild(j, cmp, after, ch, parentNodes[k].row)
    {
      var p := parentNodes[i];
      assert p in parentNodes;
      forall k | 0 <= k < i ensures OtherChild(j, cmp, after, ch, parentNodes[k].row) <==>
        OtherChild(j, cmp, after, ch, p.row) {
        assert parentNodes[k] in parentNodes;
        SameOther(j, cmp, after, ch, parentNodes[k].row, p.row);
      }
      if !hasChild { hasChild := AskParent(j, cmp, after, ch, p.row); }
      FlipsAppend(j, cmp, parentNodes, after, ch, i);
      changes := changes + [FlipChange(j, after, ch, hasChild, p)];
    }
    assert parentNodes[..|parentNodes|] == parentNodes;
  }

  method AskParent(j: Correlation, cmp: Comparator, after: seq<Node>, ch: Change, row: Row) returns (other: bool)
    requires ValidKeys(j)
    ensures other <==> OtherChild(j, cmp, after, ch, row)
  {
    ChildFetch(j, cmp, after, row);
    var c := BuildJoinConstraint(row, j.parentKey, j.childKey);
    var stream := if c.None? then [] else Selected(cmp, after, FetchRequest(c, None, false));
    other := HasOther(stream, cmp, ch.node.row);
  }

  lemma FlipsAppend(j: Correlation, cmp: Comparator, nodes: seq<Node>, after: seq<Node>, ch: Change, i: nat)
    requires |j.parentKey| == |j.childKey| && i < |nodes|
    ensures Flips(j, cmp, nodes[..i + 1], after, ch) ==
            Flips(j, cmp, nodes[..i], after, ch)
            + [FlipChange(j, after, ch, ch.Edit? || ch.Child? || OtherChild(j, cmp, after, ch, nodes[i].row), nodes[i])]
  {
  }

  lemma ChildFetch(j: Correlation, cmp: Comparator, children: seq<Node>, row: Row)
    requires ValidKeys(j)
    ensures var c := JoinConstraint(row, j.parentKey, j.childKey);
            (if c.None? then [] else Selected(cmp, children, FetchRequest(c, None, false)))
              == ChildrenOf(j, children, row)
  {
    var c := JoinConstraint(row, j.parentKey, j.childKey);
    forall x: Node ensures ChildOf(j, row)(x) <==> c.Some? && ConstraintMatches(c.value, x.row) {
      ConstraintIsJoinMatch(row, j.parentKey, x.row, j.childKey);
    }
    if c.Some? {
      FilteredSame(children, ChildOf(j, row), Wanted(cmp, FetchRequest(c, None, false)));
    } else {
      FilteredNone(children, ChildOf(j, row));
    }
  }

  lemma FetchIsMatching(j: Correlation, cmp: Comparator, parents: seq<Node>, child: Row)
    requires ValidKeys(j)
    ensures var c, matching := JoinConstraint(child, j.childKey, j.parentKey), Filtered(parents, ParentOf(j, child));
            && (c.None? ==> matching == [])
            && (c.Some? ==> Selected(cmp, parents, FetchRequest(c, None, false)) == matching)
            && forall p | p in matching :: IsJoinMatch(p.row, j.parentKey, child, j.childKey)
  {
    var c := JoinConstraint(child, j.childKey, j.parentKey);
    FilteredMembers(parents, ParentOf(j, child));
    forall x: Node ensures ParentOf(j, child)(x) <==> c.Some? && ConstraintMatches(c.value, x.row) {
      ConstraintIsJoinMatch(child, j.childKey, x.row, j.parentKey);
      MatchIsSymmetric(x.row, j.parentKey, child, j.childKey);
    }
    if c.Some? {
      FilteredSame(parents, ParentOf(j, child), Wanted(cmp, FetchRequest(c, None, false)));
    } else {
      FilteredNone(parents, ParentOf(j, child));
    }
  }

  /** What the flipped join sends is what a gate on parents with children makes of what the join sends. */
  lemma {:induction false} FlipsAreGates(j: Correlation, parent: Schema, child: Schema, parents: seq<Node>,
                                         matching: seq<Node>, before: seq<Node>, ch: Change, k: nat)
    requires ChildPush(j, parent, child, parents, matching, before, ch) && k <= |matching|
    ensures var after := Apply(child, before, ch);
            GateAll(JoinSchema(j, parent, child), Progress(j, parent.cmp, parents, matching, before, after, k),
                    ChildChanges(j, matching[k..], after, ch), HasChildren(j))
            == Flips(j, child.cmp, matching[k..], after, ch)
    decreases |matching| - k
  {
    hide Legal, Apply, TotalOrder, Sorted, KeepsKey, Progress, OtherChild, FlipChange, GateOne, Attach, HasChildren,
         Joinable;
    var after, out := Apply(child, before, ch), JoinSchema(j, parent, child);
    SameLengths(j, parent, child);
    var rest := ChildChanges(j, matching[k..], after, ch);
    if k < |matching| {
      ProgressStep(j, parent, child, parents, matching, before, ch, k);
      FlipGate(j, parent, child, parents, matching, before, ch, k, ch.Edit? || ch.Child?
               || OtherChild(j, child.cmp, after, ch, matching[k].row));
      FlipsAreGates(j, parent, child, parents, matching, before, ch, k + 1);
      assert rest[0] == Child(Attach(j, after, matching[k]), j.rel, ch)
        && rest[1..] == ChildChanges(j, matching[k + 1..], after, ch);
    }
  }

  lemma SameLengths(j: Correlation, parent: Schema, child: Schema)
    requires Joinable(j, parent, child)
    ensures |j.parentKey| == |j.childKey|
  {
  }
}
