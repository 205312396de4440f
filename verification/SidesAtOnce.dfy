/**
  Changes of both sides of a join at once, where each side is a pipeline of its own that may make several
  changes of one, as a Take does (ivm/parallel.go, ivm/join.go, ivm/take.go).
 */
module SidesAtOnce {
  import opened Values
  import opened Seqs
  import opened Views
  import opened JoinUtils
  import opened Fetching
  import opened JoinSpec
  import opened Simultaneous
  import opened TakeSpec
  import opened TakeRules
  import opened TakeUnion
  import opened ChainPush
  import opened Pipeline
  import opened Ast
  import opened Database
  import opened Builder

  // ----- a list of changes that is folded in twice

  /** A change that is legal on two lists takes the same node out of both. */
  lemma SamePre(sch: Schema, u: seq<Node>, v: seq<Node>, c: Change)
    requires TotalOrder(sch.cmp) && Sorted(sch.cmp, u) && Sorted(sch.cmp, v) && Legal(sch, u, c) && Legal(sch, v, c)
    ensures Pre(sch, u, c) == Pre(sch, v, c)
  {
    hide Legal, Apply, Undo, TotalOrder, Sorted;
    if c.Child? {
      PreIsUndone(sch, u, c);
      PreIsUndone(sch, v, c);
    }
  }

  lemma PreIsUndone(sch: Schema, s: seq<Node>, c: Change)
    requires TotalOrder(sch.cmp) && Sorted(sch.cmp, s) && Legal(sch, s, c) && c.Child?
    ensures c.rel in sch.rels && c.rel in c.node.rels
    ensures Pre(sch, s, c) == Some(Node(c.node.row,
                                        c.node.rels[c.rel := Undo(sch.rels[c.rel], c.node.rels[c.rel], c.change)]))
  {
    hide Undo, Undoable;
    var m, inner := s[Pos(sch.cmp, s, c.node.row)], sch.rels[c.rel];
    UndoApply(inner, m.rels[c.rel], c.change);
    assert c.node.rels[c.rel := m.rels[c.rel]] == m.rels;
  }

  /** The node that a change puts in is not there before, unless it is the one that it takes out. */
  lemma PostIsNew(sch: Schema, s: seq<Node>, c: Change, x: Node)
    requires TotalOrder(sch.cmp) && Sorted(sch.cmp, s) && Legal(sch, s, c) && Post(c) == Some(x) && x in s
    ensures Pre(sch, s, c) == Some(x)
  {
    if c.Child? {
      MemberAt(sch.cmp, s, x);
    } else {
      LegalDelta(sch, s, c);
      assert sch.cmp(x.row, x.row) == 0;
    }
  }

  /** The same changes on two lists: where they change whether a node is there, the lists agreed on it. */
  lemma {:induction false} TouchedAgree(sch: Schema, u: seq<Node>, v: seq<Node>, cs: seq<Change>, u': seq<Node>,
                                        v': seq<Node>, x: Node)
    requires TotalOrder(sch.cmp) && Sorted(sch.cmp, u) && Sorted(sch.cmp, v) && Carries(sch, u, cs, u')
             && Carries(sch, v, cs, v')
    ensures (x in u <==> x in u') || (x in u <==> x in v)
    decreases |cs|
  {
    hide Legal, Apply, TotalOrder, Sorted, Pre;
    if cs != [] {
      var c := cs[0];
      ApplyFacts(sch, u, c);
      ApplyFacts(sch, v, c);
      SamePre(sch, u, v, c);
      if Post(c) == Some(x) && x in u { PostIsNew(sch, u, c, x); }
      if Post(c) == Some(x) && x in v { PostIsNew(sch, v, c, x); }
      TouchedAgree(sch, Apply(sch, u, c), Apply(sch, v, c), cs[1..], u', v', x);
    }
  }

  /** Changes that lead from one list to another cannot be folded into the second as well. */
  lemma NotTwiceAll(sch: Schema, u: seq<Node>, cs: seq<Change>, v: seq<Node>, w: seq<Node>)
    requires TotalOrder(sch.cmp) && Sorted(sch.cmp, u) && Sorted(sch.cmp, v) && Carries(sch, u, cs, v)
             && Carries(sch, v, cs, w)
    ensures u == v
  {
    forall x ensures x in u <==> x in v {
      TouchedAgree(sch, u, v, cs, v, w, x);
    }
    SortedUnique(sch.cmp, u, v);
  }

  // ----- the children of one parent

  /** The changes of the children of a parent. */
  function About(j: Correlation, row: Row, cs: seq<Change>): seq<Change>
    requires |j.parentKey| == |j.childKey|
  {
    if cs == [] then []
    else (if IsJoinMatch(row, j.parentKey, cs[0].node.row, j.childKey) then [cs[0]] else []) + About(j, row, cs[1..])
  }

  lemma {:induction false} ListCarried(j: Correlation, child: Schema, s: seq<Node>, cs: seq<Change>, t: seq<Node>,
                                       row: Row)
    requires ValidKeys(j) && TotalOrder(child.cmp) && Sorted(child.cmp, s) && Carries(child, s, cs, t)
             && AllKeepKey(j.childKey, cs)
    ensures Sorted(child.cmp, t) && Sorted(child.cmp, ChildrenOf(j, s, row)) && Sorted(child.cmp, ChildrenOf(j, t, row))
    ensures Carries(child, ChildrenOf(j, s, row), About(j, row, cs), ChildrenOf(j, t, row))
    decreases |cs|
  {
    hide Legal, Apply, TotalOrder, Sorted, Filtered, IsJoinMatch, KeepsKey;
    FilteredFacts(child.cmp, s, ChildOf(j, row));
    if cs == [] {
      CarriesNone(child, ChildrenOf(j, s, row));
    } else {
      ApplyFacts(child, s, cs[0]);
      ChildrenAfter(j, child, s, cs[0], row);
      ListCarried(j, child, Apply(child, s, cs[0]), cs[1..], t, row);
      if IsJoinMatch(row, j.parentKey, cs[0].node.row, j.childKey) {
        CarriesCons(child, ChildrenOf(j, s, row), cs[0], About(j, row, cs[1..]), ChildrenOf(j, t, row));
      } else {
        assert [] + About(j, row, cs[1..]) == About(j, row, cs[1..]);
      }
    }
  }

  // ----- what a list of child changes does to one parent

  /** The relationship of the node at the position of `row`. */
  ghost function ListAt(cmp: Comparator, u: seq<Node>, row: Row, rel: string): seq<Node> {
    var p := Pos(cmp, u, row);
    if Has(cmp, u, row) && rel in u[p].rels then u[p].rels[rel] else []
  }

  ghost predicate Shows(cmp: Comparator, u: seq<Node>, row: Row, rel: string) {
    Has(cmp, u, row) && rel in u[Pos(cmp, u, row)].rels
  }

  function Inside(cmp: Comparator, chs: seq<Change>, row: Row): seq<Change> {
    if chs == [] then []
    else (if chs[0].Child? && cmp(chs[0].node.row, row) == 0 then [chs[0].change] else []) + Inside(cmp, chs[1..], row)
  }

  ghost predicate AllInside(chs: seq<Change>, rel: string) {
    forall c | c in chs :: c.Child? && c.rel == rel
  }

  lemma OneInside(out: Schema, u: seq<Node>, c: Change, row: Row)
    requires TotalOrder(out.cmp) && Sorted(out.cmp, u) && Legal(out, u, c) && c.Child? && Shows(out.cmp, u, row, c.rel)
    ensures var v := Apply(out, u, c);
            && Sorted(out.cmp, v) && Shows(out.cmp, v, row, c.rel) && c.rel in out.rels
            && if out.cmp(c.node.row, row) == 0 then
                 Legal(out.rels[c.rel], ListAt(out.cmp, u, row, c.rel), c.change)
                 && ListAt(out.cmp, v, row, c.rel) == Apply(out.rels[c.rel], ListAt(out.cmp, u, row, c.rel), c.change)
               else ListAt(out.cmp, v, row, c.rel) == ListAt(out.cmp, u, row, c.rel)
  {
    var cmp, p, q, v := out.cmp, Pos(out.cmp, u, c.node.row), Pos(out.cmp, u, row), Apply(out, u, c);
    ApplyFacts(out, u, c);
    assert v == u[p := c.node] && v[p].row == u[p].row;
    PosIsUnique(cmp, v, q, row);
    if cmp(c.node.row, row) == 0 {
      SameSign(cmp, c.node.row, row, u[p].row);
      PosIsUnique(cmp, u, p, row);
    }
  }

  lemma {:induction false} InsideCarried(out: Schema, u: seq<Node>, chs: seq<Change>, w: seq<Node>, row: Row,
                                         rel: string)
    requires TotalOrder(out.cmp) && Sorted(out.cmp, u) && Carries(out, u, chs, w) && AllInside(chs, rel)
    requires rel in out.rels && Shows(out.cmp, u, row, rel)
    ensures Carries(out.rels[rel], ListAt(out.cmp, u, row, rel), Inside(out.cmp, chs, row),
                    ListAt(out.cmp, w, row, rel))
    decreases |chs|
  {
    hide Legal, Apply, TotalOrder, Sorted, Shows, ListAt;
    if chs == [] {
      CarriesNone(out.rels[rel], ListAt(out.cmp, u, row, rel));
    } else {
      HeadTail(chs);
      var c, rest := chs[0], Inside(out.cmp, chs[1..], row);
      OneInside(out, u, c, row);
      InsideCarried(out, Apply(out, u, c), chs[1..], w, row, rel);
      if out.cmp(c.node.row, row) == 0 {
        CarriesCons(out.rels[rel], ListAt(out.cmp, u, row, rel), c.change, rest, ListAt(out.cmp, w, row, rel));
      } else {
        assert [] + rest == rest;
      }
    }
  }

  lemma {:induction false} InsideConcat(cmp: Comparator, a: seq<Change>, b: seq<Change>, row: Row)
    ensures Inside(cmp, a + b, row) == Inside(cmp, a, row) + Inside(cmp, b, row)
  {
    if a == [] {
      assert a + b == b;
    } else {
      ConcatSplit(a, b);
      InsideConcat(cmp, a[1..], b, row);
    }
  }

  lemma {:induction false} InsideChanges(j: Correlation, cmp: Comparator, matching: seq<Node>, after: seq<Node>,
                                         c: Change, row: Row)
    requires |j.parentKey| == |j.childKey| && TotalOrder(cmp) && Sorted(cmp, matching)
    ensures Inside(cmp, ChildChanges(j, matching, after, c), row) == if exists m ::
              m in matching && cmp(m.row, row) == 0 then [c] else []
  {
    if matching != [] {
      var first := Child(Attach(j, after, matching[0]), j.rel, c);
      assert ChildChanges(j, matching, after, c)[1..] == ChildChanges(j, matching[1..], after, c);
      HeadTail(matching);
      TailFacts(cmp, matching);
      InsideChanges(j, cmp, matching[1..], after, c, row);
      if cmp(matching[0].row, row) == 0 {
        forall m | m in matching[1..] ensures cmp(m.row, row) != 0 {
          var i :| 0 <= i < |matching[1..]| && matching[1..][i] == m;
          assert cmp(matching[0].row, matching[i + 1].row) < 0;
          SameSign(cmp, matching[0].row, row, m.row);
        }
      }
    }
  }

  /** For each change of its children, in order, a parent is told once. */
  lemma {:induction false} InsideSteps(j: Correlation, cmp: Comparator, child: Schema, parents: seq<Node>,
                                       u: seq<Node>, cs: seq<Change>, n: Node)
    requires |j.parentKey| == |j.childKey| && TotalOrder(cmp) && Sorted(cmp, parents) && n in parents
    ensures Inside(cmp, ChildSteps(j, child, parents, u, cs), n.row) == About(j, n.row, cs)
    ensures AllInside(ChildSteps(j, child, parents, u, cs), j.rel)
    decreases |cs|
  {
    hide Apply, TotalOrder, Sorted, IsJoinMatch, Attach;
    if cs != [] {
      var c, next := cs[0], Apply(child, u, cs[0]);
      var matching := Filtered(parents, ParentOf(j, c.node.row));
      FilteredFacts(cmp, parents, ParentOf(j, c.node.row));
      InsideChanges(j, cmp, matching, next, c, n.row);
      TellsOnce(cmp, parents, matching, n);
      InsideSteps(j, cmp, child, parents, next, cs[1..], n);
      InsideConcat(cmp, ChildStep(j, parents, next, c), ChildSteps(j, child, parents, next, cs[1..]), n.row);
    }
  }

  lemma TellsOnce(cmp: Comparator, parents: seq<Node>, matching: seq<Node>, n: Node)
    requires TotalOrder(cmp) && Sorted(cmp, parents) && n in parents && forall m | m in matching :: m in parents
    ensures (exists m :: m in matching && cmp(m.row, n.row) == 0) <==> n in matching
  {
    assert cmp(n.row, n.row) == 0;
    forall m | m in matching && cmp(m.row, n.row) == 0 ensures m == n {
      SamePositionSameNode(cmp, parents, m, n);
    }
  }

  // ----- both sides

  /** The changed parent has the same children before and after. */
  ghost predicate Settled(j: Correlation, before: seq<Node>, after: seq<Node>, p: Change)
    requires |j.parentKey| == |j.childKey|
  {
    ChildrenOf(j, before, p.node.row) == ChildrenOf(j, after, p.node.row)
  }

  ghost predicate AllSettled(j: Correlation, before: seq<Node>, after: seq<Node>, ps: seq<Change>)
    requires |j.parentKey| == |j.childKey|
  {
    forall p | p in ps :: Settled(j, before, after, p)
  }

  /** Nothing follows an added node: so it is with one change, and with a removal and an addition. */
  ghost predicate AddsLast(ps: seq<Change>) {
    forall i | 0 <= i < |ps| - 1 :: !ps[i].Add?
  }

  lemma OldRowSettled(j: Correlation, before: seq<Node>, after: seq<Node>, p: Change)
    requires |j.parentKey| == |j.childKey| && KeepsKey(j.parentKey, p) && p.Edit?
    ensures ChildrenOf(j, before, p.oldNode.row) == ChildrenOf(j, before, p.node.row)
    ensures ChildrenOf(j, after, p.oldNode.row) == ChildrenOf(j, after, p.node.row)
  {
    forall c: Node ensures ChildOf(j, p.oldNode.row)(c) == ChildOf(j, p.node.row)(c) {
      SameKeySameMatches(p.oldNode.row, p.node.row, j.parentKey, c.row, j.childKey);
    }
    FilteredSame(before, ChildOf(j, p.oldNode.row), ChildOf(j, p.node.row));
    FilteredSame(after, ChildOf(j, p.oldNode.row), ChildOf(j, p.node.row));
  }

  /** What is sent for a parent does not depend on which children are seen exactly if they are the same. */
  lemma SettledStep(j: Correlation, before: seq<Node>, after: seq<Node>, p: Change)
    requires |j.parentKey| == |j.childKey| && KeepsKey(j.parentKey, p)
    ensures ParentStep(j, after, p) == ParentStep(j, before, p) <==> Settled(j, before, after, p)
  {
    hide ChildrenOf;
    AttachSame(j, after, before, p.node);
    if p.Edit? {
      OldRowSettled(j, before, after, p);
      AttachSame(j, after, before, p.oldNode);
    }
  }

  lemma {:induction false} SettledSteps(j: Correlation, before: seq<Node>, after: seq<Node>, ps: seq<Change>)
    requires |j.parentKey| == |j.childKey| && AllKeepKey(j.parentKey, ps)
    ensures ParentSteps(j, after, ps) == ParentSteps(j, before, ps) <==> AllSettled(j, before, after, ps)
  {
    hide Settled, ParentStep, KeepsKey;
    if ps != [] {
      HeadTail(ps);
      SettledStep(j, before, after, ps[0]);
      SettledSteps(j, before, after, ps[1..]);
      var a, b := ParentSteps(j, after, ps), ParentSteps(j, before, ps);
      assert a[0] == ParentStep(j, after, ps[0]) && b[0] == ParentStep(j, before, ps[0]);
      assert a[1..] == ParentSteps(j, after, ps[1..]) && b[1..] == ParentSteps(j, before, ps[1..]);
    }
  }

  /** A parent that is added with the new children is then told of them again. */
  lemma AddedIsToldTwice(j: Correlation, parent: Schema, child: Schema, parents: seq<Node>, p: Change,
                         before: seq<Node>, cs: seq<Change>, after: seq<Node>, w: seq<Node>)
    requires Joinable(j, parent, child) && Sorted(parent.cmp, parents) && Legal(parent, parents, p) && p.Add?
    requires Sorted(child.cmp, before) && Carries(child, before, cs, after) && AllKeepKey(j.childKey, cs)
    requires !Settled(j, before, after, p)
    ensures var out := JoinSchema(j, parent, child);
            !Carries(out, Apply(out, Joined(j, parents, before), ParentStep(j, after, p)),
                     ChildSteps(j, child, Apply(parent, parents, p), before, cs), w)
  {
    hide Sorted, TotalOrder, Carries, Joined, Apply, Legal, ChildSteps, AllKeepKey, Filtered;
    var out, n, now := JoinSchema(j, parent, child), p.node, Apply(parent, parents, p);
    var u := Apply(out, Joined(j, parents, before), ParentStep(j, after, p));
    var steps := ChildSteps(j, child, now, before, cs);
    AddedIsShown(j, parent, child, parents, p, before, after);
    ApplyFacts(parent, parents, p);
    InsideSteps(j, out.cmp, child, now, before, cs, n);
    ListCarried(j, child, before, cs, after, n.row);
    if Carries(out, u, steps, w) {
      InsideCarried(out, u, steps, w, n.row, j.rel);
      NotTwiceAll(child, ChildrenOf(j, before, n.row), About(j, n.row, cs), ChildrenOf(j, after, n.row),
                  ListAt(out.cmp, w, n.row, j.rel));
    }
  }

  lemma AddedIsShown(j: Correlation, parent: Schema, child: Schema, parents: seq<Node>, p: Change, before: seq<Node>,
                     after: seq<Node>)
    requires Joinable(j, parent, child) && Sorted(parent.cmp, parents) && Legal(parent, parents, p) && p.Add?
    ensures var out := JoinSchema(j, parent, child);
            var u := Apply(out, Joined(j, parents, before), ParentStep(j, after, p));
            && Sorted(out.cmp, u) && Shows(out.cmp, u, p.node.row, j.rel)
            && ListAt(out.cmp, u, p.node.row, j.rel) == ChildrenOf(j, after, p.node.row)
  {
    hide ChildrenOf;
    var out, v, m := JoinSchema(j, parent, child), Joined(j, parents, before), Attach(j, after, p.node);
    assert Sorted(out.cmp, v);
    SamePositions(j, parent.cmp, parents, before, p.node.row);
    ApplyFacts(out, v, Add(m));
    MemberAt(out.cmp, Apply(out, v, Add(m)), m);
    assert m.rels[j.rel] == ChildrenOf(j, after, p.node.row);
  }

  /** The changes of the two sides, each with the view that it is carried through. */
  ghost predicate SidesChange(j: Correlation, parent: Schema, child: Schema, s0: seq<Node>, ps: seq<Change>,
                              t0: seq<Node>,
                              s1: seq<Node>, cs: seq<Change>, t1: seq<Node>) {
    && Joinable(j, parent, child)
    && Sorted(parent.cmp, s0) && Carries(parent, s0, ps, t0) && AllKeepKey(j.parentKey, ps) && AddsLast(ps)
    && Sorted(child.cmp, s1) && Carries(child, s1, cs, t1) && AllKeepKey(j.childKey, cs)
  }

  /** Where some changed parent has other children after, the client is sent what it cannot apply. */
  lemma {:induction false} UnsettledIsNotCarried(j: Correlation, parent: Schema, child: Schema, s0: seq<Node>,
                                                 ps: seq<Change>, t0: seq<Node>,
                                                 s1: seq<Node>, cs: seq<Change>, t1: seq<Node>, w: seq<Node>)
    requires SidesChange(j, parent, child, s0, ps, t0, s1, cs, t1) && !AllSettled(j, s1, t1, ps)
    ensures !Carries(JoinSchema(j, parent, child), Joined(j, s0, s1),
                     ParentSteps(j, t1, ps) + ChildSteps(j, child, t0, s1, cs), w)
    decreases |ps|
  {
    hide Sorted, TotalOrder, Joined, Apply, Legal, ChildSteps, KeepsKey, ParentStep, Settled, Consistent;
    var out, p, v := JoinSchema(j, parent, child), ps[0], Joined(j, s0, s1);
    var step, next := ParentStep(j, t1, p), Apply(parent, s0, p);
    var rest := ParentSteps(j, t1, ps[1..]) + ChildSteps(j, child, t0, s1, cs);
    HeadTail(ps);
    ApplyFacts(parent, s0, p);
    assert ParentSteps(j, t1, ps) + ChildSteps(j, child, t0, s1, cs) == [step] + rest;
    assert ([step] + rest)[1..] == rest;
    if Settled(j, s1, t1, p) {
      SettledStep(j, s1, t1, p);
      ParentStepCarries(j, parent, child, s0, s1, p);
      UnsettledIsNotCarried(j, parent, child, next, ps[1..], t0, s1, cs, t1, w);
    } else if p.Add? {
      assert ps[1..] == [];
      CarriesEmpty(parent, next, t0);
      assert rest == ChildSteps(j, child, t0, s1, cs);
      AddedIsToldTwice(j, parent, child, s0, p, s1, cs, t1, w);
    } else {
      UnsettledStep(j, parent, child, s0, s1, t1, p);
    }
  }

  lemma UnsettledStep(j: Correlation, parent: Schema, child: Schema, s0: seq<Node>, s1: seq<Node>, t1: seq<Node>,
                      p: Change)
    requires Joinable(j, parent, child) && Sorted(parent.cmp, s0) && Legal(parent, s0, p) && !p.Add?
    requires KeepsKey(j.parentKey, p) && !Settled(j, s1, t1, p)
    ensures !Legal(JoinSchema(j, parent, child), Joined(j, s0, s1), ParentStep(j, t1, p))
  {
    hide Legal, Sorted, TotalOrder, ChildrenOf;
    if p.Edit? { OldRowSettled(j, s1, t1, p); }
    StaleIsIllegal(j, parent, child, s0, s1, t1, p);
  }

  // ----- in a pipeline

  lemma GoodKeep(names: set<string>, split: set<string>, key: Key, chs: seq<Change>)
    requires AllGood(names, split, chs) && Columns(key) <= split
    ensures AllKeepKey(key, chs)
  {
    hide Good, KeepsKey;
    forall c | c in chs ensures KeepsKey(key, c) {
      GoodKeepsKey(names, split, key, c);
    }
  }

  /** A connection of each side of a join is told of a change, the parents' first: the world before, with the
      parents' change, with the children's, and with both. */
  ghost predicate BothTold(parent: Pipe, child: Pipe, j: Correlation, S: seq<Schema>, split: seq<set<string>>, T: World,
                           a: nat, ca: Change, b: nat, cb: Change) {
    && |S| == |split| && Wired(JoinOf(parent, child, j), S, split) && Closed(parent, |S|) && Closed(child, |S|)
      && Sound(S, T)
    && Incoming(S, split, T, a, ca) && a in Conns(parent) && Incoming(S, split, T, b, cb) && b in Conns(child)
    && AddsLast(Emit(parent, S, T, a, ca))
  }

  /** If the parents are told while the children are already seen changed, the client is sent the same, and its
      view is carried, exactly if every changed parent has the same children before and after. */
  lemma SidesAtOnceIff(parent: Pipe, child: Pipe, j: Correlation, S: seq<Schema>, split: seq<set<string>>, T: World,
                       a: nat, ca: Change, b: nat, cb: Change)
    requires BothTold(parent, child, j, S, split, T, a, ca, b, cb)
    ensures var p, U, V := JoinOf(parent, child, j), WorldAfter(S, T, a, ca), WorldAfter(S, T, b, cb);
            var settled := |j.parentKey| == |j.childKey|
              && AllSettled(j, View(child, S, T), View(child, S, V), Emit(parent, S, T, a, ca));
            && Closed(p, |S|) && |j.parentKey| == |j.childKey|
            && (Emit(p, S, V, a, ca) == Emit(p, S, T, a, ca) <==> settled)
            && (settled <==> Carries(PipeSchema(p, S), View(p, S, T), Emit(p, S, V, a, ca) + Emit(p, S, U, b, cb),
                                     View(p, S, WorldAfter(S, U, b, cb))))
  {
    hide Carries, AllGood, Good, Shaped, Sorted, TotalOrder, Legal, Apply, ParentSteps, ChildSteps, Joined,
         AllSettled, AddsLast, Emit, View, AllKeepKey;
    var p, U, V := JoinOf(parent, child, j), WorldAfter(S, T, a, ca), WorldAfter(S, T, b, cb);
    var ps, cs := Emit(parent, S, T, a, ca), Emit(child, S, T, b, cb);
    var s0, t0, s1, t1 := View(parent, S, T), View(parent, S, U), View(child, S, T), View(child, S, V);
    TwoSides(parent, child, j, S, split, T, a, ca, b, cb);
    ViewFacts(parent, S, split, T);
    ViewFacts(child, S, split, T);
    PipeCarries(parent, S, split, T, a, ca);
    PipeCarries(child, S, split, T, b, cb);
    GoodKeep(RelNames(parent), split[Root(parent)], j.parentKey, ps);
    GoodKeep(RelNames(child), split[Root(child)], j.childKey, cs);
    SettledSteps(j, s1, t1, ps);
    WiredShape(parent, S, split);
    var w := Joined(j, t0, t1);
    if AllSettled(j, s1, t1, ps) {
      var out := PipeSchema(p, S);
      ParentStepsCarry(j, PipeSchema(parent, S), PipeSchema(child, S), RelNames(parent), split[Root(parent)], s0, s1,
                       ps, t0);
      ParentsShaped(parent, child, j, S, split, T, a, ca);
      ChildStepsCarry(j, PipeSchema(parent, S), PipeSchema(child, S), RelNames(parent), split[Root(parent)],
                      RelNames(child), split[Root(child)],
                      t0, s1, cs, t1);
      CarriesConcat(out, Joined(j, s0, s1), ParentSteps(j, s1, ps), Joined(j, t0, s1),
                    ChildSteps(j, PipeSchema(child, S), t0, s1, cs), w);
    } else {
      UnsettledIsNotCarried(j, PipeSchema(parent, S), PipeSchema(child, S), s0, ps, t0, s1, cs, t1, w);
    }
  }

  lemma ParentsShaped(parent: Pipe, child: Pipe, j: Correlation, S: seq<Schema>, split: seq<set<string>>, T: World,
                      a: nat, ca: Change)
    requires |S| == |split| && Wired(JoinOf(parent, child, j), S, split) && Sound(S, T) && Incoming(S, split, T, a, ca)
    requires a in Conns(parent) && Closed(parent, |S|)
    ensures var t0 := View(parent, S, WorldAfter(S, T, a, ca));
            Sorted(PipeSchema(parent, S).cmp, t0) && Shaped(RelNames(parent), t0)
  {
    OrderedConns(parent, S, split, a);
    StaysSound(S, split, T, a, ca);
    ViewFacts(parent, S, split, WorldAfter(S, T, a, ca));
  }

  /** What each side shows and emits in the four worlds. */
  lemma TwoSides(parent: Pipe, child: Pipe, j: Correlation, S: seq<Schema>, split: seq<set<string>>, T: World, a: nat,
                 ca: Change, b: nat, cb: Change)
    requires BothTold(parent, child, j, S, split, T, a, ca, b, cb)
    ensures var p, U, V := JoinOf(parent, child, j), WorldAfter(S, T, a, ca), WorldAfter(S, T, b, cb);
            var ps, cs, s0, t0, s1, t1 := Emit(parent, S, T, a, ca), Emit(child, S, T, b, cb), View(parent, S, T),
              View(parent, S, U), View(child, S, T), View(child, S, V);
            && Closed(p, |S|) && |j.parentKey| == |j.childKey| && a != b
            && View(p, S, T) == Joined(j, s0, s1) && View(p, S, WorldAfter(S, U, b, cb)) == Joined(j, t0, t1)
            && Emit(p, S, T, a, ca) == ParentSteps(j, s1, ps) && Emit(p, S, V, a, ca) == ParentSteps(j, t1, ps)
            && Emit(p, S, U, b, cb) == ChildSteps(j, PipeSchema(child, S), t0, s1, cs)
            && PipeSchema(p, S) == JoinSchema(j, PipeSchema(parent, S), PipeSchema(child, S))
  {
    hide Legal, Apply, Good, AddsLast, Sorted, ParentSteps, ChildSteps, Joined;
    var U, V := WorldAfter(S, T, a, ca), WorldAfter(S, T, b, cb);
    var W := WorldAfter(S, U, b, cb);
    assert U[b] == T[b] && W == U[b := W[b]] && V == T[b := W[b]];
    OtherConnection(parent, S, U, b, W[b]);
    EmitIsLocal(parent, S, T, V, a, ca);
    EmitIsLocal(child, S, T, U, b, cb);
    EmitIsLocal(child, S, W, V, b, cb);
  }

  // ----- how many changes a pipeline makes of one of its own rows

  /** There is no limit between the pipeline's own connection and its output. */
  predicate Unlimited(p: Pipe) {
    match p
    case Input(_) => true
    case Unary(op, input) => !op.Limit? && Unlimited(input)
    case JoinOf(parent, _, _) => Unlimited(parent)
  }

  /** There is at most one limit, with nothing but joins above it. */
  predicate LimitedOnce(p: Pipe) {
    match p
    case Input(_) => true
    case Unary(op, input) => Unlimited(input)
    case JoinOf(parent, _, _) => LimitedOnce(parent)
  }

  lemma {:induction false} UnlimitedEmitsOne(p: Pipe, S: seq<Schema>, T: World, ch: Change)
    requires |S| == |T| && Closed(p, |S|) && Unlimited(p)
    ensures Root(p) in Conns(p) && |Emit(p, S, T, Root(p), ch)| <= 1
  {
    match p
    case Input(_) =>
    case Unary(op, input) =>
      UnlimitedEmitsOne(input, S, T, ch);
      OneThroughOp(PipeSchema(input, S), op, View(input, S, T), Emit(input, S, T, Root(p), ch));
    case JoinOf(parent, child, j) =>
      UnlimitedEmitsOne(parent, S, T, ch);
      SameNumber(j, View(child, S, T), Emit(parent, S, T, Root(p), ch));
  }

  lemma OneThroughOp(sch: Schema, op: Op, s: seq<Node>, chs: seq<Change>)
    requires |chs| <= 1
    ensures !op.Limit? ==> |OpSteps(sch, op, s, chs)| <= 1
    ensures AddsLast(OpSteps(sch, op, s, chs))
  {
    hide Legal, Apply, PushChain, FilterPush, WindowStep, Sorted, TotalOrder;
    if chs != [] {
      var c := chs[0];
      assert OpSteps(sch, op, Apply(sch, s, c), chs[1..]) == [];
      if op.Limit? && TotalOrder(sch.cmp) && Sorted(sch.cmp, s) && Legal(sch, s, c)
        && KeepsPartition(op.partitionKey, c) {
        var k := KeyOf(op.partitionKey, c.node.row);
        PartApply(sch, s, c, op.partitionKey, k);
        WindowStepShape(sch, op.limit, Part(s, op.partitionKey, k), c);
      }
    }
  }

  lemma {:induction false} SameNumber(j: Correlation, children: seq<Node>, chs: seq<Change>)
    requires |j.parentKey| == |j.childKey|
    ensures |ParentSteps(j, children, chs)| == |chs|
    ensures forall i | 0 <= i < |chs| :: ParentSteps(j, children, chs)[i].Add? == chs[i].Add?
  {
    if chs != [] { SameNumber(j, children, chs[1..]); }
  }

  lemma {:induction false} LimitedAddsLast(p: Pipe, S: seq<Schema>, T: World, ch: Change)
    requires |S| == |T| && Closed(p, |S|) && LimitedOnce(p)
    ensures Root(p) in Conns(p) && AddsLast(Emit(p, S, T, Root(p), ch))
  {
    match p
    case Input(_) =>
    case Unary(op, input) =>
      UnlimitedEmitsOne(input, S, T, ch);
      OneThroughOp(PipeSchema(input, S), op, View(input, S, T), Emit(input, S, T, Root(p), ch));
    case JoinOf(parent, child, j) =>
      LimitedAddsLast(parent, S, T, ch);
      SameNumber(j, View(child, S, T), Emit(parent, S, T, Root(p), ch));
  }

  lemma {:induction false} JoinAllLimitedOnce(bound: nat, list: seq<CorrelatedSubquery>, keys: Keys, parent: Pipe,
                                              feeds: seq<Feed>)
    requires FitsIn(list, bound) && ChildrenBuildable(bound, list, keys)
    ensures var p := JoinAll(bound, list, keys, parent, feeds).0;
            Root(p) == Root(parent) && (Unlimited(parent) ==> Unlimited(p)) && (LimitedOnce(parent) ==> LimitedOnce(p))
    decreases |list|
  {
    hide Buildable, Build;
    if list != [] {
      var q := list[0];
      var (child, grown) := Build(q.subquery, keys, q.childField, feeds);
      JoinAllLimitedOnce(bound, list[1..], keys,
                         JoinOf(parent, child, Correlation(q.parentField, q.childField, RelName(q))), grown);
    }
  }

  lemma {:induction false} UnlimitedIsOnce(p: Pipe)
    requires Unlimited(p)
    ensures LimitedOnce(p)
  {
    match p
    case Input(_) =>
    case Unary(_, _) =>
    case JoinOf(parent, _, _) => UnlimitedIsOnce(parent);
  }

  /** Every pipeline that the builder makes is of that kind, so an added row comes last in what it emits. */
  lemma {:induction false} BuildIsLimitedOnce(ast: AST, keys: Keys, partitionKey: Key, feeds: seq<Feed>)
    requires Buildable(ast, keys)
    ensures var p := Build(ast, keys, partitionKey, feeds).0;
            Root(p) == |feeds| && LimitedOnce(p)
  {
    hide ChildrenBuildable, JoinAll, Renamed, Subqueries, ExistsChildren, Dedupe;
    ChildrenFit(ast);
    var f0 := feeds + [Feed(ast.table, Connect(ast, keys[ast.table], partitionKey))];
    var joined := JoinAll(SizeOf(ast), ExistsChildren(Subqueries(Renamed(ast))), keys, Skipped(ast, Input(|feeds|)),
                          f0).0;
    JoinAllLimitedOnce(SizeOf(ast), ExistsChildren(Subqueries(Renamed(ast))), keys, Skipped(ast, Input(|feeds|)), f0);
    var (rows, f1) := BuildRows(ast, keys, partitionKey, feeds);
    UnlimitedIsOnce(Checked(ast, joined));
    JoinAllLimitedOnce(SizeOf(ast), Dedupe(ast.related), keys, rows, f1);
  }
}
