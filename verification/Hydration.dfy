/**
  Which partitions a Take has hydrated, seen from the join above it (ivm/take.go, ivm/join.go): as long as
  the keys of all shown parents are among them, the join shows and emits what it would with all of them.
 */
module Hydration {
  import opened Values
  import opened Seqs
  import opened Views
  import opened JoinUtils
  import opened Fetching
  import opened TakeSpec
  import opened TakeRules
  import opened TakeUnion
  import opened JoinSpec
  import opened Pipeline

  /** The partitions that the parents ask for are hydrated. A parent with a null in its key asks for none. */
  ghost predicate ParentsHydrated(j: Correlation, parents: seq<Node>, hydrated: iset<PartitionKey>) {
    forall p | p in parents && NoNulls(KeyOf(j.parentKey, p.row)) :: KeyOf(j.parentKey, p.row) in hydrated
  }

  lemma MatchIsKey(j: Correlation, parent: Row, child: Row)
    requires |j.parentKey| == |j.childKey|
    ensures IsJoinMatch(parent, j.parentKey, child, j.childKey) <==>
            NoNulls(KeyOf(j.childKey, child)) && KeyOf(j.parentKey, parent) == KeyOf(j.childKey, child)
  {
    var a, b := KeyOf(j.parentKey, parent), KeyOf(j.childKey, child);
    if NoNulls(b) && a == b {
      forall i | 0 <= i < |j.parentKey| ensures ValuesEqual(Get(parent, j.parentKey[i]), Get(child, j.childKey[i])) {
        assert a[i] == b[i] && !b[i].Null?;
      }
    }
  }

  // ----- what is shown

  lemma ChildrenHydrated(j: Correlation, limit: nat, hydrated: iset<PartitionKey>, s: seq<Node>, row: Row)
    requires |j.parentKey| == |j.childKey| && (NoNulls(KeyOf(j.parentKey, row)) ==> KeyOf(j.parentKey, row) in hydrated)
    ensures ChildrenOf(j, Shown(limit, j.childKey, hydrated, s), row)
            == ChildrenOf(j, Shown(limit, j.childKey, Askable(), s), row)
  {
    hide Window, Part;
    var mine, all, of := InWindow(limit, j.childKey, hydrated, s), InWindow(limit, j.childKey, Askable(), s),
      ChildOf(j, row);
    forall c | c in s ensures mine(c) && of(c) <==> all(c) && of(c) {
      MatchIsKey(j, row, c.row);
    }
    FilteredTwice(s, mine, of, n => all(n) && of(n));
    FilteredTwice(s, all, of, n => all(n) && of(n));
  }

  lemma JoinShowsHydrated(j: Correlation, limit: nat, hydrated: iset<PartitionKey>, parents: seq<Node>, s: seq<Node>)
    requires |j.parentKey| == |j.childKey| && ParentsHydrated(j, parents, hydrated)
    ensures Joined(j, parents, Shown(limit, j.childKey, hydrated, s))
            == Joined(j, parents, Shown(limit, j.childKey, Askable(), s))
  {
    hide Shown;
    forall i | 0 <= i < |parents|
      ensures Attach(j, Shown(limit, j.childKey, hydrated, s), parents[i])
              == Attach(j, Shown(limit, j.childKey, Askable(), s), parents[i])
    {
      ChildrenHydrated(j, limit, hydrated, s, parents[i].row);
    }
  }

  /** What is sent for a change of the parents, once the keys of the changed parent are hydrated too. */
  lemma ParentStepHydrated(j: Correlation, limit: nat, hydrated: iset<PartitionKey>, s: seq<Node>, ch: Change)
    requires |j.parentKey| == |j.childKey|
             && ParentsHydrated(j, if ch.Edit? then [ch.node, ch.oldNode] else [ch.node], hydrated)
    ensures ParentStep(j, Shown(limit, j.childKey, hydrated, s), ch)
            == ParentStep(j, Shown(limit, j.childKey, Askable(), s), ch)
  {
    hide Shown;
    ChildrenHydrated(j, limit, hydrated, s, ch.node.row);
    if ch.Edit? {
      assert ch.oldNode in [ch.node, ch.oldNode];
      ChildrenHydrated(j, limit, hydrated, s, ch.oldNode.row);
    }
  }

  // ----- what is emitted

  /** Every parent has the same children in the two lists. */
  ghost predicate SameChildren(j: Correlation, parents: seq<Node>, u: seq<Node>, v: seq<Node>)
    requires |j.parentKey| == |j.childKey|
  {
    forall p | p in parents :: ChildrenOf(j, u, p.row) == ChildrenOf(j, v, p.row)
  }

  lemma SameAfter(j: Correlation, child: Schema, parents: seq<Node>, u: seq<Node>, v: seq<Node>, c: Change)
    requires ValidKeys(j) && TotalOrder(child.cmp) && Sorted(child.cmp, u) && Sorted(child.cmp, v)
             && SameChildren(j, parents, u, v)
    requires Legal(child, u, c) && Legal(child, v, c) && KeepsKey(j.childKey, c)
    ensures Sorted(child.cmp, Apply(child, u, c)) && Sorted(child.cmp, Apply(child, v, c))
    ensures SameChildren(j, parents, Apply(child, u, c), Apply(child, v, c))
    ensures ChildStep(j, parents, Apply(child, u, c), c) == ChildStep(j, parents, Apply(child, v, c), c)
  {
    hide Legal, Apply, TotalOrder, Sorted, ChildrenOf, IsJoinMatch, KeepsKey, Filtered;
    ApplyFacts(child, u, c);
    ApplyFacts(child, v, c);
    forall p | p in parents ensures ChildrenOf(j, Apply(child, u, c), p.row)
      == ChildrenOf(j, Apply(child, v, c), p.row) {
      ChildrenAfter(j, child, u, c, p.row);
      ChildrenAfter(j, child, v, c, p.row);
    }
    FilteredMembers(parents, ParentOf(j, c.node.row));
    var matching := Filtered(parents, ParentOf(j, c.node.row));
    forall i | 0 <= i < |matching| ensures Attach(j, Apply(child, u, c), matching[i])
      == Attach(j, Apply(child, v, c), matching[i]) {
      assert matching[i] in matching;
    }
  }

  /** The same changes of two lists in which every parent has the same children. */
  lemma {:induction false} SameSteps(j: Correlation, child: Schema, parents: seq<Node>, u: seq<Node>, v: seq<Node>,
                                     chs: seq<Change>, t: seq<Node>, w: seq<Node>)
    requires ValidKeys(j) && TotalOrder(child.cmp) && Sorted(child.cmp, u) && Sorted(child.cmp, v)
             && SameChildren(j, parents, u, v)
    requires Carries(child, u, chs, t) && Carries(child, v, chs, w) && AllKeepKey(j.childKey, chs)
    ensures ChildSteps(j, child, parents, u, chs) == ChildSteps(j, child, parents, v, chs)
    decreases |chs|
  {
    hide Legal, Apply, TotalOrder, Sorted, SameChildren, ChildStep, ValidKeys, KeepsKey;
    if chs != [] {
      SameAfter(j, child, parents, u, v, chs[0]);
      SameSteps(j, child, parents, Apply(child, u, chs[0]), Apply(child, v, chs[0]), chs[1..], t, w);
    }
  }

  /** Changes of a partition that no parent asks for reach no parent. */
  lemma {:induction false} NobodyTold(j: Correlation, child: Schema, parents: seq<Node>, u: seq<Node>, chs: seq<Change>)
    requires |j.parentKey| == |j.childKey|
    requires forall c, p | c in chs && p in parents :: !IsJoinMatch(p.row, j.parentKey, c.node.row, j.childKey)
    ensures ChildSteps(j, child, parents, u, chs) == []
    decreases |chs|
  {
    if chs != [] {
      NobodyTold(j, child, parents, Apply(child, u, chs[0]), chs[1..]);
      var matching := Filtered(parents, ParentOf(j, chs[0].node.row));
      FilteredMembers(parents, ParentOf(j, chs[0].node.row));
      NoMembers(matching);
    }
  }

  /** All that a Take sends for one change is about the partition of the change. */
  lemma StepKeys(sch: Schema, limit: nat, key: Key, hydrated: iset<PartitionKey>, s: seq<Node>, ch: Change)
    requires TotalOrder(sch.cmp) && Sorted(sch.cmp, s) && Legal(sch, s, ch) && KeepsPartition(key, ch)
             && KeepsKey(key, ch)
    ensures forall c | c in TakeStep(sch, limit, key, hydrated, s, ch) ::
              KeyOf(key, c.node.row) == KeyOf(key, ch.node.row)
    ensures AllKeepKey(key, TakeStep(sch, limit, key, hydrated, s, ch))
  {
    hide Legal, Apply, WindowStep, TotalOrder, Sorted;
    var k := KeyOf(key, ch.node.row);
    PartApply(sch, s, ch, key, k);
    WindowStepDerived(sch, limit, Part(s, key, k), ch);
    FilteredMembers(s, KeyIs(key, k));
    FilteredMembers(Apply(sch, s, ch), KeyIs(key, k));
  }

  /** One change of the input of a Take, seen from the join above it. */
  lemma HydratedStep(j: Correlation, child: Schema, limit: nat, hydrated: iset<PartitionKey>, parents: seq<Node>,
                     s: seq<Node>, ch: Change)
    requires ValidKeys(j) && TotalOrder(child.cmp) && Sorted(child.cmp, s) && Legal(child, s, ch)
    requires KeepsKey(j.childKey, ch) && KeepsPartition(j.childKey, ch) && ParentsHydrated(j, parents, hydrated)
    ensures ChildSteps(j, child, parents, Shown(limit, j.childKey, hydrated, s),
                       TakeStep(child, limit, j.childKey, hydrated, s, ch))
            == ChildSteps(j, child, parents, Shown(limit, j.childKey, Askable(), s),
                          TakeStep(child, limit, j.childKey, Askable(), s, ch))
  {
    hide Legal, Apply, TotalOrder, Sorted, Shown, TakeStep, WindowStep, ChildSteps, Carries, KeepsKey, IsJoinMatch,
         NoNulls, KeepsPartition;
    var u, v := Shown(limit, j.childKey, hydrated, s), Shown(limit, j.childKey, Askable(), s);
    var a, b := TakeStep(child, limit, j.childKey, hydrated, s, ch),
      TakeStep(child, limit, j.childKey, Askable(), s, ch);
    StepKeys(child, limit, j.childKey, hydrated, s, ch);
    StepKeys(child, limit, j.childKey, Askable(), s, ch);
    if p :| p in parents && IsJoinMatch(p.row, j.parentKey, ch.node.row, j.childKey) {
      MatchIsKey(j, p.row, ch.node.row);
      SameTakeStep(child, limit, j.childKey, hydrated, s, ch);
      TakeCarries(child, limit, j.childKey, hydrated, s, ch);
      TakeCarries(child, limit, j.childKey, Askable(), s, ch);
      ShownSorted(child.cmp, limit, j.childKey, hydrated, s);
      ShownSorted(child.cmp, limit, j.childKey, Askable(), s);
      forall p | p in parents ensures ChildrenOf(j, u, p.row) == ChildrenOf(j, v, p.row) {
        ChildrenHydrated(j, limit, hydrated, s, p.row);
      }
      SameSteps(j, child, parents, u, v, a, Shown(limit, j.childKey, hydrated, Apply(child, s, ch)),
                Shown(limit, j.childKey, Askable(), Apply(child, s, ch)));
    } else {
      forall c: Change, p | c in a + b && p in parents
        ensures !IsJoinMatch(p.row, j.parentKey, c.node.row, j.childKey) {
        MatchIsKey(j, p.row, c.node.row);
        MatchIsKey(j, p.row, ch.node.row);
      }
      NobodyTold(j, child, parents, u, a);
      NobodyTold(j, child, parents, v, b);
    }
  }

  lemma ShownSorted(cmp: Comparator, limit: nat, key: Key, hydrated: iset<PartitionKey>, s: seq<Node>)
    requires Sorted(cmp, s)
    ensures Sorted(cmp, Shown(limit, key, hydrated, s))
  {
    FilteredFacts(cmp, s, InWindow(limit, key, hydrated, s));
  }

  lemma SameTakeStep(child: Schema, limit: nat, key: Key, hydrated: iset<PartitionKey>, s: seq<Node>, ch: Change)
    requires TotalOrder(child.cmp) && Sorted(child.cmp, s) && Legal(child, s, ch) && KeepsPartition(key, ch)
    requires NoNulls(KeyOf(key, ch.node.row)) && KeyOf(key, ch.node.row) in hydrated
    ensures TakeStep(child, limit, key, hydrated, s, ch) == TakeStep(child, limit, key, Askable(), s, ch)
  {
  }

  // ----- lists of changes

  lemma {:induction false} ChildStepsConcat(j: Correlation, child: Schema, parents: seq<Node>, u: seq<Node>,
                                            a: seq<Change>, b: seq<Change>, t: seq<Node>)
    requires |j.parentKey| == |j.childKey| && Carries(child, u, a, t)
    ensures ChildSteps(j, child, parents, u, a + b)
            == ChildSteps(j, child, parents, u, a) + ChildSteps(j, child, parents, t, b)
    decreases |a|
  {
    hide Legal, Apply, ChildStep;
    if a == [] {
      assert a + b == b;
    } else {
      ConcatSplit(a, b);
      ChildStepsConcat(j, child, parents, Apply(child, u, a[0]), a[1..], b, t);
    }
  }

  /** What a Take sends for a list of changes, when the partitions `hydrated` are. */
  ghost function HydratedSteps(sch: Schema, limit: nat, key: Key, hydrated: iset<PartitionKey>, s: seq<Node>,
                               chs: seq<Change>): seq<Change>
    decreases |chs|
  {
    if chs == [] then []
    else
      (if TotalOrder(sch.cmp) && Sorted(sch.cmp, s) && Legal(sch, s, chs[0]) && KeepsPartition(key, chs[0])
       then TakeStep(sch, limit, key, hydrated, s, chs[0]) else [])
      + HydratedSteps(sch, limit, key, hydrated, Apply(sch, s, chs[0]), chs[1..])
  }

  lemma {:induction false} HydratedStepsSame(j: Correlation, child: Schema, limit: nat, hydrated: iset<PartitionKey>,
                                             parents: seq<Node>,
                                             names: set<string>, split: set<string>, s: seq<Node>, chs: seq<Change>,
                                               t: seq<Node>)
    requires ValidKeys(j) && TotalOrder(child.cmp) && Sorted(child.cmp, s) && Carries(child, s, chs, t)
    requires AllGood(names, split, chs) && Columns(j.childKey) <= split && ParentsHydrated(j, parents, hydrated)
    ensures ChildSteps(j, child, parents, Shown(limit, j.childKey, hydrated, s),
                       HydratedSteps(child, limit, j.childKey, hydrated, s, chs))
            == ChildSteps(j, child, parents, Shown(limit, j.childKey, Askable(), s),
                          OpSteps(child, Limit(limit, j.childKey), s, chs))
    decreases |chs|
  {
    hide Legal, Apply, TotalOrder, Sorted, Shown, TakeStep, ChildSteps, Good, ParentsHydrated, KeepsKey, KeepsPartition;
    if chs == [] {
      NobodyTold(j, child, parents, Shown(limit, j.childKey, hydrated, s), []);
      NobodyTold(j, child, parents, Shown(limit, j.childKey, Askable(), s), []);
    } else {
      var c, key := chs[0], j.childKey;
      var next := Apply(child, s, c);
      assert Good(names, split, c);
      GoodKeepsKey(names, split, key, c);
      ApplyFacts(child, s, c);
      HydratedStep(j, child, limit, hydrated, parents, s, c);
      HydratedStepsSame(j, child, limit, hydrated, parents, names, split, next, chs[1..], t);
      TakeCarries(child, limit, key, hydrated, s, c);
      TakeCarries(child, limit, key, Askable(), s, c);
      ChildStepsConcat(j, child, parents, Shown(limit, key, hydrated, s), TakeStep(child, limit, key, hydrated, s, c),
                       HydratedSteps(child, limit, key, hydrated, next, chs[1..]), Shown(limit, key, hydrated, next));
      ChildStepsConcat(j, child, parents, Shown(limit, key, Askable(), s), TakeStep(child, limit, key, Askable(), s, c),
                       OpSteps(child, Limit(limit, key), next, chs[1..]), Shown(limit, key, Askable(), next));
    }
  }

  // ----- in a pipeline

  /** A join over a limited child, of which only the partitions `hydrated` are: provided that the shown parents'
      keys are among them, the join shows and emits what the pipeline does, and that carries its view. */
  lemma HydratedPipeCarries(parent: Pipe, input: Pipe, limit: nat, j: Correlation, S: seq<Schema>,
                            split: seq<set<string>>, T: World,
                            k: nat, ch: Change, hydrated: iset<PartitionKey>)
    requires |S| == |split| && Wired(JoinOf(parent, Unary(Limit(limit, j.childKey), input), j), S, split)
    requires Sound(S, T) && Incoming(S, split, T, k, ch) && k in Conns(input)
    requires Closed(parent, |S|) && Closed(input, |S|) && ParentsHydrated(j, View(parent, S, T), hydrated)
    ensures var p, U := JoinOf(parent, Unary(Limit(limit, j.childKey), input), j), WorldAfter(S, T, k, ch);
            && Closed(p, |S|) && |j.parentKey| == |j.childKey|
            && var sch, ps := PipeSchema(input, S), View(parent, S, T);
               var shown, afterwards := Shown(limit, j.childKey, hydrated, View(input, S, T)),
                 Shown(limit, j.childKey, hydrated, View(input, S, U));
               var out := ChildSteps(j, sch, ps, shown,
                                     HydratedSteps(sch, limit, j.childKey, hydrated, View(input, S, T),
                                                   Emit(input, S, T, k, ch)));
               && Joined(j, ps, shown) == View(p, S, T) && Joined(j, ps, afterwards) == View(p, S, U)
               && out == Emit(p, S, T, k, ch)
               && Carries(PipeSchema(p, S), Joined(j, ps, shown), out, Joined(j, ps, afterwards))
  {
    hide Carries, AllGood, Good, Shaped, Sorted, TotalOrder, Legal, Apply, OpSteps, HydratedSteps, ChildSteps, Joined,
         Shown, ParentsHydrated, WorldAfter;
    var child := Unary(Limit(limit, j.childKey), input);
    var p, U := JoinOf(parent, child, j), WorldAfter(S, T, k, ch);
    WiredShape(p, S, split);
    ViewFacts(input, S, split, T);
    PipeCarries(input, S, split, T, k, ch);
    PipeCarries(p, S, split, T, k, ch);
    AfterIs(S, split, T, k, ch);
    OtherConnection(parent, S, T, k, U[k]);
    JoinShowsHydrated(j, limit, hydrated, View(parent, S, T), View(input, S, T));
    JoinShowsHydrated(j, limit, hydrated, View(parent, S, T), View(input, S, U));
    HydratedStepsSame(j, PipeSchema(input, S), limit, hydrated, View(parent, S, T), RelNames(input), split[Root(input)],
                      View(input, S, T), Emit(input, S, T, k, ch), View(input, S, U));
  }

  lemma AfterIs(S: seq<Schema>, split: seq<set<string>>, T: World, k: nat, ch: Change)
    requires Incoming(S, split, T, k, ch)
    ensures |T| == |S| && k < |T| && |WorldAfter(S, T, k, ch)| == |T|
            && WorldAfter(S, T, k, ch) == T[k := WorldAfter(S, T, k, ch)[k]]
  {
  }

  // ----- a hydrated set that grows

  /** The partitions that are asked for while changes of the parents are sent: those of the changed parents. */
  ghost function Asked(j: Correlation, chs: seq<Change>): iset<PartitionKey> {
    iset key: PartitionKey | NoNulls(key) && exists c :: c in chs && AsksFor(j, c, key)
  }

  ghost predicate AsksFor(j: Correlation, c: Change, key: PartitionKey) {
    key == KeyOf(j.parentKey, c.node.row) || (c.Edit? && key == KeyOf(j.parentKey, c.oldNode.row))
  }

  lemma {:induction false} ParentStepsHydrated(j: Correlation, limit: nat, hydrated: iset<PartitionKey>, s: seq<Node>,
                                               chs: seq<Change>)
    requires |j.parentKey| == |j.childKey| && Asked(j, chs) <= hydrated
    ensures ParentSteps(j, Shown(limit, j.childKey, hydrated, s), chs)
            == ParentSteps(j, Shown(limit, j.childKey, Askable(), s), chs)
  {
    hide Shown, ParentStep, KeyOf, NoNulls;
    if chs != [] {
      assert chs[0] in chs;
      forall key | NoNulls(key) && AsksFor(j, chs[0], key) ensures key in hydrated {
        assert key in Asked(j, chs);
      }
      ParentStepHydrated(j, limit, hydrated, s, chs[0]);
      forall key | key in Asked(j, chs[1..]) ensures key in hydrated {
        var c :| c in chs[1..] && AsksFor(j, c, key);
        assert c in chs;
        assert key in Asked(j, chs);
      }
      ParentStepsHydrated(j, limit, hydrated, s, chs[1..]);
    }
  }

  /** After a change every parent is one of the old ones or the changed one. */
  lemma {:induction false} StillHydrated(j: Correlation, sch: Schema, parents: seq<Node>, chs: seq<Change>,
                                         after: seq<Node>, hydrated: iset<PartitionKey>)
    requires TotalOrder(sch.cmp) && Sorted(sch.cmp, parents) && Carries(sch, parents, chs, after)
    requires ParentsHydrated(j, parents, hydrated) && Asked(j, chs) <= hydrated
    ensures ParentsHydrated(j, after, hydrated)
    decreases |chs|
  {
    hide Legal, Apply, Sorted, TotalOrder, NoNulls, KeyOf;
    if chs != [] {
      var next, c := Apply(sch, parents, chs[0]), chs[0];
      ApplyFacts(sch, parents, c);
      assert c in chs;
      forall p | p in next && NoNulls(KeyOf(j.parentKey, p.row)) ensures KeyOf(j.parentKey, p.row) in hydrated {
        if p !in parents {
          assert AsksFor(j, c, KeyOf(j.parentKey, p.row));
          assert KeyOf(j.parentKey, p.row) in Asked(j, chs);
        }
      }
      forall key | key in Asked(j, chs[1..]) ensures key in hydrated {
        var d :| d in chs[1..] && AsksFor(j, d, key);
        assert d in chs;
        assert key in Asked(j, chs);
      }
      StillHydrated(j, sch, next, chs[1..], after, hydrated);
    }
  }

  /** A join over a limited child. */
  datatype Net = Net(parent: Pipe, input: Pipe, limit: nat, j: Correlation)

  function PipeOf(net: Net): Pipe {
    JoinOf(net.parent, Unary(Limit(net.limit, net.j.childKey), net.input), net.j)
  }

  ghost predicate Fine(net: Net, S: seq<Schema>, split: seq<set<string>>, T: World) {
    && |S| == |split| && Wired(PipeOf(net), S, split) && Sound(S, T)
    && Closed(net.parent, |S|) && Closed(net.input, |S|) && |net.j.parentKey| == |net.j.childKey|
  }

  ghost function NetShows(net: Net, S: seq<Schema>, T: World, hydrated: iset<PartitionKey>): seq<Node>
    requires |S| == |T| && Closed(net.parent, |S|) && Closed(net.input, |S|) && |net.j.parentKey| == |net.j.childKey|
  {
    Joined(net.j, View(net.parent, S, T), Shown(net.limit, net.j.childKey, hydrated, View(net.input, S, T)))
  }

  /** What is hydrated after the change: sending a parent fetches its children. */
  ghost function Grown(net: Net, S: seq<Schema>, T: World, hydrated: iset<PartitionKey>, k: nat,
                       ch: Change): iset<PartitionKey>
    requires |S| == |T| && Closed(net.parent, |S|)
  {
    if k in Conns(net.parent) then hydrated + Asked(net.j, Emit(net.parent, S, T, k, ch)) else hydrated
  }

  ghost function NetEmits(net: Net, S: seq<Schema>, T: World, hydrated: iset<PartitionKey>, k: nat,
                          ch: Change): seq<Change>
    requires |S| == |T| && Closed(net.parent, |S|) && Closed(net.input, |S|) && |net.j.parentKey| == |net.j.childKey|
  {
    var s, key, now := View(net.input, S, T), net.j.childKey, Grown(net, S, T, hydrated, k, ch);
    if k in Conns(net.parent) then ParentSteps(net.j, Shown(net.limit, key, now, s), Emit(net.parent, S, T, k, ch))
    else ChildSteps(net.j, PipeSchema(net.input, S), View(net.parent, S, T), Shown(net.limit, key, now, s),
                    HydratedSteps(PipeSchema(net.input, S), net.limit, key, now, s, Emit(net.input, S, T, k, ch)))
  }

  /** One change of either side, with what it hydrates on the way. */
  lemma NetCarries(net: Net, S: seq<Schema>, split: seq<set<string>>, T: World, hydrated: iset<PartitionKey>, k: nat,
                   ch: Change)
    requires Fine(net, S, split, T) && Incoming(S, split, T, k, ch) && k in Conns(net.parent) + Conns(net.input)
    requires ParentsHydrated(net.j, View(net.parent, S, T), hydrated)
    ensures var now, U := Grown(net, S, T, hydrated, k, ch), WorldAfter(S, T, k, ch);
            && Fine(net, S, split, U) && ParentsHydrated(net.j, View(net.parent, S, U), now)
            && NetShows(net, S, T, hydrated) == View(PipeOf(net), S, T)
              && NetShows(net, S, U, now) == View(PipeOf(net), S, U)
            && NetEmits(net, S, T, hydrated, k, ch) == Emit(PipeOf(net), S, T, k, ch)
            && Carries(PipeSchema(PipeOf(net), S), NetShows(net, S, T, hydrated),
                       NetEmits(net, S, T, hydrated, k, ch), NetShows(net, S, U, now))
  {
    hide Carries, AllGood, Good, Shaped, TotalOrder, Legal, Apply, OpSteps, HydratedSteps, ChildSteps, ParentSteps,
         Joined, Shown,
         ParentsHydrated, Asked, OpView;
    var p, U, now := PipeOf(net), WorldAfter(S, T, k, ch), Grown(net, S, T, hydrated, k, ch);
    OrderedConns(p, S, split, k);
    StaysSound(S, split, T, k, ch);
    WiredShape(p, S, split);
    PipeCarries(p, S, split, T, k, ch);
    NetShowsView(net, S, split, T, hydrated);
    if k in Conns(net.parent) {
      ParentSide(net, S, split, T, hydrated, k, ch);
    } else {
      HydratedPipeCarries(net.parent, net.input, net.limit, net.j, S, split, T, k, ch, hydrated);
      AfterIs(S, split, T, k, ch);
      OtherConnection(net.parent, S, T, k, U[k]);
    }
    NetShowsView(net, S, split, U, now);
  }

  lemma NetShowsView(net: Net, S: seq<Schema>, split: seq<set<string>>, T: World, hydrated: iset<PartitionKey>)
    requires Fine(net, S, split, T) && ParentsHydrated(net.j, View(net.parent, S, T), hydrated)
    ensures Closed(PipeOf(net), |S|) && NetShows(net, S, T, hydrated) == View(PipeOf(net), S, T)
  {
    hide Joined, Shown, ParentsHydrated, PipeSchema;
    WiredShape(PipeOf(net), S, split);
    JoinShowsHydrated(net.j, net.limit, hydrated, View(net.parent, S, T), View(net.input, S, T));
    assert View(Unary(Limit(net.limit, net.j.childKey), net.input), S, T)
      == Shown(net.limit, net.j.childKey, Askable(), View(net.input, S, T));
  }

  /** A change of the parents: the parents that are sent ask for their partitions. */
  lemma ParentSide(net: Net, S: seq<Schema>, split: seq<set<string>>, T: World, hydrated: iset<PartitionKey>, k: nat,
                   ch: Change)
    requires Fine(net, S, split, T) && Incoming(S, split, T, k, ch) && k in Conns(net.parent)
    requires ParentsHydrated(net.j, View(net.parent, S, T), hydrated)
    ensures var now := Grown(net, S, T, hydrated, k, ch);
            && ParentsHydrated(net.j, View(net.parent, S, WorldAfter(S, T, k, ch)), now)
            && NetEmits(net, S, T, hydrated, k, ch) == Emit(PipeOf(net), S, T, k, ch)
  {
    hide Carries, AllGood, Good, Shaped, TotalOrder, Legal, Apply, OpSteps, HydratedSteps, ChildSteps, Joined, Shown,
         Asked;
    var now, U := Grown(net, S, T, hydrated, k, ch), WorldAfter(S, T, k, ch);
    var chs := Emit(net.parent, S, T, k, ch);
    ViewFacts(net.parent, S, split, T);
    PipeCarries(net.parent, S, split, T, k, ch);
    ParentStepsHydrated(net.j, net.limit, now, View(net.input, S, T), chs);
    StillHydrated(net.j, PipeSchema(net.parent, S), View(net.parent, S, T), chs, View(net.parent, S, U), now);
  }

  // ----- whole runs

  /** Every change is legal for what its connection shows when it comes. */
  ghost predicate RunIncoming(net: Net, S: seq<Schema>, split: seq<set<string>>, T: World, run: seq<(nat, Change)>)
    decreases |run|
  {
    run == [] || (run[0].0 in Conns(net.parent) + Conns(net.input) && Incoming(S, split, T, run[0].0, run[0].1)
                  && RunIncoming(net, S, split, WorldAfter(S, T, run[0].0, run[0].1), run[1..]))
  }

  ghost function Last(net: Net, S: seq<Schema>, split: seq<set<string>>, T: World, run: seq<(nat, Change)>): (U: World)
    requires |S| == |T| && RunIncoming(net, S, split, T, run)
    ensures |U| == |T|
    decreases |run|
  {
    if run == [] then T else Last(net, S, split, WorldAfter(S, T, run[0].0, run[0].1), run[1..])
  }

  /** What is hydrated in the end. */
  ghost function GrownBy(net: Net, S: seq<Schema>, split: seq<set<string>>, T: World, hydrated: iset<PartitionKey>,
                         run: seq<(nat, Change)>): iset<PartitionKey>
    requires |S| == |T| && Closed(net.parent, |S|) && RunIncoming(net, S, split, T, run)
    decreases |run|
  {
    if run == [] then hydrated
    else GrownBy(net, S, split, WorldAfter(S, T, run[0].0, run[0].1), Grown(net, S, T, hydrated, run[0].0, run[0].1),
                 run[1..])
  }

  ghost function NetRunEmits(net: Net, S: seq<Schema>, split: seq<set<string>>, T: World,
                             hydrated: iset<PartitionKey>, run: seq<(nat, Change)>): seq<Change>
    requires |S| == |T| && Closed(net.parent, |S|) && Closed(net.input, |S|) && |net.j.parentKey| == |net.j.childKey|
    requires RunIncoming(net, S, split, T, run)
    decreases |run|
  {
    if run == [] then []
    else
      NetEmits(net, S, T, hydrated, run[0].0, run[0].1)
      + NetRunEmits(net, S, split, WorldAfter(S, T, run[0].0, run[0].1),
                    Grown(net, S, T, hydrated, run[0].0, run[0].1), run[1..])
  }

  /** Hydration on demand over whole runs: a join over a Take that starts with the partitions of its parents
      hydrated, and hydrates those of every parent that it sends, carries its view through every run of changes,
      and shows in the end what it would with every partition hydrated. */
  lemma {:induction false} NetRunCarries(net: Net, S: seq<Schema>, split: seq<set<string>>, T: World,
                                         hydrated: iset<PartitionKey>, run: seq<(nat, Change)>)
    requires Fine(net, S, split, T) && RunIncoming(net, S, split, T, run)
    requires ParentsHydrated(net.j, View(net.parent, S, T), hydrated)
    ensures var U, now := Last(net, S, split, T, run), GrownBy(net, S, split, T, hydrated, run);
            && Closed(PipeOf(net), |S|) && NetShows(net, S, U, now) == View(PipeOf(net), S, U)
            && Carries(PipeSchema(PipeOf(net), S), NetShows(net, S, T, hydrated),
                       NetRunEmits(net, S, split, T, hydrated, run), NetShows(net, S, U, now))
    decreases |run|
  {
    hide Carries, NetEmits, NetShows, Grown, Wired, Sorted, Legal, Good, Emit, View, ParentsHydrated;
    WiredShape(PipeOf(net), S, split);
    if run == [] {
      NetShowsView(net, S, split, T, hydrated);
      CarriesNone(PipeSchema(PipeOf(net), S), NetShows(net, S, T, hydrated));
    } else {
      var k, ch := run[0].0, run[0].1;
      var U, now := WorldAfter(S, T, k, ch), Grown(net, S, T, hydrated, k, ch);
      NetCarries(net, S, split, T, hydrated, k, ch);
      NetRunCarries(net, S, split, U, now, run[1..]);
      CarriesConcat(PipeSchema(PipeOf(net), S), NetShows(net, S, T, hydrated), NetEmits(net, S, T, hydrated, k, ch),
                    NetShows(net, S, U, now),
                    NetRunEmits(net, S, split, U, now, run[1..]),
                    NetShows(net, S, Last(net, S, split, T, run), GrownBy(net, S, split, T, hydrated, run)));
    }
  }
}
