/** The partitions of a Take seen together: the ordered union of the hydrated windows. */
module TakeUnion {
  import opened Values
  import opened Views
  import opened JoinUtils
  import opened FilterChain
  import opened TakeSpec
  import opened TakeRules

  /** The node is in the window of its partition, and the partition is hydrated. */
  ghost function InWindow(limit: nat, partitionKey: Key, hydrated: iset<PartitionKey>, s: seq<Node>): Node -> bool {
    (n: Node) => KeyOf(partitionKey, n.row) in hydrated
      && n in Window(limit, Part(s, partitionKey, KeyOf(partitionKey, n.row)))
  }

  ghost function Shown(limit: nat, partitionKey: Key, hydrated: iset<PartitionKey>, s: seq<Node>): seq<Node> {
    Filtered(s, InWindow(limit, partitionKey, hydrated, s))
  }

  ghost predicate KeepsPartition(partitionKey: Key, ch: Change) {
    ch.Edit? ==> KeyOf(partitionKey, ch.oldNode.row) == KeyOf(partitionKey, ch.node.row)
  }

  /** What the Take sends on for one change of its input. */
  ghost function TakeStep(sch: Schema, limit: nat, partitionKey: Key, hydrated: iset<PartitionKey>, s: seq<Node>,
                          ch: Change): seq<Change>
    requires TotalOrder(sch.cmp) && Sorted(sch.cmp, s) && Legal(sch, s, ch) && KeepsPartition(partitionKey, ch)
  {
    var key := KeyOf(partitionKey, ch.node.row);
    PartApply(sch, s, ch, partitionKey, key);
    if key in hydrated then WindowStep(sch, limit, Part(s, partitionKey, key), ch) else []
  }

  lemma WindowMembers(limit: nat, s: seq<Node>)
    ensures forall x :: x in Window(limit, s) ==> x in s
  {
  }

  lemma ShownFacts(sch: Schema, limit: nat, partitionKey: Key, hydrated: iset<PartitionKey>, s: seq<Node>)
    requires Sorted(sch.cmp, s)
    ensures Sorted(sch.cmp, Shown(limit, partitionKey, hydrated, s))
    ensures forall x: Node :: x in Shown(limit, partitionKey, hydrated, s) <==>
              KeyOf(partitionKey, x.row) in hydrated
                && x in Window(limit, Part(s, partitionKey, KeyOf(partitionKey, x.row)))
  {
    FilteredFacts(sch.cmp, s, InWindow(limit, partitionKey, hydrated, s));
    forall x: Node | x in Window(limit, Part(s, partitionKey, KeyOf(partitionKey, x.row))) ensures x in s {
      WindowMembers(limit, Part(s, partitionKey, KeyOf(partitionKey, x.row)));
      FilteredMembers(s, KeyIs(partitionKey, KeyOf(partitionKey, x.row)));
    }
  }

  lemma WindowInPart(limit: nat, partitionKey: Key, s: seq<Node>, key: PartitionKey)
    ensures forall x | x in Window(limit, Part(s, partitionKey, key)) :: KeyOf(partitionKey, x.row) == key
  {
    WindowMembers(limit, Part(s, partitionKey, key));
    FilteredMembers(s, KeyIs(partitionKey, key));
  }

  lemma WindowStepShape(sch: Schema, limit: nat, s: seq<Node>, ch: Change)
    requires TotalOrder(sch.cmp) && Sorted(sch.cmp, s) && Legal(sch, s, ch)
    ensures var st := WindowStep(sch, limit, s, ch);
            |st| <= 1 || (|st| == 2 && st[0].Remove? && st[1].Add?)
  {
    if limit > 0 && ch.Edit? { EditSizes(sch, s, ch); }
  }

  /** `u` shows the window `w` of one partition beside other nodes; `v` shows `x` beside the same. */
  ghost predicate Beside(cmp: Comparator, u: seq<Node>, w: seq<Node>, v: seq<Node>, x: seq<Node>, mine: Node -> bool) {
    && Sorted(cmp, u) && Sorted(cmp, w) && Sorted(cmp, v) && Sorted(cmp, x)
    && (forall n :: n in w <==> n in u && mine(n))
    && (forall n :: n in x <==> n in v && mine(n))
    && (forall n | !mine(n) :: n in u <==> n in v)
  }

  lemma LiftOne(sch: Schema, u: seq<Node>, w: seq<Node>, v: seq<Node>, x: seq<Node>, mine: Node -> bool, c: Change)
    requires TotalOrder(sch.cmp) && Beside(sch.cmp, u, w, v, x, mine) && Legal(sch, w, c) && Apply(sch, w, c) == x
    ensures Carries(sch, u, [c], v)
  {
    ApplyFacts(sch, w, c);
    PostIsNew(sch, w, c);
    var pre, post := Pre(sch, w, c), Post(c);
    assert Replaces(u, pre, post, v);
    if c.Child? {
      CarriesChild(sch, u, c, pre.value, v);
    } else {
      CarriesDelta(sch, u, c, v);
    }
  }

  lemma TwoSteps(sch: Schema, w: seq<Node>, a: Change, b: Change, x: seq<Node>)
    requires Carries(sch, w, [a, b], x)
    ensures Legal(sch, w, a) && Legal(sch, Apply(sch, w, a), b) && Apply(sch, Apply(sch, w, a), b) == x
  {
    assert [a, b][1..] == [b] && [b][1..] == [];
    var y := Apply(sch, w, a);
    assert Carries(sch, y, [b], x);
    assert Carries(sch, Apply(sch, y, b), [], x);
  }

  lemma BesideRemoved(sch: Schema, u: seq<Node>, w: seq<Node>, v: seq<Node>, x: seq<Node>, mine: Node -> bool,
                      a: Node, y: seq<Node>) returns (z: seq<Node>)
    requires TotalOrder(sch.cmp) && Beside(sch.cmp, u, w, v, x, mine) && Legal(sch, w, Remove(a))
             && y == Apply(sch, w, Remove(a))
    ensures Beside(sch.cmp, u, w, z, y, mine) && (Sorted(sch.cmp, x) ==> Beside(sch.cmp, z, y, v, x, mine))
  {
    ApplyFacts(sch, w, Remove(a));
    assert a in u;
    MemberAt(sch.cmp, u, a);
    z := Delete(sch.cmp, u, a.row);
    DeleteFacts(sch.cmp, u, a.row);
  }

  lemma LiftTwo(sch: Schema, u: seq<Node>, w: seq<Node>, v: seq<Node>, x: seq<Node>, mine: Node -> bool, a: Node,
                b: Node)
    requires TotalOrder(sch.cmp) && Beside(sch.cmp, u, w, v, x, mine)
    requires Carries(sch, w, [Remove(a), Add(b)], x)
    ensures Carries(sch, u, [Remove(a), Add(b)], v)
  {
    hide Legal, Apply, Carries, Sorted, TotalOrder;
    TwoSteps(sch, w, Remove(a), Add(b), x);
    var y := Apply(sch, w, Remove(a));
    var z := BesideRemoved(sch, u, w, v, x, mine, a, y);
    LiftOne(sch, u, w, z, y, mine, Remove(a));
    LiftOne(sch, z, y, v, x, mine, Add(b));
    CarriesConcat(sch, u, [Remove(a)], z, [Add(b)], v);
    assert [Remove(a)] + [Add(b)] == [Remove(a), Add(b)];
  }

  /** Folding what the Take sends into the union of the old windows gives the union of the new ones. */
  lemma TakeCarries(sch: Schema, limit: nat, partitionKey: Key, hydrated: iset<PartitionKey>, s: seq<Node>, ch: Change)
    requires TotalOrder(sch.cmp) && Sorted(sch.cmp, s) && Legal(sch, s, ch) && KeepsPartition(partitionKey, ch)
    ensures Carries(sch, Shown(limit, partitionKey, hydrated, s), TakeStep(sch, limit, partitionKey, hydrated, s, ch),
                    Shown(limit, partitionKey, hydrated, Apply(sch, s, ch)))
  {
    var key, t := KeyOf(partitionKey, ch.node.row), Apply(sch, s, ch);
    var u, v := Shown(limit, partitionKey, hydrated, s), Shown(limit, partitionKey, hydrated, t);
    var st := TakeStep(sch, limit, partitionKey, hydrated, s, ch);
    if key in hydrated {
      var w, x := BesideWindows(sch, limit, partitionKey, hydrated, s, ch);
      PartApply(sch, s, ch, partitionKey, key);
      WindowStepShape(sch, limit, Part(s, partitionKey, key), ch);
      WindowStepCarries(sch, limit, Part(s, partitionKey, key), ch);
      LiftSteps(sch, u, w, v, x, KeyIs(partitionKey, key), st);
    } else {
      NotHydrated(sch, limit, partitionKey, hydrated, s, ch);
    }
  }

  lemma LiftSteps(sch: Schema, u: seq<Node>, w: seq<Node>, v: seq<Node>, x: seq<Node>, mine: Node -> bool,
                  st: seq<Change>)
    requires TotalOrder(sch.cmp) && Beside(sch.cmp, u, w, v, x, mine) && Carries(sch, w, st, x)
    requires |st| <= 1 || (|st| == 2 && st[0].Remove? && st[1].Add?)
    ensures Carries(sch, u, st, v)
  {
    if |st| == 0 {
      SortedUnique(sch.cmp, u, v);
    } else if |st| == 1 {
      assert st == [st[0]] && st[1..] == [];
      LiftOne(sch, u, w, v, x, mine, st[0]);
    } else {
      assert st == [Remove(st[0].node), Add(st[1].node)];
      LiftTwo(sch, u, w, v, x, mine, st[0].node, st[1].node);
    }
  }

  lemma BesideWindows(sch: Schema, limit: nat, partitionKey: Key, hydrated: iset<PartitionKey>, s: seq<Node>,
                      ch: Change) returns (w: seq<Node>, x: seq<Node>)
    requires TotalOrder(sch.cmp) && Sorted(sch.cmp, s) && Legal(sch, s, ch) && KeepsPartition(partitionKey, ch)
    requires KeyOf(partitionKey, ch.node.row) in hydrated
    ensures w == Window(limit, Part(s, partitionKey, KeyOf(partitionKey, ch.node.row)))
    ensures x == Window(limit, Part(Apply(sch, s, ch), partitionKey, KeyOf(partitionKey, ch.node.row)))
    ensures Beside(sch.cmp, Shown(limit, partitionKey, hydrated, s), w,
                   Shown(limit, partitionKey, hydrated, Apply(sch, s, ch)), x,
                   KeyIs(partitionKey, KeyOf(partitionKey, ch.node.row)))
  {
    hide Legal, Apply, Window, Part;
    var key, t := KeyOf(partitionKey, ch.node.row), Apply(sch, s, ch);
    w, x := Window(limit, Part(s, partitionKey, key)), Window(limit, Part(t, partitionKey, key));
    ApplyFacts(sch, s, ch);
    ShownFacts(sch, limit, partitionKey, hydrated, s);
    ShownFacts(sch, limit, partitionKey, hydrated, t);
    WindowInPart(limit, partitionKey, s, key);
    WindowInPart(limit, partitionKey, t, key);
    PartApply(sch, s, ch, partitionKey, key);
    WindowSorted(sch.cmp, limit, Part(s, partitionKey, key));
    WindowSorted(sch.cmp, limit, Part(t, partitionKey, key));
    forall n: Node | KeyOf(partitionKey, n.row) != key
      ensures Part(t, partitionKey, KeyOf(partitionKey, n.row)) == Part(s, partitionKey, KeyOf(partitionKey, n.row)) {
      PartApply(sch, s, ch, partitionKey, KeyOf(partitionKey, n.row));
    }
  }

  lemma NotHydrated(sch: Schema, limit: nat, partitionKey: Key, hydrated: iset<PartitionKey>, s: seq<Node>, ch: Change)
    requires TotalOrder(sch.cmp) && Sorted(sch.cmp, s) && Legal(sch, s, ch) && KeepsPartition(partitionKey, ch)
    requires KeyOf(partitionKey, ch.node.row) !in hydrated
    ensures Shown(limit, partitionKey, hydrated, Apply(sch, s, ch)) == Shown(limit, partitionKey, hydrated, s)
  {
    hide Legal, Apply, Window, Part;
    var key, t := KeyOf(partitionKey, ch.node.row), Apply(sch, s, ch);
    ApplyFacts(sch, s, ch);
    ShownFacts(sch, limit, partitionKey, hydrated, s);
    ShownFacts(sch, limit, partitionKey, hydrated, t);
    forall n: Node | KeyOf(partitionKey, n.row) != key
      ensures Part(t, partitionKey, KeyOf(partitionKey, n.row)) == Part(s, partitionKey, KeyOf(partitionKey, n.row)) {
      PartApply(sch, s, ch, partitionKey, KeyOf(partitionKey, n.row));
    }
    SortedUnique(sch.cmp, Shown(limit, partitionKey, hydrated, t), Shown(limit, partitionKey, hydrated, s));
  }
}
