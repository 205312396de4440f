/** Changes that change nothing, and changes that cannot be folded in twice. */
module IdleChanges {
  import opened Values
  import opened Views

  /** An edit of a node to itself, at whatever depth. */
  predicate Idle(ch: Change)
    decreases ch
  {
    match ch
    case Add(_) => false
    case Remove(_) => false
    case Edit(n, o) => n == o
    case Child(_, _, c) => Idle(c)
  }

  /** A legal change leaves the view as it is exactly if it is an edit of a node to itself. */
  lemma {:induction false} IdleIff(sch: Schema, s: seq<Node>, ch: Change)
    requires TotalOrder(sch.cmp) && Sorted(sch.cmp, s) && Legal(sch, s, ch)
    ensures Apply(sch, s, ch) == s <==> Idle(ch)
    decreases ch
  {
    if ch.Child? {
      var p := Pos(sch.cmp, s, ch.node.row);
      var m := s[p];
      IdleIff(sch.rels[ch.rel], m.rels[ch.rel], ch.change);
      assert Apply(sch, s, ch)[p].rels[ch.rel] == Apply(sch.rels[ch.rel], m.rels[ch.rel], ch.change);
      if Idle(ch) {
        assert m.rels[ch.rel := m.rels[ch.rel]] == m.rels;
      }
    } else {
      ApplyFacts(sch, s, ch);
      LegalDelta(sch, s, ch);
      if Idle(ch) { SortedUnique(sch.cmp, Apply(sch, s, ch), s); } else { Moved(sch, s, ch); }
    }
  }

  lemma Moved(sch: Schema, s: seq<Node>, ch: Change)
    requires TotalOrder(sch.cmp) && Sorted(sch.cmp, s) && Legal(sch, s, ch) && !ch.Child? && !Idle(ch)
    ensures Apply(sch, s, ch) != s
  {
    hide Legal, Apply, Sorted, TotalOrder;
    ApplyFacts(sch, s, ch);
    if ch.Add? { NewIsNew(sch, s, ch); }
  }

  lemma NewIsNew(sch: Schema, s: seq<Node>, ch: Change)
    requires TotalOrder(sch.cmp) && Sorted(sch.cmp, s) && Legal(sch, s, ch) && ch.Add?
    ensures ch.node !in s
  {
    if ch.node in s { MemberAt(sch.cmp, s, ch.node); }
  }

  /** A change that changes something is not legal a second time. */
  lemma {:induction false} NotTwice(sch: Schema, s: seq<Node>, ch: Change)
    requires TotalOrder(sch.cmp) && Sorted(sch.cmp, s) && Legal(sch, s, ch) && !Idle(ch)
    ensures !Legal(sch, Apply(sch, s, ch), ch)
    decreases ch
  {
    ApplyFacts(sch, s, ch);
    var t := Apply(sch, s, ch);
    if ch.Child? {
      var p := Pos(sch.cmp, s, ch.node.row);
      NotTwice(sch.rels[ch.rel], s[p].rels[ch.rel], ch.change);
      assert t[p] == ch.node && sch.cmp(ch.node.row, ch.node.row) == 0;
      PosIsUnique(sch.cmp, t, p, ch.node.row);
    } else if ch.Add? {
      MemberAt(sch.cmp, t, ch.node);
    }
  }

  /** Child changes of other nodes do not make a child change legal. */
  lemma OthersDoNotHelp(sch: Schema, s: seq<Node>, c: Change, d: Change)
    requires TotalOrder(sch.cmp) && Sorted(sch.cmp, s) && Legal(sch, s, c) && c.Child? && d.Child?
    requires sch.cmp(c.node.row, d.node.row) != 0 && Legal(sch, Apply(sch, s, c), d)
    ensures Legal(sch, s, d)
  {
    var p, t := Pos(sch.cmp, s, c.node.row), Apply(sch, s, c);
    ApplyFacts(sch, s, c);
    var q := Pos(sch.cmp, t, d.node.row);
    assert t == s[p := c.node];
    assert t[p] == c.node;
    assert t[q] == s[q];
    PosIsUnique(sch.cmp, s, q, d.node.row);
  }

  /** Where the changes before it are child changes of other nodes, a child change that is not legal
      at the start is not legal when it comes. */
  lemma {:induction false} StaysIllegal(sch: Schema, s: seq<Node>, chs: seq<Change>, k: nat, t: seq<Node>)
    requires TotalOrder(sch.cmp) && Sorted(sch.cmp, s) && k < |chs| && chs[k].Child? && !Legal(sch, s, chs[k])
    requires forall i | 0 <= i < k :: chs[i].Child? && sch.cmp(chs[i].node.row, chs[k].node.row) != 0
    ensures !Carries(sch, s, chs, t)
    decreases k
  {
    if k > 0 && Legal(sch, s, chs[0]) {
      ApplyFacts(sch, s, chs[0]);
      if Legal(sch, Apply(sch, s, chs[0]), chs[k]) { OthersDoNotHelp(sch, s, chs[0], chs[k]); }
      StaysIllegal(sch, Apply(sch, s, chs[0]), chs[1..], k - 1, t);
    }
  }
}
