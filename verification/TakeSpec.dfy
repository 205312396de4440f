/**
  What LIMIT means for one partition: the window is the first `limit` nodes, and a change of the
  input becomes the changes that carry the old window to the new one.
 */
module TakeSpec {
  import opened Values
  import opened Seqs
  import opened Views
  import opened FilterChain

  ghost function Window(limit: nat, s: seq<Node>): seq<Node> {
    if |s| <= limit then s else s[..limit]
  }

  /** The changes of the window, told by the positions of the old and the new node. */
  ghost function WindowStep(sch: Schema, limit: nat, s: seq<Node>, ch: Change): seq<Change>
    requires Legal(sch, s, ch) && TotalOrder(sch.cmp) && Sorted(sch.cmp, s)
  {
    if limit == 0 then []
    else
      var t := Apply(sch, s, ch);
      match ch
      case Add(n) =>
        if Pos(sch.cmp, s, n.row) >= limit then []
        else if |s| < limit then [ch]
        else [Remove(s[limit - 1]), ch]
      case Remove(n) =>
        if Pos(sch.cmp, s, n.row) >= limit then []
        else if |s| > limit then [ch, Add(s[limit])]
        else [ch]
      case Edit(n, o) =>
        EditSizes(sch, s, ch);
        EditSteps(limit, s, ch, Pos(sch.cmp, s, o.row), Pos(sch.cmp, t, n.row), t)
      case Child(n, _, _) =>
        if Pos(sch.cmp, s, n.row) < limit then [ch] else []
  }

  /** An edit that moves a node from index `p` to index `q`. */
  ghost function EditSteps(limit: nat, s: seq<Node>, ch: Change, p: nat, q: nat, t: seq<Node>): seq<Change>
    requires limit > 0 && ch.Edit? && p < |s| && q < |t| && |s| == |t|
  {
    if p < limit && q < limit then [ch]
    else if p < limit then [Remove(ch.oldNode), Add(t[limit - 1])]
    else if q < limit then [Remove(s[limit - 1]), Add(ch.node)]
    else []
  }

  lemma EditSizes(sch: Schema, s: seq<Node>, ch: Change)
    requires TotalOrder(sch.cmp) && Sorted(sch.cmp, s) && Legal(sch, s, ch) && ch.Edit?
    ensures var t := Apply(sch, s, ch);
            var d := Delete(sch.cmp, s, ch.oldNode.row);
            var p, q := Pos(sch.cmp, s, ch.oldNode.row), Pos(sch.cmp, d, ch.node.row);
            && p < |s| && s[p] == ch.oldNode && d == RemoveAt(s, p) && Sorted(sch.cmp, d) && q <= |d|
            && t == InsertAt(d, q, ch.node) && |t| == |s| && q == Pos(sch.cmp, t, ch.node.row)
  {
    MemberAt(sch.cmp, s, ch.oldNode);
    DeleteFacts(sch.cmp, s, ch.oldNode.row);
    var t := Apply(sch, s, ch);
    ApplyFacts(sch, s, ch);
    var q := Pos(sch.cmp, Delete(sch.cmp, s, ch.oldNode.row), ch.node.row);
    assert t[q] == ch.node && sch.cmp(t[q].row, ch.node.row) == 0;
    PosIsUnique(sch.cmp, t, q, ch.node.row);
  }

  lemma WindowIsPrefix(limit: nat, s: seq<Node>)
    requires limit <= |s|
    ensures Window(limit, s) == s[..limit]
  {
  }

  // ----- prefixes

  lemma PrefixOfInsert<T>(s: seq<T>, p: nat, x: T, k: nat)
    requires p <= |s| && k <= |s|
    ensures p <= k ==> InsertAt(s, p, x)[..k + 1] == InsertAt(s[..k], p, x)
    ensures k <= p ==> InsertAt(s, p, x)[..k] == s[..k]
  {
  }

  lemma PrefixOfRemove<T>(s: seq<T>, p: nat, k: nat)
    requires p < |s| && k <= |s|
    ensures p < k ==> RemoveAt(s, p)[..k - 1] == RemoveAt(s[..k], p)
    ensures k <= p ==> RemoveAt(s, p)[..k] == s[..k]
  {
  }

  lemma DropLast<T>(s: seq<T>, k: nat)
    requires 0 < k <= |s|
    ensures RemoveAt(s[..k], k - 1) == s[..k - 1]
    ensures InsertAt(s[..k - 1], k - 1, s[k - 1]) == s[..k]
    ensures s[..k][k - 1] == s[k - 1]
  {
  }

  lemma PrefixSorted(cmp: Comparator, s: seq<Node>, k: nat)
    requires Sorted(cmp, s) && k <= |s|
    ensures Sorted(cmp, s[..k])
  {
  }

  /** One node put at index `p` of a sorted list. */
  lemma CarriesInsert(sch: Schema, s: seq<Node>, p: nat, n: Node)
    requires TotalOrder(sch.cmp) && p <= |s| && Sorted(sch.cmp, s) && Sorted(sch.cmp, InsertAt(s, p, n))
    ensures Legal(sch, s, Add(n)) && Apply(sch, s, Add(n)) == InsertAt(s, p, n)
  {
    var t := InsertAt(s, p, n);
    InsertAtMembers(s, p, n);
    RemoveFacts(sch.cmp, t, p);
    assert RemoveAt(t, p) == s;
    CarriesDelta(sch, s, Add(n), t);
  }

  lemma CarriesRemoveAt(sch: Schema, s: seq<Node>, p: nat)
    requires TotalOrder(sch.cmp) && Sorted(sch.cmp, s) && p < |s|
    ensures Legal(sch, s, Remove(s[p])) && Apply(sch, s, Remove(s[p])) == RemoveAt(s, p)
  {
    RemoveFacts(sch.cmp, s, p);
    CarriesDelta(sch, s, Remove(s[p]), RemoveAt(s, p));
  }

  // ----- the step carries the window

  lemma AddCarries(sch: Schema, limit: nat, s: seq<Node>, ch: Change)
    requires TotalOrder(sch.cmp) && Sorted(sch.cmp, s) && Legal(sch, s, ch) && ch.Add? && limit > 0
    ensures Carries(sch, Window(limit, s), WindowStep(sch, limit, s, ch), Window(limit, Apply(sch, s, ch)))
  {
    hide Carries, TotalOrder;
    var n := ch.node;
    var p := Pos(sch.cmp, s, n.row);
    var t := Apply(sch, s, ch);
    ApplyFacts(sch, s, ch);
    if p >= limit {
      WindowOfInsert(limit, s, p, n);
      CarriesNone(sch, Window(limit, s));
    } else if |s| < limit {
      CarriesOne(sch, s, ch, t);
    } else {
      PrefixOfInsert(s, p, n, limit - 1);
      PrefixSorted(sch.cmp, s, limit);
      PrefixSorted(sch.cmp, s, limit - 1);
      PrefixSorted(sch.cmp, t, limit);
      DropLast(s, limit);
      CarriesRemoveAt(sch, s[..limit], limit - 1);
      CarriesInsert(sch, s[..limit - 1], p, n);
      assert Window(limit, s) == s[..limit];
      CarriesTwo(sch, s[..limit], Remove(s[limit - 1]), ch, t[..limit]);
    }
  }

  lemma RemoveRefills(sch: Schema, s: seq<Node>, p: nat, limit: nat)
    requires TotalOrder(sch.cmp) && Sorted(sch.cmp, s) && p < limit < |s|
    ensures Carries(sch, s[..limit], [Remove(s[p]), Add(s[limit])], RemoveAt(s, p)[..limit])
  {
    var t := RemoveAt(s, p);
    RemoveFacts(sch.cmp, s, p);
    PrefixOfRemove(s, p, limit);
    PrefixSorted(sch.cmp, s, limit);
    PrefixSorted(sch.cmp, t, limit);
    PrefixSorted(sch.cmp, t, limit - 1);
    assert s[..limit][p] == s[p] && t[limit - 1] == s[limit];
    CarriesRemoveAt(sch, s[..limit], p);
    DropLast(t, limit);
    CarriesInsert(sch, t[..limit - 1], limit - 1, t[limit - 1]);
    CarriesTwo(sch, s[..limit], Remove(s[p]), Add(s[limit]), t[..limit]);
  }

  lemma WindowOfInsert(limit: nat, s: seq<Node>, p: nat, n: Node)
    requires limit <= p <= |s|
    ensures Window(limit, InsertAt(s, p, n)) == Window(limit, s)
  {
    PrefixOfInsert(s, p, n, limit);
    assert s[..|s|] == s;
  }

  lemma WindowOfRemove(limit: nat, s: seq<Node>, p: nat)
    requires limit <= p < |s|
    ensures Window(limit, RemoveAt(s, p)) == Window(limit, s)
  {
    PrefixOfRemove(s, p, limit);
    assert RemoveAt(s, p)[..|s| - 1] == RemoveAt(s, p);
  }

  lemma RemoveCarries(sch: Schema, limit: nat, s: seq<Node>, ch: Change)
    requires TotalOrder(sch.cmp) && Sorted(sch.cmp, s) && Legal(sch, s, ch) && ch.Remove? && limit > 0
    ensures Carries(sch, Window(limit, s), WindowStep(sch, limit, s, ch), Window(limit, Apply(sch, s, ch)))
  {
    var n := ch.node;
    MemberAt(sch.cmp, s, n);
    var p := Pos(sch.cmp, s, n.row);
    assert Apply(sch, s, ch) == RemoveAt(s, p);
    if p >= limit {
      WindowOfRemove(limit, s, p);
    } else if |s| > limit {
      RemoveRefills(sch, s, p, limit);
      WindowIsPrefix(limit, RemoveAt(s, p));
    } else {
      CarriesOne(sch, s, ch, RemoveAt(s, p));
    }
  }

  /** The positions of an edit: node `p` is taken out, the new node goes in at `q`. */
  ghost predicate EditAt(sch: Schema, s: seq<Node>, ch: Change, p: nat, d: seq<Node>, q: nat, t: seq<Node>) {
    && TotalOrder(sch.cmp) && Sorted(sch.cmp, s) && Sorted(sch.cmp, d) && Sorted(sch.cmp, t) && ch.Edit?
    && p < |s| && s[p] == ch.oldNode && d == RemoveAt(s, p)
    && q <= |d| && q == Pos(sch.cmp, d, ch.node.row) && !Has(sch.cmp, d, ch.node.row) && t == InsertAt(d, q, ch.node)
  }

  lemma EditIsAt(sch: Schema, s: seq<Node>, ch: Change) returns (p: nat, d: seq<Node>, q: nat)
    requires TotalOrder(sch.cmp) && Sorted(sch.cmp, s) && Legal(sch, s, ch) && ch.Edit?
    ensures EditAt(sch, s, ch, p, d, q, Apply(sch, s, ch))
    ensures p == Pos(sch.cmp, s, ch.oldNode.row) && q == Pos(sch.cmp, Apply(sch, s, ch), ch.node.row)
  {
    EditSizes(sch, s, ch);
    ApplyFacts(sch, s, ch);
    p := Pos(sch.cmp, s, ch.oldNode.row);
    d := RemoveAt(s, p);
    q := Pos(sch.cmp, d, ch.node.row);
  }

  lemma EditInside(sch: Schema, s: seq<Node>, ch: Change, p: nat, d: seq<Node>, q: nat, t: seq<Node>, limit: nat)
    requires EditAt(sch, s, ch, p, d, q, t) && p < limit && q < limit <= |s|
    ensures Legal(sch, s[..limit], ch) && Apply(sch, s[..limit], ch) == t[..limit]
  {
    var n, w, e := ch.node, s[..limit], d[..limit - 1];
    PrefixSorted(sch.cmp, s, limit);
    PrefixSorted(sch.cmp, d, limit - 1);
    PrefixOfRemove(s, p, limit);
    PrefixOfInsert(d, q, n, limit - 1);
    OldInPrefix(sch, s, ch, p, d, q, t, limit);
    NewInPrefix(sch, s, ch, p, d, q, t, limit);
  }

  lemma OldInPrefix(sch: Schema, s: seq<Node>, ch: Change, p: nat, d: seq<Node>, q: nat, t: seq<Node>, limit: nat)
    requires EditAt(sch, s, ch, p, d, q, t) && p < limit && q < limit <= |s|
    ensures ch.oldNode in s[..limit] && Delete(sch.cmp, s[..limit], ch.oldNode.row) == d[..limit - 1]
  {
    var w := s[..limit];
    PrefixSorted(sch.cmp, s, limit);
    PrefixOfRemove(s, p, limit);
    assert w[p] == ch.oldNode && sch.cmp(w[p].row, w[p].row) == 0;
    PosIsUnique(sch.cmp, w, p, ch.oldNode.row);
  }

  lemma NewInPrefix(sch: Schema, s: seq<Node>, ch: Change, p: nat, d: seq<Node>, q: nat, t: seq<Node>, limit: nat)
    requires EditAt(sch, s, ch, p, d, q, t) && p < limit && q < limit <= |s|
    ensures var e := d[..limit - 1]; Pos(sch.cmp, e, ch.node.row) == q && !Has(sch.cmp, e, ch.node.row)
  {
    PrefixSorted(sch.cmp, d, limit - 1);
    AfterPos(sch.cmp, d, ch.node.row);
    PosBetween(sch.cmp, d[..limit - 1], q, ch.node.row);
  }

  lemma EditOut(sch: Schema, s: seq<Node>, ch: Change, p: nat, d: seq<Node>, q: nat, t: seq<Node>, limit: nat)
    requires EditAt(sch, s, ch, p, d, q, t) && p < limit <= q && limit < |s|
    ensures Carries(sch, s[..limit], [Remove(ch.oldNode), Add(t[limit - 1])], t[..limit])
  {
    PrefixSorted(sch.cmp, s, limit);
    PrefixSorted(sch.cmp, t, limit);
    PrefixSorted(sch.cmp, t, limit - 1);
    PrefixOfRemove(s, p, limit);
    PrefixOfInsert(d, q, ch.node, limit - 1);
    assert s[..limit][p] == ch.oldNode;
    CarriesRemoveAt(sch, s[..limit], p);
    DropLast(t, limit);
    CarriesInsert(sch, t[..limit - 1], limit - 1, t[limit - 1]);
    CarriesTwo(sch, s[..limit], Remove(ch.oldNode), Add(t[limit - 1]), t[..limit]);
  }

  lemma EditIn(sch: Schema, s: seq<Node>, ch: Change, p: nat, d: seq<Node>, q: nat, t: seq<Node>, limit: nat)
    requires EditAt(sch, s, ch, p, d, q, t) && q < limit <= p
    ensures Carries(sch, s[..limit], [Remove(s[limit - 1]), Add(ch.node)], t[..limit])
  {
    hide Legal, Apply, Has, Pos;
    PrefixSorted(sch.cmp, s, limit);
    PrefixSorted(sch.cmp, s, limit - 1);
    PrefixSorted(sch.cmp, t, limit);
    DropLast(s, limit);
    CarriesRemoveAt(sch, s[..limit], limit - 1);
    PrefixOfRemove(s, p, limit - 1);
    PrefixOfInsert(d, q, ch.node, limit - 1);
    CarriesInsert(sch, s[..limit - 1], q, ch.node);
    CarriesTwo(sch, s[..limit], Remove(s[limit - 1]), Add(ch.node), t[..limit]);
  }

  lemma EditOutside(sch: Schema, s: seq<Node>, ch: Change, p: nat, d: seq<Node>, q: nat, t: seq<Node>, limit: nat)
    requires EditAt(sch, s, ch, p, d, q, t) && limit <= p && limit <= q
    ensures s[..limit] == t[..limit]
  {
    PrefixOfRemove(s, p, limit);
    PrefixOfInsert(d, q, ch.node, limit);
  }

  lemma EditStepsCarry(sch: Schema, s: seq<Node>, ch: Change, p: nat, d: seq<Node>, q: nat, t: seq<Node>, limit: nat)
    requires EditAt(sch, s, ch, p, d, q, t) && limit > 0
    requires |s| <= limit ==> Legal(sch, s, ch) && Apply(sch, s, ch) == t
    ensures |s| == |t| && Carries(sch, Window(limit, s), EditSteps(limit, s, ch, p, q, t), Window(limit, t))
  {
    hide Legal, Apply, Carries, TotalOrder, Sorted, Has, Pos;
    if |s| <= limit {
      CarriesOne(sch, s, ch, t);
    } else if p < limit && q < limit {
      EditInside(sch, s, ch, p, d, q, t, limit);
      CarriesOne(sch, s[..limit], ch, t[..limit]);
    } else if p < limit {
      EditOut(sch, s, ch, p, d, q, t, limit);
    } else if q < limit {
      EditIn(sch, s, ch, p, d, q, t, limit);
    } else {
      EditOutside(sch, s, ch, p, d, q, t, limit);
      CarriesNone(sch, s[..limit]);
    }
  }

  lemma EditCarries(sch: Schema, limit: nat, s: seq<Node>, ch: Change)
    requires TotalOrder(sch.cmp) && Sorted(sch.cmp, s) && Legal(sch, s, ch) && ch.Edit? && limit > 0
    ensures Carries(sch, Window(limit, s), WindowStep(sch, limit, s, ch), Window(limit, Apply(sch, s, ch)))
  {
    var p, d, q := EditIsAt(sch, s, ch);
    EditStepsCarry(sch, s, ch, p, d, q, Apply(sch, s, ch), limit);
  }

  lemma ChildCarries(sch: Schema, limit: nat, s: seq<Node>, ch: Change)
    requires TotalOrder(sch.cmp) && Sorted(sch.cmp, s) && Legal(sch, s, ch) && ch.Child? && limit > 0
    ensures Carries(sch, Window(limit, s), WindowStep(sch, limit, s, ch), Window(limit, Apply(sch, s, ch)))
  {
    var p := Pos(sch.cmp, s, ch.node.row);
    WindowOfUpdate(limit, s, p, ch.node);
    if p < limit {
      ChildInWindow(sch, limit, s, ch, p);
    }
  }

  lemma ChildInWindow(sch: Schema, limit: nat, s: seq<Node>, ch: Change, p: nat)
    requires TotalOrder(sch.cmp) && Sorted(sch.cmp, s) && Legal(sch, s, ch) && ch.Child? && limit > 0
    requires p == Pos(sch.cmp, s, ch.node.row) < limit
    ensures Carries(sch, Window(limit, s), [ch], Window(limit, s)[p := ch.node])
  {
    hide Carries;
    var w := Window(limit, s);
    assert w[p] == s[p];
    WindowSorted(sch.cmp, limit, s);
    ReplaceFacts(sch.cmp, w, p, ch.node);
    CarriesChild(sch, w, ch, s[p], w[p := ch.node]);
  }

  lemma WindowOfUpdate(limit: nat, s: seq<Node>, p: nat, n: Node)
    requires p < |s|
    ensures Window(limit, s[p := n]) == if p < limit then Window(limit, s)[p := n] else Window(limit, s)
  {
  }

  lemma WindowSorted(cmp: Comparator, limit: nat, s: seq<Node>)
    requires Sorted(cmp, s)
    ensures Sorted(cmp, Window(limit, s))
  {
  }

  /** Folding the emitted changes into the old window gives the new window. */
  lemma WindowStepCarries(sch: Schema, limit: nat, s: seq<Node>, ch: Change)
    requires TotalOrder(sch.cmp) && Sorted(sch.cmp, s) && Legal(sch, s, ch)
    ensures Carries(sch, Window(limit, s), WindowStep(sch, limit, s, ch), Window(limit, Apply(sch, s, ch)))
  {
    if limit > 0 {
      match ch
      case Add(_) => AddCarries(sch, limit, s, ch);
      case Remove(_) => RemoveCarries(sch, limit, s, ch);
      case Edit(_, _) => EditCarries(sch, limit, s, ch);
      case Child(_, _, _) => ChildCarries(sch, limit, s, ch);
    } else {
      assert s[..0] == Apply(sch, s, ch)[..0];
    }
  }
}
