/** One lemma for each arm of Take.Push: where the scans from the bound land (ivm/take.go). */
module TakeArms {
  import opened Values
  import opened Seqs
  import opened Views
  import opened Fetching
  import opened TakeSpec
  import opened TakeRules

  /** A push reaches a partition that held `s`, now holds `t`, and has its bound at node `k - 1`. */
  ghost predicate Arrives(sch: Schema, limit: nat, s: seq<Node>, t: seq<Node>, ch: Change, bound: Row, k: nat) {
    && TotalOrder(sch.cmp) && Sorted(sch.cmp, s) && Sorted(sch.cmp, t) && Legal(sch, s, ch) && t == Apply(sch, s, ch)
    && limit > 0 && 0 < k == |Window(limit, s)| && sch.cmp(bound, s[k - 1].row) == 0
  }

  lemma PosOfNode(cmp: Comparator, t: seq<Node>, i: nat, bound: Row, e: Row)
    requires TotalOrder(cmp) && Sorted(cmp, t) && i < |t| && t[i].row == e && cmp(bound, e) == 0
    ensures Pos(cmp, t, bound) == i && Has(cmp, t, bound)
  {
    PosIsUnique(cmp, t, i, bound);
  }

  // ----- add

  /** A window that is not full takes the new node in. */
  lemma GrowWindow(sch: Schema, limit: nat, s: seq<Node>, t: seq<Node>, ch: Change, st: TakeState, newBound: Row)
    requires TotalOrder(sch.cmp) && Sorted(sch.cmp, s) && Sorted(sch.cmp, t) && ch.Add? && Legal(sch, s, ch)
             && t == Apply(sch, s, ch)
    requires StateOk(sch.cmp, limit, s, st) && st.size < limit
    requires newBound == if st.bound.None? || sch.cmp(st.bound.value, ch.node.row) < 0 then ch.node.row
             else st.bound.value
    ensures StateOk(sch.cmp, limit, t, TakeState(st.size + 1, Some(newBound)))
    ensures WindowStep(sch, limit, s, ch) == [ch]
  {
    assert |s| == st.size;
    GrowState(sch.cmp, limit, s, t, ch.node, st, newBound);
  }

  lemma GrowState(cmp: Comparator, limit: nat, s: seq<Node>, t: seq<Node>, n: Node, st: TakeState, newBound: Row)
    requires TotalOrder(cmp) && Sorted(cmp, s) && |s| < limit && t == InsertAt(s, Pos(cmp, s, n.row), n)
    requires StateOk(cmp, limit, s, st)
    requires newBound == if st.bound.None? || cmp(st.bound.value, n.row) < 0 then n.row else st.bound.value
    ensures StateOk(cmp, limit, t, TakeState(st.size + 1, Some(newBound)))
  {
    var p := Pos(cmp, s, n.row);
    assert cmp(n.row, n.row) == 0;
    if s == [] {
      assert t == [n];
    } else {
      VersusBound(cmp, s, |s|, st.bound.value, n.row);
      assert t[|s|] == if p == |s| then n else s[|s| - 1];
    }
  }

  lemma AddArm(sch: Schema, limit: nat, s: seq<Node>, t: seq<Node>, ch: Change, bound: Row, k: nat) returns (p: nat)
    requires Arrives(sch, limit, s, t, ch, bound, k) && ch.Add?
    ensures p == Pos(sch.cmp, s, ch.node.row) <= |s| && t == InsertAt(s, p, ch.node)
    ensures sch.cmp(ch.node.row, bound) >= 0 <==> p >= k
    ensures p < k == limit ==> Pos(sch.cmp, t, bound) == k && Has(sch.cmp, t, bound) && |t| > k && t[k] == s[k - 1]
    ensures p < k == limit ==> sch.cmp(ch.node.row, t[k - 1].row) <= 0
  {
    p := Pos(sch.cmp, s, ch.node.row);
    VersusBound(sch.cmp, s, k, bound, ch.node.row);
    if p < k == limit {
      PosOfNode(sch.cmp, t, k, bound, s[k - 1].row);
      assert t[p] == ch.node;
      assert sch.cmp(t[p].row, t[p].row) == 0;
    }
  }

  /** A full window: the last node goes, with the new one hidden; then the new one comes. */
  lemma AddDisplaces(sch: Schema, limit: nat, s: seq<Node>, t: seq<Node>, ch: Change, bound: Row, k: nat, p: nat)
    requires Arrives(sch, limit, s, t, ch, bound, k) && ch.Add? && p == Pos(sch.cmp, s, ch.node.row) < k == limit
    ensures WindowStep(sch, limit, s, ch) == [Remove(s[k - 1]), ch]
    ensures |t| > k && t[p] == ch.node && Window(limit, t) == t[..k]
    ensures Apply(sch, Window(limit, s), Remove(s[k - 1])) == RemoveAt(Window(limit, t), p)
  {
    WindowIsPrefix(limit, s);
    WindowIsPrefix(limit, t);
    PrefixSorted(sch.cmp, s, k);
    AddEnters(sch, s, p, ch.node, k);
  }

  lemma AddIsBehind(sch: Schema, limit: nat, s: seq<Node>, t: seq<Node>, ch: Change, st: TakeState, p: nat)
    requires TotalOrder(sch.cmp) && Sorted(sch.cmp, s) && Legal(sch, s, ch) && t == Apply(sch, s, ch) && ch.Add?
    requires StateOk(sch.cmp, limit, s, st) && limit > 0 && limit <= p == Pos(sch.cmp, s, ch.node.row)
    ensures WindowStep(sch, limit, s, ch) == [] && Window(limit, t) == Window(limit, s)
    ensures StateOk(sch.cmp, limit, t, st)
  {
    WindowOfInsert(limit, s, p, ch.node);
  }

  lemma AddEnters(sch: Schema, s: seq<Node>, p: nat, n: Node, k: nat)
    requires TotalOrder(sch.cmp) && p < k <= |s| && Sorted(sch.cmp, s[..k])
    ensures InsertAt(s, p, n)[p] == n && Apply(sch, s[..k], Remove(s[k - 1])) == RemoveAt(InsertAt(s, p, n)[..k], p)
  {
    DropLast(s, k);
    CarriesRemoveAt(sch, s[..k], k - 1);
    PrefixOfInsert(s, p, n, k - 1);
    RemoveInserted(s[..k - 1], p, n);
  }

  // ----- remove

  lemma RemoveArm(sch: Schema, limit: nat, s: seq<Node>, t: seq<Node>, ch: Change, bound: Row, k: nat) returns (p: nat)
    requires Arrives(sch, limit, s, t, ch, bound, k) && ch.Remove?
    ensures p == Pos(sch.cmp, s, ch.node.row) < |s| && s[p] == ch.node && t == RemoveAt(s, p)
    ensures sch.cmp(ch.node.row, bound) > 0 <==> p >= k
    ensures p < k ==>
              Pos(sch.cmp, t, bound) == (if p < k - 1 then k - 2 else k - 1) && (Has(sch.cmp, t, bound) <==> p < k - 1)
  {
    MemberAt(sch.cmp, s, ch.node);
    p := Pos(sch.cmp, s, ch.node.row);
    VersusBound(sch.cmp, s, k, bound, ch.node.row);
    if p < k - 1 {
      PosOfNode(sch.cmp, t, k - 2, bound, s[k - 1].row);
    } else if p == k - 1 {
      if k > 1 { SameSign(sch.cmp, bound, s[k - 1].row, s[k - 2].row); }
      if k < |s| { SameSign(sch.cmp, bound, s[k - 1].row, s[k].row); }
      PosBetween(sch.cmp, t, k - 1, bound);
    }
  }

  lemma RemoveRefillsWindow(sch: Schema, limit: nat, s: seq<Node>, t: seq<Node>, ch: Change, bound: Row, k: nat, p: nat)
    requires Arrives(sch, limit, s, t, ch, bound, k) && ch.Remove? && p == Pos(sch.cmp, s, ch.node.row) < k < |s|
    ensures k == limit && |t| >= k && t[k - 1] == s[k] && Window(limit, t) == t[..k]
    ensures WindowStep(sch, limit, s, ch) == [ch, Add(s[k])]
    ensures Apply(sch, Window(limit, s), ch) == t[..k - 1]
  {
    MemberAt(sch.cmp, s, ch.node);
    WindowIsPrefix(limit, s);
    WindowIsPrefix(limit, t);
    PrefixOfRemove(s, p, k);
    PrefixSorted(sch.cmp, s, k);
    assert s[..k][p] == ch.node;
    CarriesRemoveAt(sch, s[..k], p);
  }

  lemma RemoveIsBehind(sch: Schema, limit: nat, s: seq<Node>, t: seq<Node>, ch: Change, st: TakeState, p: nat)
    requires TotalOrder(sch.cmp) && Sorted(sch.cmp, s) && Legal(sch, s, ch) && ch.Remove?
    requires StateOk(sch.cmp, limit, s, st) && limit > 0 && p == Pos(sch.cmp, s, ch.node.row) < |s|
             && t == RemoveAt(s, p) && st.size <= p
    ensures WindowStep(sch, limit, s, ch) == [] && Window(limit, t) == Window(limit, s)
    ensures StateOk(sch.cmp, limit, t, st)
  {
    WindowOfRemove(limit, s, p);
  }

  /** What the two scans of a remove see; `at` is 1 when the bound row is still there. */
  lemma RemoveScans(cmp: Comparator, t: seq<Node>, bound: Row, at: nat)
    requires TotalOrder(cmp) && Sorted(cmp, t) && at <= 1 && (Has(cmp, t, bound) <==> at == 1)
    ensures var p := Pos(cmp, t, bound);
            var back := Directed(t[ScanLow(cmp, t, bound, After, true)..ScanHigh(cmp, t, bound, After, true)], true);
            var on := Directed(t[ScanLow(cmp, t, bound, At, false)..ScanHigh(cmp, t, bound, At, false)], false);
            && |back| == p && (p > 0 ==> back[0] == t[p - 1] && cmp(back[0].row, bound) <= 0)
            && |on| == |t| - p && at <= |on| && (forall i | 0 <= i < |on| :: on[i] == t[p + i])
            && forall i | 0 <= i < |on| :: cmp(on[i].row, bound) > 0 <==> i >= at
  {
    AfterPos(cmp, t, bound);
  }

  /** With the bound still stored, a fetch shows what is left of the old window. */
  lemma RemoveStillShows(cmp: Comparator, t: seq<Node>, bound: Row, k: nat, p: nat)
    requires TotalOrder(cmp) && Sorted(cmp, t) && p < k <= |t|
    requires Pos(cmp, t, bound) == (if p < k - 1 then k - 2 else k - 1) && (Has(cmp, t, bound) <==> p < k - 1)
    ensures WhileWithin(cmp, bound, None, t) == t[..k - 1]
  {
    AfterPos(cmp, t, bound);
    WhileWithinIsPrefix(cmp, bound, None, t, k - 1);
  }

  lemma RefillPlan(sch: Schema, limit: nat, s: seq<Node>, t: seq<Node>, ch: Change, st: TakeState, p: nat)
    requires TotalOrder(sch.cmp) && Sorted(sch.cmp, s) && Sorted(sch.cmp, t) && Legal(sch, s, ch)
             && t == Apply(sch, s, ch) && ch.Remove?
    requires StateOk(sch.cmp, limit, s, st) && limit > 0 && p == Pos(sch.cmp, s, ch.node.row) < st.size < |s|
    ensures st.bound.Some? && |t| >= st.size
    ensures WhileWithin(sch.cmp, st.bound.value, None, t) == t[..st.size - 1]
    ensures StateOk(sch.cmp, limit, t, TakeState(st.size, Some(t[st.size - 1].row)))
    ensures var es := [Emission(ch, t[..st.size - 1]), Emission(Add(t[st.size - 1]), Window(limit, t))];
            Changes(es) == WindowStep(sch, limit, s, ch) && Traced(sch, Window(limit, s), es, Window(limit, t))
  {
    hide Apply, Legal, WindowStep, Traced, Carries, WhileWithin;
    var k := st.size;
    var q := RemoveArm(sch, limit, s, t, ch, st.bound.value, k);
    WindowStepCarries(sch, limit, s, ch);
    RemoveRefillsWindow(sch, limit, s, t, ch, st.bound.value, k, p);
    RemoveStillShows(sch.cmp, t, st.bound.value, k, p);
    BoundOfFullWindow(sch.cmp, limit, t);
    TracedTwo(sch, Window(limit, s), Emission(ch, t[..k - 1]), Emission(Add(t[k - 1]), Window(limit, t)),
              Window(limit, t));
  }

  /** Nothing is left to refill the window with. */
  lemma RemoveShrinks(sch: Schema, limit: nat, s: seq<Node>, t: seq<Node>, ch: Change, st: TakeState, p: nat)
    requires TotalOrder(sch.cmp) && Sorted(sch.cmp, s) && Legal(sch, s, ch) && ch.Remove?
    requires StateOk(sch.cmp, limit, s, st) && limit > 0 && p == Pos(sch.cmp, s, ch.node.row) < st.size
             && t == RemoveAt(s, p) && |t| < st.size
    ensures |t| == st.size - 1 && WindowStep(sch, limit, s, ch) == [ch]
    ensures StateOk(sch.cmp, limit, t, if t == [] then TakeState(0, None)
                    else TakeState(st.size - 1, Some(t[|t| - 1].row)))
  {
    if t != [] { assert sch.cmp(t[|t| - 1].row, t[|t| - 1].row) == 0; }
  }

  // ----- child

  lemma ChildArm(sch: Schema, limit: nat, s: seq<Node>, t: seq<Node>, ch: Change, st: TakeState)
    requires TotalOrder(sch.cmp) && Sorted(sch.cmp, s) && Legal(sch, s, ch) && t == Apply(sch, s, ch) && ch.Child?
    requires StateOk(sch.cmp, limit, s, st) && limit > 0
    ensures st.bound.Some? && StateOk(sch.cmp, limit, t, st)
    ensures WindowStep(sch, limit, s, ch) == if sch.cmp(ch.node.row, st.bound.value) <= 0 then [ch] else []
    ensures sch.cmp(ch.node.row, st.bound.value) > 0 ==> Window(limit, t) == Window(limit, s)
  {
    var p := Pos(sch.cmp, s, ch.node.row);
    assert t == s[p := ch.node];
    UpdateState(sch.cmp, limit, s, p, ch.node, st);
  }

  lemma UpdateState(cmp: Comparator, limit: nat, s: seq<Node>, p: nat, n: Node, st: TakeState)
    requires TotalOrder(cmp) && Sorted(cmp, s) && limit > 0 && p == Pos(cmp, s, n.row) < |s| && n.row == s[p].row
    requires StateOk(cmp, limit, s, st)
    ensures st.bound.Some? && StateOk(cmp, limit, s[p := n], st)
    ensures cmp(n.row, st.bound.value) <= 0 <==> p < limit
    ensures p >= limit ==> Window(limit, s[p := n]) == Window(limit, s)
  {
    VersusBound(cmp, s, st.size, st.bound.value, n.row);
    WindowOfUpdate(limit, s, p, n);
  }

  // ----- edit

  lemma EditArm(sch: Schema, limit: nat, s: seq<Node>, t: seq<Node>, ch: Change, bound: Row, k: nat)
    returns (p: nat, d: seq<Node>, q: nat)
    requires Arrives(sch, limit, s, t, ch, bound, k) && ch.Edit?
    ensures EditAt(sch, s, ch, p, d, q, t) && |t| == |s|
    ensures p == Pos(sch.cmp, s, ch.oldNode.row) && q == Pos(sch.cmp, t, ch.node.row)
    ensures WindowStep(sch, limit, s, ch) == EditSteps(limit, s, ch, p, q, t)
    ensures sch.cmp(ch.oldNode.row, bound) == 0 <==> p == k - 1
    ensures sch.cmp(ch.oldNode.row, bound) > 0 <==> p >= k
    ensures sch.cmp(ch.node.row, bound) < 0 <==> sch.cmp(ch.node.row, s[k - 1].row) < 0
    ensures sch.cmp(ch.node.row, bound) == 0 <==> sch.cmp(ch.node.row, s[k - 1].row) == 0
  {
    p, d, q := EditIsAt(sch, s, ch);
    VersusBound(sch.cmp, s, k, bound, ch.oldNode.row);
    MemberAt(sch.cmp, s, ch.oldNode);
    SameSign(sch.cmp, bound, s[k - 1].row, ch.node.row);
  }

  /** The bound row itself was edited. */
  lemma EditBound(sch: Schema, s: seq<Node>, ch: Change, p: nat, d: seq<Node>, q: nat, t: seq<Node>, bound: Row, k: nat)
    requires EditAt(sch, s, ch, p, d, q, t) && 0 < k <= |s| && p == k - 1 && sch.cmp(bound, s[k - 1].row) == 0
    ensures sch.cmp(ch.node.row, s[k - 1].row) == 0 ==> q == k - 1
    ensures sch.cmp(ch.node.row, s[k - 1].row) < 0 ==> q <= k - 1 && Pos(sch.cmp, t, bound) == k
    ensures sch.cmp(ch.node.row, s[k - 1].row) > 0 ==>
              q >= k - 1 && Pos(sch.cmp, t, bound) == k - 1 && !Has(sch.cmp, t, bound)
  {
    var cmp, n, e := sch.cmp, ch.node.row, s[k - 1].row;
    AfterPos(cmp, d, n);
    if k > 1 {
      assert d[k - 2] == s[k - 2];
      if cmp(n, e) >= 0 { Transitive(cmp, s[k - 2].row, e, n); }
    }
    if k < |s| {
      assert d[k - 1] == s[k] && cmp(e, s[k].row) < 0;
      if cmp(n, e) <= 0 { Transitive(cmp, n, e, s[k].row); }
    }
    if cmp(n, e) == 0 {
      PosBetween(cmp, d, k - 1, n);
    } else if cmp(n, e) < 0 {
      BoundAt(cmp, t, k, bound, e);
    } else {
      BoundAt(cmp, t, k - 1, bound, e);
    }
  }

  lemma BoundAt(cmp: Comparator, t: seq<Node>, i: nat, bound: Row, e: Row)
    requires TotalOrder(cmp) && Sorted(cmp, t) && i <= |t| && cmp(bound, e) == 0
    requires i > 0 ==> cmp(t[i - 1].row, e) < 0
    requires i < |t| ==> cmp(t[i].row, e) > 0
    ensures Pos(cmp, t, bound) == i && !Has(cmp, t, bound)
  {
    if i > 0 { SameSign(cmp, bound, e, t[i - 1].row); }
    if i < |t| { SameSign(cmp, bound, e, t[i].row); }
    PosBetween(cmp, t, i, bound);
  }

  /** A row from behind the bound was edited. */
  lemma EditBehind(sch: Schema, s: seq<Node>, ch: Change, p: nat, d: seq<Node>, q: nat, t: seq<Node>, bound: Row,
                   k: nat)
    requires EditAt(sch, s, ch, p, d, q, t) && 0 < k <= p && sch.cmp(bound, s[k - 1].row) == 0
    ensures sch.cmp(ch.node.row, s[k - 1].row) != 0
    ensures sch.cmp(ch.node.row, s[k - 1].row) > 0 ==> q >= k && t[k - 1] == s[k - 1]
    ensures sch.cmp(ch.node.row, s[k - 1].row) < 0 ==>
              q <= k - 1 && t[k] == s[k - 1] && Pos(sch.cmp, t, bound) == k && Has(sch.cmp, t, bound)
  {
    var cmp, n := sch.cmp, ch.node.row;
    assert d[k - 1] == s[k - 1];
    AfterPos(cmp, d, n);
    assert cmp(d[k - 1].row, n) < 0 <==> k - 1 < q;
    if cmp(n, s[k - 1].row) < 0 {
      PosOfNode(cmp, t, k, bound, s[k - 1].row);
    }
  }

  /** A row from in front of the bound was edited. */
  lemma EditInFront(sch: Schema, s: seq<Node>, ch: Change, p: nat, d: seq<Node>, q: nat, t: seq<Node>, bound: Row,
                    k: nat)
    requires EditAt(sch, s, ch, p, d, q, t) && 0 < k <= |s| && p < k - 1 && sch.cmp(bound, s[k - 1].row) == 0
    ensures sch.cmp(ch.node.row, s[k - 1].row) != 0
    ensures sch.cmp(ch.node.row, s[k - 1].row) < 0 ==> q < k - 1 && t[k - 1] == s[k - 1]
    ensures sch.cmp(ch.node.row, s[k - 1].row) > 0 ==>
              q >= k - 1 && Pos(sch.cmp, t, bound) == k - 2 && Has(sch.cmp, t, bound)
  {
    var cmp, n := sch.cmp, ch.node.row;
    assert d[k - 2] == s[k - 1];
    VersusBound(cmp, d, k - 1, bound, n);
    SameSign(cmp, bound, s[k - 1].row, n);
    if q >= k - 1 {
      assert t[k - 2] == s[k - 1];
      PosOfNode(cmp, t, k - 2, bound, s[k - 1].row);
    } else {
      assert t[k - 1] == s[k - 1];
    }
  }

  /** After the first of the two emissions of an edit that leaves or enters the window. */
  lemma EditFirstHalf(sch: Schema, limit: nat, s: seq<Node>, ch: Change, p: nat, d: seq<Node>, q: nat, t: seq<Node>)
    requires EditAt(sch, s, ch, p, d, q, t) && 0 < limit < |s| && |s| == |t|
    ensures Window(limit, t) == t[..limit]
    ensures p < limit <= q ==>
              Apply(sch, Window(limit, s), Remove(ch.oldNode)) == RemoveAt(Window(limit, t), limit - 1)
                == t[..limit - 1]
    ensures q < limit <= p ==>
              t[q] == ch.node && Apply(sch, Window(limit, s), Remove(s[limit - 1])) == RemoveAt(Window(limit, t), q)
  {
    WindowIsPrefix(limit, s);
    WindowIsPrefix(limit, t);
    PrefixSorted(sch.cmp, s, limit);
    if p < limit <= q {
      EditLeaves(sch, limit, s, ch, p, d, q, t);
    }
    if q < limit <= p {
      EditEnters(sch, limit, s, ch, p, d, q, t);
    }
  }

  lemma EditLeaves(sch: Schema, limit: nat, s: seq<Node>, ch: Change, p: nat, d: seq<Node>, q: nat, t: seq<Node>)
    requires EditAt(sch, s, ch, p, d, q, t) && p < limit <= q && limit < |s| && Sorted(sch.cmp, s[..limit])
    ensures Apply(sch, s[..limit], Remove(ch.oldNode)) == RemoveAt(t[..limit], limit - 1) == t[..limit - 1]
  {
    DropLast(t, limit);
    PrefixOfRemove(s, p, limit);
    PrefixOfInsert(d, q, ch.node, limit - 1);
    assert s[..limit][p] == ch.oldNode;
    CarriesRemoveAt(sch, s[..limit], p);
  }

  lemma EditEnters(sch: Schema, limit: nat, s: seq<Node>, ch: Change, p: nat, d: seq<Node>, q: nat, t: seq<Node>)
    requires EditAt(sch, s, ch, p, d, q, t) && q < limit <= p && Sorted(sch.cmp, s[..limit])
    ensures t[q] == ch.node && Apply(sch, s[..limit], Remove(s[limit - 1])) == RemoveAt(t[..limit], q)
  {
    DropLast(s, limit);
    CarriesRemoveAt(sch, s[..limit], limit - 1);
    PrefixOfRemove(s, p, limit - 1);
    PrefixOfInsert(d, q, ch.node, limit - 1);
    RemoveInserted(s[..limit - 1], q, ch.node);
  }

  // ----- plans: the emissions of each arm of an edit

  /** The emissions are the changes of the window, each traced. */
  ghost predicate Planned(sch: Schema, limit: nat, s: seq<Node>, t: seq<Node>, ch: Change, es: seq<Emission>)
    requires TotalOrder(sch.cmp) && Sorted(sch.cmp, s) && Legal(sch, s, ch)
  {
    Changes(es) == WindowStep(sch, limit, s, ch) && Traced(sch, Window(limit, s), es, Window(limit, t))
  }

  ghost predicate Edits(sch: Schema, limit: nat, s: seq<Node>, t: seq<Node>, ch: Change, st: TakeState) {
    && TotalOrder(sch.cmp) && Sorted(sch.cmp, s) && Sorted(sch.cmp, t) && Legal(sch, s, ch) && t == Apply(sch, s, ch)
      && ch.Edit?
    && limit > 0 && StateOk(sch.cmp, limit, s, st)
  }

  lemma PlanOne(sch: Schema, limit: nat, s: seq<Node>, t: seq<Node>, ch: Change)
    requires TotalOrder(sch.cmp) && Sorted(sch.cmp, s) && Legal(sch, s, ch) && t == Apply(sch, s, ch)
    requires WindowStep(sch, limit, s, ch) == [ch]
    ensures Planned(sch, limit, s, t, ch, [Emission(ch, Window(limit, t))])
  {
    hide Apply, Legal, WindowStep, Traced, Carries;
    WindowStepCarries(sch, limit, s, ch);
    TracedOne(sch, Window(limit, s), Emission(ch, Window(limit, t)), Window(limit, t));
  }

  lemma PlanTwo(sch: Schema, limit: nat, s: seq<Node>, t: seq<Node>, ch: Change, first: Change, second: Change,
                shown: seq<Node>)
    requires TotalOrder(sch.cmp) && Sorted(sch.cmp, s) && Legal(sch, s, ch) && t == Apply(sch, s, ch)
    requires WindowStep(sch, limit, s, ch) == [first, second] && shown == Apply(sch, Window(limit, s), first)
    ensures Planned(sch, limit, s, t, ch, [Emission(first, shown), Emission(second, Window(limit, t))])
  {
    hide Apply, Legal, WindowStep, Traced, Carries;
    WindowStepCarries(sch, limit, s, ch);
    TracedTwo(sch, Window(limit, s), Emission(first, shown), Emission(second, Window(limit, t)), Window(limit, t));
  }

  /** The new bound of each arm is node `size - 1` of the new list, except where the stored bound stays. */
  ghost predicate NewState(cmp: Comparator, limit: nat, t: seq<Node>, st: TakeState) {
    && 0 < st.size <= |t| && st.size <= limit && |Window(limit, t)| == st.size
      && StateOk(cmp, limit, t, TakeState(st.size, Some(t[st.size - 1].row)))
  }

  lemma EditKeepsSize(cmp: Comparator, limit: nat, s: seq<Node>, t: seq<Node>, st: TakeState)
    requires TotalOrder(cmp) && limit > 0 && StateOk(cmp, limit, s, st) && |s| == |t| && s != []
    ensures st.bound.Some? && st.size == |Window(limit, s)| && cmp(st.bound.value, s[st.size - 1].row) == 0
    ensures NewState(cmp, limit, t, st)
    ensures cmp(st.bound.value, t[st.size - 1].row) == 0 ==> StateOk(cmp, limit, t, st)
  {
    var k := st.size;
    assert Window(limit, t)[k - 1] == t[k - 1];
    assert cmp(t[k - 1].row, t[k - 1].row) == 0;
  }

  /** An edit whose old and new row are both inside forwards the edit. */
  lemma EditForwards(sch: Schema, limit: nat, s: seq<Node>, t: seq<Node>, ch: Change)
    requires TotalOrder(sch.cmp) && Sorted(sch.cmp, s) && Legal(sch, s, ch) && t == Apply(sch, s, ch) && ch.Edit?
             && limit > 0
    requires Pos(sch.cmp, s, ch.oldNode.row) < limit && Pos(sch.cmp, t, ch.node.row) < limit
    ensures WindowStep(sch, limit, s, ch) == [ch]
    ensures Planned(sch, limit, s, t, ch, [Emission(ch, Window(limit, t))])
  {
    EditStepIs(sch, limit, s, t, ch);
    PlanOne(sch, limit, s, t, ch);
  }

  lemma EditStepIs(sch: Schema, limit: nat, s: seq<Node>, t: seq<Node>, ch: Change)
    requires TotalOrder(sch.cmp) && Sorted(sch.cmp, s) && Legal(sch, s, ch) && t == Apply(sch, s, ch) && ch.Edit?
             && limit > 0
    ensures Pos(sch.cmp, s, ch.oldNode.row) < |s| && Pos(sch.cmp, t, ch.node.row) < |t| && |s| == |t|
    ensures WindowStep(sch, limit, s, ch)
            == EditSteps(limit, s, ch, Pos(sch.cmp, s, ch.oldNode.row), Pos(sch.cmp, t, ch.node.row), t)
  {
    EditSizes(sch, s, ch);
  }

  lemma EditHasBound(sch: Schema, limit: nat, s: seq<Node>, t: seq<Node>, ch: Change, st: TakeState)
    requires Edits(sch, limit, s, t, ch, st)
    ensures st.bound.Some? && Arrives(sch, limit, s, t, ch, st.bound.value, st.size)
    ensures |s| == |t| && s != [] && NewState(sch.cmp, limit, t, st)
  {
    assert ch.oldNode in s;
    EditStepIs(sch, limit, s, t, ch);
    EditKeepsSize(sch.cmp, limit, s, t, st);
  }

  /** The bound row was edited. */
  lemma PlanEditBound(sch: Schema, limit: nat, s: seq<Node>, t: seq<Node>, ch: Change, st: TakeState)
    requires Edits(sch, limit, s, t, ch, st) && st.bound.Some? && sch.cmp(ch.oldNode.row, st.bound.value) == 0
    ensures NewState(sch.cmp, limit, t, st)
    ensures sch.cmp(ch.node.row, st.bound.value) == 0 ==> StateOk(sch.cmp, limit, t, st)
    ensures sch.cmp(ch.node.row, st.bound.value) <= 0 ==>
              Planned(sch, limit, s, t, ch, [Emission(ch, Window(limit, t))])
    ensures sch.cmp(ch.node.row, st.bound.value) < 0 ==>
              Pos(sch.cmp, t, st.bound.value) == st.size && (st.size == 1 ==> t[0] == ch.node)
    ensures sch.cmp(ch.node.row, st.bound.value) > 0 ==>
              && Pos(sch.cmp, t, st.bound.value) == st.size - 1 && !Has(sch.cmp, t, st.bound.value)
              && (sch.cmp(t[st.size - 1].row, ch.node.row) == 0 ==>
                  t[st.size - 1] == ch.node && Planned(sch, limit, s, t, ch, [Emission(ch, Window(limit, t))]))
              && (sch.cmp(t[st.size - 1].row, ch.node.row) != 0 ==>
                    Planned(sch, limit, s, t, ch,
                            [Emission(Remove(ch.oldNode), RemoveAt(Window(limit, t), st.size - 1)),
                             Emission(Add(t[st.size - 1]), Window(limit, t))]))
  {
    hide Apply, Legal, WindowStep, Traced, Carries, Planned, Window, StateOk, WhileWithin, Sorted;
    EditHasBound(sch, limit, s, t, ch, st);
    var b, k := st.bound.value, st.size;
    var p, d, q := EditArm(sch, limit, s, t, ch, b, k);
    EditBound(sch, s, ch, p, d, q, t, b, k);
    assert t[q] == ch.node;
    if q < limit {
      EditForwards(sch, limit, s, t, ch);
    }
    if sch.cmp(ch.node.row, b) == 0 {
      SameBoundState(sch.cmp, limit, s, t, st, ch.node.row);
    } else if sch.cmp(ch.node.row, b) > 0 {
      if sch.cmp(t[k - 1].row, ch.node.row) == 0 {
        SamePositionSameNode(sch.cmp, t, t[k - 1], ch.node);
        Distinct(sch.cmp, t);
      } else {
        EditCrosses(sch, limit, s, t, ch, st, p, d, q);
      }
    }
  }

  lemma SameBoundState(cmp: Comparator, limit: nat, s: seq<Node>, t: seq<Node>, st: TakeState, row: Row)
    requires TotalOrder(cmp) && limit > 0 && StateOk(cmp, limit, s, st) && |s| == |t| && s != []
    requires cmp(row, st.bound.value) == 0 && t[st.size - 1].row == row
    ensures StateOk(cmp, limit, t, st)
  {
    EditKeepsSize(cmp, limit, s, t, st);
  }

  /** A row leaves the window over its end; another one refills it. */
  lemma EditCrosses(sch: Schema, limit: nat, s: seq<Node>, t: seq<Node>, ch: Change, st: TakeState, p: nat,
                    d: seq<Node>, q: nat)
    requires Edits(sch, limit, s, t, ch, st) && EditAt(sch, s, ch, p, d, q, t) && |s| == |t|
    requires p == Pos(sch.cmp, s, ch.oldNode.row) && q == Pos(sch.cmp, t, ch.node.row)
    requires p < st.size <= q && st.size == |Window(limit, s)|
    ensures st.size == limit < |s|
    ensures Planned(sch, limit, s, t, ch,
                    [Emission(Remove(ch.oldNode), RemoveAt(Window(limit, t), limit - 1)),
                     Emission(Add(t[limit - 1]), Window(limit, t))])
    ensures RemoveAt(Window(limit, t), limit - 1) == t[..limit - 1]
  {
    EditStepIs(sch, limit, s, t, ch);
    EditFirstHalf(sch, limit, s, ch, p, d, q, t);
    PlanTwo(sch, limit, s, t, ch, Remove(ch.oldNode), Add(t[limit - 1]), RemoveAt(Window(limit, t), limit - 1));
  }

  /** A row from behind the bound was edited. */
  lemma PlanEditBehind(sch: Schema, limit: nat, s: seq<Node>, t: seq<Node>, ch: Change, st: TakeState)
    requires Edits(sch, limit, s, t, ch, st) && st.bound.Some? && sch.cmp(ch.oldNode.row, st.bound.value) > 0
    ensures NewState(sch.cmp, limit, t, st) && st.size == limit < |s| == |t|
    ensures sch.cmp(ch.node.row, st.bound.value) != 0
    ensures sch.cmp(ch.node.row, st.bound.value) > 0 ==>
              StateOk(sch.cmp, limit, t, st) && Planned(sch, limit, s, t, ch, [])
    ensures sch.cmp(ch.node.row, st.bound.value) < 0 ==>
              && Pos(sch.cmp, t, st.bound.value) == limit && Has(sch.cmp, t, st.bound.value) && t[limit] == s[limit - 1]
              && Pos(sch.cmp, t, ch.node.row) < limit && t[Pos(sch.cmp, t, ch.node.row)] == ch.node
              && Planned(sch, limit, s, t, ch,
                         [Emission(Remove(s[limit - 1]), RemoveAt(Window(limit, t), Pos(sch.cmp, t, ch.node.row))),
                          Emission(Add(ch.node), Window(limit, t))])
  {
    EditHasBound(sch, limit, s, t, ch, st);
    var b, k := st.bound.value, st.size;
    var p, d, q := EditArm(sch, limit, s, t, ch, b, k);
    EditBehind(sch, s, ch, p, d, q, t, b, k);
    EditStepIs(sch, limit, s, t, ch);
    assert k == limit;
    if sch.cmp(ch.node.row, b) > 0 {
      SameSign(sch.cmp, b, s[k - 1].row, ch.node.row);
      EditKeepsSize(sch.cmp, limit, s, t, st);
      EditOutside(sch, s, ch, p, d, q, t, limit);
      WindowIsPrefix(limit, s);
      WindowIsPrefix(limit, t);
      assert Changes([]) == [];
    } else {
      EditFirstHalf(sch, limit, s, ch, p, d, q, t);
      PlanTwo(sch, limit, s, t, ch, Remove(s[limit - 1]), Add(ch.node), RemoveAt(Window(limit, t), q));
    }
  }

  /** A row from in front of the bound was edited. */
  lemma PlanEditInFront(sch: Schema, limit: nat, s: seq<Node>, t: seq<Node>, ch: Change, st: TakeState)
    requires Edits(sch, limit, s, t, ch, st) && st.bound.Some? && sch.cmp(ch.oldNode.row, st.bound.value) < 0
    ensures NewState(sch.cmp, limit, t, st) && st.size >= 2
    ensures sch.cmp(ch.node.row, st.bound.value) != 0
    ensures sch.cmp(ch.node.row, st.bound.value) < 0 ==>
              StateOk(sch.cmp, limit, t, st) && Planned(sch, limit, s, t, ch, [Emission(ch, Window(limit, t))])
    ensures sch.cmp(ch.node.row, st.bound.value) > 0 ==>
              && Pos(sch.cmp, t, st.bound.value) == st.size - 2 && Has(sch.cmp, t, st.bound.value)
              && (sch.cmp(t[st.size - 1].row, ch.node.row) == 0 ==>
                  t[st.size - 1] == ch.node && Planned(sch, limit, s, t, ch, [Emission(ch, Window(limit, t))]))
              && (sch.cmp(t[st.size - 1].row, ch.node.row) != 0 ==>
                    && WhileWithin(sch.cmp, st.bound.value, None, t) == t[..st.size - 1]
                    && Planned(sch, limit, s, t, ch,
                               [Emission(Remove(ch.oldNode), t[..st.size - 1]),
                                Emission(Add(t[st.size - 1]), Window(limit, t))]))
  {
    hide Apply, Legal, WindowStep, Traced, Carries, Planned, Window, StateOk, WhileWithin, Sorted;
    EditHasBound(sch, limit, s, t, ch, st);
    var b, k := st.bound.value, st.size;
    var p, d, q := EditArm(sch, limit, s, t, ch, b, k);
    EditInFront(sch, s, ch, p, d, q, t, b, k);
    assert t[q] == ch.node;
    if q < limit {
      EditForwards(sch, limit, s, t, ch);
    }
    if sch.cmp(ch.node.row, b) < 0 {
      SameBoundAt(sch.cmp, limit, s, t, st);
    } else {
      if sch.cmp(t[k - 1].row, ch.node.row) == 0 {
        SamePositionSameNode(sch.cmp, t, t[k - 1], ch.node);
        Distinct(sch.cmp, t);
      } else {
        EditCrosses(sch, limit, s, t, ch, st, p, d, q);
        RemoveStillShows(sch.cmp, t, b, k, p);
      }
    }
  }

  lemma SameBoundAt(cmp: Comparator, limit: nat, s: seq<Node>, t: seq<Node>, st: TakeState)
    requires TotalOrder(cmp) && limit > 0 && StateOk(cmp, limit, s, st) && |s| == |t| && s != []
    requires t[st.size - 1] == s[st.size - 1]
    ensures StateOk(cmp, limit, t, st)
  {
    EditKeepsSize(cmp, limit, s, t, st);
  }

  // ----- plans of the other arms

  ghost predicate Pushes(sch: Schema, limit: nat, s: seq<Node>, t: seq<Node>, ch: Change, st: TakeState) {
    && TotalOrder(sch.cmp) && Sorted(sch.cmp, s) && Sorted(sch.cmp, t) && Legal(sch, s, ch) && t == Apply(sch, s, ch)
    && limit > 0 && StateOk(sch.cmp, limit, s, st)
  }

  lemma PlanGrow(sch: Schema, limit: nat, s: seq<Node>, t: seq<Node>, ch: Change, st: TakeState, newBound: Row)
    requires Pushes(sch, limit, s, t, ch, st) && ch.Add? && st.size < limit
    requires newBound == if st.bound.None? || sch.cmp(st.bound.value, ch.node.row) < 0 then ch.node.row
             else st.bound.value
    ensures StateOk(sch.cmp, limit, t, TakeState(st.size + 1, Some(newBound)))
    ensures Planned(sch, limit, s, t, ch, [Emission(ch, Window(limit, t))])
  {
    GrowWindow(sch, limit, s, t, ch, st, newBound);
    PlanOne(sch, limit, s, t, ch);
  }

  /** An add to a full window. */
  lemma PlanAdd(sch: Schema, limit: nat, s: seq<Node>, t: seq<Node>, ch: Change, st: TakeState)
    requires Pushes(sch, limit, s, t, ch, st) && ch.Add? && st.size == limit
    ensures st.bound.Some? && |s| >= limit && |t| > limit && |Window(limit, t)| == limit
    ensures sch.cmp(ch.node.row, st.bound.value) >= 0 ==>
              StateOk(sch.cmp, limit, t, st) && Planned(sch, limit, s, t, ch, [])
    ensures sch.cmp(ch.node.row, st.bound.value) < 0 ==>
              && Pos(sch.cmp, t, st.bound.value) == limit && Has(sch.cmp, t, st.bound.value) && t[limit] == s[limit - 1]
              && Pos(sch.cmp, s, ch.node.row) < limit && t[Pos(sch.cmp, s, ch.node.row)] == ch.node
              && sch.cmp(ch.node.row, t[limit - 1].row) <= 0 && (limit == 1 ==> t[0] == ch.node)
              && StateOk(sch.cmp, limit, t, TakeState(limit, Some(t[limit - 1].row)))
              && Planned(sch, limit, s, t, ch,
                         [Emission(Remove(s[limit - 1]), RemoveAt(Window(limit, t), Pos(sch.cmp, s, ch.node.row))),
                          Emission(ch, Window(limit, t))])
  {
    var p := AddArm(sch, limit, s, t, ch, st.bound.value, limit);
    WindowIsPrefix(limit, t);
    if p >= limit {
      AddIsBehind(sch, limit, s, t, ch, st, p);
      assert Changes([]) == [];
    } else {
      AddDisplaces(sch, limit, s, t, ch, st.bound.value, limit, p);
      BoundOfFullWindow(sch.cmp, limit, t);
      PlanTwo(sch, limit, s, t, ch, Remove(s[limit - 1]), ch, RemoveAt(Window(limit, t), p));
    }
  }

  lemma PlanRemove(sch: Schema, limit: nat, s: seq<Node>, t: seq<Node>, ch: Change, st: TakeState)
    requires Pushes(sch, limit, s, t, ch, st) && ch.Remove?
    ensures st.bound.Some? && 0 < st.size <= |s| && |t| == |s| - 1
    ensures sch.cmp(ch.node.row, st.bound.value) > 0 ==>
              StateOk(sch.cmp, limit, t, st) && Planned(sch, limit, s, t, ch, [])
    ensures sch.cmp(ch.node.row, st.bound.value) <= 0 ==>
              && (Has(sch.cmp, t, st.bound.value) ==> st.size >= 2)
              && Pos(sch.cmp, t, st.bound.value) == if Has(sch.cmp, t, st.bound.value) then st.size - 2 else st.size - 1
    ensures sch.cmp(ch.node.row, st.bound.value) <= 0 && |t| >= st.size ==>
              && WhileWithin(sch.cmp, st.bound.value, None, t) == t[..st.size - 1]
              && StateOk(sch.cmp, limit, t, TakeState(st.size, Some(t[st.size - 1].row)))
              && Planned(sch, limit, s, t, ch,
                         [Emission(ch, t[..st.size - 1]), Emission(Add(t[st.size - 1]), Window(limit, t))])
    ensures sch.cmp(ch.node.row, st.bound.value) <= 0 && |t| < st.size ==>
              && |t| == st.size - 1
              && StateOk(sch.cmp, limit, t, if t == [] then TakeState(0, None)
                         else TakeState(st.size - 1, Some(t[|t| - 1].row)))
              && Planned(sch, limit, s, t, ch, [Emission(ch, Window(limit, t))])
  {
    hide Carries, WhileWithin, WindowStep, Pos;
    assert s != [] by { assert ch.node in s; }
    var k := st.size;
    var p := RemoveArm(sch, limit, s, t, ch, st.bound.value, k);
    if p >= k {
      RemoveIsBehind(sch, limit, s, t, ch, st, p);
      assert Changes([]) == [];
    } else if |t| >= k {
      RefillPlan(sch, limit, s, t, ch, st, p);
    } else {
      RemoveShrinks(sch, limit, s, t, ch, st, p);
      PlanOne(sch, limit, s, t, ch);
    }
  }

  lemma PlanChild(sch: Schema, limit: nat, s: seq<Node>, t: seq<Node>, ch: Change, st: TakeState)
    requires Pushes(sch, limit, s, t, ch, st) && ch.Child?
    ensures st.bound.Some? && StateOk(sch.cmp, limit, t, st)
    ensures Planned(sch, limit, s, t, ch, if sch.cmp(ch.node.row, st.bound.value) <= 0
                    then [Emission(ch, Window(limit, t))] else [])
  {
    ChildArm(sch, limit, s, t, ch, st);
    if sch.cmp(ch.node.row, st.bound.value) <= 0 {
      PlanOne(sch, limit, s, t, ch);
    } else {
      assert Changes([]) == [];
    }
  }
}
