/**
  What a consumer of a pipeline holds, and what a change does to it.

  A view is a list of nodes in strictly increasing sort position. A consumer keeps its view
  current by folding in the changes it is sent (`Apply`). The property that the whole engine
  is for is `Carries(schema, before, changes, after)`: every change of the list is legal at the
  moment it arrives, and folding the list into the view `before` gives exactly the view `after`.
 */
module Views {
  import opened Values
  import opened Seqs

  /** A row with its named relationships (lazy in the source, read at once here). */
  datatype Node = Node(row: Row, rels: map<string, seq<Node>>)

  datatype Change =
    | Add(node: Node)
    | Remove(node: Node)
    | Edit(node: Node, oldNode: Node)
    | Child(node: Node, rel: string, change: Change)

  datatype Schema = Schema(cmp: Comparator, rels: map<string, Schema>)

  // ----- sorted lists of nodes

  ghost predicate Sorted(cmp: Comparator, s: seq<Node>) {
    forall i, j | 0 <= i < j < |s| :: cmp(s[i].row, s[j].row) < 0
  }

  /** The number of leading nodes that sort before `row`. */
  ghost function Pos(cmp: Comparator, s: seq<Node>, row: Row): (p: nat)
    ensures p <= |s|
    ensures forall i | 0 <= i < p :: cmp(s[i].row, row) < 0
    ensures p < |s| ==> cmp(s[p].row, row) >= 0
  {
    PosFrom(cmp, s, row, 0)
  }

  ghost function PosFrom(cmp: Comparator, s: seq<Node>, row: Row, i: nat): (p: nat)
    requires i <= |s|
    ensures i <= p <= |s|
    ensures forall k | i <= k < p :: cmp(s[k].row, row) < 0
    ensures p < |s| ==> cmp(s[p].row, row) >= 0
    decreases |s| - i
  {
    if i == |s| || cmp(s[i].row, row) >= 0 then i else PosFrom(cmp, s, row, i + 1)
  }

  /** Some node of `s` has the sort position of `row`. */
  ghost predicate Has(cmp: Comparator, s: seq<Node>, row: Row) {
    var p := Pos(cmp, s, row);
    p < |s| && cmp(s[p].row, row) == 0
  }

  ghost function Insert(cmp: Comparator, s: seq<Node>, n: Node): seq<Node> {
    InsertAt(s, Pos(cmp, s, n.row), n)
  }

  ghost function Delete(cmp: Comparator, s: seq<Node>, row: Row): seq<Node> {
    if Has(cmp, s, row) then RemoveAt(s, Pos(cmp, s, row)) else s
  }

  lemma PosIsUnique(cmp: Comparator, s: seq<Node>, i: nat, row: Row)
    requires TotalOrder(cmp) && Sorted(cmp, s) && i < |s|
    requires cmp(s[i].row, row) == 0
    ensures Pos(cmp, s, row) == i && Has(cmp, s, row)
  {
    var p := Pos(cmp, s, row);
    if p < i {
      Transitive(cmp, row, s[p].row, s[i].row);
    }
  }

  lemma PosBetween(cmp: Comparator, s: seq<Node>, i: nat, row: Row)
    requires TotalOrder(cmp) && Sorted(cmp, s) && i <= |s|
    requires i > 0 ==> cmp(s[i - 1].row, row) < 0
    requires i < |s| ==> cmp(s[i].row, row) >= 0
    ensures Pos(cmp, s, row) == i
  {
    var p := Pos(cmp, s, row);
    if p < i {
      if p < i - 1 { Transitive(cmp, s[p].row, s[i - 1].row, row); }
    }
  }

  /** Everything after the position of `row` sorts after it (or at it). */
  lemma AfterPos(cmp: Comparator, s: seq<Node>, row: Row)
    requires TotalOrder(cmp) && Sorted(cmp, s)
    ensures forall j | Pos(cmp, s, row) < j < |s| :: cmp(row, s[j].row) < 0
    ensures !Has(cmp, s, row) ==> forall j | Pos(cmp, s, row) <= j < |s| :: cmp(row, s[j].row) < 0
    ensures forall i | 0 <= i < |s| && i != Pos(cmp, s, row) :: cmp(s[i].row, row) != 0
  {
    var p := Pos(cmp, s, row);
    forall j | p < j < |s| ensures cmp(row, s[j].row) < 0 {
      Transitive(cmp, row, s[p].row, s[j].row);
    }
  }

  lemma HasMeansMember(cmp: Comparator, s: seq<Node>, row: Row)
    requires TotalOrder(cmp) && Sorted(cmp, s)
    ensures Has(cmp, s, row) <==> exists x :: x in s && cmp(x.row, row) == 0
  {
    AfterPos(cmp, s, row);
    if Has(cmp, s, row) {
      assert s[Pos(cmp, s, row)] in s;
    }
  }

  lemma InsertFacts(cmp: Comparator, s: seq<Node>, n: Node)
    requires TotalOrder(cmp) && Sorted(cmp, s) && !Has(cmp, s, n.row)
    ensures Sorted(cmp, Insert(cmp, s, n))
    ensures forall x :: x in Insert(cmp, s, n) <==> x in s || x == n
  {
    AfterPos(cmp, s, n.row);
    InsertAtMembers(s, Pos(cmp, s, n.row), n);
  }

  lemma RemoveFacts(cmp: Comparator, s: seq<Node>, p: nat)
    requires TotalOrder(cmp) && Sorted(cmp, s) && p < |s|
    ensures Sorted(cmp, RemoveAt(s, p))
    ensures forall x :: x in RemoveAt(s, p) <==> x in s && x != s[p]
  {
    Distinct(cmp, s);
    RemoveAtMembers(s, p);
  }

  lemma DeleteFacts(cmp: Comparator, s: seq<Node>, row: Row)
    requires TotalOrder(cmp) && Sorted(cmp, s) && Has(cmp, s, row)
    ensures Sorted(cmp, Delete(cmp, s, row))
    ensures forall x :: x in Delete(cmp, s, row) <==> x in s && x != s[Pos(cmp, s, row)]
  {
    RemoveFacts(cmp, s, Pos(cmp, s, row));
  }

  lemma ReplaceFacts(cmp: Comparator, s: seq<Node>, p: nat, n: Node)
    requires TotalOrder(cmp) && Sorted(cmp, s) && p < |s| && n.row == s[p].row
    ensures Sorted(cmp, s[p := n])
    ensures forall x :: x in s[p := n] <==> (x in s && x != s[p]) || x == n
  {
    Distinct(cmp, s);
    UpdateMembers(s, p, n, s[p := n]);
  }

  lemma Distinct(cmp: Comparator, s: seq<Node>)
    requires TotalOrder(cmp) && Sorted(cmp, s)
    ensures forall i, j | 0 <= i < |s| && 0 <= j < |s| && i != j :: s[i] != s[j]
  {
    forall i, j | 0 <= i < j < |s| ensures s[i] != s[j] {
      assert cmp(s[i].row, s[j].row) < 0 && cmp(s[i].row, s[i].row) == 0;
    }
  }

  /** Two nodes of a sorted list at the same position are the same node. */
  lemma SamePositionSameNode(cmp: Comparator, s: seq<Node>, x: Node, y: Node)
    requires Sorted(cmp, s) && TotalOrder(cmp)
    requires x in s && y in s && cmp(x.row, y.row) == 0
    ensures x == y
  {
    var i :| 0 <= i < |s| && s[i] == x;
    var j :| 0 <= j < |s| && s[j] == y;
  }

  lemma TailFacts(cmp: Comparator, a: seq<Node>)
    requires TotalOrder(cmp) && Sorted(cmp, a) && a != []
    ensures Sorted(cmp, a[1..])
    ensures forall x :: x in a[1..] <==> x in a && x != a[0]
  {
    RemoveFacts(cmp, a, 0);
    assert RemoveAt(a, 0) == a[1..];
  }

  lemma EmptySorted(cmp: Comparator)
    ensures Sorted(cmp, [])
  {
  }

  /** The head of a sorted list in front of nodes of its tail. */
  lemma SortedCons(cmp: Comparator, s: seq<Node>, t: seq<Node>)
    requires Sorted(cmp, s) && Sorted(cmp, t) && s != []
    requires forall x | x in t :: x in s[1..]
    ensures Sorted(cmp, [s[0]] + t)
  {
    forall j | 0 <= j < |t| ensures cmp(s[0].row, t[j].row) < 0 {
      assert t[j] in s[1..];
      var i :| 0 <= i < |s| - 1 && s[1..][i] == t[j];
      assert s[i + 1] == t[j];
    }
  }

  lemma SameHead(cmp: Comparator, a: seq<Node>, b: seq<Node>)
    requires TotalOrder(cmp) && Sorted(cmp, a) && Sorted(cmp, b) && a != [] && b != []
    requires a[0] in b && b[0] in a
    ensures a[0] == b[0]
  {
    var i :| 0 <= i < |b| && b[i] == a[0];
    var j :| 0 <= j < |a| && a[j] == b[0];
    if i > 0 && j > 0 {
      assert cmp(b[0].row, b[i].row) < 0 && cmp(a[0].row, a[j].row) < 0;
    }
  }

  /** A sorted list is determined by its members. */
  lemma {:induction false} SortedUnique(cmp: Comparator, a: seq<Node>, b: seq<Node>)
    requires TotalOrder(cmp) && Sorted(cmp, a) && Sorted(cmp, b)
    requires forall x :: x in a <==> x in b
    ensures a == b
  {
    assert a != [] ==> a[0] in b;
    assert b != [] ==> b[0] in a;
    if a != [] {
      SameHead(cmp, a, b);
      TailFacts(cmp, a);
      TailFacts(cmp, b);
      SortedUnique(cmp, a[1..], b[1..]);
      HeadTail(a);
      HeadTail(b);
    }
  }

  lemma NoMembers(s: seq<Node>)
    ensures s == [] <==> forall x :: x !in s
  {
    if s != [] { assert s[0] in s; }
  }

  // ----- applying a change

  /** How a consumer folds a change into its view. */
  ghost function Apply(sch: Schema, s: seq<Node>, ch: Change): seq<Node>
    decreases ch
  {
    match ch
    case Add(n) => Insert(sch.cmp, s, n)
    case Remove(n) => Delete(sch.cmp, s, n.row)
    case Edit(n, o) => Insert(sch.cmp, Delete(sch.cmp, s, o.row), n)
    case Child(n, rel, c) =>
      var p := Pos(sch.cmp, s, n.row);
      if Has(sch.cmp, s, n.row) && rel in sch.rels && rel in s[p].rels then
        s[p := Node(s[p].row, s[p].rels[rel := Apply(sch.rels[rel], s[p].rels[rel], c)])]
      else s
  }

  /** The change fits the view: what it adds is new, what it removes or replaces is there node for
      node, and a child change carries the node as it is after the change. */
  ghost predicate Legal(sch: Schema, s: seq<Node>, ch: Change)
    decreases ch
  {
    match ch
    case Add(n) => !Has(sch.cmp, s, n.row)
    case Remove(n) => n in s
    case Edit(n, o) => o in s && !Has(sch.cmp, Delete(sch.cmp, s, o.row), n.row)
    case Child(n, rel, c) =>
      && Has(sch.cmp, s, n.row)
      && rel in sch.rels && TotalOrder(sch.rels[rel].cmp)
      && var m := s[Pos(sch.cmp, s, n.row)];
      && rel in m.rels && Sorted(sch.rels[rel].cmp, m.rels[rel])
      && Legal(sch.rels[rel], m.rels[rel], c)
      && n == Node(m.row, m.rels[rel := Apply(sch.rels[rel], m.rels[rel], c)])
  }

  /** The node that the change takes out of the view, if any. */
  ghost function Pre(sch: Schema, s: seq<Node>, ch: Change): Option<Node> {
    match ch
    case Add(_) => None
    case Remove(n) => Some(n)
    case Edit(_, o) => Some(o)
    case Child(n, _, _) => if Has(sch.cmp, s, n.row) then Some(s[Pos(sch.cmp, s, n.row)]) else None
  }

  /** The node that the change puts into the view, if any. */
  function Post(ch: Change): Option<Node> {
    match ch
    case Remove(_) => None
    case _ => Some(ch.node)
  }

  /** `t` is `s` with one node taken out and one put in. */
  ghost predicate Replaces(s: seq<Node>, pre: Option<Node>, post: Option<Node>, t: seq<Node>) {
    && (pre.Some? ==> pre.value in s)
    && (forall x :: x in t <==> (x in s && pre != Some(x)) || post == Some(x))
  }

  lemma MemberAt(cmp: Comparator, s: seq<Node>, n: Node)
    requires TotalOrder(cmp) && Sorted(cmp, s) && n in s
    ensures Has(cmp, s, n.row) && s[Pos(cmp, s, n.row)] == n
  {
    var i :| 0 <= i < |s| && s[i] == n;
    PosIsUnique(cmp, s, i, n.row);
  }

  /** Every legal change, a child change too, takes one node out of the view and puts one in. */
  lemma ApplyFacts(sch: Schema, s: seq<Node>, ch: Change)
    requires TotalOrder(sch.cmp) && Sorted(sch.cmp, s) && Legal(sch, s, ch)
    ensures Sorted(sch.cmp, Apply(sch, s, ch))
    ensures Replaces(s, Pre(sch, s, ch), Post(ch), Apply(sch, s, ch))
    ensures ch.Child? ==> Pre(sch, s, ch).Some? && Pre(sch, s, ch).value.row == ch.node.row
  {
    var cmp := sch.cmp;
    match ch
    case Add(n) => InsertFacts(cmp, s, n);
    case Remove(n) => MemberAt(cmp, s, n); DeleteFacts(cmp, s, n.row);
    case Edit(n, o) =>
      MemberAt(cmp, s, o);
      DeleteFacts(cmp, s, o.row);
      InsertFacts(cmp, Delete(cmp, s, o.row), n);
    case Child(n, rel, c) =>
      var p := Pos(cmp, s, n.row);
      assert Apply(sch, s, ch) == s[p := n];
      ReplaceFacts(cmp, s, p, n);
  }

  /** What makes an add, remove or edit legal, said of the nodes alone. */
  lemma LegalDelta(sch: Schema, s: seq<Node>, ch: Change)
    requires TotalOrder(sch.cmp) && Sorted(sch.cmp, s) && !ch.Child?
    ensures Legal(sch, s, ch) <==>
            && (Pre(sch, s, ch).Some? ==> Pre(sch, s, ch).value in s)
            && (Post(ch).Some? ==> forall x | x in s && Pre(sch, s, ch) != Some(x) :: sch.cmp(x.row, ch.node.row) != 0)
  {
    var cmp := sch.cmp;
    if ch.Add? {
      HasMeansMember(cmp, s, ch.node.row);
    } else if ch.Edit? && ch.oldNode in s {
      MemberAt(cmp, s, ch.oldNode);
      DeleteFacts(cmp, s, ch.oldNode.row);
      HasMeansMember(cmp, Delete(cmp, s, ch.oldNode.row), ch.node.row);
    }
  }

  // ----- folding a list of changes

  ghost predicate Carries(sch: Schema, s: seq<Node>, chs: seq<Change>, t: seq<Node>)
    decreases |chs|
  {
    if chs == [] then s == t
    else Legal(sch, s, chs[0]) && Carries(sch, Apply(sch, s, chs[0]), chs[1..], t)
  }

  lemma CarriesNone(sch: Schema, s: seq<Node>)
    ensures Carries(sch, s, [], s)
  {
  }

  lemma CarriesOne(sch: Schema, s: seq<Node>, ch: Change, t: seq<Node>)
    requires Legal(sch, s, ch) && Apply(sch, s, ch) == t
    ensures Carries(sch, s, [ch], t)
  {
    assert Carries(sch, t, [ch][1..], t);
  }

  lemma CarriesCons(sch: Schema, s: seq<Node>, c: Change, r: seq<Change>, u: seq<Node>)
    requires Legal(sch, s, c) && Carries(sch, Apply(sch, s, c), r, u)
    ensures Carries(sch, s, [c] + r, u)
  {
    assert ([c] + r)[1..] == r;
  }

  lemma CarriesTwo(sch: Schema, s: seq<Node>, a: Change, b: Change, t: seq<Node>)
    requires Legal(sch, s, a) && Legal(sch, Apply(sch, s, a), b) && Apply(sch, Apply(sch, s, a), b) == t
    ensures Carries(sch, s, [a, b], t)
  {
    CarriesOne(sch, Apply(sch, s, a), b, t);
    CarriesCons(sch, s, a, [b], t);
    assert [a] + [b] == [a, b];
  }

  lemma {:induction false} CarriesConcat(sch: Schema, s: seq<Node>, a: seq<Change>, t: seq<Node>, b: seq<Change>,
                                         u: seq<Node>)
    requires Carries(sch, s, a, t) && Carries(sch, t, b, u)
    ensures Carries(sch, s, a + b, u)
    decreases |a|
  {
    if a == [] {
      assert a + b == b;
    } else {
      CarriesConcat(sch, Apply(sch, s, a[0]), a[1..], t, b, u);
      ConcatSplit(a, b);
      CarriesCons(sch, s, a[0], a[1..] + b, u);
    }
  }

  lemma ChildAt(sch: Schema, s: seq<Node>, p: nat, ch: Change)
    requires TotalOrder(sch.cmp) && Sorted(sch.cmp, s) && p < |s| && ch.Child? && ch.node.row == s[p].row
    requires ch.rel in sch.rels && TotalOrder(sch.rels[ch.rel].cmp) && ch.rel in s[p].rels
             && Sorted(sch.rels[ch.rel].cmp, s[p].rels[ch.rel])
    requires Legal(sch.rels[ch.rel], s[p].rels[ch.rel], ch.change)
    requires ch.node.rels == s[p].rels[ch.rel := Apply(sch.rels[ch.rel], s[p].rels[ch.rel], ch.change)]
    ensures Legal(sch, s, ch) && Apply(sch, s, ch) == s[p := ch.node]
  {
    assert sch.cmp(s[p].row, ch.node.row) == 0;
    PosIsUnique(sch.cmp, s, p, ch.node.row);
  }

  /** An add, remove or edit carries a view to the view with the nodes replaced. */
  lemma CarriesDelta(sch: Schema, s: seq<Node>, ch: Change, t: seq<Node>)
    requires TotalOrder(sch.cmp) && Sorted(sch.cmp, s) && Sorted(sch.cmp, t) && !ch.Child?
    requires Replaces(s, Pre(sch, s, ch), Post(ch), t)
    requires Post(ch).Some? && ch.node in s ==> Pre(sch, s, ch) == Some(ch.node)
    ensures Legal(sch, s, ch) && Apply(sch, s, ch) == t
    ensures Carries(sch, s, [ch], t)
  {
    if Post(ch).Some? {
      forall x | x in s && Pre(sch, s, ch) != Some(x) && sch.cmp(x.row, ch.node.row) == 0 ensures false {
        SamePositionSameNode(sch.cmp, t, x, ch.node);
      }
    }
    LegalDelta(sch, s, ch);
    ApplyFacts(sch, s, ch);
    SortedUnique(sch.cmp, Apply(sch, s, ch), t);
    CarriesOne(sch, s, ch, t);
  }

  // ----- emissions

  /** What was shown to the output, and what it could have read from the operator at that moment. */
  datatype Emission = Emission(change: Change, view: seq<Node>)

  ghost function Changes(es: seq<Emission>): seq<Change> {
    seq(|es|, i requires 0 <= i < |es| => es[i].change)
  }

  /** Every emission is legal, and the view read at it is the one before with the change folded in. */
  ghost predicate Traced(sch: Schema, w: seq<Node>, es: seq<Emission>, end: seq<Node>)
    decreases |es|
  {
    if es == [] then w == end
    else
      && Legal(sch, w, es[0].change) && es[0].view == Apply(sch, w, es[0].change)
      && Traced(sch, es[0].view, es[1..], end)
  }

  lemma TracedOne(sch: Schema, w: seq<Node>, e: Emission, end: seq<Node>)
    requires Carries(sch, w, [e.change], end) && e.view == end
    ensures Traced(sch, w, [e], end) && Changes([e]) == [e.change]
  {
    assert [e.change][1..] == [] && [e][1..] == [];
  }

  lemma TracedTwo(sch: Schema, w: seq<Node>, a: Emission, b: Emission, end: seq<Node>)
    requires Carries(sch, w, [a.change, b.change], end)
    requires a.view == Apply(sch, w, a.change) && b.view == end
    ensures Traced(sch, w, [a, b], end) && Changes([a, b]) == [a.change, b.change]
  {
    assert [a.change, b.change][1..] == [b.change];
    TracedOne(sch, a.view, b, end);
    assert [a, b][1..] == [b];
  }

  lemma {:induction false} TracedAppend(sch: Schema, w: seq<Node>, es: seq<Emission>, mid: seq<Node>, e: Emission)
    requires Traced(sch, w, es, mid) && Legal(sch, mid, e.change) && e.view == Apply(sch, mid, e.change)
    ensures Traced(sch, w, es + [e], e.view) && Changes(es + [e]) == Changes(es) + [e.change]
    decreases |es|
  {
    hide Legal, Apply, Changes;
    ChangesAppend(es, e);
    if es == [] {
      assert es + [e] == [e] && [e][1..] == [];
    } else {
      ConcatSplit(es, [e]);
      TracedAppend(sch, es[0].view, es[1..], mid, e);
    }
  }

  lemma ChangesAppend(es: seq<Emission>, e: Emission)
    ensures Changes(es + [e]) == Changes(es) + [e.change]
  {
  }

  /** A trace carries the old view to the new one. */
  lemma {:induction false} TracedCarries(sch: Schema, w: seq<Node>, es: seq<Emission>, end: seq<Node>)
    requires Traced(sch, w, es, end)
    ensures Carries(sch, w, Changes(es), end)
    decreases |es|
  {
    if es != [] {
      TracedCarries(sch, es[0].view, es[1..], end);
      assert Changes(es)[1..] == Changes(es[1..]);
    }
  }

  // ----- filtered views

  function Filtered(s: seq<Node>, keep: Node -> bool): seq<Node> {
    if s == [] then []
    else if keep(s[0]) then [s[0]] + Filtered(s[1..], keep)
    else Filtered(s[1..], keep)
  }

  lemma {:induction false} FilteredMembers(s: seq<Node>, keep: Node -> bool)
    ensures forall x :: x in Filtered(s, keep) <==> x in s && keep(x)
  {
    if s != [] {
      FilteredMembers(s[1..], keep);
      HeadTail(s);
      ConsMembers(s[0], Filtered(s[1..], keep));
    }
  }

  lemma {:induction false} FilteredFacts(cmp: Comparator, s: seq<Node>, keep: Node -> bool)
    requires Sorted(cmp, s)
    ensures Sorted(cmp, Filtered(s, keep))
    ensures forall x :: x in Filtered(s, keep) <==> x in s && keep(x)
  {
    FilteredMembers(s, keep);
    if s != [] {
      var t := Filtered(s[1..], keep);
      FilteredFacts(cmp, s[1..], keep);
      SortedCons(cmp, s, t);
    }
  }
}
