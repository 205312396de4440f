/** Fetch requests and their meaning on a sorted list (ivm/operator.go, ivm/source.go). */
module Fetching {
  import opened Values
  import opened Seqs
  import opened Views
  import opened JoinUtils

  datatype Basis = At | After
  datatype Start = Start(row: Row, basis: Basis)
  datatype FetchRequest = FetchRequest(constraint: Option<Constraint>, start: Option<Start>, reverse: bool)

  predicate ConstraintOk(c: Option<Constraint>, row: Row) {
    c.None? || ConstraintMatches(c.value, row)
  }

  /** The row is at or behind the start, seen in the direction of the scan. */
  predicate StartOk(cmp: Comparator, start: Option<Start>, reverse: bool, row: Row) {
    match start
    case None => true
    case Some(st) =>
      var c := if reverse then -cmp(row, st.row) else cmp(row, st.row);
      if st.basis.At? then c >= 0 else c > 0
  }

  function Reversed<T>(s: seq<T>): seq<T> {
    seq(|s|, i requires 0 <= i < |s| => s[|s| - 1 - i])
  }

  function Directed<T>(s: seq<T>, reverse: bool): seq<T> {
    if reverse then Reversed(s) else s
  }

  function Wanted(cmp: Comparator, req: FetchRequest): Node -> bool {
    (n: Node) => ConstraintOk(req.constraint, n.row) && StartOk(cmp, req.start, req.reverse, n.row)
  }

  /** What an input that holds the sorted list `s` answers to a request. */
  function Selected(cmp: Comparator, s: seq<Node>, req: FetchRequest): seq<Node> {
    Directed(Filtered(s, Wanted(cmp, req)), req.reverse)
  }

  /** A stretch of a sorted list is the part that a row cuts off. */
  lemma CutFrom(cmp: Comparator, s: seq<Node>, t: seq<Node>, keep: Node -> bool, i: nat, j: nat)
    requires TotalOrder(cmp) && Sorted(cmp, s) && Sorted(cmp, t) && i <= j <= |t|
    requires forall k | 0 <= k < |t| :: i <= k < j <==> (t[k] in s && keep(t[k]))
    requires forall x | x in s && keep(x) :: x in t
    ensures Filtered(s, keep) == t[i..j]
  {
    hide TotalOrder;
    FilteredFacts(cmp, s, keep);
    SliceMembers(t, i, j);
    forall x | x in Filtered(s, keep) ensures x in t[i..j] {
      var k :| 0 <= k < |t| && t[k] == x;
    }
    SortedUnique(cmp, Filtered(s, keep), t[i..j]);
  }

  /** Where the scan from `row` begins and ends in a sorted list. */
  ghost function ScanLow(cmp: Comparator, t: seq<Node>, row: Row, basis: Basis, reverse: bool): nat {
    if reverse then 0 else Pos(cmp, t, row) + if basis.After? && Has(cmp, t, row) then 1 else 0
  }

  ghost function ScanHigh(cmp: Comparator, t: seq<Node>, row: Row, basis: Basis, reverse: bool): nat {
    if !reverse then |t| else Pos(cmp, t, row) + if basis.At? && Has(cmp, t, row) then 1 else 0
  }

  lemma ScanCuts(cmp: Comparator, t: seq<Node>, row: Row, basis: Basis, reverse: bool)
    requires TotalOrder(cmp) && Sorted(cmp, t)
    ensures ScanLow(cmp, t, row, basis, reverse) <= ScanHigh(cmp, t, row, basis, reverse) <= |t|
    ensures forall k | 0 <= k < |t| ::
              ScanLow(cmp, t, row, basis, reverse) <= k < ScanHigh(cmp, t, row, basis, reverse)
              <==> StartOk(cmp, Some(Start(row, basis)), reverse, t[k].row)
  {
    AfterPos(cmp, t, row);
  }

  /** The four scans from a row, on the part of the list that meets the constraint. */
  lemma ScanFrom(cmp: Comparator, s: seq<Node>, t: seq<Node>, c: Option<Constraint>, row: Row, basis: Basis,
                 reverse: bool)
    requires TotalOrder(cmp) && Sorted(cmp, s) && Sorted(cmp, t)
    requires forall x :: x in t <==> x in s && ConstraintOk(c, x.row)
    ensures ScanLow(cmp, t, row, basis, reverse) <= ScanHigh(cmp, t, row, basis, reverse) <= |t|
    ensures Selected(cmp, s, FetchRequest(c, Some(Start(row, basis)), reverse)) ==
            Directed(t[ScanLow(cmp, t, row, basis, reverse)..ScanHigh(cmp, t, row, basis, reverse)], reverse)
  {
    ScanCuts(cmp, t, row, basis, reverse);
    forall k | 0 <= k < |t| ensures t[k] in s && ConstraintOk(c, t[k].row) { assert t[k] in t; }
    CutFrom(cmp, s, t, Wanted(cmp, FetchRequest(c, Some(Start(row, basis)), reverse)),
            ScanLow(cmp, t, row, basis, reverse), ScanHigh(cmp, t, row, basis, reverse));
  }

  lemma {:induction false} FilteredSame(s: seq<Node>, a: Node -> bool, b: Node -> bool)
    requires forall x | x in s :: a(x) == b(x)
    ensures Filtered(s, a) == Filtered(s, b)
  {
    if s != [] { FilteredSame(s[1..], a, b); }
  }

  lemma {:induction false} FilteredNone(s: seq<Node>, keep: Node -> bool)
    requires forall x | x in s :: !keep(x)
    ensures Filtered(s, keep) == []
  {
    if s != [] { FilteredNone(s[1..], keep); }
  }

  lemma {:induction false} FilteredAll(s: seq<Node>, keep: Node -> bool)
    requires forall x | x in s :: keep(x)
    ensures Filtered(s, keep) == s
  {
    if s != [] {
      FilteredAll(s[1..], keep);
      HeadTail(s);
    }
  }

  lemma SelectsAll(cmp: Comparator, s: seq<Node>)
    ensures Selected(cmp, s, FetchRequest(None, None, false)) == s
  {
    FilteredAll(s, Wanted(cmp, FetchRequest(None, None, false)));
  }

  /** Filtering twice is filtering once. */
  lemma {:induction false} FilteredTwice(s: seq<Node>, a: Node -> bool, b: Node -> bool, both: Node -> bool)
    requires forall x | x in s :: both(x) == (a(x) && b(x))
    ensures Filtered(Filtered(s, a), b) == Filtered(s, both)
  {
    if s != [] {
      HeadTail(s);
      FilteredTwice(s[1..], a, b, both);
      if a(s[0]) {
        assert ([s[0]] + Filtered(s[1..], a))[1..] == Filtered(s[1..], a);
      }
    }
  }

  lemma {:induction false} FiltersCommute(s: seq<Node>, a: Node -> bool, b: Node -> bool)
    ensures Filtered(Filtered(s, a), b) == Filtered(Filtered(s, b), a)
  {
    FilteredTwice(s, a, b, n => a(n) && b(n));
    FilteredTwice(s, b, a, n => a(n) && b(n));
  }

  lemma {:induction false} FilteredAppend(s: seq<Node>, x: Node, keep: Node -> bool)
    ensures Filtered(s + [x], keep) == Filtered(s, keep) + if keep(x) then [x] else []
  {
    if s == [] {
      assert [x][1..] == [];
      assert s + [x] == [x];
    } else {
      ConcatSplit(s, [x]);
      FilteredAppend(s[1..], x, keep);
    }
  }

  lemma ReversedMembers<T>(s: seq<T>)
    ensures forall x :: x in Reversed(s) <==> x in s
  {
    forall x | x in s ensures x in Reversed(s) {
      var i :| 0 <= i < |s| && s[i] == x;
      assert Reversed(s)[|s| - 1 - i] == x;
    }
  }

  lemma {:induction false} FilteredReversed(s: seq<Node>, keep: Node -> bool)
    ensures Filtered(Reversed(s), keep) == Reversed(Filtered(s, keep))
  {
    if s != [] {
      FilteredReversed(s[1..], keep);
      assert Reversed(s) == Reversed(s[1..]) + [s[0]];
      FilteredAppend(Reversed(s[1..]), s[0], keep);
      var rest := Filtered(s[1..], keep);
      assert Reversed([s[0]] + rest) == Reversed(rest) + [s[0]];
    }
  }

  // ----- an operator that shows every node in its own way

  function MapNodes(s: seq<Node>, f: Node -> Node): seq<Node> {
    seq(|s|, i requires 0 <= i < |s| => f(s[i]))
  }

  lemma {:induction false} FilteredMap(s: seq<Node>, f: Node -> Node, keep: Node -> bool)
    requires forall n: Node :: keep(f(n)) == keep(n)
    ensures Filtered(MapNodes(s, f), keep) == MapNodes(Filtered(s, keep), f)
  {
    if s != [] {
      FilteredMap(s[1..], f, keep);
      assert MapNodes(s, f)[1..] == MapNodes(s[1..], f);
    }
  }

  /** When the rows stay, fetching and then mapping is fetching from the mapped list. */
  lemma SelectedMap(cmp: Comparator, s: seq<Node>, f: Node -> Node, req: FetchRequest)
    requires forall n: Node :: f(n).row == n.row
    ensures Selected(cmp, MapNodes(s, f), req) == MapNodes(Selected(cmp, s, req), f)
  {
    FilteredMap(s, f, Wanted(cmp, req));
  }
}
