/** What the Take operator reads off its bound: windows, scans and partitions as lists (ivm/take.go). */
module TakeRules {
  import opened Values
  import opened Seqs
  import opened Views
  import opened JoinUtils
  import opened FilterChain
  import opened Fetching
  import opened TakeSpec

  /** The stored state of one partition. */
  datatype TakeState = TakeState(size: nat, bound: Option<Row>)

  type PartitionKey = seq<Value>

  function KeyIs(partitionKey: Key, key: PartitionKey): Node -> bool {
    (n: Node) => KeyOf(partitionKey, n.row) == key
  }

  /** The nodes of one partition. */
  function Part(s: seq<Node>, partitionKey: Key, key: PartitionKey): seq<Node> {
    Filtered(s, KeyIs(partitionKey, key))
  }

  // ----- partitions as constraints

  ghost predicate DistinctColumns(key: Key) {
    forall i, j | 0 <= i < j < |key| :: key[i] != key[j]
  }

  ghost predicate NoNulls(key: PartitionKey) {
    forall i | 0 <= i < |key| :: !key[i].Null?
  }

  /** The constraint that a push builds for its own partition. */
  function PartitionConstraint(partitionKey: Key, row: Row): Option<Constraint> {
    if partitionKey == [] then None else Some(map c | c in partitionKey :: Get(row, c))
  }

  /** ConstraintMatchesPartitionKey: the constraint is on exactly the partition columns. */
  predicate ConstraintIsOnKey(c: Option<Constraint>, partitionKey: Key) {
    if c.None? && partitionKey == [] then true
    else if c.None? || partitionKey == [] then false
    else |partitionKey| == |c.value| && forall i | 0 <= i < |partitionKey| :: partitionKey[i] in c.value
  }

  function KeyOfConstraint(partitionKey: Key, c: Option<Constraint>): PartitionKey {
    KeyOf(partitionKey, if c.Some? then c.value else map[])
  }

  lemma PartitionConstraintIsOnKey(partitionKey: Key, row: Row)
    requires DistinctColumns(partitionKey)
    ensures ConstraintIsOnKey(PartitionConstraint(partitionKey, row), partitionKey)
    ensures KeyOfConstraint(partitionKey, PartitionConstraint(partitionKey, row)) == KeyOf(partitionKey, row)
  {
    var c := map k | k in partitionKey :: Get(row, k);
    assert c.Keys == set k | k in partitionKey;
    SetSize(partitionKey);
  }

  lemma {:induction false} SetSize(s: Key)
    requires DistinctColumns(s)
    ensures |set k | k in s| == |s|
  {
    if s != [] {
      var n := |s| - 1;
      SetSize(s[..n]);
      assert s == s[..n] + [s[n]];
      assert (set k | k in s) == (set k | k in s[..n]) + {s[n]};
      assert s[n] !in s[..n];
    }
  }

  lemma ConstraintSelectsPart(partitionKey: Key, row: Row, other: Row)
    requires NoNulls(KeyOf(partitionKey, row))
    ensures ConstraintOk(PartitionConstraint(partitionKey, row), other) <==>
              KeyOf(partitionKey, other) == KeyOf(partitionKey, row)
  {
    var a, b := KeyOf(partitionKey, row), KeyOf(partitionKey, other);
    assert forall i | 0 <= i < |partitionKey| ::
      a[i] == Get(row, partitionKey[i]) && b[i] == Get(other, partitionKey[i]);
    if partitionKey == [] {
      assert a == b;
    } else {
      if a == b {
        forall c | c in partitionKey ensures ValuesEqual(Get(other, c), Get(row, c)) {
          var i :| 0 <= i < |partitionKey| && partitionKey[i] == c;
          assert a[i] == b[i] && !a[i].Null?;
        }
      }
      if ConstraintOk(PartitionConstraint(partitionKey, row), other) {
        forall i | 0 <= i < |partitionKey| ensures a[i] == b[i] {
          assert partitionKey[i] in partitionKey;
        }
        assert a == b;
      }
    }
  }

  /** Fetching with the partition's constraint gives the partition. */
  lemma PartIsConstrained(cmp: Comparator, s: seq<Node>, partitionKey: Key, row: Row)
    requires NoNulls(KeyOf(partitionKey, row))
    ensures Part(s, partitionKey, KeyOf(partitionKey, row))
            == Selected(cmp, s, FetchRequest(PartitionConstraint(partitionKey, row), None, false))
    ensures forall x :: x in Part(s, partitionKey, KeyOf(partitionKey, row)) <==>
              x in s && ConstraintOk(PartitionConstraint(partitionKey, row), x.row)
  {
    var key := KeyOf(partitionKey, row);
    var req := FetchRequest(PartitionConstraint(partitionKey, row), None, false);
    forall x: Node ensures Wanted(cmp, req)(x) == KeyIs(partitionKey, key)(x) {
      ConstraintSelectsPart(partitionKey, row, x.row);
    }
    FilteredSame(s, Wanted(cmp, req), KeyIs(partitionKey, key));
    FilteredMembers(s, KeyIs(partitionKey, key));
  }

  /** A change that stays in its partition is the same change of that partition's list,
      and leaves every other partition as it was. */
  lemma PartApply(sch: Schema, s: seq<Node>, ch: Change, partitionKey: Key, key: PartitionKey)
    requires TotalOrder(sch.cmp) && Sorted(sch.cmp, s) && Legal(sch, s, ch)
    requires ch.Edit? ==> KeyOf(partitionKey, ch.oldNode.row) == KeyOf(partitionKey, ch.node.row)
    ensures Sorted(sch.cmp, Part(s, partitionKey, key)) && Sorted(sch.cmp, Part(Apply(sch, s, ch), partitionKey, key))
    ensures key == KeyOf(partitionKey, ch.node.row) ==>
              Legal(sch, Part(s, partitionKey, key), ch)
              && Part(Apply(sch, s, ch), partitionKey, key) == Apply(sch, Part(s, partitionKey, key), ch)
    ensures key != KeyOf(partitionKey, ch.node.row) ==>
              Part(Apply(sch, s, ch), partitionKey, key) == Part(s, partitionKey, key)
  {
    var keep := KeyIs(partitionKey, key);
    ApplyFacts(sch, s, ch);
    FilterApply(sch, s, ch, keep);
    FilteredFacts(sch.cmp, s, keep);
    FilteredFacts(sch.cmp, Apply(sch, s, ch), keep);
  }

  // ----- reading a window off its bound

  /** The stored state describes the window of `s`. The stored bound may be an older version of the
      last row, so it is only required to sort where that row sorts. */
  ghost predicate StateOk(cmp: Comparator, limit: nat, s: seq<Node>, st: TakeState) {
    var w := Window(limit, s);
    && st.size == |w|
    && (st.bound.None? <==> w == [])
    && (st.bound.Some? && w != [] ==> cmp(st.bound.value, w[|w| - 1].row) == 0)
  }

  lemma AtMostLimit(cmp: Comparator, limit: nat, s: seq<Node>, st: TakeState)
    requires StateOk(cmp, limit, s, st)
    ensures st.size <= limit
  {
  }

  /** Nothing, or a row that does not sort behind `max`. */
  ghost predicate CoveredBy(cmp: Comparator, row: Option<Row>, max: Option<Row>) {
    row.None? || row == max || (max.Some? && cmp(row.value, max.value) <= 0)
  }

  lemma CoverMore(cmp: Comparator, row: Option<Row>, max: Option<Row>, more: Option<Row>)
    requires TotalOrder(cmp) && CoveredBy(cmp, row, max) && CoveredBy(cmp, max, more)
    ensures CoveredBy(cmp, row, more)
  {
    if row.Some? && max.Some? && more.Some? && row != max && max != more {
      Transitive(cmp, row.value, max.value, more.value);
    }
  }

  /** The loop of a constrained fetch: nodes up to the bound, without the hidden one. */
  function WhileWithin(cmp: Comparator, bound: Row, hidden: Option<Row>, nodes: seq<Node>): seq<Node> {
    if nodes == [] || cmp(bound, nodes[0].row) < 0 then []
    else if hidden.Some? && cmp(hidden.value, nodes[0].row) == 0 then WhileWithin(cmp, bound, hidden, nodes[1..])
    else [nodes[0]] + WhileWithin(cmp, bound, hidden, nodes[1..])
  }

  /** The first `k` nodes are up to the bound, the next one is not. */
  ghost predicate EndsAt(cmp: Comparator, bound: Row, nodes: seq<Node>, k: nat) {
    && k <= |nodes|
    && (forall i | 0 <= i < k :: cmp(bound, nodes[i].row) >= 0)
    && (k < |nodes| ==> cmp(bound, nodes[k].row) < 0)
  }

  lemma EndsAtWindow(cmp: Comparator, bound: Row, nodes: seq<Node>, k: nat)
    requires TotalOrder(cmp) && Sorted(cmp, nodes) && 0 < k <= |nodes| && cmp(bound, nodes[k - 1].row) == 0
    ensures EndsAt(cmp, bound, nodes, k)
  {
    forall i | 0 <= i < k - 1 ensures cmp(bound, nodes[i].row) >= 0 {
      Transitive(cmp, nodes[i].row, nodes[k - 1].row, bound);
    }
    if k < |nodes| {
      Transitive(cmp, bound, nodes[k - 1].row, nodes[k].row);
    }
  }

  lemma {:induction false} WhileWithinIsPrefix(cmp: Comparator, bound: Row, hidden: Option<Row>, nodes: seq<Node>,
                                               k: nat)
    requires EndsAt(cmp, bound, nodes, k)
    requires hidden.Some? ==> forall i | 0 <= i < k :: cmp(hidden.value, nodes[i].row) != 0
    ensures WhileWithin(cmp, bound, hidden, nodes) == nodes[..k]
  {
    if k > 0 {
      WhileWithinIsPrefix(cmp, bound, hidden, nodes[1..], k - 1);
      PrefixCons(nodes, k);
    }
  }

  lemma {:induction false} WhileWithinHides(cmp: Comparator, bound: Row, hidden: Row, nodes: seq<Node>, k: nat, m: nat)
    requires EndsAt(cmp, bound, nodes, k) && m < k
    requires forall i | 0 <= i < k :: cmp(hidden, nodes[i].row) == 0 <==> i == m
    ensures WhileWithin(cmp, bound, Some(hidden), nodes) == RemoveAt(nodes[..k], m)
  {
    if m == 0 {
      WhileWithinIsPrefix(cmp, bound, Some(hidden), nodes[1..], k - 1);
      RemoveFirst(nodes, k);
    } else {
      WhileWithinHides(cmp, bound, hidden, nodes[1..], k - 1, m - 1);
      RemoveAtCons(nodes, k, m);
    }
  }

  lemma RemoveFirst<T>(s: seq<T>, k: nat)
    requires 0 < k <= |s|
    ensures RemoveAt(s[..k], 0) == s[1..][..k - 1]
  {
  }

  lemma PrefixCons<T>(s: seq<T>, k: nat)
    requires 0 < k <= |s|
    ensures s[..k] == [s[0]] + s[1..][..k - 1]
  {
  }

  lemma RemoveAtCons<T>(s: seq<T>, k: nat, m: nat)
    requires 0 < m < k <= |s|
    ensures RemoveAt(s[..k], m) == [s[0]] + RemoveAt(s[1..][..k - 1], m - 1)
  {
  }

  /** With a state that fits, a constrained fetch shows the window. */
  lemma FetchShowsWindow(cmp: Comparator, limit: nat, s: seq<Node>, bound: Row)
    requires TotalOrder(cmp) && Sorted(cmp, s) && StateOk(cmp, limit, s, TakeState(|Window(limit, s)|, Some(bound)))
    ensures WhileWithin(cmp, bound, None, s) == Window(limit, s)
  {
    var k := |Window(limit, s)|;
    EndsAtWindow(cmp, bound, s, k);
    WhileWithinIsPrefix(cmp, bound, None, s, k);
    assert s[..|s|] == s;
  }

  lemma FetchShowsWindowWithout(cmp: Comparator, limit: nat, s: seq<Node>, bound: Row, m: nat)
    requires TotalOrder(cmp) && Sorted(cmp, s) && StateOk(cmp, limit, s, TakeState(|Window(limit, s)|, Some(bound)))
    requires m < |Window(limit, s)|
    ensures WhileWithin(cmp, bound, Some(s[m].row), s) == RemoveAt(Window(limit, s), m)
  {
    var k := |Window(limit, s)|;
    EndsAtWindow(cmp, bound, s, k);
    forall i | 0 <= i < k ensures cmp(s[m].row, s[i].row) == 0 <==> i == m {
      assert cmp(s[m].row, s[m].row) == 0;
    }
    WhileWithinHides(cmp, bound, s[m].row, s, k, m);
    assert s[..|s|] == s;
  }

  /** What a constrained fetch shows with a state that fits. */
  lemma FetchShowsState(cmp: Comparator, limit: nat, s: seq<Node>, st: TakeState)
    requires TotalOrder(cmp) && Sorted(cmp, s) && StateOk(cmp, limit, s, st)
    ensures st.bound.Some? ==> WhileWithin(cmp, st.bound.value, None, s) == Window(limit, s)
    ensures st.bound.None? ==> Window(limit, s) == []
    ensures st.size == |Window(limit, s)|
    ensures st.bound.Some? ==>
              forall m | 0 <= m < st.size ::
                m < |s| && WhileWithin(cmp, st.bound.value, Some(s[m].row), s) == RemoveAt(Window(limit, s), m)
  {
    if st.bound.Some? {
      FetchShowsWindow(cmp, limit, s, st.bound.value);
      forall m | 0 <= m < st.size ensures m < |s|
        && WhileWithin(cmp, st.bound.value, Some(s[m].row), s) == RemoveAt(Window(limit, s), m) {
        FetchShowsWindowWithout(cmp, limit, s, st.bound.value, m);
      }
    }
  }

  lemma {:induction false} WhileWithinAll(cmp: Comparator, bound: Row, nodes: seq<Node>)
    requires forall n | n in nodes :: cmp(bound, n.row) >= 0
    ensures WhileWithin(cmp, bound, None, nodes) == nodes
  {
    if nodes != [] { WhileWithinAll(cmp, bound, nodes[1..]); }
  }

  /** A fetch in reverse begins behind the bound and stops at once when there is a row there: it shows
      the window, reversed, exactly when the partition has no more rows than the limit. */
  lemma ReverseFetchIff(cmp: Comparator, limit: nat, s: seq<Node>, bound: Row)
    requires TotalOrder(cmp) && Sorted(cmp, s) && limit > 0 && s != []
    requires StateOk(cmp, limit, s, TakeState(|Window(limit, s)|, Some(bound)))
    ensures WhileWithin(cmp, bound, None, Reversed(s)) == Reversed(Window(limit, s)) <==> |s| <= limit
  {
    EndsAtWindow(cmp, bound, s, |Window(limit, s)|);
    if |s| <= limit {
      ReversedMembers(s);
      forall n | n in Reversed(s) ensures cmp(bound, n.row) >= 0 {
        var i :| 0 <= i < |s| && s[i] == n;
      }
      WhileWithinAll(cmp, bound, Reversed(s));
    } else {
      LastIsBehind(cmp, s, bound, limit);
    }
  }

  lemma LastIsBehind(cmp: Comparator, s: seq<Node>, bound: Row, k: nat)
    requires TotalOrder(cmp) && Sorted(cmp, s) && 0 < k < |s| && cmp(bound, s[k].row) < 0
    ensures WhileWithin(cmp, bound, None, Reversed(s)) == [] && Reversed(Window(k, s)) != []
  {
    var last := s[|s| - 1];
    if |s| - 1 > k { Transitive(cmp, bound, s[k].row, last.row); }
    assert Reversed(s)[0] == last;
    assert |Reversed(Window(k, s))| == k;
  }

  lemma BoundOfFullWindow(cmp: Comparator, limit: nat, s: seq<Node>)
    requires TotalOrder(cmp) && 0 < limit <= |s|
    ensures StateOk(cmp, limit, s, TakeState(limit, Some(s[limit - 1].row)))
  {
    WindowIsPrefix(limit, s);
    assert cmp(s[limit - 1].row, s[limit - 1].row) == 0;
  }

  // ----- where rows fall relative to the bound

  /** Comparing a row with the bound is comparing its position with the end of the window. */
  lemma VersusBound(cmp: Comparator, s: seq<Node>, k: nat, bound: Row, x: Row)
    requires TotalOrder(cmp) && Sorted(cmp, s) && 0 < k <= |s| && cmp(bound, s[k - 1].row) == 0
    ensures cmp(x, bound) > 0 <==> Pos(cmp, s, x) >= k
    ensures cmp(x, bound) == 0 <==> Pos(cmp, s, x) == k - 1 && Has(cmp, s, x)
    ensures cmp(bound, x) < 0 <==> cmp(x, bound) > 0
  {
    SameSign(cmp, bound, s[k - 1].row, x);
    AfterPos(cmp, s, x);
  }
}
