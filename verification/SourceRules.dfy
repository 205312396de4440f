/** Rows of a source, its connections and the pending change that a fetch sees (ivm/source.go). */
module SourceRules {
  import opened Values
  import opened Seqs
  import opened Views
  import opened JoinUtils
  import opened FilterChain
  import opened ChainPush
  import opened Fetching

  datatype SourceChange = AddRow(row: Row) | RemoveRow(row: Row) | EditRow(row: Row, oldRow: Row)

  function Leaf(row: Row): Node {
    Node(row, map[])
  }

  function Leaves(rows: seq<Row>): seq<Node> {
    seq(|rows|, i requires 0 <= i < |rows| => Leaf(rows[i]))
  }

  function ToChange(sc: SourceChange): Change {
    match sc
    case AddRow(r) => Add(Leaf(r))
    case RemoveRow(r) => Remove(Leaf(r))
    case EditRow(r, o) => Edit(Leaf(r), Leaf(o))
  }

  function PrimarySort(primaryKey: Key): Ordering {
    seq(|primaryKey|, i requires 0 <= i < |primaryKey| => (primaryKey[i], Asc))
  }

  datatype Connection = Connection(sort: Ordering, filter: Option<Row -> bool>, splitEditKeys: set<string>,
                                   lastPushedEpoch: nat, wired: bool)

  function Passes(filter: Option<Row -> bool>): Node -> bool {
    (n: Node) => filter.None? || filter.value(n.row)
  }

  // ----- sorting

  function Place(cmp: Comparator, s: seq<Node>, n: Node): seq<Node> {
    if s == [] || cmp(n.row, s[0].row) < 0 then [n] + s else [s[0]] + Place(cmp, s[1..], n)
  }

  /** The rows in the order of `cmp`. Where no two rows share a position, every sort gives this list. */
  function SortBy(cmp: Comparator, s: seq<Node>): seq<Node> {
    if s == [] then [] else Place(cmp, SortBy(cmp, s[1..]), s[0])
  }

  ghost predicate Apart(cmp: Comparator, s: seq<Node>) {
    forall i, j | 0 <= i < j < |s| :: cmp(s[i].row, s[j].row) != 0
  }

  lemma {:induction false} PlaceFacts(cmp: Comparator, s: seq<Node>, n: Node)
    requires TotalOrder(cmp) && Sorted(cmp, s) && forall x | x in s :: cmp(n.row, x.row) != 0
    ensures Sorted(cmp, Place(cmp, s, n))
    ensures forall x :: x in Place(cmp, s, n) <==> x in s || x == n
  {
    hide TotalOrder;
    if s == [] {
    } else if cmp(n.row, s[0].row) < 0 {
      forall x | x in s ensures cmp(n.row, x.row) < 0 {
        AtOrAfterHead(cmp, s, x);
        Transitive(cmp, n.row, s[0].row, x.row);
      }
      ConsSorted(cmp, n, s);
      ConsMembers(n, s);
    } else {
      TailFacts(cmp, s);
      HeadTail(s);
      PlaceFacts(cmp, s[1..], n);
      var t := Place(cmp, s[1..], n);
      ConsMembers(s[0], t);
      forall x | x in t ensures cmp(s[0].row, x.row) < 0 {
        if x == n { NotBefore(cmp, n.row, s[0].row); } else { AfterHead(cmp, s, x); }
      }
      ConsSorted(cmp, s[0], t);
    }
  }

  lemma NotBefore(cmp: Comparator, a: Row, b: Row)
    requires TotalOrder(cmp) && cmp(a, b) != 0 && !(cmp(a, b) < 0)
    ensures cmp(b, a) < 0
  {
  }

  lemma AfterHead(cmp: Comparator, s: seq<Node>, x: Node)
    requires Sorted(cmp, s) && s != [] && x in s[1..]
    ensures cmp(s[0].row, x.row) < 0
  {
    var k :| 0 <= k < |s[1..]| && s[1..][k] == x;
    assert s[k + 1] == x;
  }

  lemma AtOrAfterHead(cmp: Comparator, s: seq<Node>, x: Node)
    requires TotalOrder(cmp) && Sorted(cmp, s) && s != [] && x in s
    ensures cmp(s[0].row, x.row) <= 0
  {
    var k :| 0 <= k < |s| && s[k] == x;
  }

  lemma ConsSorted(cmp: Comparator, x: Node, t: seq<Node>)
    requires Sorted(cmp, t) && forall y | y in t :: cmp(x.row, y.row) < 0
    ensures Sorted(cmp, [x] + t)
  {
  }

  lemma {:induction false} SortFacts(cmp: Comparator, s: seq<Node>)
    requires TotalOrder(cmp) && Apart(cmp, s)
    ensures Sorted(cmp, SortBy(cmp, s))
    ensures forall x :: x in SortBy(cmp, s) <==> x in s
  {
    if s != [] {
      SortFacts(cmp, s[1..]);
      HeadTail(s);
      forall x | x in s[1..] ensures cmp(s[0].row, x.row) != 0 {
        var k :| 0 <= k < |s[1..]| && s[1..][k] == x;
        assert s[k + 1] == x;
      }
      PlaceFacts(cmp, SortBy(cmp, s[1..]), s[0]);
    }
  }

  // ----- primary keys and connections

  /** The ordering names every key column, as the builder's completed orderings do. */
  ghost predicate Completes(sort: Ordering, primaryKey: Key) {
    forall k | k in primaryKey :: exists i :: 0 <= i < |sort| && sort[i].0 == k
  }

  /** The table: rows in strictly increasing order of the primary key. */
  ghost predicate Table(primaryKey: Key, rows: seq<Row>) {
    Sorted(MakeComparator(PrimarySort(primaryKey)), Leaves(rows))
  }

  lemma PrimaryOrder(primaryKey: Key, a: Row, b: Row)
    ensures CompareBy(PrimarySort(primaryKey), a, b) == 0 <==> RowEqualsForKey(a, b, primaryKey)
  {
    CompareByLaws(PrimarySort(primaryKey), a, b);
    var order := PrimarySort(primaryKey);
    assert forall i | 0 <= i < |order| :: order[i].0 == primaryKey[i];
  }

  /** Rows at one position of a completed ordering have one key. */
  lemma CompletedOrder(sort: Ordering, primaryKey: Key, a: Row, b: Row)
    requires Completes(sort, primaryKey) && CompareBy(sort, a, b) == 0
    ensures CompareBy(PrimarySort(primaryKey), a, b) == 0
  {
    CompareByLaws(sort, a, b);
    PrimaryOrder(primaryKey, a, b);
    forall i | 0 <= i < |primaryKey| ensures Get(a, primaryKey[i]) == Get(b, primaryKey[i]) {
      assert primaryKey[i] in primaryKey;
      var k :| 0 <= k < |sort| && sort[k].0 == primaryKey[i];
    }
  }

  lemma PrimaryCompletes(primaryKey: Key)
    ensures Completes(PrimarySort(primaryKey), primaryKey)
  {
    forall k | k in primaryKey ensures exists i ::
      0 <= i < |PrimarySort(primaryKey)| && PrimarySort(primaryKey)[i].0 == k {
      var i :| 0 <= i < |primaryKey| && primaryKey[i] == k;
      assert PrimarySort(primaryKey)[i].0 == k;
    }
  }

  lemma TableApart(primaryKey: Key, rows: seq<Row>, sort: Ordering)
    requires Table(primaryKey, rows) && Completes(sort, primaryKey)
    ensures Apart(MakeComparator(sort), Leaves(rows))
  {
    var cmp, s := MakeComparator(sort), Leaves(rows);
    forall i, j | 0 <= i < j < |s| ensures cmp(s[i].row, s[j].row) != 0 {
      if cmp(s[i].row, s[j].row) == 0 { CompletedOrder(sort, primaryKey, s[i].row, s[j].row); }
      assert MakeComparator(PrimarySort(primaryKey))(s[i].row, s[j].row) < 0;
    }
  }

  /** What a connection shows of a table. */
  function ConnView(conn: Connection, rows: seq<Row>): seq<Node> {
    Filtered(SortBy(MakeComparator(conn.sort), Leaves(rows)), Passes(conn.filter))
  }

  function ConnSchema(conn: Connection): Schema {
    Schema(MakeComparator(conn.sort), map[])
  }

  lemma SameView(a: Connection, b: Connection, rows: seq<Row>)
    requires a.sort == b.sort && a.filter == b.filter
    ensures ConnView(a, rows) == ConnView(b, rows) && ConnSchema(a) == ConnSchema(b)
  {
  }

  // ----- changes of the table

  /** The row that the change takes out is the stored one; an edit keeps the key; what is added is new. */
  ghost predicate Fitting(primaryKey: Key, rows: seq<Row>, sc: SourceChange) {
    var cmp := MakeComparator(PrimarySort(primaryKey));
    match sc
    case AddRow(r) => !Has(cmp, Leaves(rows), r)
    case RemoveRow(r) => r in rows
    case EditRow(r, o) => o in rows && cmp(r, o) == 0
  }

  /** The table after the change. */
  ghost predicate Becomes(primaryKey: Key, rows: seq<Row>, sc: SourceChange, after: seq<Row>) {
    && Table(primaryKey, after)
    && Leaves(after) == Apply(Schema(MakeComparator(PrimarySort(primaryKey)), map[]), Leaves(rows), ToChange(sc))
  }

  lemma LeafMembers(rows: seq<Row>)
    ensures forall r: Row :: Leaf(r) in Leaves(rows) <==> r in rows
    ensures forall n | n in Leaves(rows) :: n == Leaf(n.row) && n.row in rows
  {
    forall r: Row | r in rows ensures Leaf(r) in Leaves(rows) {
      var i :| 0 <= i < |rows| && rows[i] == r;
      assert Leaves(rows)[i] == Leaf(r);
    }
  }

  /** A fitting change of the table is a legal change of it, and of the sorted rows of every connection. */
  lemma FittingIsLegal(primaryKey: Key, rows: seq<Row>, sc: SourceChange, sort: Ordering)
    requires Table(primaryKey, rows) && Fitting(primaryKey, rows, sc) && Completes(sort, primaryKey)
    ensures var sch := Schema(MakeComparator(sort), map[]);
            TotalOrder(sch.cmp) && Sorted(sch.cmp, SortBy(sch.cmp, Leaves(rows)))
              && Legal(sch, SortBy(sch.cmp, Leaves(rows)), ToChange(sc))
  {
    var sch, pcmp := Schema(MakeComparator(sort), map[]), MakeComparator(PrimarySort(primaryKey));
    var ch, s := ToChange(sc), SortBy(MakeComparator(sort), Leaves(rows));
    ComparatorIsTotalOrder(sort);
    ComparatorIsTotalOrder(PrimarySort(primaryKey));
    TableApart(primaryKey, rows, sort);
    SortFacts(sch.cmp, Leaves(rows));
    LeafMembers(rows);
    if Post(ch).Some? {
      forall x | x in s && Pre(sch, s, ch) != Some(x) ensures sch.cmp(x.row, ch.node.row) != 0 {
        if sch.cmp(x.row, ch.node.row) == 0 {
          CompletedOrder(sort, primaryKey, x.row, ch.node.row);
          NotAnother(primaryKey, rows, sc, x);
        }
      }
    }
    LegalDelta(sch, s, ch);
  }

  /** Only the row that a fitting change takes out has the key of the row that it puts in. */
  lemma NotAnother(primaryKey: Key, rows: seq<Row>, sc: SourceChange, x: Node)
    requires Table(primaryKey, rows) && Fitting(primaryKey, rows, sc) && x in Leaves(rows) && !sc.RemoveRow?
    requires CompareBy(PrimarySort(primaryKey), x.row, sc.row) == 0
    ensures sc.EditRow? && x == Leaf(sc.oldRow)
  {
    var cmp := MakeComparator(PrimarySort(primaryKey));
    ComparatorIsTotalOrder(PrimarySort(primaryKey));
    LeafMembers(rows);
    if sc.AddRow? {
      HasMeansMember(cmp, Leaves(rows), sc.row);
      assert false;
    } else {
      SameSignZero(cmp, x.row, sc.row, sc.oldRow);
      SamePositionSameNode(cmp, Leaves(rows), x, Leaf(sc.oldRow));
    }
  }

  lemma SameSignZero(cmp: Comparator, a: Row, b: Row, c: Row)
    requires TotalOrder(cmp) && cmp(a, b) == 0 && cmp(b, c) == 0
    ensures cmp(a, c) == 0
  {
    assert cmp(b, a) == 0 && cmp(c, b) == 0;
    Transitive(cmp, a, b, c);
    Transitive(cmp, c, b, a);
  }

  /** Writing the change to the table is applying it to the sorted rows of every connection. */
  lemma BecomesSorted(primaryKey: Key, rows: seq<Row>, sc: SourceChange, after: seq<Row>, sort: Ordering)
    requires Table(primaryKey, rows) && Fitting(primaryKey, rows, sc) && Completes(sort, primaryKey)
             && Becomes(primaryKey, rows, sc, after)
    ensures var sch := Schema(MakeComparator(sort), map[]);
            SortBy(sch.cmp, Leaves(after)) == Apply(sch, SortBy(sch.cmp, Leaves(rows)), ToChange(sc))
            && Sorted(sch.cmp, SortBy(sch.cmp, Leaves(after)))
  {
    var sch, psch := Schema(MakeComparator(sort), map[]), Schema(MakeComparator(PrimarySort(primaryKey)), map[]);
    var ch, s, t := ToChange(sc), SortBy(sch.cmp, Leaves(rows)), SortBy(sch.cmp, Leaves(after));
    FittingIsLegal(primaryKey, rows, sc, sort);
    ApplyFacts(sch, s, ch);
    TableLegal(primaryKey, rows, sc);
    ApplyFacts(psch, Leaves(rows), ch);
    TableApart(primaryKey, rows, sort);
    TableApart(primaryKey, after, sort);
    SortFacts(sch.cmp, Leaves(rows));
    SortFacts(sch.cmp, Leaves(after));
    SortedUnique(sch.cmp, t, Apply(sch, s, ch));
  }

  lemma TableLegal(primaryKey: Key, rows: seq<Row>, sc: SourceChange)
    requires Table(primaryKey, rows) && Fitting(primaryKey, rows, sc)
    ensures var psch := Schema(MakeComparator(PrimarySort(primaryKey)), map[]);
            TotalOrder(psch.cmp) && Legal(psch, Leaves(rows), ToChange(sc))
  {
    var psch, ch := Schema(MakeComparator(PrimarySort(primaryKey)), map[]), ToChange(sc);
    ComparatorIsTotalOrder(PrimarySort(primaryKey));
    LeafMembers(rows);
    if Post(ch).Some? {
      forall x | x in Leaves(rows) && Pre(psch, Leaves(rows), ch) != Some(x) ensures psch.cmp(x.row, ch.node.row) != 0 {
        if psch.cmp(x.row, ch.node.row) == 0 { NotAnother(primaryKey, rows, sc, x); }
      }
    }
    LegalDelta(psch, Leaves(rows), ch);
  }

  // ----- the overlay of a fetch

  datatype Overlays = Overlays(add: Option<Row>, remove: Option<Row>)

  predicate FilterOk(filter: Option<Row -> bool>, row: Row) {
    filter.None? || filter.value(row)
  }

  /** The pending row is not dropped before the splice: it is not in front of the start,
      meets the constraint and passes the filter. */
  predicate Survives(cmp: Comparator, req: FetchRequest, filter: Option<Row -> bool>, row: Row) {
    && (req.start.Some? ==> (if req.reverse then -cmp(row, req.start.value.row)
                             else cmp(row, req.start.value.row)) >= 0)
    && ConstraintOk(req.constraint, row)
    && FilterOk(filter, row)
  }

  function Surviving(cmp: Comparator, req: FetchRequest, filter: Option<Row -> bool>, row: Row): Option<Row> {
    if Survives(cmp, req, filter, row) then Some(row) else None
  }

  function ComputeOverlays(pending: Option<SourceChange>, cmp: Comparator, req: FetchRequest,
                           filter: Option<Row -> bool>): Overlays {
    match pending
    case None => Overlays(None, None)
    case Some(AddRow(r)) => Overlays(Surviving(cmp, req, filter, r), None)
    case Some(RemoveRow(r)) => Overlays(None, Surviving(cmp, req, filter, r))
    case Some(EditRow(r, o)) => Overlays(Surviving(cmp, req, filter, r), Surviving(cmp, req, filter, o))
  }

  /** What a fetch shows in the end. */
  function Shows(cmp: Comparator, req: FetchRequest, filter: Option<Row -> bool>): Node -> bool {
    (n: Node) => StartOk(cmp, req.start, req.reverse, n.row) && ConstraintOk(req.constraint, n.row)
      && FilterOk(filter, n.row)
  }

  // ----- splicing the overlay in

  /** Where the pending row goes in front of, and where the replaced row is, in the sorted rows;
      an index past the end where there is no such row. */
  ghost function AddIndex(cmp: Comparator, s: seq<Node>, add: Option<Row>): nat {
    if add.Some? then UpperPos(cmp, s, add.value, 0) else |s| + 1
  }

  ghost function RemoveIndex(cmp: Comparator, s: seq<Node>, remove: Option<Row>): (b: nat)
    ensures b <= |s|
  {
    if remove.Some? && Has(cmp, s, remove.value) then Pos(cmp, s, remove.value) else |s|
  }

  ghost function Spliced(cmp: Comparator, s: seq<Node>, o: Overlays): seq<Node> {
    Woven(s, AddIndex(cmp, s, o.add), Leaf(if o.add.Some? then o.add.value else map[]), RemoveIndex(cmp, s, o.remove))
  }

  function FullOverlays(sc: SourceChange): Overlays {
    match sc
    case AddRow(r) => Overlays(Some(r), None)
    case RemoveRow(r) => Overlays(None, Some(r))
    case EditRow(r, o) => Overlays(Some(r), Some(o))
  }

  /** With nothing dropped, splicing the overlay in is applying the change. */
  lemma SplicedIsApplied(sch: Schema, s: seq<Node>, sc: SourceChange)
    requires TotalOrder(sch.cmp) && Sorted(sch.cmp, s) && Legal(sch, s, ToChange(sc))
    ensures Spliced(sch.cmp, s, FullOverlays(sc)) == Apply(sch, s, ToChange(sc))
  {
    match sc
    case AddRow(r) => SlotIsPos(sch.cmp, s, |s|, s, Leaf(r));
    case RemoveRow(r) => MemberAt(sch.cmp, s, Leaf(r));
    case EditRow(r, o) => SplicedEdit(sch.cmp, s, r, o);
  }

  lemma SplicedEdit(cmp: Comparator, s: seq<Node>, r: Row, o: Row)
    requires TotalOrder(cmp) && Sorted(cmp, s) && Leaf(o) in s && !Has(cmp, Delete(cmp, s, o), r)
    ensures Spliced(cmp, s, Overlays(Some(r), Some(o))) == Insert(cmp, Delete(cmp, s, o), Leaf(r))
  {
    hide TotalOrder, Sorted, UpperPos;
    MemberAt(cmp, s, Leaf(o));
    DeleteFacts(cmp, s, o);
    var b := Pos(cmp, s, o);
    SlotIsPos(cmp, s, b, Without(s, b), Leaf(r));
  }

  lemma {:induction false} FilteredRemove(u: seq<Node>, i: nat, keep: Node -> bool)
    requires i < |u| && !keep(u[i])
    ensures Filtered(RemoveAt(u, i), keep) == Filtered(u, keep)
  {
    var r := RemoveAt(u, i);
    if i == 0 {
      assert r == u[1..];
    } else {
      FilteredRemove(u[1..], i - 1, keep);
      assert r[1..] == RemoveAt(u[1..], i - 1) && r[0] == u[0];
    }
  }

  lemma FilteredInsert(u: seq<Node>, p: nat, x: Node, keep: Node -> bool)
    requires p <= |u| && !keep(x)
    ensures Filtered(InsertAt(u, p, x), keep) == Filtered(u, keep)
  {
    FilteredRemove(InsertAt(u, p, x), p, keep);
    RemoveInserted(u, p, x);
  }

  lemma WovenIsRemoval(s: seq<Node>, a: nat, x: Node, b: nat)
    requires b < |s| && a <= |s|
    ensures var i := if b < a then b else b + 1;
            i <= |s| && InsertAt(s, a, x)[i] == s[b] && Woven(s, a, x, b) == RemoveAt(InsertAt(s, a, x), i)
  {
    var t, w, i := InsertAt(s, a, x), Woven(s, a, x, b), if b < a then b else b + 1;
    if b < a {
      assert t[i] == s[b];
      assert Without(s, b) == RemoveAt(s, b) && Slot(a, b) == a - 1;
    } else {
      assert t[i] == s[b] && Slot(a, b) == a;
    }
    assert w == RemoveAt(t, i);
  }

  /** Dropping a row from the overlay that would not be shown anyway changes nothing that is shown. */
  lemma DropRemove(s: seq<Node>, a: nat, x: Node, b: nat, keep: Node -> bool)
    requires b < |s| && !keep(s[b])
    ensures Filtered(Woven(s, a, x, b), keep) == Filtered(Woven(s, a, x, |s|), keep)
  {
    if a <= |s| {
      WovenIsRemoval(s, a, x, b);
      FilteredRemove(InsertAt(s, a, x), if b < a then b else b + 1, keep);
    } else {
      FilteredRemove(s, b, keep);
    }
  }

  lemma DropAdd(s: seq<Node>, a: nat, x: Node, y: Node, b: nat, keep: Node -> bool)
    requires b <= |s| && a <= |s| && !keep(x)
    ensures Filtered(Woven(s, a, x, b), keep) == Filtered(Woven(s, |s| + 1, y, b), keep)
  {
    FilteredInsert(Without(s, b), Slot(a, b), x, keep);
  }

  /** What survives the dropping and what does not: both splices look the same to the fetch. */
  lemma SplicedShows(sch: Schema, s: seq<Node>, sc: SourceChange, req: FetchRequest, filter: Option<Row -> bool>)
    requires TotalOrder(sch.cmp) && Sorted(sch.cmp, s) && Legal(sch, s, ToChange(sc))
    ensures Filtered(Spliced(sch.cmp, s, ComputeOverlays(Some(sc), sch.cmp, req, filter)), Shows(sch.cmp, req, filter))
            == Filtered(Apply(sch, s, ToChange(sc)), Shows(sch.cmp, req, filter))
  {
    hide Apply, Legal, Woven, Filtered, TotalOrder, Sorted;
    var cmp, keep := sch.cmp, Shows(sch.cmp, req, filter);
    var o, f := ComputeOverlays(Some(sc), cmp, req, filter), FullOverlays(sc);
    SplicedIsApplied(sch, s, sc);
    if f.remove.Some? {
      RemovedIsThere(sch, s, sc);
      if o.remove.None? { DropRemoveOverlay(cmp, s, f, f.remove.value, keep); }
    }
    if f.add.Some? && o.add.None? {
      DropAddOverlay(cmp, s, Overlays(f.add, o.remove), f.add.value, keep);
    }
  }

  lemma RemovedIsThere(sch: Schema, s: seq<Node>, sc: SourceChange)
    requires Legal(sch, s, ToChange(sc)) && FullOverlays(sc).remove.Some?
    ensures Leaf(FullOverlays(sc).remove.value) in s
  {
  }

  lemma DropRemoveOverlay(cmp: Comparator, s: seq<Node>, o: Overlays, row: Row, keep: Node -> bool)
    requires TotalOrder(cmp) && Sorted(cmp, s) && o.remove == Some(row) && Leaf(row) in s && !keep(Leaf(row))
    ensures Filtered(Spliced(cmp, s, o), keep) == Filtered(Spliced(cmp, s, o.(remove := None)), keep)
  {
    MemberAt(cmp, s, Leaf(row));
    DropRemove(s, AddIndex(cmp, s, o.add), Leaf(if o.add.Some? then o.add.value else map[]),
               RemoveIndex(cmp, s, o.remove), keep);
  }

  lemma DropAddOverlay(cmp: Comparator, s: seq<Node>, o: Overlays, row: Row, keep: Node -> bool)
    requires o.add == Some(row) && !keep(Leaf(row))
    ensures Filtered(Spliced(cmp, s, o), keep) == Filtered(Spliced(cmp, s, o.(add := None)), keep)
  {
    DropAdd(s, AddIndex(cmp, s, o.add), Leaf(row), Leaf(map[]), RemoveIndex(cmp, s, o.remove), keep);
  }

  lemma SplicedNone(cmp: Comparator, s: seq<Node>)
    ensures Spliced(cmp, s, Overlays(None, None)) == s
  {
  }

  // ----- cutting the start off

  ghost predicate WeaklySorted(cmp: Comparator, s: seq<Node>) {
    forall i, j | 0 <= i < j < |s| :: cmp(s[i].row, s[j].row) <= 0
  }

  lemma SplicedSorted(cmp: Comparator, s: seq<Node>, o: Overlays)
    requires TotalOrder(cmp) && Sorted(cmp, s)
    ensures WeaklySorted(cmp, Spliced(cmp, s, o))
  {
    hide TotalOrder, Sorted, WeaklySorted;
    var a, x, b := AddIndex(cmp, s, o.add), Leaf(if o.add.Some? then o.add.value else map[]),
      RemoveIndex(cmp, s, o.remove);
    var u := if a <= |s| then InsertAt(s, a, x) else s;
    InsertWeak(cmp, s, x);
    if b < |s| && a <= |s| {
      WovenIsRemoval(s, a, x, b);
      RemoveWeak(cmp, u, if b < a then b else b + 1);
    } else if b < |s| {
      RemoveWeak(cmp, u, b);
    }
  }

  lemma InsertWeak(cmp: Comparator, s: seq<Node>, x: Node)
    requires TotalOrder(cmp) && Sorted(cmp, s)
    ensures WeaklySorted(cmp, s) && WeaklySorted(cmp, InsertAt(s, UpperPos(cmp, s, x.row, 0), x))
  {
    UpperPosSplits(cmp, s, x.row);
  }

  lemma RemoveWeak(cmp: Comparator, u: seq<Node>, i: nat)
    requires WeaklySorted(cmp, u) && i < |u|
    ensures WeaklySorted(cmp, RemoveAt(u, i))
  {
  }

  function FromStart(cmp: Comparator, start: Option<Start>, reverse: bool): Node -> bool {
    (n: Node) => StartOk(cmp, start, reverse, n.row)
  }

  /** Once a forward scan has come to the start, it stays behind it. */
  lemma StartStays(cmp: Comparator, s: seq<Node>, start: Start, i: nat, k: nat)
    requires TotalOrder(cmp) && WeaklySorted(cmp, s) && i <= k < |s| && StartOk(cmp, Some(start), false, s[i].row)
    ensures StartOk(cmp, Some(start), false, s[k].row)
  {
    if i < k { Transitive(cmp, start.row, s[i].row, s[k].row); }
  }

  lemma {:induction false} FilteredConcat(a: seq<Node>, b: seq<Node>, keep: Node -> bool)
    ensures Filtered(a + b, keep) == Filtered(a, keep) + Filtered(b, keep)
  {
    if a == [] {
      assert a + b == b;
    } else {
      FilteredConcat(a[1..], b, keep);
      ConcatSplit(a, b);
    }
  }

  lemma FilteredOne(s: seq<Node>, i: nat, keep: Node -> bool)
    requires i < |s|
    ensures Filtered(s[..i + 1], keep) == Filtered(s[..i], keep) + if keep(s[i]) then [s[i]] else []
  {
    PrefixOne(s, i);
    FilteredConcat(s[..i], [s[i]], keep);
  }

  /** The three filters of a fetch, one after the other, select what the request asks of the filtered table. */
  lemma StagesSelect(cmp: Comparator, t: seq<Node>, w: seq<Node>, req: FetchRequest, filter: Option<Row -> bool>)
    requires Filtered(w, Shows(cmp, req, filter)) == Filtered(t, Shows(cmp, req, filter))
    ensures Directed(Filtered(Filtered(Filtered(w, FromStart(cmp, req.start, req.reverse)), Meets(req.constraint)),
                              Passes(filter)), req.reverse)
            == Selected(cmp, Filtered(t, Passes(filter)), req)
  {
    var f, m, p, k := FromStart(cmp, req.start, req.reverse), Meets(req.constraint), Passes(filter),
      Shows(cmp, req, filter);
    var wanted := Wanted(cmp, req);
    FilteredTwice(w, f, m, wanted);
    FilteredTwice(w, wanted, p, k);
    FilteredTwice(t, p, wanted, k);
  }

  function Meets(c: Option<Constraint>): Node -> bool {
    (n: Node) => ConstraintOk(c, n.row)
  }

  // ----- writing

  /** The table after the change is written. */
  ghost function Written(primaryKey: Key, rows: seq<Row>, sc: SourceChange): seq<Row>
    decreases if sc.EditRow? then 1 else 0
  {
    var cmp := MakeComparator(PrimarySort(primaryKey));
    match sc
    case AddRow(r) => InsertAt(rows, Pos(cmp, Leaves(rows), r), r)
    case RemoveRow(r) => if Has(cmp, Leaves(rows), r) then RemoveAt(rows, Pos(cmp, Leaves(rows), r)) else rows
    case EditRow(r, o) => Written(primaryKey, Written(primaryKey, rows, RemoveRow(o)), AddRow(r))
  }

  lemma LeavesInsert(rows: seq<Row>, p: nat, r: Row)
    requires p <= |rows|
    ensures Leaves(InsertAt(rows, p, r)) == InsertAt(Leaves(rows), p, Leaf(r))
  {
  }

  lemma LeavesRemove(rows: seq<Row>, p: nat)
    requires p < |rows|
    ensures Leaves(RemoveAt(rows, p)) == RemoveAt(Leaves(rows), p)
  {
  }

  lemma {:induction false} WrittenLeaves(primaryKey: Key, rows: seq<Row>, sc: SourceChange)
    ensures Leaves(Written(primaryKey, rows, sc)) ==
            Apply(Schema(MakeComparator(PrimarySort(primaryKey)), map[]), Leaves(rows), ToChange(sc))
    decreases if sc.EditRow? then 1 else 0
  {
    var cmp := MakeComparator(PrimarySort(primaryKey));
    match sc
    case AddRow(r) => LeavesInsert(rows, Pos(cmp, Leaves(rows), r), r);
    case RemoveRow(r) => if Has(cmp, Leaves(rows), r) { LeavesRemove(rows, Pos(cmp, Leaves(rows), r)); }
    case EditRow(r, o) =>
      WrittenLeaves(primaryKey, rows, RemoveRow(o));
      WrittenLeaves(primaryKey, Written(primaryKey, rows, RemoveRow(o)), AddRow(r));
  }

  lemma WrittenBecomes(primaryKey: Key, rows: seq<Row>, sc: SourceChange)
    requires Table(primaryKey, rows) && Fitting(primaryKey, rows, sc)
    ensures Becomes(primaryKey, rows, sc, Written(primaryKey, rows, sc))
  {
    WrittenLeaves(primaryKey, rows, sc);
    TableLegal(primaryKey, rows, sc);
    ApplyFacts(Schema(MakeComparator(PrimarySort(primaryKey)), map[]), Leaves(rows), ToChange(sc));
  }

  // ----- one connection

  /** What a connection hands on of a change of the table. */
  function SourceGate(filter: Option<Row -> bool>, ch: Change): Option<Change> {
    match filter
    case None => Some(ch)
    case Some(pred) => FilterPush(ch, pred)
  }

  /** A fetch that splices a pending change in shows the table as if the change were written. */
  lemma OverlayIsWrite(primaryKey: Key, rows: seq<Row>, sc: SourceChange, conn: Connection, req: FetchRequest)
    requires Table(primaryKey, rows) && Fitting(primaryKey, rows, sc) && Completes(conn.sort, primaryKey)
    ensures var cmp := MakeComparator(conn.sort);
            var w := Spliced(cmp, SortBy(cmp, Leaves(rows)), ComputeOverlays(Some(sc), cmp, req, conn.filter));
            Directed(Filtered(Filtered(Filtered(w, FromStart(cmp, req.start, req.reverse)), Meets(req.constraint)),
                              Passes(conn.filter)), req.reverse)
            == Selected(cmp, ConnView(conn, Written(primaryKey, rows, sc)), req)
  {
    var cmp := MakeComparator(conn.sort);
    var s, w := SortBy(cmp, Leaves(rows)),
      Spliced(cmp, SortBy(cmp, Leaves(rows)), ComputeOverlays(Some(sc), cmp, req, conn.filter));
    FittingIsLegal(primaryKey, rows, sc, conn.sort);
    WrittenBecomes(primaryKey, rows, sc);
    BecomesSorted(primaryKey, rows, sc, Written(primaryKey, rows, sc), conn.sort);
    SplicedShows(Schema(cmp, map[]), s, sc, req, conn.filter);
    StagesSelect(cmp, SortBy(cmp, Leaves(Written(primaryKey, rows, sc))), w, req, conn.filter);
  }

  /** What a connection hands on carries its view of the table to its view of the written table. */
  lemma ConnCarries(primaryKey: Key, rows: seq<Row>, sc: SourceChange, conn: Connection)
    requires Table(primaryKey, rows) && Fitting(primaryKey, rows, sc) && Completes(conn.sort, primaryKey)
    ensures Carries(ConnSchema(conn), ConnView(conn, rows), Emitted(SourceGate(conn.filter, ToChange(sc))),
                    ConnView(conn, Written(primaryKey, rows, sc)))
  {
    var sch, ch := ConnSchema(conn), ToChange(sc);
    var s := SortBy(sch.cmp, Leaves(rows));
    FittingIsLegal(primaryKey, rows, sc, conn.sort);
    WrittenBecomes(primaryKey, rows, sc);
    BecomesSorted(primaryKey, rows, sc, Written(primaryKey, rows, sc), conn.sort);
    GateCarries(sch, s, ch, Passes(conn.filter));
    LegalMoves(sch, s, ch);
    if conn.filter.Some? { FilterPushIsGate(ch, Pre(sch, s, ch), Post(ch), conn.filter.value); }
  }

  // ----- one change, all connections

  /** What was pushed to a connection, and what each connection's fetch would answer at that moment. */
  datatype Delivery = Delivery(conn: nat, change: Change, seen: seq<seq<Node>>)

  /** The connections before `told` see the table with the change, the others the table without it. */
  function SeenBy(conns: seq<Connection>, rows: seq<Row>, after: seq<Row>, told: nat): seq<seq<Node>> {
    seq(|conns|, j requires 0 <= j < |conns| => ConnView(conns[j], if j < told && conns[j].wired then after else rows))
  }

  function DeliveredTo(conns: seq<Connection>, rows: seq<Row>, after: seq<Row>, ch: Change, i: nat): seq<Delivery>
    requires i < |conns|
  {
    if !conns[i].wired then []
    else match SourceGate(conns[i].filter, ch)
      case Some(c) => [Delivery(i, c, SeenBy(conns, rows, after, i + 1))]
      case None => []
  }

  /** The deliveries to the first `n` connections. */
  function Deliveries(conns: seq<Connection>, rows: seq<Row>, after: seq<Row>, ch: Change, n: nat): seq<Delivery>
    requires n <= |conns|
  {
    if n == 0 then [] else Deliveries(conns, rows, after, ch, n - 1) + DeliveredTo(conns, rows, after, ch, n - 1)
  }

  /** The deliveries of a parallel push: at each of them every connection has been told. */
  function ParallelDeliveries(conns: seq<Connection>, rows: seq<Row>, after: seq<Row>, ch: Change,
                              n: nat): seq<Delivery>
    requires n <= |conns|
  {
    if n == 0 then []
    else
      var before := ParallelDeliveries(conns, rows, after, ch, n - 1);
      if !conns[n - 1].wired then before
      else match SourceGate(conns[n - 1].filter, ch)
        case Some(c) => before + [Delivery(n - 1, c, SeenBy(conns, rows, after, |conns|))]
        case None => before
  }

  /** What was sent, and to whom: a delivery without what could be seen at it. */
  function Sent(ds: seq<Delivery>): seq<(nat, Change)> {
    seq(|ds|, i requires 0 <= i < |ds| => (ds[i].conn, ds[i].change))
  }

  /** A parallel push sends the same changes to the same connections in the same order. */
  lemma {:induction false} SameSent(conns: seq<Connection>, rows: seq<Row>, after: seq<Row>, ch: Change, n: nat)
    requires n <= |conns|
    ensures Sent(ParallelDeliveries(conns, rows, after, ch, n)) == Sent(Deliveries(conns, rows, after, ch, n))
  {
    if n > 0 {
      SameSent(conns, rows, after, ch, n - 1);
      var one := DeliveredTo(conns, rows, after, ch, n - 1);
      SentConcat(Deliveries(conns, rows, after, ch, n - 1), one);
      if one != [] { SentConcat(ParallelDeliveries(conns, rows, after, ch, n - 1),
                                [Delivery(n - 1, one[0].change, SeenBy(conns, rows, after, |conns|))]); }
    }
  }

  /** The deliveries of one unsplit push, to one connection after the other or to all at once. */
  function DeliveriesOf(atOnce: bool, conns: seq<Connection>, rows: seq<Row>, after: seq<Row>,
                        ch: Change): seq<Delivery> {
    if atOnce then ParallelDeliveries(conns, rows, after, ch, |conns|) else Deliveries(conns, rows, after, ch, |conns|)
  }

  /** The deliveries of a push: an edit of a column that some connection asks to have split is a remove
      and an add, the add on the table that the remove was written to. */
  ghost function PushedDeliveries(atOnce: bool, primaryKey: Key, conns: seq<Connection>, rows: seq<Row>,
                                  sc: SourceChange): seq<Delivery> {
    var after := Written(primaryKey, rows, sc);
    if sc.EditRow? && ShouldSplit(conns, sc.row, sc.oldRow) then
      var between := Written(primaryKey, rows, RemoveRow(sc.oldRow));
      DeliveriesOf(atOnce, conns, rows, between, Remove(Leaf(sc.oldRow)))
        + DeliveriesOf(atOnce, conns, between, after, Add(Leaf(sc.row)))
    else DeliveriesOf(atOnce, conns, rows, after, ToChange(sc))
  }

  /** Split or not. */
  lemma SamePushed(primaryKey: Key, conns: seq<Connection>, rows: seq<Row>, sc: SourceChange)
    ensures Sent(PushedDeliveries(true, primaryKey, conns, rows, sc))
            == Sent(PushedDeliveries(false, primaryKey, conns, rows, sc))
  {
    hide Written, ParallelDeliveries, Deliveries, ToChange, ShouldSplit;
    var after := Written(primaryKey, rows, sc);
    if sc.EditRow? && ShouldSplit(conns, sc.row, sc.oldRow) {
      var between, r, a := Written(primaryKey, rows, RemoveRow(sc.oldRow)), Remove(Leaf(sc.oldRow)), Add(Leaf(sc.row));
      SameSent(conns, rows, between, r, |conns|);
      SameSent(conns, between, after, a, |conns|);
      SentConcat(DeliveriesOf(true, conns, rows, between, r), DeliveriesOf(true, conns, between, after, a));
      SentConcat(DeliveriesOf(false, conns, rows, between, r), DeliveriesOf(false, conns, between, after, a));
    } else {
      SameSent(conns, rows, after, ToChange(sc), |conns|);
    }
  }

  lemma SentConcat(a: seq<Delivery>, b: seq<Delivery>)
    ensures Sent(a + b) == Sent(a) + Sent(b)
  {
  }

  // ----- the state of a source

  datatype Overlay = Overlay(epoch: nat, change: SourceChange)

  datatype SourceState = SourceState(data: seq<Row>, connections: seq<Connection>, pushEpoch: nat,
                                     overlay: Option<Overlay>)

  /** The connections, each one that has an output told of push `epoch`. */
  function ToldConns(conns: seq<Connection>, epoch: nat): seq<Connection> {
    seq(|conns|, i requires 0 <= i < |conns| => if conns[i].wired then conns[i].(lastPushedEpoch := epoch)
        else conns[i])
  }

  /** The state that a push leaves behind, in whichever way the connections are told: nothing changes on
      drift; otherwise the change is written, the connections are told, and no overlay is left. */
  ghost function PushedState(primaryKey: Key, st: SourceState, sc: SourceChange): SourceState {
    if !Fitting(primaryKey, st.data, sc) then st
    else
      var epoch := st.pushEpoch + if sc.EditRow? && ShouldSplit(st.connections, sc.row, sc.oldRow) then 2 else 1;
      SourceState(Written(primaryKey, st.data, sc), ToldConns(st.connections, epoch), epoch, None)
  }

  lemma ToldTwice(conns: seq<Connection>, a: nat, b: nat)
    ensures ToldConns(ToldConns(conns, a), b) == ToldConns(conns, b)
  {
  }

  /** A remove or edit names the row that is stored under its key, and an edit keeps the key. */
  ghost predicate Truthful(primaryKey: Key, rows: seq<Row>, sc: SourceChange) {
    var cmp := MakeComparator(PrimarySort(primaryKey));
    match sc
    case AddRow(_) => true
    case RemoveRow(r) => Has(cmp, Leaves(rows), r) ==> r in rows
    case EditRow(r, o) => (Has(cmp, Leaves(rows), o) ==> o in rows) && cmp(r, o) == 0
  }

  predicate ShouldSplit(conns: seq<Connection>, row: Row, oldRow: Row) {
    exists i | 0 <= i < |conns| :: SplitsOn(conns[i].splitEditKeys, row, oldRow)
  }

  predicate SplitsOn(keys: set<string>, row: Row, oldRow: Row) {
    exists k | k in keys :: !ValuesEqual(Get(row, k), Get(oldRow, k))
  }

  /** After the remove half of a split edit, the add half fits. */
  lemma SplitFits(primaryKey: Key, rows: seq<Row>, row: Row, oldRow: Row)
    requires Table(primaryKey, rows) && Fitting(primaryKey, rows, EditRow(row, oldRow))
    ensures Fitting(primaryKey, rows, RemoveRow(oldRow))
    ensures Fitting(primaryKey, Written(primaryKey, rows, RemoveRow(oldRow)), AddRow(row))
    ensures Written(primaryKey, Written(primaryKey, rows, RemoveRow(oldRow)), AddRow(row))
            == Written(primaryKey, rows, EditRow(row, oldRow))
  {
    var cmp := MakeComparator(PrimarySort(primaryKey));
    TableLegal(primaryKey, rows, EditRow(row, oldRow));
    WrittenLeaves(primaryKey, rows, RemoveRow(oldRow));
  }
}
