/** What tables, pushes and fetches of a source are about, said row by row (ivm/source.go). */
module TableMeaning {
  import opened Values
  import opened Seqs
  import opened Views
  import opened JoinUtils
  import opened Fetching
  import opened SourceRules
  import opened RowOrder

  /** Some stored row has the key of `row`. */
  ghost predicate KeyStored(primaryKey: Key, rows: seq<Row>, row: Row) {
    exists r :: r in rows && forall k | k in primaryKey :: Get(r, k) == Get(row, k)
  }

  lemma SameKey(primaryKey: Key, a: Row, b: Row)
    ensures CompareBy(PrimarySort(primaryKey), a, b) == 0 <==> forall k | k in primaryKey :: Get(a, k) == Get(b, k)
  {
    PrimaryOrder(primaryKey, a, b);
    if RowEqualsForKey(a, b, primaryKey) {
      forall k | k in primaryKey ensures Get(a, k) == Get(b, k) {
        var i :| 0 <= i < |primaryKey| && primaryKey[i] == k;
      }
    }
  }

  lemma HasIsKeyStored(primaryKey: Key, rows: seq<Row>, row: Row)
    requires Table(primaryKey, rows)
    ensures Has(MakeComparator(PrimarySort(primaryKey)), Leaves(rows), row) <==> KeyStored(primaryKey, rows, row)
  {
    hide CompareBy;
    var cmp := MakeComparator(PrimarySort(primaryKey));
    ComparatorIsTotalOrder(PrimarySort(primaryKey));
    HasMeansMember(cmp, Leaves(rows), row);
    LeafMembers(rows);
    if x :| x in Leaves(rows) && cmp(x.row, row) == 0 {
      SameKey(primaryKey, x.row, row);
      assert x.row in rows;
    }
    if r :| r in rows && forall k | k in primaryKey :: Get(r, k) == Get(row, k) {
      SameKey(primaryKey, r, row);
      assert Leaf(r) in Leaves(rows) && cmp(Leaf(r).row, row) == 0;
    }
  }

  /** A truthful change fits the table exactly if an added row's key is not stored yet, and a removed or edited
      row's key is. */
  lemma FittingIff(primaryKey: Key, rows: seq<Row>, sc: SourceChange)
    requires Table(primaryKey, rows) && Truthful(primaryKey, rows, sc)
    ensures Fitting(primaryKey, rows, sc) <==>
            match sc
            case AddRow(r) => !KeyStored(primaryKey, rows, r)
            case RemoveRow(r) => KeyStored(primaryKey, rows, r)
            case EditRow(_, o) => KeyStored(primaryKey, rows, o)
  {
    hide CompareBy, Has, KeyStored;
    match sc
    case AddRow(r) => HasIsKeyStored(primaryKey, rows, r);
    case RemoveRow(r) => HasIsKeyStored(primaryKey, rows, r); StoredHasKey(primaryKey, rows, r);
    case EditRow(_, o) => HasIsKeyStored(primaryKey, rows, o); StoredHasKey(primaryKey, rows, o);
  }

  lemma StoredHasKey(primaryKey: Key, rows: seq<Row>, row: Row)
    ensures row in rows ==> KeyStored(primaryKey, rows, row)
  {
  }

  /** The written table has the added row and not the removed one, and every other row as it was. */
  lemma WrittenRows(primaryKey: Key, rows: seq<Row>, sc: SourceChange)
    requires Table(primaryKey, rows) && Fitting(primaryKey, rows, sc)
    ensures forall r :: r in Written(primaryKey, rows, sc) <==>
              match sc
              case AddRow(a) => r in rows || r == a
              case RemoveRow(o) => r in rows && r != o
              case EditRow(a, o) => (r in rows && r != o) || r == a
  {
    hide CompareBy, Apply, Legal, Table, Sorted, TotalOrder;
    var sch := Schema(MakeComparator(PrimarySort(primaryKey)), map[]);
    var after := Written(primaryKey, rows, sc);
    WrittenLeaves(primaryKey, rows, sc);
    TableLegal(primaryKey, rows, sc);
    TableSorted(primaryKey, rows);
    ApplyFacts(sch, Leaves(rows), ToChange(sc));
    LeafMembers(rows);
    LeafMembers(after);
    forall r ensures r in after <==> Leaf(r) in Leaves(after) {
    }
    forall r ensures r in rows <==> Leaf(r) in Leaves(rows) {
    }
  }

  lemma TableSorted(primaryKey: Key, rows: seq<Row>)
    requires Table(primaryKey, rows)
    ensures Sorted(MakeComparator(PrimarySort(primaryKey)), Leaves(rows))
  {
  }

  /** An edit is split exactly if a column that some connection asks to have split has another value than
      before, or has none. */
  lemma SplitIff(conns: seq<Connection>, row: Row, oldRow: Row)
    ensures ShouldSplit(conns, row, oldRow) <==>
            exists i, k | 0 <= i < |conns| && k in conns[i].splitEditKeys ::
              Get(row, k) != Get(oldRow, k) || Get(row, k).Null?
  {
    if ShouldSplit(conns, row, oldRow) {
      var i :| 0 <= i < |conns| && SplitsOn(conns[i].splitEditKeys, row, oldRow);
      var k :| k in conns[i].splitEditKeys && !ValuesEqual(Get(row, k), Get(oldRow, k));
      assert 0 <= i < |conns| && k in conns[i].splitEditKeys && (Get(row, k) != Get(oldRow, k) || Get(row, k).Null?);
    }
    if i, k :| 0 <= i < |conns| && k in conns[i].splitEditKeys && (Get(row, k) != Get(oldRow, k) || Get(row, k).Null?) {
      assert SplitsOn(conns[i].splitEditKeys, row, oldRow);
    }
  }

  /** A table is a list of rows in ascending order of the primary key, and that is also the order of a connection that
      asks for none. */
  lemma TableMeans(primaryKey: Key, rows: seq<Row>)
    ensures Table(primaryKey, rows) <==> forall i, j | 0 <= i < j < |rows| :: KeyBefore(primaryKey, rows[i], rows[j])
    ensures forall a, b :: SortsBefore(PrimarySort(primaryKey), a, b) <==> KeyBefore(primaryKey, a, b)
  {
    hide CompareBy, KeyBefore, SortsBefore;
    forall a, b ensures SortsBefore(PrimarySort(primaryKey), a, b) <==> KeyBefore(primaryKey, a, b) {
      PrimaryMeans(primaryKey, a, b);
    }
    forall a, b ensures CompareBy(PrimarySort(primaryKey), a, b) < 0 <==> KeyBefore(primaryKey, a, b) {
      CompareByMeans(PrimarySort(primaryKey), a, b);
    }
    assert forall i | 0 <= i < |rows| :: Leaves(rows)[i].row == rows[i];
  }

  lemma PrimaryMeans(primaryKey: Key, a: Row, b: Row)
    ensures SortsBefore(PrimarySort(primaryKey), a, b) <==> KeyBefore(primaryKey, a, b)
  {
    hide ValueBefore;
    var order := PrimarySort(primaryKey);
    assert forall i | 0 <= i < |order| :: order[i] == (primaryKey[i], Asc);
    forall i | 0 <= i < |order|
      ensures AgreeUpTo(order, i, a, b) && Earlier(order[i], a, b) <==>
              (forall m | 0 <= m < i :: Get(a, primaryKey[m]) == Get(b, primaryKey[m]))
              && ValueBefore(Get(a, primaryKey[i]), Get(b, primaryKey[i]))
    {
    }
  }

  // ----- fetches

  /** The row is at the start or beyond it, in the direction of the scan; at it only if the start says so. */
  ghost predicate FromStartOn(sort: Ordering, start: Option<Start>, reverse: bool, row: Row) {
    start.Some? ==>
      var s := start.value.row;
      && !(if reverse then SortsBefore(sort, s, row) else SortsBefore(sort, row, s))
      && (start.value.basis.After? ==> if reverse then SortsBefore(sort, row, s) else SortsBefore(sort, s, row))
  }

  ghost predicate HasValues(c: Option<Constraint>, row: Row) {
    c.Some? ==> forall k | k in c.value :: k in row && row[k] == c.value[k] && row[k] != Null
  }

  /** A fetch shows the rows of the table that pass the filter, meet the constraint and are at the start or beyond
      it, and shows them in the connection's order, or in reverse. */
  lemma FetchMeans(primaryKey: Key, rows: seq<Row>, conn: Connection, req: FetchRequest)
    requires Table(primaryKey, rows) && Completes(conn.sort, primaryKey)
    ensures var nodes := Selected(MakeComparator(conn.sort), ConnView(conn, rows), req);
            && (forall n :: n in nodes <==>
                  && n == Leaf(n.row) && n.row in rows && (conn.filter.Some? ==> conn.filter.value(n.row))
                  && HasValues(req.constraint, n.row) && FromStartOn(conn.sort, req.start, req.reverse, n.row))
            && forall i, j | 0 <= i < j < |nodes| ::
                 if req.reverse then SortsBefore(conn.sort, nodes[j].row, nodes[i].row)
                 else SortsBefore(conn.sort, nodes[i].row, nodes[j].row)
  {
    hide CompareBy, Table, Filtered, SortBy, TotalOrder, SortsBefore;
    var cmp := MakeComparator(conn.sort);
    var all, view := SortBy(cmp, Leaves(rows)), ConnView(conn, rows);
    ComparatorIsTotalOrder(conn.sort);
    TableApart(primaryKey, rows, conn.sort);
    SortFacts(cmp, Leaves(rows));
    LeafMembers(rows);
    FilteredFacts(cmp, all, Passes(conn.filter));
    FilteredFacts(cmp, view, Wanted(cmp, req));
    ReversedMembers(Filtered(view, Wanted(cmp, req)));
    forall row ensures StartOk(cmp, req.start, req.reverse, row) <==>
      FromStartOn(conn.sort, req.start, req.reverse, row) {
      if req.start.Some? {
        CompareByMeans(conn.sort, row, req.start.value.row);
      }
    }
    forall row ensures ConstraintOk(req.constraint, row) <==> HasValues(req.constraint, row) {
    }
    forall a, b ensures cmp(a, b) < 0 <==> SortsBefore(conn.sort, a, b) {
      CompareByMeans(conn.sort, a, b);
    }
  }
}
