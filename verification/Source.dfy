/** MemorySource: sorted rows, connections, push epochs and the pending-change overlay (ivm/source.go). */
module Source {
  import opened Values
  import opened Seqs
  import opened Views
  import opened JoinUtils
  import opened Fetching
  import opened SourceRules

  datatype PushResult = Drift | Delivered(deliveries: seq<Delivery>)

  // ----- the loops of a fetch

  method GenerateWithOverlayInner(rows: seq<Node>, o: Overlays, cmp: Comparator) returns (r: seq<Node>)
    requires TotalOrder(cmp) && Sorted(cmp, rows)
    ensures r == Spliced(cmp, rows, o)
  {
    ghost var a, b := AddIndex(cmp, rows, o.add), RemoveIndex(cmp, rows, o.remove);
    ghost var w := Spliced(cmp, rows, o);
    WovenShape(rows, a, Leaf(if o.add.Some? then o.add.value else map[]), b);
    IndexFacts(cmp, rows, o);
    r := SpliceLoop(rows, o, cmp, a, b, w);
  }

  lemma IndexFacts(cmp: Comparator, rows: seq<Node>, o: Overlays)
    requires TotalOrder(cmp) && Sorted(cmp, rows)
    ensures o.add.Some? ==> forall i | 0 <= i < |rows| :: cmp(o.add.value, rows[i].row) < 0 <==>
              AddIndex(cmp, rows, o.add) <= i
    ensures o.remove.Some? ==> forall i | 0 <= i < |rows| :: cmp(o.remove.value, rows[i].row) == 0 <==>
              i == RemoveIndex(cmp, rows, o.remove)
  {
    if o.add.Some? { UpperPosSplits(cmp, rows, o.add.value); }
    if o.remove.Some? { AfterPos(cmp, rows, o.remove.value); }
  }

  method SpliceLoop(rows: seq<Node>, o: Overlays, cmp: Comparator, ghost a: nat, ghost b: nat, ghost w: seq<Node>)
    returns (result: seq<Node>)
    requires b <= |rows| && Shape(rows, a, Leaf(if o.add.Some? then o.add.value else map[]), b, w)
    requires o.add.Some? ==> a <= |rows| && forall i | 0 <= i < |rows| :: cmp(o.add.value, rows[i].row) < 0 <==> a <= i
    requires o.add.None? ==> a == |rows| + 1
    requires o.remove.Some? ==> forall i | 0 <= i < |rows| :: cmp(o.remove.value, rows[i].row) == 0 <==> i == b
    requires o.remove.None? ==> b == |rows|
    ensures result == w
  {
    result := [];
    var addYielded, removeSkipped := false, false;
    for i := 0 to |rows|
      invariant addYielded == (a < i) && removeSkipped == (b < i)
      invariant Done(i, a, b) <= |w| && result == w[..Done(i, a, b)]
    {
      if !addYielded && o.add.Some? {
        if cmp(o.add.value, rows[i].row) < 0 {
          addYielded := true;
          TakeOneMore(w, Done(i, a, b));
          result := result + [Leaf(o.add.value)];
        }
      }
      if !removeSkipped && o.remove.Some? {
        if cmp(o.remove.value, rows[i].row) == 0 {
          removeSkipped := true;
          continue;
        }
      }
      TakeOneMore(w, Done(i + 1, a, b) - 1);
      result := result + [rows[i]];
    }
    if !addYielded && o.add.Some? {
      TakeOneMore(w, Done(|rows|, a, b));
      result := result + [Leaf(o.add.value)];
    }
  }

  /** For a cursor row that gives every sort column. */
  method ApplyStart(nodes: seq<Node>, start: Start, cmp: Comparator, reverse: bool) returns (result: seq<Node>)
    requires TotalOrder(cmp) && WeaklySorted(cmp, nodes)
    ensures result == Filtered(nodes, FromStart(cmp, Some(start), reverse))
  {
    if reverse {
      result := UpToStart(nodes, start, cmp);
    } else {
      result := BehindStart(nodes, start, cmp);
    }
  }

  method UpToStart(nodes: seq<Node>, start: Start, cmp: Comparator) returns (result: seq<Node>)
    ensures result == Filtered(nodes, FromStart(cmp, Some(start), true))
  {
    result := [];
    for i := 0 to |nodes|
      invariant result == Filtered(nodes[..i], FromStart(cmp, Some(start), true))
    {
      FilteredOne(nodes, i, FromStart(cmp, Some(start), true));
      if start.basis.At? {
        if cmp(nodes[i].row, start.row) <= 0 { result := result + [nodes[i]]; }
      } else {
        if cmp(nodes[i].row, start.row) < 0 { result := result + [nodes[i]]; }
      }
    }
    assert nodes[..|nodes|] == nodes;
  }

  method BehindStart(nodes: seq<Node>, start: Start, cmp: Comparator) returns (result: seq<Node>)
    requires TotalOrder(cmp) && WeaklySorted(cmp, nodes)
    ensures result == Filtered(nodes, FromStart(cmp, Some(start), false))
  {
    hide TotalOrder, WeaklySorted;
    result := [];
    var started := false;
    ghost var first := 0;
    for i := 0 to |nodes|
      invariant result == Filtered(nodes[..i], FromStart(cmp, Some(start), false))
      invariant started ==> first < i && StartOk(cmp, Some(start), false, nodes[first].row)
    {
      FilteredOne(nodes, i, FromStart(cmp, Some(start), false));
      if started { StartStays(cmp, nodes, start, first, i); }
      if !started {
        if start.basis.At? {
          if cmp(nodes[i].row, start.row) >= 0 { started, first := true, i; }
        } else {
          if cmp(nodes[i].row, start.row) > 0 { started, first := true, i; }
        }
      }
      if started { result := result + [nodes[i]]; }
    }
    assert nodes[..|nodes|] == nodes;
  }

  method ApplyFilter(nodes: seq<Node>, keep: Node -> bool) returns (result: seq<Node>)
    ensures result == Filtered(nodes, keep)
  {
    result := [];
    for i := 0 to |nodes|
      invariant result == Filtered(nodes[..i], keep)
    {
      FilteredOne(nodes, i, keep);
      if keep(nodes[i]) { result := result + [nodes[i]]; }
    }
    assert nodes[..|nodes|] == nodes;
  }

  method ReverseNodes(nodes: array<Node>)
    modifies nodes
    ensures nodes[..] == Reversed(old(nodes[..]))
  {
    ghost var was, last := nodes[..], nodes.Length - 1;
    var i, j := 0, nodes.Length - 1;
    while i < j
      invariant 0 <= i <= j + 1 && j == last - i
      invariant forall k | 0 <= k < i :: nodes[k] == was[last - k]
      invariant forall k | j < k <= last :: nodes[k] == was[last - k]
      invariant forall k | i <= k <= j :: nodes[k] == was[k]
    {
      nodes[i], nodes[j] := nodes[j], nodes[i];
      i, j := i + 1, j - 1;
    }
  }

  method FindSplit(conns: seq<Connection>, row: Row, oldRow: Row) returns (split: bool)
    ensures split == ShouldSplit(conns, row, oldRow)
  {
    for i := 0 to |conns|
      invariant forall j | 0 <= j < i :: !SplitsOn(conns[j].splitEditKeys, row, oldRow)
    {
      if SplitsOn(conns[i].splitEditKeys, row, oldRow) { return true; }
    }
    return false;
  }

  class MemorySource {
    const primaryKey: Key
    var data: seq<Row>
    var connections: seq<Connection>
    var pushEpoch: nat
    var overlay: Option<Overlay>
    /** Whether, and from how many connections on, all connections are told at once. */
    var parallel: bool
    var parallelThreshold: nat

    constructor (primaryKey: Key)
      ensures Valid() && this.primaryKey == primaryKey && State() == SourceState([], [], 0, None) && !parallel
    {
      this.primaryKey, data, connections, pushEpoch, overlay := primaryKey, [], [], 0, None;
      parallel, parallelThreshold := false, 0;
    }

    ghost function State(): SourceState
      reads this
    {
      SourceState(data, connections, pushEpoch, overlay)
    }

    ghost predicate Valid()
      reads this
    {
      && Table(primaryKey, data)
      && (forall i | 0 <= i < |connections| ::
          Completes(connections[i].sort, primaryKey) && connections[i].lastPushedEpoch <= pushEpoch)
      && (overlay.Some? ==> overlay.value.epoch <= pushEpoch && Fitting(primaryKey, data, overlay.value.change))
    }

    function Primary(): Comparator {
      MakeComparator(PrimarySort(primaryKey))
    }

    // ----- the sorted rows

    /** Binary search for the first row that does not sort before `row`. */
    method Search(row: Row) returns (index: nat)
      requires Valid()
      ensures index == Pos(Primary(), Leaves(data), row)
    {
      hide TotalOrder, Sorted, Completes, Fitting, CompareBy;
      ComparatorIsTotalOrder(PrimarySort(primaryKey));
      var i, j := 0, |data|;
      while i < j
        invariant 0 <= i <= j <= |data|
        invariant forall k | 0 <= k < i :: Primary()(data[k], row) < 0
        invariant forall k | j <= k < |data| :: Primary()(data[k], row) >= 0
      {
        var h := (i + j) / 2;
        if Primary()(data[h], row) < 0 {
          BeforeRow(h, row);
          i := h + 1;
        } else {
          FromRow(h, row);
          j := h;
        }
      }
      assert forall k | 0 <= k < |data| :: Leaves(data)[k].row == data[k];
      PosBetween(Primary(), Leaves(data), i, row);
      return i;
    }

    lemma BeforeRow(h: nat, row: Row)
      requires Valid() && h < |data| && Primary()(data[h], row) < 0
      ensures forall k | 0 <= k <= h :: Primary()(data[k], row) < 0
    {
      ComparatorIsTotalOrder(PrimarySort(primaryKey));
      forall k | 0 <= k < h ensures Primary()(data[k], row) < 0 {
        assert Primary()(Leaves(data)[k].row, Leaves(data)[h].row) < 0;
        Transitive(Primary(), data[k], data[h], row);
      }
    }

    lemma FromRow(h: nat, row: Row)
      requires Valid() && h < |data| && Primary()(data[h], row) >= 0
      ensures forall k | h <= k < |data| :: Primary()(data[k], row) >= 0
    {
      ComparatorIsTotalOrder(PrimarySort(primaryKey));
      forall k | h < k < |data| ensures Primary()(data[k], row) >= 0 {
        assert Primary()(Leaves(data)[h].row, Leaves(data)[k].row) < 0;
        Transitive(Primary(), row, data[h], data[k]);
      }
    }

    method HasRow(row: Row) returns (found: bool)
      requires Valid()
      ensures found <==> Has(Primary(), Leaves(data), row)
    {
      var index := Search(row);
      found := index < |data| && Primary()(data[index], row) == 0;
    }

    /** Writes the change that is pending or about to be. */
    method WriteChange(change: SourceChange)
      requires Valid() && overlay == None && Fitting(primaryKey, data, change)
      modifies this`data
      ensures Valid() && data == Written(primaryKey, old(data), change)
    {
      WrittenBecomes(primaryKey, data, change);
      match change
      case AddRow(row) => InsertRow(row);
      case RemoveRow(row) =>
        StoredRow(row);
        RemoveRowFound(row);
      case EditRow(row, oldRow) =>
        StoredRow(oldRow);
        WrittenBecomes(primaryKey, data, RemoveRow(oldRow));
        RemoveRowFound(oldRow);
        InsertRow(row);
    }

    lemma StoredRow(row: Row)
      requires Valid() && row in data
      ensures Has(Primary(), Leaves(data), row)
    {
      ComparatorIsTotalOrder(PrimarySort(primaryKey));
      LeafMembers(data);
      MemberAt(Primary(), Leaves(data), Leaf(row));
    }

    method InsertRow(row: Row)
      requires Valid() && overlay == None && Table(primaryKey, Written(primaryKey, data, AddRow(row)))
      modifies this`data
      ensures Valid() && data == Written(primaryKey, old(data), AddRow(row))
    {
      var index := Search(row);
      InsertAtSlices(data, index, row);
      data := data[..index] + [row] + data[index..];
    }

    /** None of the callers can reach the panic "row not found in source data". */
    method RemoveRowFound(row: Row)
      requires Valid() && overlay == None && Has(Primary(), Leaves(data), row)
               && Table(primaryKey, Written(primaryKey, data, RemoveRow(row)))
      modifies this`data
      ensures Valid() && data == Written(primaryKey, old(data), RemoveRow(row))
    {
      var index := Search(row);
      if !(index < |data| && Primary()(data[index], row) == 0) {
        assert false;
      }
      RemoveAtSlices(data, index);
      data := data[..index] + data[index + 1..];
    }

    // ----- fetch

    /** A connection sees the pending change once it has been told of it. */
    ghost predicate SeesOverlay(i: nat)
      requires i < |connections|
      reads this
    {
      overlay.Some? && connections[i].lastPushedEpoch >= overlay.value.epoch
    }

    ghost function TableSeenBy(i: nat): seq<Row>
      requires i < |connections|
      reads this
    {
      if SeesOverlay(i) then Written(primaryKey, data, overlay.value.change) else data
    }

    /** In the middle of a push as between pushes, a fetch answers as a sorted, filtered list of the
        rows would: of the written table for a connection that was told of the pending change, of the
        stored one for every other. For every constraint, start, basis, direction and filter. */
    method Fetch(i: nat, req: FetchRequest) returns (nodes: seq<Node>)
      requires Valid() && i < |connections|
      ensures nodes == Selected(MakeComparator(connections[i].sort), ConnView(connections[i], TableSeenBy(i)), req)
    {
      var conn := connections[i];
      var cmp := MakeComparator(conn.sort);
      var rows := SortBy(cmp, Leaves(data));
      var pending := if overlay.None? || conn.lastPushedEpoch < overlay.value.epoch then None
        else Some(overlay.value.change);
      SortedRows(conn);
      var w := GenerateWithOverlayInner(rows, ComputeOverlays(pending, cmp, req, conn.filter), cmp);
      SplicedSorted(cmp, rows, ComputeOverlays(pending, cmp, req, conn.filter));
      nodes := CutAndFilter(w, conn, cmp, req);
      if pending.Some? {
        OverlayIsWrite(primaryKey, data, pending.value, conn, req);
      } else {
        SplicedNone(cmp, rows);
        StagesSelect(cmp, rows, w, req, conn.filter);
      }
    }

    lemma SortedRows(conn: Connection)
      requires Table(primaryKey, data) && Completes(conn.sort, primaryKey)
      ensures TotalOrder(MakeComparator(conn.sort))
              && Sorted(MakeComparator(conn.sort), SortBy(MakeComparator(conn.sort), Leaves(data)))
    {
      ComparatorIsTotalOrder(conn.sort);
      TableApart(primaryKey, data, conn.sort);
      SortFacts(MakeComparator(conn.sort), Leaves(data));
    }

    static lemma CutNothing(cmp: Comparator, reverse: bool)
      ensures forall n: Node :: FromStart(cmp, None, reverse)(n)
      ensures forall n: Node :: Meets(None)(n)
      ensures forall n: Node :: Passes(None)(n)
    {
    }

    static method CutAndFilter(w: seq<Node>, conn: Connection, cmp: Comparator, req: FetchRequest)
      returns (r: seq<Node>)
      requires TotalOrder(cmp) && WeaklySorted(cmp, w)
      ensures r == Directed(Filtered(Filtered(Filtered(w, FromStart(cmp, req.start, req.reverse)),
                                              Meets(req.constraint)), Passes(conn.filter)), req.reverse)
    {
      hide TotalOrder, WeaklySorted, Filtered, FromStart, Meets, Passes;
      r := w;
      CutNothing(cmp, req.reverse);
      if req.start.Some? { r := ApplyStart(r, req.start.value, cmp, req.reverse); }
        else { FilteredAll(r, FromStart(cmp, None, req.reverse)); }
      if req.constraint.Some? { r := ApplyFilter(r, Meets(req.constraint)); } else { FilteredAll(r, Meets(None)); }
      if conn.filter.Some? { r := ApplyFilter(r, Passes(conn.filter)); } else { FilteredAll(r, Passes(None)); }
      if req.reverse {
        var nodes := new Node[|r|](i requires 0 <= i < |r| => r[i]);
        assert nodes[..] == r;
        ReverseNodes(nodes);
        r := nodes[..];
      }
    }

    // ----- connections

    method Connect(sort: Option<Ordering>, filter: Option<Row -> bool>, splitEditKeys: set<string>) returns (i: nat)
      requires Valid() && (sort.Some? ==> Completes(sort.value, primaryKey))
      modifies this`connections
      ensures Valid() && i == |old(connections)|
      ensures connections == old(connections)
              + [Connection(sort.GetOr(PrimarySort(primaryKey)), filter, splitEditKeys, 0, false)]
    {
      i := |connections|;
      PrimaryCompletes(primaryKey);
      connections := connections + [Connection(sort.GetOr(PrimarySort(primaryKey)), filter, splitEditKeys, 0, false)];
    }

    method SetOutput(i: nat)
      requires Valid() && i < |connections|
      modifies this`connections
      ensures Valid() && connections == old(connections)[i := old(connections)[i].(wired := true)]
    {
      connections := connections[i := connections[i].(wired := true)];
    }

    method Disconnect(i: nat)
      requires Valid() && i < |connections|
      modifies this`connections
      ensures Valid() && connections == RemoveAt(old(connections), i)
    {
      RemoveAtSlices(connections, i);
      connections := connections[..i] + connections[i + 1..];
    }

    // ----- push

    /** What every connection's fetch answers now. */
    method Snapshot() returns (seen: seq<seq<Node>>)
      requires Valid()
      ensures |seen| == |connections|
              && forall j | 0 <= j < |seen| :: seen[j] == ConnView(connections[j], TableSeenBy(j))
    {
      seen := [];
      for j := 0 to |connections|
        invariant |seen| == j && forall k | 0 <= k < j :: seen[k] == ConnView(connections[k], TableSeenBy(k))
      {
        var nodes := Fetch(j, FetchRequest(None, None, false));
        SelectsAll(MakeComparator(connections[j].sort), ConnView(connections[j], TableSeenBy(j)));
        seen := seen + [nodes];
      }
    }

    /** `was` with the first `n` wired connections told of push `epoch`. */
    ghost predicate ToldUpTo(was: seq<Connection>, n: nat, epoch: nat)
      reads this`connections
    {
      && |connections| == |was| && n <= |was|
      && forall j | 0 <= j < |was| ::
        connections[j] == if j < n && was[j].wired then was[j].(lastPushedEpoch := epoch) else was[j]
    }

    method FindDrift(change: SourceChange) returns (drift: bool)
      requires Valid() && Truthful(primaryKey, data, change)
      ensures drift <==> !Fitting(primaryKey, data, change)
    {
      match change
      case AddRow(row) => drift := HasRow(row);
      case RemoveRow(row) => MissingRow(row); drift := HasRow(row); drift := !drift;
      case EditRow(_, oldRow) => MissingRow(oldRow); drift := HasRow(oldRow); drift := !drift;
    }

    lemma MissingRow(row: Row)
      requires Valid()
      ensures row in data ==> Has(Primary(), Leaves(data), row)
    {
      if row in data { StoredRow(row); }
    }

    /** Tells the connections one after the other. Drift is the error for a change that does not fit
        the stored rows. At each delivery the connections told so far, and only they, see the change. */
    method GenPush(change: SourceChange) returns (r: PushResult)
      requires Valid() && overlay == None && Truthful(primaryKey, data, change)
      modifies this`connections, this`pushEpoch, this`overlay
      ensures Valid() && overlay == None
      ensures r.Drift? <==> !Fitting(primaryKey, data, change)
      ensures r.Drift? ==> State() == old(State())
      ensures r.Delivered? ==> pushEpoch == old(pushEpoch) + 1 && connections == ToldConns(old(connections), pushEpoch)
      ensures r.Delivered? ==>
                r.deliveries == Deliveries(old(connections), data, Written(primaryKey, data, change),
                                           ToChange(change), |connections|)
    {
      hide Written, Deliveries, Table, Completes, ToChange, Truthful, Fitting;
      var drift := FindDrift(change);
      if drift { return Drift; }
      ghost var was := connections;
      pushEpoch := pushEpoch + 1;
      r := TellAll(change, was);
      overlay := None;
      ToldAll(was);
    }

    method TellAll(change: SourceChange, ghost was: seq<Connection>) returns (r: PushResult)
      requires Pushing(was, 0, change) && |was| == |connections|
      modifies this`connections, this`overlay
      ensures Pushing(was, |connections|, change)
      ensures r == Delivered(Deliveries(was, data, Written(primaryKey, data, change), ToChange(change), |connections|))
    {
      hide Valid, ToldUpTo, Fitting, Written, DeliveredTo;
      var results: seq<Delivery> := [];
      for i := 0 to |connections|
        invariant |connections| == |was| && Pushing(was, i, change)
        invariant results == Deliveries(was, data, Written(primaryKey, data, change), ToChange(change), i)
      {
        var d := TellOne(i, change, was);
        results := results + d;
      }
      return Delivered(results);
    }

    method TellOne(i: nat, change: SourceChange, ghost was: seq<Connection>) returns (d: seq<Delivery>)
      requires Pushing(was, i, change) && i < |connections| == |was|
      modifies this`connections, this`overlay
      ensures |connections| == |was| && Pushing(was, i + 1, change)
      ensures d == DeliveredTo(was, data, Written(primaryKey, data, change), ToChange(change), i)
    {
      hide Written, Fitting, SeenBy, SourceGate, Table, Completes;
      d := [];
      if connections[i].wired {
        connections := connections[i := connections[i].(lastPushedEpoch := pushEpoch)];
        overlay := Some(Overlay(pushEpoch, change));
        var out := SourceGate(connections[i].filter, ToChange(change));
        if out.Some? {
          var seen := Snapshot();
          SeenNow(was, i + 1, change, seen);
          d := [Delivery(i, out.value, seen)];
        }
      }
    }

    ghost predicate Pushing(was: seq<Connection>, n: nat, change: SourceChange)
      reads this
    {
      && Valid() && Fitting(primaryKey, data, change) && ToldUpTo(was, n, pushEpoch)
      && (forall j | 0 <= j < |was| :: was[j].lastPushedEpoch < pushEpoch)
      && (overlay.None? ==> forall j | 0 <= j < n :: !was[j].wired)
      && (overlay.Some? ==> overlay.value == Overlay(pushEpoch, change))
    }

    lemma SeenNow(was: seq<Connection>, told: nat, change: SourceChange, seen: seq<seq<Node>>)
      requires Pushing(was, told, change) && overlay.Some?
      requires |seen| == |connections|
               && forall j | 0 <= j < |seen| :: seen[j] == ConnView(connections[j], TableSeenBy(j))
      ensures seen == SeenBy(was, data, Written(primaryKey, data, change), told)
    {
      forall j | 0 <= j < |seen| ensures seen[j] == SeenBy(was, data, Written(primaryKey, data, change), told)[j] {
        SameView(connections[j], was[j], TableSeenBy(j));
      }
    }

    /** Tells all connections before any of them works (ivm/parallel.go): the change is visible to every
        connection at every delivery. The goroutines only read the source, so their order does not matter
        to what they see; the results are put in connection order. */
    method GenPushParallel(change: SourceChange) returns (r: PushResult)
      requires Valid() && overlay == None && Truthful(primaryKey, data, change)
      modifies this`connections, this`pushEpoch, this`overlay
      ensures Valid() && overlay == None
      ensures r.Drift? <==> !Fitting(primaryKey, data, change)
      ensures r.Drift? ==> State() == old(State())
      ensures r.Delivered? ==> pushEpoch == old(pushEpoch) + 1 && connections == ToldConns(old(connections), pushEpoch)
      ensures r.Delivered? ==>
                r.deliveries == ParallelDeliveries(old(connections), data, Written(primaryKey, data, change),
                                                   ToChange(change), |connections|)
    {
      hide Written, ParallelDeliveries, Table, Completes, ToChange, Truthful, Fitting;
      var drift := FindDrift(change);
      if drift { return Drift; }
      ghost var was := connections;
      pushEpoch := pushEpoch + 1;
      TellEpoch(change, was);
      overlay := Some(Overlay(pushEpoch, change));
      r := WorkAll(change, was);
      overlay := None;
      ToldAll(was);
    }

    method TellEpoch(change: SourceChange, ghost was: seq<Connection>)
      requires Pushing(was, 0, change) && |was| == |connections| && overlay == None
      modifies this`connections
      ensures Valid() && ToldUpTo(was, |connections|, pushEpoch) && |connections| == |was|
    {
      hide Fitting, Table, Completes;
      for i := 0 to |connections|
        invariant |connections| == |was| && Valid() && ToldUpTo(was, i, pushEpoch)
      {
        if connections[i].wired {
          connections := connections[i := connections[i].(lastPushedEpoch := pushEpoch)];
        }
      }
    }

    method WorkAll(change: SourceChange, ghost was: seq<Connection>) returns (r: PushResult)
      requires |was| == |connections| && Pushing(was, |was|, change) && overlay.Some?
      ensures r == Delivered(ParallelDeliveries(was, data, Written(primaryKey, data, change), ToChange(change),
                                                |connections|))
    {
      hide Written, Fitting, SeenBy, SourceGate, Table, Completes, Valid;
      var results: seq<Delivery> := [];
      for i := 0 to |connections|
        invariant results == ParallelDeliveries(was, data, Written(primaryKey, data, change), ToChange(change), i)
      {
        if connections[i].wired {
          var out := SourceGate(connections[i].filter, ToChange(change));
          if out.Some? {
            var seen := Snapshot();
            SeenNow(was, |was|, change, seen);
            results := results + [Delivery(i, out.value, seen)];
          }
        }
      }
      return Delivered(results);
    }

    lemma ToldAll(was: seq<Connection>)
      requires ToldUpTo(was, |was|, pushEpoch)
      ensures connections == ToldConns(was, pushEpoch)
    {
    }

    // ----- push and write

    /** genPush or GenPushParallel, then the write. */
    method GenPushAndWrite(change: SourceChange, atOnce: bool) returns (r: PushResult)
      requires Valid() && overlay == None && Truthful(primaryKey, data, change)
      modifies this`data, this`connections, this`pushEpoch, this`overlay
      ensures Valid() && overlay == None
      ensures r.Drift? <==> !Fitting(primaryKey, old(data), change)
      ensures r.Drift? ==> State() == old(State())
      ensures r.Delivered? ==>
                && data == Written(primaryKey, old(data), change)
                && pushEpoch == old(pushEpoch) + 1 && connections == ToldConns(old(connections), pushEpoch)
                && r.deliveries == DeliveriesOf(atOnce, old(connections), old(data), data, ToChange(change))
    {
      hide Written, Deliveries, ParallelDeliveries, Table, Completes, ToChange, Truthful, Fitting;
      if atOnce { r := GenPushParallel(change); } else { r := GenPush(change); }
      if r.Delivered? { WriteChange(change); }
    }

    /** genPushAndWriteWithSplitEdit, and genPushAndWriteParallel, which differ only in how connections
        are told. An edit of a column that some connection asks to have split is pushed as a remove and
        an add; so no edit that is delivered changes such a column. Whether the connections are told in
        turn or at once, drift is found for the same changes and the source ends in the same state. */
    method GenPushAndWriteWithSplitEdit(change: SourceChange, atOnce: bool) returns (r: PushResult)
      requires Valid() && overlay == None && Truthful(primaryKey, data, change)
      modifies this`data, this`connections, this`pushEpoch, this`overlay
      ensures Valid() && (r.Drift? <==> !Fitting(primaryKey, old(data), change))
      ensures State() == PushedState(primaryKey, old(State()), change)
      ensures r.Delivered? ==> r.deliveries == PushedDeliveries(atOnce, primaryKey, old(connections), old(data), change)
    {
      hide Written, Deliveries, ParallelDeliveries, Table, Completes, Truthful, Fitting;
      var shouldSplit := false;
      if change.EditRow? { shouldSplit := FindSplit(connections, change.row, change.oldRow); }
      if shouldSplit {
        r := PushSplit(change.row, change.oldRow, atOnce);
      } else {
        r := GenPushAndWrite(change, atOnce);
      }
    }

    method PushSplit(row: Row, oldRow: Row, atOnce: bool) returns (r: PushResult)
      requires Valid() && overlay == None && Truthful(primaryKey, data, EditRow(row, oldRow))
      modifies this`data, this`connections, this`pushEpoch, this`overlay
      ensures Valid() && overlay == None
      ensures r.Drift? <==> !Fitting(primaryKey, old(data), EditRow(row, oldRow))
      ensures r.Drift? ==> State() == old(State())
      ensures r.Delivered? ==>
                var conns, between := old(connections), Written(primaryKey, old(data), RemoveRow(oldRow));
                && data == Written(primaryKey, old(data), EditRow(row, oldRow))
                && pushEpoch == old(pushEpoch) + 2 && connections == ToldConns(conns, pushEpoch)
                && r.deliveries == DeliveriesOf(atOnce, conns, old(data), between, Remove(Leaf(oldRow)))
                                   + DeliveriesOf(atOnce, conns, between, data, Add(Leaf(row)))
    {
      hide Deliveries, ParallelDeliveries, Table, Completes;
      ghost var was := connections;
      if Fitting(primaryKey, data, EditRow(row, oldRow)) { SplitFits(primaryKey, data, row, oldRow); }
      var a := GenPushAndWrite(RemoveRow(oldRow), atOnce);
      if a.Drift? { return Drift; }
      ghost var told, between := connections, data;
      var b := GenPushAndWrite(AddRow(row), atOnce);
      if b.Drift? { return Drift; }
      ToldTwice(was, pushEpoch - 1, pushEpoch);
      SameDeliveries(was, told, between, data, Add(Leaf(row)), |was|, |was|);
      return Delivered(a.deliveries + b.deliveries);
    }

    method SetParallel(enabled: bool, threshold: Option<nat>)
      modifies this`parallel, this`parallelThreshold
      ensures parallel == enabled && parallelThreshold == if threshold.Some?
              && threshold.value > 0 then threshold.value else 2
    {
      parallel, parallelThreshold := enabled, 2;
      if threshold.Some? && threshold.value > 0 { parallelThreshold := threshold.value; }
    }

    /** The state after the push and what is sent do not depend on the mode; what can be seen at a
        delivery does. */
    method Push(change: SourceChange) returns (r: PushResult)
      requires Valid() && overlay == None && Truthful(primaryKey, data, change)
      modifies this`data, this`connections, this`pushEpoch, this`overlay
      ensures Valid() && (r.Drift? <==> !Fitting(primaryKey, old(data), change))
      ensures State() == PushedState(primaryKey, old(State()), change)
      ensures r.Delivered? ==>
                var conns := old(connections);
                && Sent(r.deliveries) == Sent(PushedDeliveries(false, primaryKey, conns, old(data), change))
                && r.deliveries == PushedDeliveries(parallel
                                                    && |conns| >= parallelThreshold, primaryKey, conns, old(data),
                                                      change)
    {
      hide PushedDeliveries, PushedState, Table, Completes, Truthful, Fitting;
      SamePushed(primaryKey, connections, data, change);
      if parallel && |connections| >= parallelThreshold {
        r := GenPushAndWriteWithSplitEdit(change, true);
      } else {
        r := GenPushAndWriteWithSplitEdit(change, false);
      }
    }

    /** The deliveries do not depend on the epochs that the connections have been told. */
    lemma {:induction false} SameDeliveries(a: seq<Connection>, b: seq<Connection>, rows: seq<Row>, after: seq<Row>,
                                            ch: Change, n: nat, all: nat)
      requires n <= all == |a| == |b|
               && forall j | 0 <= j < |a| :: b[j] == a[j].(lastPushedEpoch := b[j].lastPushedEpoch)
      ensures Deliveries(a, rows, after, ch, n) == Deliveries(b, rows, after, ch, n)
      ensures ParallelDeliveries(a, rows, after, ch, n) == ParallelDeliveries(b, rows, after, ch, n)
    {
      if n > 0 {
        SameDeliveries(a, b, rows, after, ch, n - 1, all);
        assert SeenBy(a, rows, after, n) == SeenBy(b, rows, after, n)
          && SeenBy(a, rows, after, all) == SeenBy(b, rows, after, all);
      }
    }
  }
}
