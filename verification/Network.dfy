/** A small network of operators, run as the engine runs it: a source, one connection, and a Take behind it. */
module Network {
  import opened Values
  import opened Seqs
  import opened Views
  import opened JoinUtils
  import opened SourceRules
  import opened Source
  import opened TakeUnion
  import opened Take
  import opened JoinSpec
  import opened Hydration
  import opened Pipeline
  import opened Database

  /** The Take sits behind the only connection of the source, and between pushes its input shows what the
      connection does. */
  ghost predicate Behind(source: MemorySource, take: TakeOperator)
    reads source, take
  {
    && source.Valid() && source.overlay == None && |source.connections| == 1
    && var conn := source.connections[0];
    && conn.wired && take.schema == ConnSchema(conn) && Columns(take.partitionKey) <= conn.splitEditKeys
    && take.input == ConnView(conn, source.data) && take.Tracks(take.input)
  }

  /** What the deliveries to the only connection are, each with what the connection shows then. */
  function Steps(ds: seq<Delivery>): seq<Emission>
    requires forall i | 0 <= i < |ds| :: |ds[i].seen| == 1
  {
    seq(|ds|, i requires 0 <= i < |ds| => Emission(ds[i].change, ds[i].seen[0]))
  }

  ghost predicate StepsFit(conn: Connection, s: seq<Node>, ds: seq<Delivery>, t: seq<Node>) {
    && (forall i | 0 <= i < |ds| :: |ds[i].seen| == 1 && Good({}, conn.splitEditKeys, ds[i].change))
    && Traced(ConnSchema(conn), s, Steps(ds), t)
  }

  /** One unsplit change. */
  lemma OneChange(primaryKey: Key, conn: Connection, rows: seq<Row>, sc: SourceChange)
    requires Table(primaryKey, rows) && Fitting(primaryKey, rows, sc) && Completes(conn.sort, primaryKey) && conn.wired
    requires sc.EditRow? ==> !SplitsOn(conn.splitEditKeys, sc.row, sc.oldRow)
    ensures var after := Written(primaryKey, rows, sc);
            StepsFit(conn, ConnView(conn, rows), DeliveriesOf(false, [conn], rows, after, ToChange(sc)),
                     ConnView(conn, after))
  {
    hide Fitting, Written, ConnView, Good, Legal, Apply, Completes, Table, SourceGate, ToChange;
    var after := Written(primaryKey, rows, sc);
    var out := SourceGate(conn.filter, ToChange(sc));
    ConnCarries(primaryKey, rows, sc, conn);
    GateIsGood(conn.splitEditKeys, conn.filter, sc);
    var ds := DeliveriesOf(false, [conn], rows, after, ToChange(sc));
    assert Deliveries([conn], rows, after, ToChange(sc), 0) == [];
    if out.Some? {
      assert SeenBy([conn], rows, after, 1) == [ConnView(conn, after)];
      assert ds == [Delivery(0, out.value, [ConnView(conn, after)])];
      assert Steps(ds) == [Emission(out.value, ConnView(conn, after))] && Steps(ds)[1..] == [];
      TracedOne(ConnSchema(conn), ConnView(conn, rows), Emission(out.value, ConnView(conn, after)),
                ConnView(conn, after));
    }
  }

  lemma {:induction false} TracedConcat(sch: Schema, s: seq<Node>, a: seq<Emission>, t: seq<Node>, b: seq<Emission>,
                                        u: seq<Node>)
    requires Traced(sch, s, a, t) && Traced(sch, t, b, u)
    ensures Traced(sch, s, a + b, u)
    decreases |a|
  {
    hide Legal, Apply;
    if a == [] {
      assert a + b == b;
    } else {
      ConcatSplit(a, b);
      TracedConcat(sch, a[0].view, a[1..], t, b, u);
    }
  }

  /** A change, split or not. */
  lemma AnyChange(primaryKey: Key, conn: Connection, rows: seq<Row>, sc: SourceChange)
    requires Table(primaryKey, rows) && Fitting(primaryKey, rows, sc) && Completes(conn.sort, primaryKey) && conn.wired
    ensures StepsFit(conn, ConnView(conn, rows), PushedDeliveries(false, primaryKey, [conn], rows, sc),
                     ConnView(conn, Written(primaryKey, rows, sc)))
  {
    hide Fitting, Written, ConnView, Good, Completes, Table, SplitsOn, DeliveriesOf, Traced;
    if sc.EditRow? && ShouldSplit([conn], sc.row, sc.oldRow) {
      var between, after := Written(primaryKey, rows, RemoveRow(sc.oldRow)), Written(primaryKey, rows, sc);
      SplitFits(primaryKey, rows, sc.row, sc.oldRow);
      WrittenBecomes(primaryKey, rows, RemoveRow(sc.oldRow));
      OneChange(primaryKey, conn, rows, RemoveRow(sc.oldRow));
      OneChange(primaryKey, conn, between, AddRow(sc.row));
      var a, b := DeliveriesOf(false, [conn], rows, between, Remove(Leaf(sc.oldRow))),
        DeliveriesOf(false, [conn], between, after, Add(Leaf(sc.row)));
      TracedConcat(ConnSchema(conn), ConnView(conn, rows), Steps(a), ConnView(conn, between), Steps(b),
                   ConnView(conn, after));
      assert Steps(a + b) == Steps(a) + Steps(b);
    } else {
      if sc.EditRow? { assert ShouldSplit([conn], sc.row, sc.oldRow) <==>
                      SplitsOn([conn][0].splitEditKeys, sc.row, sc.oldRow); }
      OneChange(primaryKey, conn, rows, sc);
    }
  }

  /** A source change through both: the Take's state stays right, and what it sends carries the ordered union
      of its windows from the old table to the new one. */
  method PushThrough(source: MemorySource, take: TakeOperator, change: SourceChange)
    returns (drift: bool, out: seq<Change>)
    requires Behind(source, take) && Truthful(source.primaryKey, source.data, change)
    modifies source`data, source`connections, source`pushEpoch, source`overlay, take
    ensures Behind(source, take) && take.Hydrated() == old(take.Hydrated())
    ensures drift <==> !Fitting(source.primaryKey, old(source.data), change)
    ensures drift ==> out == [] && source.State() == old(source.State()) && take.input == old(take.input)
    ensures !drift ==> source.data == Written(source.primaryKey, old(source.data), change)
    ensures !drift ==> Carries(take.schema, Shown(take.limit, take.partitionKey, take.Hydrated(), old(take.input)), out,
                               Shown(take.limit, take.partitionKey, take.Hydrated(), take.input))
  {
    hide Fitting, Written, ConnView, Completes, Table, Truthful, PushedDeliveries, Carries, Shown;
    ghost var conn, rows := source.connections[0], source.data;
    assert source.connections == [conn];
    var r := source.GenPushAndWriteWithSplitEdit(change, false);
    if r.Drift? { return true, []; }
    AnyChange(source.primaryKey, conn, rows, change);
    SameView(source.connections[0], conn, source.data);
    StepsKeep(conn, r.deliveries, take.partitionKey);
    out := TakeAll(take, Steps(r.deliveries), ConnView(conn, source.data));
    drift := false;
  }

  lemma StepsKeep(conn: Connection, ds: seq<Delivery>, key: Key)
    requires (forall i | 0 <= i < |ds| :: |ds[i].seen| == 1 && Good({}, conn.splitEditKeys, ds[i].change))
             && Columns(key) <= conn.splitEditKeys
    ensures forall e | e in Steps(ds) :: KeepsPartition(key, e.change) && KeepsKey(key, e.change)
  {
    hide Good;
    forall i | 0 <= i < |ds| ensures KeepsPartition(key, ds[i].change) && KeepsKey(key, ds[i].change) {
      GoodKeepsKey({}, conn.splitEditKeys, key, ds[i].change);
    }
  }

  /** The Take is told of one change of its input after the other. */
  method TakeAll(take: TakeOperator, es: seq<Emission>, ghost end: seq<Node>) returns (out: seq<Change>)
    requires take.Tracks(take.input) && Traced(take.schema, take.input, es, end)
    requires forall e | e in es :: KeepsPartition(take.partitionKey, e.change)
    modifies take
    ensures take.input == end && take.Tracks(end) && take.Hydrated() == old(take.Hydrated())
    ensures out == HydratedSteps(take.schema, take.limit, take.partitionKey, take.Hydrated(), old(take.input),
                                 Changes(es))
    ensures Carries(take.schema, Shown(take.limit, take.partitionKey, take.Hydrated(), old(take.input)), out,
                    Shown(take.limit, take.partitionKey, take.Hydrated(), end))
  {
    hide Legal, Apply, Shown, Carries, Sorted, TotalOrder, KeepsPartition, TakeStep;
    out := [];
    ghost var H, key, start := take.Hydrated(), take.partitionKey, take.input;
    ghost var first := Shown(take.limit, key, H, take.input);
    CarriesNone(take.schema, first);
    assert Changes(es)[0..] == Changes(es);
    for i := 0 to |es|
      invariant take.Tracks(take.input) && take.Hydrated() == H
      invariant Traced(take.schema, take.input, es[i..], end)
      invariant Carries(take.schema, first, out, Shown(take.limit, key, H, take.input))
      invariant out + HydratedSteps(take.schema, take.limit, key, H, take.input, Changes(es)[i..])
                == HydratedSteps(take.schema, take.limit, key, H, start, Changes(es))
    {
      ghost var before := take.input;
      assert es[i..][0] == es[i] && es[i..][1..] == es[i + 1..];
      assert Changes(es)[i..][0] == es[i].change && Changes(es)[i..][1..] == Changes(es)[i + 1..];
      take.TracksFacts(before);
      var some := TakeOne(take, es[i].change, es[i].view);
      CarriesConcat(take.schema, first, out, Shown(take.limit, key, H, before), some,
                    Shown(take.limit, key, H, take.input));
      out := out + some;
    }
  }

  method TakeOne(take: TakeOperator, change: Change, seen: seq<Node>) returns (out: seq<Change>)
    requires take.Tracks(take.input) && Legal(take.schema, take.input, change)
             && seen == Apply(take.schema, take.input, change)
    requires KeepsPartition(take.partitionKey, change) && TotalOrder(take.schema.cmp)
             && Sorted(take.schema.cmp, take.input)
    modifies take
    ensures take.input == seen && take.Tracks(seen) && take.Hydrated() == old(take.Hydrated())
    ensures out == TakeStep(take.schema, take.limit, take.partitionKey, take.Hydrated(), old(take.input), change)
    ensures Carries(take.schema, Shown(take.limit, take.partitionKey, take.Hydrated(), old(take.input)), out,
                    Shown(take.limit, take.partitionKey, take.Hydrated(), seen))
  {
    hide Legal, Apply, Shown, Carries, Traced, TakeStep, KeepsPartition;
    ghost var before := take.input;
    take.input := seen;
    var es := take.Push(change, before);
    out := seq(|es|, k requires 0 <= k < |es| => es[k].change);
    assert out == Changes(es);
  }
}
