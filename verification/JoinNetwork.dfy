/**
  Two sources, a join of them and a limit on top, as objects, run as the engine runs them: what comes out is what
  the pipeline of the same shape emits.
 */
module JoinNetwork {
  import opened Values
  import opened Views
  import opened JoinUtils
  import opened SourceRules
  import opened Source
  import opened TakeRules
  import opened TakeUnion
  import opened Take
  import opened JoinSpec
  import opened Join
  import opened Pipeline
  import opened Hydration
  import opened Parallel
  import opened Network

  /** The pipeline that the objects are. */
  function Shape(limit: nat, j: Correlation): Pipe {
    Unary(Limit(limit, []), JoinOf(Input(0), Input(1), j))
  }

  /** The limit sits on the join, and its one partition is hydrated. */
  ghost predicate Stacked(join: JoinOperator, take: TakeOperator)
    reads join, take
  {
    && join.Valid() && join.inprogressChildChange == None
    && join.parentSchema.rels == join.childSchema.rels == map[]
    && take.schema == join.Out() && take.partitionKey == [] && [] in take.states
    && take.input == Joined(join.corr, join.parent, join.child) && take.Tracks(take.input)
  }

  lemma ShapeCloses(limit: nat, j: Correlation)
    requires |j.parentKey| == |j.childKey|
    ensures Closed(Shape(limit, j), 2)
  {
    assert Closed(Input(0), 2) && Closed(Input(1), 2) && Closed(SelfJoin(j), 2);
  }

  /** What comes out of the pipeline when end `k`, the parents' (0) or the children's (1), hands on `ch`. */
  ghost function Sent(limit: nat, j: Correlation, parent: Schema, child: Schema, parents: seq<Node>,
                      children: seq<Node>, k: nat, ch: Change): seq<Change>
    requires |j.parentKey| == |j.childKey|
  {
    ShapeCloses(limit, j);
    Emit(Shape(limit, j), [parent, child], [parents, children], k, ch)
  }

  /** With the one partition hydrated, the Take sends what the pipeline's limit does. */
  lemma {:induction false} OnePartition(sch: Schema, limit: nat, hydrated: iset<PartitionKey>, s: seq<Node>,
                                        chs: seq<Change>, t: seq<Node>)
    requires TotalOrder(sch.cmp) && Sorted(sch.cmp, s) && Carries(sch, s, chs, t) && [] in hydrated
    ensures HydratedSteps(sch, limit, [], hydrated, s, chs) == OpSteps(sch, Limit(limit, []), s, chs)
    decreases |chs|
  {
    hide Legal, Apply, Sorted, TotalOrder, TakeStep;
    if chs != [] {
      assert KeyOf([], chs[0].node.row) == [] && KeepsPartition([], chs[0]);
      SameTakeStep(sch, limit, [], hydrated, s, chs[0]);
      ApplyFacts(sch, s, chs[0]);
      OnePartition(sch, limit, hydrated, Apply(sch, s, chs[0]), chs[1..], t);
    }
  }

  /** One change of the list at one end of the join. */
  lemma ShapeEmits(limit: nat, j: Correlation, parent: Schema, child: Schema, parents: seq<Node>, children: seq<Node>,
                   ch: Change)
    requires |j.parentKey| == |j.childKey|
    ensures var out, v, op := JoinSchema(j, parent, child), Joined(j, parents, children), Limit(limit, []);
            && Sent(limit, j, parent, child, parents, children, 0, ch)
              == OpSteps(out, op, v, [ParentStep(j, children, ch)])
            && Sent(limit, j, parent, child, parents, children, 1, ch)
              == OpSteps(out, op, v, ChildStep(j, parents, Apply(child, children, ch), ch))
  {
    hide OpSteps, ChildStep, ParentStep, Apply;
    var S, T := [parent, child], [parents, children];
    ShapeCloses(limit, j);
    JoinedPair(j, S, T, ch);
    assert View(Input(0), S, T) == parents && View(Input(1), S, T) == children;
    assert View(SelfJoin(j), S, T) == Joined(j, parents, children)
      && PipeSchema(SelfJoin(j), S) == JoinSchema(j, parent, child);
    assert Shape(limit, j) == Unary(Limit(limit, []), SelfJoin(j));
  }

  /** The change leads from what the parents' end showed to `seen`. */
  ghost predicate ParentsBecome(join: JoinOperator, change: Change, seen: seq<Node>)
    reads join
  {
    Legal(join.parentSchema, join.parent, change) && seen == Apply(join.parentSchema, join.parent, change)
      && KeepsKey(join.corr.parentKey, change)
  }

  ghost predicate ChildrenBecome(join: JoinOperator, change: Change, seen: seq<Node>)
    reads join
  {
    Legal(join.childSchema, join.child, change) && seen == Apply(join.childSchema, join.child, change)
      && KeepsKey(join.corr.childKey, change)
  }

  /** The parents change: the join sends its one change, and the Take what it makes of it. */
  method TellParents(join: JoinOperator, take: TakeOperator, change: Change, seen: seq<Node>) returns (out: seq<Change>)
    requires Stacked(join, take) && ParentsBecome(join, change, seen)
    modifies join, take
    ensures Stacked(join, take) && join.parent == seen && join.child == old(join.child)
    ensures take.Hydrated() == old(take.Hydrated())
    ensures out == Sent(take.limit, join.corr, join.parentSchema, join.childSchema, old(join.parent), old(join.child),
                        0, change)
    ensures Carries(take.schema, Shown(take.limit, [], take.Hydrated(), old(take.input)), out,
                    Shown(take.limit, [], take.Hydrated(), take.input))
  {
    hide Legal, Apply, KeepsKey, Sorted, TotalOrder, Traced, Joined, Carries, HydratedSteps, OpSteps, ParentStep,
         Sent, Shown, Consistent;
    ghost var was := join.parent;
    ShapeEmits(take.limit, join.corr, join.parentSchema, join.childSchema, was, join.child, change);
    ApplyFacts(join.parentSchema, was, change);
    join.parent := seen;
    var r := join.PushParent(change, was);
    if r.None? { assert false; }
    out := PassOn(take, r.value, Joined(join.corr, join.parent, join.child));
  }

  /** The children change: the join sends one change for each of their parents. */
  method TellChildren(join: JoinOperator, take: TakeOperator, change: Change, seen: seq<Node>)
    returns (out: seq<Change>)
    requires Stacked(join, take) && ChildrenBecome(join, change, seen)
    modifies join, take
    ensures Stacked(join, take) && join.child == seen && join.parent == old(join.parent)
    ensures take.Hydrated() == old(take.Hydrated())
    ensures out == Sent(take.limit, join.corr, join.parentSchema, join.childSchema, old(join.parent), old(join.child),
                        1, change)
    ensures Carries(take.schema, Shown(take.limit, [], take.Hydrated(), old(take.input)), out,
                    Shown(take.limit, [], take.Hydrated(), take.input))
  {
    hide Legal, Apply, KeepsKey, Sorted, TotalOrder, Traced, Joined, Carries, HydratedSteps, OpSteps, ChildStep, Sent,
         Shown, Consistent;
    ghost var was := join.child;
    ShapeEmits(take.limit, join.corr, join.parentSchema, join.childSchema, join.parent, was, change);
    ApplyFacts(join.childSchema, was, change);
    join.child := seen;
    var r := join.PushChild(change, was);
    if r.None? { assert false; }
    out := PassOn(take, r.value, Joined(join.corr, join.parent, join.child));
  }

  /** The Take behind the join. */
  method PassOn(take: TakeOperator, es: seq<Emission>, ghost end: seq<Node>) returns (out: seq<Change>)
    requires take.Tracks(take.input) && Traced(take.schema, take.input, es, end) && take.partitionKey == []
             && [] in take.states
    modifies take
    ensures take.input == end && take.Tracks(end) && [] in take.states
    ensures take.Hydrated() == old(take.Hydrated())
    ensures out == OpSteps(take.schema, Limit(take.limit, []), old(take.input), Changes(es))
    ensures Carries(take.schema, Shown(take.limit, [], take.Hydrated(), old(take.input)), out,
                    Shown(take.limit, [], take.Hydrated(), end))
  {
    hide Legal, Apply, Sorted, TotalOrder, Carries, HydratedSteps, OpSteps, Shown, Traced;
    ghost var H := take.Hydrated();
    take.TracksFacts(take.input);
    TracedCarries(take.schema, take.input, es, end);
    OnePartition(take.schema, take.limit, H, take.input, Changes(es), end);
    forall e | e in es ensures KeepsPartition([], e.change) {
      OneKey(e.change);
    }
    out := TakeAll(take, es, end);
    assert [] in H;
  }

  lemma OneKey(ch: Change)
    ensures KeepsPartition([], ch)
  {
  }

  // ----- behind the sources

  /** The only connection of the source shows the list, and has the key's edits split. */
  ghost predicate FeedsInto(source: MemorySource, list: seq<Node>, sch: Schema, key: Key)
    reads source
  {
    && source.Valid() && source.overlay == None && |source.connections| == 1
    && var conn := source.connections[0];
    && conn.wired && sch == ConnSchema(conn) && Columns(key) <= conn.splitEditKeys
      && list == ConnView(conn, source.data)
  }

  /** What the source pushes to its connection, with what the connection shows then. */
  ghost function DeliveredSteps(primaryKey: Key, conn: Connection, rows: seq<Row>,
                                change: SourceChange): seq<Emission> {
    var ds := PushedDeliveries(false, primaryKey, [conn], rows, change);
    if forall i | 0 <= i < |ds| :: |ds[i].seen| == 1 then Steps(ds) else []
  }

  /** What comes out of the pipeline for one change after the other. */
  ghost function SentAll(limit: nat, j: Correlation, parent: Schema, child: Schema, parents: seq<Node>,
                         children: seq<Node>, k: nat, es: seq<Emission>): seq<Change>
    requires |j.parentKey| == |j.childKey|
    decreases |es|
  {
    if es == [] then []
    else
      Sent(limit, j, parent, child, parents, children, k, es[0].change)
      + SentAll(limit, j, parent, child, if k == 0 then es[0].view else parents, if k == 0 then children
                else es[0].view, k, es[1..])
  }

  /** A change of the table of the parents, split or not. */
  method PushParents(source: MemorySource, join: JoinOperator, take: TakeOperator, change: SourceChange)
    returns (drift: bool, out: seq<Change>)
    requires Stacked(join, take) && FeedsInto(source, join.parent, join.parentSchema, join.corr.parentKey)
    requires Truthful(source.primaryKey, source.data, change)
    modifies source`data, source`connections, source`pushEpoch, source`overlay, join, take
    ensures Stacked(join, take) && FeedsInto(source, join.parent, join.parentSchema, join.corr.parentKey)
    ensures join.child == old(join.child) && take.Hydrated() == old(take.Hydrated())
    ensures drift <==> !Fitting(source.primaryKey, old(source.data), change)
    ensures drift ==> out == [] && source.State() == old(source.State()) && take.input == old(take.input)
    ensures !drift ==> source.data == Written(source.primaryKey, old(source.data), change)
    ensures !drift ==>
              out == SentAll(take.limit, join.corr, join.parentSchema, join.childSchema, old(join.parent),
                             old(join.child), 0,
                                      DeliveredSteps(source.primaryKey, old(source.connections[0]), old(source.data),
                                                     change))
    ensures !drift ==> Carries(take.schema, Shown(take.limit, [], take.Hydrated(), old(take.input)), out,
                               Shown(take.limit, [], take.Hydrated(), take.input))
  {
    hide Fitting, Written, ConnView, Completes, Table, Truthful, PushedDeliveries, Carries, Shown, SentAll, KeepsKey,
         Joined, Legal, Apply,
         Sorted, TotalOrder, Good, Consistent, Traced, StateOk, CoveredBy, NoNulls;
    ghost var conn, rows := source.connections[0], source.data;
    assert source.connections == [conn];
    var r := source.GenPushAndWriteWithSplitEdit(change, false);
    if r.Drift? { return true, []; }
    AnyChange(source.primaryKey, conn, rows, change);
    SameView(source.connections[0], conn, source.data);
    StepsKeep(conn, r.deliveries, join.corr.parentKey);
    out := TellParentsAll(join, take, Steps(r.deliveries), ConnView(conn, source.data));
    drift := false;
  }

  method TellParentsAll(join: JoinOperator, take: TakeOperator, es: seq<Emission>, ghost end: seq<Node>)
    returns (out: seq<Change>)
    requires Stacked(join, take) && Traced(join.parentSchema, join.parent, es, end)
    requires forall e | e in es :: KeepsKey(join.corr.parentKey, e.change)
    modifies join, take
    ensures Stacked(join, take) && join.parent == end && join.child == old(join.child)
            && take.Hydrated() == old(take.Hydrated())
    ensures out == SentAll(take.limit, join.corr, join.parentSchema, join.childSchema, old(join.parent),
                           old(join.child), 0, es)
    ensures Carries(take.schema, Shown(take.limit, [], take.Hydrated(), old(take.input)), out,
                    Shown(take.limit, [], take.Hydrated(), take.input))
    decreases |es|
  {
    hide Legal, Apply, KeepsKey, Sorted, TotalOrder, Carries, Shown, Sent, Joined, Consistent;
    if |es| == 0 {
      CarriesNone(take.schema, Shown(take.limit, [], take.Hydrated(), take.input));
      return [];
    }
    ghost var first := take.input;
    var some := TellParents(join, take, es[0].change, es[0].view);
    ghost var mid := take.input;
    var rest := TellParentsAll(join, take, es[1..], end);
    CarriesConcat(take.schema, Shown(take.limit, [], take.Hydrated(), first), some,
                  Shown(take.limit, [], take.Hydrated(), mid),
                  rest, Shown(take.limit, [], take.Hydrated(), take.input));
    return some + rest;
  }

  /** A change of the table of the childs, split or not. */
  method PushChildren(source: MemorySource, join: JoinOperator, take: TakeOperator, change: SourceChange)
    returns (drift: bool, out: seq<Change>)
    requires Stacked(join, take) && FeedsInto(source, join.child, join.childSchema, join.corr.childKey)
    requires Truthful(source.primaryKey, source.data, change)
    modifies source`data, source`connections, source`pushEpoch, source`overlay, join, take
    ensures Stacked(join, take) && FeedsInto(source, join.child, join.childSchema, join.corr.childKey)
    ensures join.parent == old(join.parent) && take.Hydrated() == old(take.Hydrated())
    ensures drift <==> !Fitting(source.primaryKey, old(source.data), change)
    ensures drift ==> out == [] && source.State() == old(source.State()) && take.input == old(take.input)
    ensures !drift ==> source.data == Written(source.primaryKey, old(source.data), change)
    ensures !drift ==>
              out == SentAll(take.limit, join.corr, join.parentSchema, join.childSchema, old(join.parent),
                             old(join.child), 1,
                                      DeliveredSteps(source.primaryKey, old(source.connections[0]), old(source.data),
                                                     change))
    ensures !drift ==> Carries(take.schema, Shown(take.limit, [], take.Hydrated(), old(take.input)), out,
                               Shown(take.limit, [], take.Hydrated(), take.input))
  {
    hide Fitting, Written, ConnView, Completes, Table, Truthful, PushedDeliveries, Carries, Shown, SentAll, KeepsKey,
         Joined, Legal, Apply,
         Sorted, TotalOrder, Good, Consistent, Traced, StateOk, CoveredBy, NoNulls;
    ghost var conn, rows := source.connections[0], source.data;
    assert source.connections == [conn];
    var r := source.GenPushAndWriteWithSplitEdit(change, false);
    if r.Drift? { return true, []; }
    AnyChange(source.primaryKey, conn, rows, change);
    SameView(source.connections[0], conn, source.data);
    StepsKeep(conn, r.deliveries, join.corr.childKey);
    out := TellChildrenAll(join, take, Steps(r.deliveries), ConnView(conn, source.data));
    drift := false;
  }

  method TellChildrenAll(join: JoinOperator, take: TakeOperator, es: seq<Emission>, ghost end: seq<Node>)
    returns (out: seq<Change>)
    requires Stacked(join, take) && Traced(join.childSchema, join.child, es, end)
    requires forall e | e in es :: KeepsKey(join.corr.childKey, e.change)
    modifies join, take
    ensures Stacked(join, take) && join.child == end && join.parent == old(join.parent)
            && take.Hydrated() == old(take.Hydrated())
    ensures out == SentAll(take.limit, join.corr, join.parentSchema, join.childSchema, old(join.parent),
                           old(join.child), 1, es)
    ensures Carries(take.schema, Shown(take.limit, [], take.Hydrated(), old(take.input)), out,
                    Shown(take.limit, [], take.Hydrated(), take.input))
    decreases |es|
  {
    hide Legal, Apply, KeepsKey, Sorted, TotalOrder, Carries, Shown, Sent, Joined, Consistent;
    if |es| == 0 {
      CarriesNone(take.schema, Shown(take.limit, [], take.Hydrated(), take.input));
      return [];
    }
    ghost var first := take.input;
    var some := TellChildren(join, take, es[0].change, es[0].view);
    ghost var mid := take.input;
    var rest := TellChildrenAll(join, take, es[1..], end);
    CarriesConcat(take.schema, Shown(take.limit, [], take.Hydrated(), first), some,
                  Shown(take.limit, [], take.Hydrated(), mid),
                  rest, Shown(take.limit, [], take.Hydrated(), take.input));
    return some + rest;
  }
}
