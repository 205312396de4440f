/** Pushing one source change to all connections at once (ivm/parallel.go). */
module Parallel {
  import opened Values
  import opened Seqs
  import opened Views
  import opened JoinUtils
  import opened FilterChain
  import opened Fetching
  import opened SourceRules
  import opened JoinSpec
  import opened Simultaneous
  import opened Pipeline
  import opened SidesAtOnce
  import opened Database

  /** What connection `i` sees of the others in a parallel push: every other connection of the table
      has been told before any work begins. */
  function ParallelWorld(feeds: seq<Feed>, db: Tables, table: string, after: seq<Row>, i: nat): (T: World)
    requires forall k | 0 <= k < |feeds| :: feeds[k].table in db
    ensures |T| == |feeds|
  {
    seq(|feeds|, k requires 0 <= k < |feeds| =>
      ConnView(feeds[k].conn, if feeds[k].table == table && k != i then after else db[feeds[k].table]))
  }

  /** The work of the goroutine of connection `i`: `p` is the pipeline that opened it. */
  ghost function ParallelWork(p: Pipe, feeds: seq<Feed>, db: Tables, table: string, after: seq<Row>, ch: Change,
                              i: nat): seq<Change>
    requires Closed(p, |feeds|) && i < |feeds| && forall k | 0 <= k < |feeds| :: feeds[k].table in db
  {
    if feeds[i].table != table || i !in Conns(p) then []
    else match SourceGate(feeds[i].conn.filter, ch)
      case None => []
      case Some(c) => Emit(p, Schemas(feeds), ParallelWorld(feeds, db, table, after, i), i, c)
  }

  /** The pipeline reads the table through connection `i` only. */
  ghost predicate ReadsOnlyThrough(p: Pipe, feeds: seq<Feed>, table: string, i: nat) {
    forall k | k in Conns(p) && k < |feeds| && feeds[k].table == table :: k == i
  }

  /** A pipeline that reads the table through one connection does the same work in a parallel push
      as in a sequential one. */
  lemma {:induction false} SameWork(p: Pipe, feeds: seq<Feed>, db: Tables, table: string, after: seq<Row>, ch: Change,
                                    i: nat)
    requires Closed(p, |feeds|) && i < |feeds| && forall k | 0 <= k < |feeds| :: feeds[k].table in db
    requires ReadsOnlyThrough(p, feeds, table, i)
    ensures ParallelWork(p, feeds, db, table, after, ch, i) == Told(p, feeds, db, table, after, ch, i)
  {
    hide ConnView, Emit, SourceGate, View, Closed;
    if feeds[i].table == table && i in Conns(p) && SourceGate(feeds[i].conn.filter, ch).Some? {
      EmitIsLocal(p, Schemas(feeds), ParallelWorld(feeds, db, table, after, i), WorldAt(feeds, db, table, after, i), i,
                  SourceGate(feeds[i].conn.filter, ch).value);
    }
  }

  // ----- interleavings

  /** Each goroutine writes its own slot; `schedule` is the order in which they finish. */
  function Finish(work: seq<seq<Change>>, slots: seq<Option<seq<Change>>>, schedule: seq<nat>): seq<Option<seq<Change>>>
    requires |slots| == |work| && forall i | 0 <= i < |schedule| :: schedule[i] < |work|
    decreases |schedule|
  {
    if schedule == [] then slots
    else Finish(work, slots[schedule[0] := Some(work[schedule[0]])], schedule[1..])
  }

  lemma {:induction false} FinishedSlots(work: seq<seq<Change>>, slots: seq<Option<seq<Change>>>, schedule: seq<nat>)
    requires |slots| == |work| && forall i | 0 <= i < |schedule| :: schedule[i] < |work|
    ensures |Finish(work, slots, schedule)| == |work|
    ensures forall i | 0 <= i < |work| ::
              Finish(work, slots, schedule)[i] == if i in schedule then Some(work[i]) else slots[i]
    decreases |schedule|
  {
    if schedule != [] {
      HeadTail(schedule);
      FinishedSlots(work, slots[schedule[0] := Some(work[schedule[0]])], schedule[1..]);
    }
  }

  /** After all goroutines are done the slots are read in connection order. */
  function Ordered(slots: seq<Option<seq<Change>>>): seq<Change> {
    if slots == [] then [] else Ordered(slots[..|slots| - 1]) + slots[|slots| - 1].GetOr([])
  }

  /** What a sequential push returns: the work of the connections one after the other. */
  function InTurn(work: seq<seq<Change>>): seq<Change> {
    if work == [] then [] else InTurn(work[..|work| - 1]) + work[|work| - 1]
  }

  lemma {:induction false} OrderedIsInTurn(work: seq<seq<Change>>, slots: seq<Option<seq<Change>>>)
    requires |slots| == |work| && forall i | 0 <= i < |work| :: slots[i] == Some(work[i])
    ensures Ordered(slots) == InTurn(work)
  {
    if work != [] { OrderedIsInTurn(work[..|work| - 1], slots[..|work| - 1]); }
  }

  /** Work done for all connections in a push, by the pipelines that own them. */
  ghost function AllWork(owners: seq<Pipe>, feeds: seq<Feed>, db: Tables, table: string, after: seq<Row>,
                         ch: Change): seq<seq<Change>>
    requires |owners| == |feeds| && (forall i | 0 <= i < |owners| :: Closed(owners[i], |feeds|))
             && forall k | 0 <= k < |feeds| :: feeds[k].table in db
  {
    seq(|owners|, i requires 0 <= i < |owners| => Told(owners[i], feeds, db, table, after, ch, i))
  }

  ghost function AllParallelWork(owners: seq<Pipe>, feeds: seq<Feed>, db: Tables, table: string, after: seq<Row>,
                                 ch: Change): seq<seq<Change>>
    requires |owners| == |feeds| && (forall i | 0 <= i < |owners| :: Closed(owners[i], |feeds|))
             && forall k | 0 <= k < |feeds| :: feeds[k].table in db
  {
    seq(|owners|, i requires 0 <= i < |owners| => ParallelWork(owners[i], feeds, db, table, after, ch, i))
  }

  /** Parallel push refines sequential push: when every pipeline that is told reads the table through one
      connection, whatever other tables it reads,
        every interleaving of the goroutines returns what the sequential push returns. */
  lemma {:induction false} ParallelIsSequential(owners: seq<Pipe>, feeds: seq<Feed>, db: Tables, table: string,
                                                after: seq<Row>, ch: Change, schedule: seq<nat>)
    requires |owners| == |feeds| && (forall i | 0 <= i < |owners| :: Closed(owners[i], |feeds|))
             && forall k | 0 <= k < |feeds| :: feeds[k].table in db
    requires forall i | 0 <= i < |owners| && feeds[i].table == table :: ReadsOnlyThrough(owners[i], feeds, table, i)
    requires (forall i | 0 <= i < |schedule| :: schedule[i] < |feeds|) && forall i: nat | i < |feeds| :: i in schedule
    ensures var work := AllParallelWork(owners, feeds, db, table, after, ch);
            Ordered(Finish(work, seq(|work|, i => None), schedule))
              == InTurn(AllWork(owners, feeds, db, table, after, ch))
  {
    var work := AllParallelWork(owners, feeds, db, table, after, ch);
    forall i | 0 <= i < |owners| ensures work[i] == AllWork(owners, feeds, db, table, after, ch)[i] {
      if feeds[i].table == table { SameWork(owners[i], feeds, db, table, after, ch, i); }
    }
    assert work == AllWork(owners, feeds, db, table, after, ch);
    FinishedSlots(work, seq(|work|, i => None), schedule);
    OrderedIsInTurn(work, Finish(work, seq(|work|, i => None), schedule));
  }

  // ----- one pipeline

  /** What comes out of one pipeline while the first `n` connections do their work. */
  ghost function ParallelEmits(p: Pipe, feeds: seq<Feed>, db: Tables, table: string, after: seq<Row>, ch: Change,
                               n: nat): seq<Change>
    requires Closed(p, |feeds|) && n <= |feeds| && forall i | 0 <= i < |feeds| :: feeds[i].table in db
  {
    if n == 0 then []
    else ParallelEmits(p, feeds, db, table, after, ch, n - 1) + ParallelWork(p, feeds, db, table, after, ch, n - 1)
  }

  /** The pipeline reads the table through at most one connection. */
  ghost predicate OneReader(p: Pipe, feeds: seq<Feed>, table: string) {
    forall i | i in Conns(p) && i < |feeds| && feeds[i].table == table :: ReadsOnlyThrough(p, feeds, table, i)
  }

  lemma {:induction false} OneReaderEmitsSame(p: Pipe, feeds: seq<Feed>, db: Tables, table: string, after: seq<Row>,
                                              ch: Change, n: nat)
    requires Closed(p, |feeds|) && n <= |feeds| && forall i | 0 <= i < |feeds| :: feeds[i].table in db
    requires OneReader(p, feeds, table)
    ensures ParallelEmits(p, feeds, db, table, after, ch, n) == PushEmits(p, feeds, db, table, after, ch, n)
  {
    hide Emit, View, ConnView, SourceGate, Closed;
    if n > 0 {
      OneReaderEmitsSame(p, feeds, db, table, after, ch, n - 1);
      if n - 1 in Conns(p) && feeds[n - 1].table == table { SameWork(p, feeds, db, table, after, ch, n - 1); }
    }
  }

  /** So a parallel push carries the view of such a pipeline from the old table to the new one. */
  lemma {:induction false} ParallelCarries(p: Pipe, keys: Keys, feeds: seq<Feed>, db: Tables, table: string,
                                           sc: SourceChange)
    requires Sane(keys, feeds, db) && Wired(p, Schemas(feeds), Splits(feeds)) && OneReader(p, feeds, table)
    requires table in db && Fitting(keys[table], db[table], sc) && Unsplit(feeds, table, sc)
    ensures Closed(p, |feeds|) && Sane(keys, feeds, Write(keys, db, table, sc))
    ensures var S, after := Schemas(feeds), Written(keys[table], db[table], sc);
            Carries(PipeSchema(p, S), View(p, S, WorldOf(feeds, db)),
                    ParallelEmits(p, feeds, db, table, after, ToChange(sc), |feeds|),
                    View(p, S, WorldOf(feeds, Write(keys, db, table, sc))))
  {
    hide Carries, View, Wired, Fitting, Written, ConnView, Unsplit, PushEmits, ParallelEmits, OneReader;
    WriteCarries(p, keys, feeds, db, table, sc);
    OneReaderEmitsSame(p, feeds, db, table, Written(keys[table], db[table], sc), ToChange(sc), |feeds|);
  }

  // ----- where it does not hold

  /** A pipeline that joins a table with itself reads it through two connections. When a row that joins
      with itself is added to an empty table, both connections see the row, so it is sent twice: inside
      the new parent, and then as a new child of that parent. The second change is not legal for the
      client, which has that child already. */
  lemma {:induction false} SelfJoinCountsTwice(j: Correlation, S: seq<Schema>, n: Node)
    requires |S| == 2 && TotalOrder(S[0].cmp) && TotalOrder(S[1].cmp) && S[0].rels == S[1].rels == map[] && ValidKeys(j)
    requires IsJoinMatch(n.row, j.parentKey, n.row, j.childKey)
    ensures Closed(SelfJoin(j), |S|)
    ensures var out := JoinSchema(j, S[0], S[1]);
            var first := Emit(SelfJoin(j), S, [[], [n]], 0, Add(n));
            var second := Emit(SelfJoin(j), S, [[n], []], 1, Add(n));
            && |first| == |second| == 1 && Legal(out, [], first[0])
            && !Legal(out, Apply(out, [], first[0]), second[0])
            && forall t: seq<Node> :: !Carries(out, [], first + second, t)
  {
    hide Emit, Legal, Carries, TotalOrder, Consistent, IsJoinMatch, ChildStep, Filtered;
    var out, m := JoinSchema(j, S[0], S[1]), Node(n.row, n.rels[j.rel := [n]]);
    JoinedPair(j, S, [[], [n]], Add(n));
    JoinedPair(j, S, [[n], []], Add(n));
    SelfAttach(j, n);
    SelfChild(j, n, m);
    AddToNone(S[1], n);
    AddToNone(out, m);
    SelfIllegal(j, S, n, m);
    forall t: seq<Node> ensures !Carries(out, [], [Add(m)] + [Child(m, j.rel, Add(n))], t) {
      NotCarried(out, Add(m), Child(m, j.rel, Add(n)), t);
    }
  }

  /** Two connections of one table feed a join, the parents' opened first as the builder does, and what
      their filters pass of the change is `c0` and `c1`. A parallel push sends the parent change that a
      sequential one sends, and carries the view, exactly if the changed rows do not join with each other
      (or the change of the child changes nothing). */
  lemma {:induction false} SelfJoinIff(j: Correlation, S: seq<Schema>, s0: seq<Node>, s1: seq<Node>, c0: Change,
                                       c1: Change)
    requires |S| == 2 && BothChange(j, S[0], S[1], s0, s1, c0, c1)
    ensures Closed(SelfJoin(j), |S|)
    ensures var t0, t1 := Apply(S[0], s0, c0), Apply(S[1], s1, c1);
            var inTurn, atOnce, second := Emit(SelfJoin(j), S, [s0, s1], 0, c0),
              Emit(SelfJoin(j), S, [s0, t1], 0, c0), Emit(SelfJoin(j), S, [t0, s1], 1, c1);
            && (atOnce == inTurn <==> Unrelated(j, c0, c1))
            && (Carries(JoinSchema(j, S[0], S[1]), Joined(j, s0, s1), atOnce + second, Joined(j, t0, t1)) <==>
                Unrelated(j, c0, c1))
  {
    hide Emit, Apply, Legal, Carries, Joined, ParentStep, ChildStep, Unrelated, TotalOrder, Sorted;
    var t0, t1 := Apply(S[0], s0, c0), Apply(S[1], s1, c1);
    JoinedPair(j, S, [s0, s1], c0);
    JoinedPair(j, S, [s0, t1], c0);
    JoinedPair(j, S, [t0, s1], c1);
    SameStepIff(j, S[0], S[1], s0, s1, c0, c1);
    AtOnceIff(j, S[0], S[1], s0, s1, c0, c1);
  }

  /** A change of the table as the two connections of a self-join hand it on: at least one hands on
      nothing, or what they hand on is apart. */
  ghost predicate HandedUnrelated(j: Correlation, feeds: seq<Feed>, ch: Change)
    requires |feeds| == 2 && |j.parentKey| == |j.childKey|
  {
    var a, b := SourceGate(feeds[0].conn.filter, ch), SourceGate(feeds[1].conn.filter, ch);
    a.Some? && b.Some? ==> Unrelated(j, a.value, b.value)
  }

  /** For every table, filters, orderings and change of the table: a parallel push keeps the view of a
      self-join exactly if what the two connections hand on does not join. */
  lemma {:induction false} SelfJoinParallelIff(j: Correlation, keys: Keys, feeds: seq<Feed>, db: Tables,
                                               table: string, sc: SourceChange)
    requires |feeds| == 2 && feeds[0].table == feeds[1].table == table && Sane(keys, feeds, db)
    requires Wired(SelfJoin(j), Schemas(feeds), Splits(feeds))
    requires table in db && Fitting(keys[table], db[table], sc) && Unsplit(feeds, table, sc)
    ensures Closed(SelfJoin(j), |feeds|)
    ensures var p, S, after := SelfJoin(j), Schemas(feeds), Written(keys[table], db[table], sc);
            HandedUnrelated(j, feeds, ToChange(sc)) <==>
            Carries(PipeSchema(p, S), View(p, S, WorldOf(feeds, db)),
                    ParallelEmits(p, feeds, db, table, after, ToChange(sc), 2),
                    View(p, S, WorldOf(feeds, Write(keys, db, table, sc))))
  {
    hide Carries, View, Wired, Fitting, Written, ConnView, Unsplit, Emit, ToChange, SourceGate, Unrelated, PipeSchema,
         Legal, Apply,
         ParallelEmits, PushEmits, WorldOf, Sane, TotalOrder, Sorted, Schemas, Splits, ValidKeys, KeepsKey, Joined,
           JoinSchema, ConnSchema;
    TableIs(keys, feeds, db, table);
    var p, S, after, ch := SelfJoin(j), Schemas(feeds), Written(keys[table], db[table], sc), ToChange(sc);
    var a, b := SourceGate(feeds[0].conn.filter, ch), SourceGate(feeds[1].conn.filter, ch);
    var v0, v1 := ConnView(feeds[0].conn, db[table]), ConnView(feeds[1].conn, db[table]);
    SelfShape(j, keys, feeds, db, table, sc);
    SelfEmits(j, feeds, db, table, after, ch);
    HandedOnce(keys, feeds, db, table, sc, 0, j.parentKey);
    HandedOnce(keys, feeds, db, table, sc, 1, j.childKey);
    if a.Some? && b.Some? {
      SelfJoinIff(j, S, v0, v1, a.value, b.value);
    } else {
      WriteCarries(p, keys, feeds, db, table, sc);
    }
  }

  lemma {:induction false} SelfShape(j: Correlation, keys: Keys, feeds: seq<Feed>, db: Tables, table: string,
                                     sc: SourceChange)
    requires |feeds| == 2 && feeds[0].table == feeds[1].table == table && Sane(keys, feeds, db) && table in db
    requires Wired(SelfJoin(j), Schemas(feeds), Splits(feeds))
    ensures Closed(SelfJoin(j), |feeds|) && Joinable(j, Schemas(feeds)[0], Schemas(feeds)[1])
    ensures Columns(j.parentKey) <= feeds[0].conn.splitEditKeys && Columns(j.childKey) <= feeds[1].conn.splitEditKeys
    ensures Schemas(feeds)[0] == ConnSchema(feeds[0].conn) && Schemas(feeds)[1] == ConnSchema(feeds[1].conn)
    ensures View(SelfJoin(j), Schemas(feeds), WorldOf(feeds, db))
            == Joined(j, ConnView(feeds[0].conn, db[table]), ConnView(feeds[1].conn, db[table]))
    ensures var after := Written(keys[table], db[table], sc);
            View(SelfJoin(j), Schemas(feeds), WorldOf(feeds, Write(keys, db, table, sc)))
              == Joined(j, ConnView(feeds[0].conn, after), ConnView(feeds[1].conn, after))
    ensures PipeSchema(SelfJoin(j), Schemas(feeds)) == JoinSchema(j, Schemas(feeds)[0], Schemas(feeds)[1])
  {
    hide Written, ConnView, CompareBy, Joined;
    assert Closed(Input(0), 2) && Closed(Input(1), 2);
  }

  ghost function Handed(p: Pipe, S: seq<Schema>, T: World, i: nat, out: Option<Change>): seq<Change>
    requires |S| == |T| && Closed(p, |S|)
  {
    if out.None? then [] else Emit(p, S, T, i, out.value)
  }

  /** What a self-join emits in a parallel and in a sequential push. */
  lemma {:induction false} SelfEmits(j: Correlation, feeds: seq<Feed>, db: Tables, table: string, after: seq<Row>,
                                     ch: Change)
    requires |feeds| == 2 && feeds[0].table == feeds[1].table == table && table in db && |j.parentKey| == |j.childKey|
    ensures Closed(SelfJoin(j), |feeds|)
    ensures var p, S := SelfJoin(j), Schemas(feeds);
            var a, b := SourceGate(feeds[0].conn.filter, ch), SourceGate(feeds[1].conn.filter, ch);
            var v0, v1, w0, w1 := ConnView(feeds[0].conn, db[table]), ConnView(feeds[1].conn, db[table]),
              ConnView(feeds[0].conn, after), ConnView(feeds[1].conn, after);
            && ParallelEmits(p, feeds, db, table, after, ch, 2)
              == Handed(p, S, [v0, w1], 0, a) + Handed(p, S, [w0, v1], 1, b)
            && PushEmits(p, feeds, db, table, after, ch, 2)
              == Handed(p, S, [v0, v1], 0, a) + Handed(p, S, [w0, v1], 1, b)
  {
    hide Emit, ConnView, SourceGate;
    var v0, v1, w0, w1 := ConnView(feeds[0].conn, db[table]), ConnView(feeds[1].conn, db[table]),
      ConnView(feeds[0].conn, after), ConnView(feeds[1].conn, after);
    assert ParallelWorld(feeds, db, table, after, 0) == [v0, w1]
      && ParallelWorld(feeds, db, table, after, 1) == [w0, v1];
    assert WorldAt(feeds, db, table, after, 0) == [v0, v1] && WorldAt(feeds, db, table, after, 1) == [w0, v1];
    assert Closed(Input(0), 2) && Closed(Input(1), 2) && 0 in Conns(Input(0)) && 1 in Conns(Input(1));
    TwoTurns(SelfJoin(j), feeds, db, table, after, ch);
  }

  lemma {:induction false} TwoTurns(p: Pipe, feeds: seq<Feed>, db: Tables, table: string, after: seq<Row>, ch: Change)
    requires |feeds| == 2 && Closed(p, |feeds|) && forall i | 0 <= i < |feeds| :: feeds[i].table in db
    ensures ParallelEmits(p, feeds, db, table, after, ch, 2)
            == ParallelWork(p, feeds, db, table, after, ch, 0) + ParallelWork(p, feeds, db, table, after, ch, 1)
    ensures PushEmits(p, feeds, db, table, after, ch, 2)
            == Told(p, feeds, db, table, after, ch, 0) + Told(p, feeds, db, table, after, ch, 1)
  {
    hide ParallelWork, Told;
    assert ParallelEmits(p, feeds, db, table, after, ch, 0) == [] && PushEmits(p, feeds, db, table, after, ch, 0) == [];
    assert ParallelEmits(p, feeds, db, table, after, ch, 1) == ParallelWork(p, feeds, db, table, after, ch, 0);
    assert PushEmits(p, feeds, db, table, after, ch, 1) == Told(p, feeds, db, table, after, ch, 0);
  }

  /** What a connection of the self-join hands on, as a change of what it shows. */
  lemma {:induction false} HandedOnce(keys: Keys, feeds: seq<Feed>, db: Tables, table: string, sc: SourceChange,
                                      i: nat, key: Key)
    requires i < |feeds| && feeds[i].table == table && Sane(keys, feeds, db) && Unsplit(feeds, table, sc)
    requires table in db && Fitting(keys[table], db[table], sc) && Columns(key) <= feeds[i].conn.splitEditKeys
    ensures var sch, s, t := ConnSchema(feeds[i].conn), ConnView(feeds[i].conn, db[table]),
              ConnView(feeds[i].conn, Written(keys[table], db[table], sc));
            match SourceGate(feeds[i].conn.filter, ToChange(sc))
            case None => s == t
            case Some(c) =>
              && TotalOrder(sch.cmp) && Sorted(sch.cmp, s) && Legal(sch, s, c) && Apply(sch, s, c) == t
              && KeepsKey(key, c)
  {
    hide Legal, Apply, Fitting, Written, ConnView, SplitsOn, ToChange, SourceGate, TotalOrder, Sorted, CompareBy;
    var conn := feeds[i].conn;
    ConnCarries(keys[table], db[table], sc, conn);
    ViewSorted(keys[table], conn, db[table]);
    ComparatorIsTotalOrder(conn.sort);
    GateIsGood(conn.splitEditKeys, conn.filter, sc);
    var out := SourceGate(conn.filter, ToChange(sc));
    if out.Some? {
      GoodKeepsKey({}, conn.splitEditKeys, key, out.value);
      assert Emitted(out) == [out.value] && [out.value][1..] == [];
    }
  }

  // ----- two connections with whole pipelines behind them

  /** The two sides of a join read the table through connection `a` and, opened later, connection `b`, and the
      pipeline has no other connection to it. */
  ghost predicate TwoReaders(parent: Pipe, child: Pipe, feeds: seq<Feed>, table: string, a: nat, b: nat) {
    && a < b < |feeds| && feeds[a].table == feeds[b].table == table && a in Conns(parent) && b in Conns(child)
    && forall k | k in Conns(parent) + Conns(child) && k < |feeds| && feeds[k].table == table :: k == a || k == b
  }

  /** One of the connections hands on nothing, or every parent that changes has the same children after. */
  ghost predicate HandedSettled(parent: Pipe, child: Pipe, j: Correlation, feeds: seq<Feed>, db: Tables, a: nat,
                                b: nat, ch: Change)
    requires a < |feeds| && b < |feeds| && (forall i | 0 <= i < |feeds| :: feeds[i].table in db)
    requires Closed(parent, |feeds|) && Closed(child, |feeds|) && |j.parentKey| == |j.childKey|
  {
    var S, T := Schemas(feeds), WorldOf(feeds, db);
    var ca, cb := SourceGate(feeds[a].conn.filter, ch), SourceGate(feeds[b].conn.filter, ch);
    ca.Some? && cb.Some? ==>
      AllSettled(j, View(child, S, T), View(child, S, WorldAfter(S, T, b, cb.value)), Emit(parent, S, T, a, ca.value))
  }

  lemma {:induction false} EmitsOfTwo(p: Pipe, feeds: seq<Feed>, db: Tables, table: string, after: seq<Row>,
                                      ch: Change, a: nat, b: nat, n: nat)
    requires Closed(p, |feeds|) && n <= |feeds| && (forall i | 0 <= i < |feeds| :: feeds[i].table in db)
             && a < b < |feeds|
    requires forall k | k in Conns(p) && k < |feeds| && feeds[k].table == table :: k == a || k == b
    ensures n <= a ==> ParallelEmits(p, feeds, db, table, after, ch, n) == []
    ensures a < n <= b ==>
              ParallelEmits(p, feeds, db, table, after, ch, n) == ParallelWork(p, feeds, db, table, after, ch, a)
    ensures b < n ==> ParallelEmits(p, feeds, db, table, after, ch, n) ==
                      ParallelWork(p, feeds, db, table, after, ch, a) + ParallelWork(p, feeds, db, table, after, ch, b)
  {
    hide ParallelWork, Closed, Conns;
    if n > 0 {
      EmitsOfTwo(p, feeds, db, table, after, ch, a, b, n - 1);
      if n - 1 != a && n - 1 != b { NotRead(p, feeds, db, table, after, ch, n - 1); }
    }
  }

  lemma {:induction false} TurnsOfTwo(p: Pipe, feeds: seq<Feed>, db: Tables, table: string, after: seq<Row>,
                                      ch: Change, a: nat, b: nat, n: nat)
    requires Closed(p, |feeds|) && n <= |feeds| && (forall i | 0 <= i < |feeds| :: feeds[i].table in db)
             && a < b < |feeds|
    requires forall k | k in Conns(p) && k < |feeds| && feeds[k].table == table :: k == a || k == b
    ensures n <= a ==> PushEmits(p, feeds, db, table, after, ch, n) == []
    ensures a < n <= b ==> PushEmits(p, feeds, db, table, after, ch, n) == Told(p, feeds, db, table, after, ch, a)
    ensures b < n ==> PushEmits(p, feeds, db, table, after, ch, n) ==
                      Told(p, feeds, db, table, after, ch, a) + Told(p, feeds, db, table, after, ch, b)
  {
    hide Told, Closed, Conns;
    if n > 0 {
      TurnsOfTwo(p, feeds, db, table, after, ch, a, b, n - 1);
      if n - 1 != a && n - 1 != b { NotRead(p, feeds, db, table, after, ch, n - 1); }
    }
  }

  lemma {:induction false} NotRead(p: Pipe, feeds: seq<Feed>, db: Tables, table: string, after: seq<Row>, ch: Change,
                                   i: nat)
    requires Closed(p, |feeds|) && i < |feeds| && forall i | 0 <= i < |feeds| :: feeds[i].table in db
    requires i !in Conns(p) || feeds[i].table != table
    ensures ParallelWork(p, feeds, db, table, after, ch, i) == Told(p, feeds, db, table, after, ch, i) == []
  {
    hide Emit, ParallelWorld, WorldAt;
  }

  /** The worlds of the two deliveries, as far as the pipeline can see them. */
  lemma {:induction false} WorldsOfTwo(p: Pipe, keys: Keys, feeds: seq<Feed>, db: Tables, table: string,
                                       after: seq<Row>, ch: Change, a: nat, b: nat)
    requires Closed(p, |feeds|) && (forall i | 0 <= i < |feeds| :: feeds[i].table in db) && a < b < |feeds|
             && feeds[a].table == feeds[b].table == table
    requires forall k | k in Conns(p) && k < |feeds| && feeds[k].table == table :: k == a || k == b
    requires a in Conns(p) && b in Conns(p)
    ensures var S, T, wa, wb := Schemas(feeds), WorldOf(feeds, db), ConnView(feeds[a].conn, after),
              ConnView(feeds[b].conn, after);
            var ca, cb := SourceGate(feeds[a].conn.filter, ch), SourceGate(feeds[b].conn.filter, ch);
            && ParallelWork(p, feeds, db, table, after, ch, a) == Handed(p, S, T[b := wb], a, ca)
            && ParallelWork(p, feeds, db, table, after, ch, b) == Handed(p, S, T[a := wa], b, cb)
            && Told(p, feeds, db, table, after, ch, a) == Handed(p, S, T, a, ca)
            && Told(p, feeds, db, table, after, ch, b) == Handed(p, S, T[a := wa], b, cb)
            && View(p, S, WorldOf(feeds, db[table := after])) == View(p, S, T[a := wa][b := wb])
  {
    hide Emit, View, ConnView, SourceGate, Closed;
    var S, T, wa, wb := Schemas(feeds), WorldOf(feeds, db), ConnView(feeds[a].conn, after),
      ConnView(feeds[b].conn, after);
    var ca, cb := SourceGate(feeds[a].conn.filter, ch), SourceGate(feeds[b].conn.filter, ch);
    EmitIsLocal(p, S, WorldOf(feeds, db[table := after]), T[a := wa][b := wb], a, ch);
    if ca.Some? {
      EmitIsLocal(p, S, ParallelWorld(feeds, db, table, after, a), T[b := wb], a, ca.value);
      EmitIsLocal(p, S, WorldAt(feeds, db, table, after, a), T, a, ca.value);
    }
    if cb.Some? {
      EmitIsLocal(p, S, ParallelWorld(feeds, db, table, after, b), T[a := wa], b, cb.value);
      EmitIsLocal(p, S, WorldAt(feeds, db, table, after, b), T[a := wa], b, cb.value);
    }
  }

  /** For every table, change, and pipelines between the two connections and the join, limits included: a parallel
      push keeps the view of the join exactly if the parents that change have the same children before and after. */
  lemma {:induction false} PipeParallelIff(parent: Pipe, child: Pipe, j: Correlation, keys: Keys, feeds: seq<Feed>,
                                           db: Tables, table: string,
                                           sc: SourceChange, a: nat, b: nat)
    requires Sane(keys, feeds, db) && Wired(JoinOf(parent, child, j), Schemas(feeds), Splits(feeds))
    requires table in db && Fitting(keys[table], db[table], sc) && Unsplit(feeds, table, sc)
    requires TwoReaders(parent, child, feeds, table, a, b) && a == Root(parent) && LimitedOnce(parent)
    ensures Closed(JoinOf(parent, child, j), |feeds|) && Closed(parent, |feeds|) && Closed(child, |feeds|)
    ensures var p, S, after := JoinOf(parent, child, j), Schemas(feeds), Written(keys[table], db[table], sc);
            HandedSettled(parent, child, j, feeds, db, a, b, ToChange(sc)) <==>
            Carries(PipeSchema(p, S), View(p, S, WorldOf(feeds, db)),
                    ParallelEmits(p, feeds, db, table, after, ToChange(sc), |feeds|),
                    View(p, S, WorldOf(feeds, Write(keys, db, table, sc))))
  {
    hide Carries, View, Wired, Fitting, Written, ConnView, Unsplit, Emit, ToChange, SourceGate, PipeSchema, Legal,
         Apply, Good,
         ParallelEmits, PushEmits, WorldOf, Table, Completes, TotalOrder, Sorted, Schemas, Splits, AllSettled,
           AddsLast, LimitedOnce;
    TableIs(keys, feeds, db, table);
    var p, S, after, ch, T := JoinOf(parent, child, j), Schemas(feeds), Written(keys[table], db[table], sc),
      ToChange(sc), WorldOf(feeds, db);
    var ca, cb := SourceGate(feeds[a].conn.filter, ch), SourceGate(feeds[b].conn.filter, ch);
    WiredShape(p, S, Splits(feeds));
    EmitsOfTwo(p, feeds, db, table, after, ch, a, b, |feeds|);
    TurnsOfTwo(p, feeds, db, table, after, ch, a, b, |feeds|);
    WorldsOfTwo(p, keys, feeds, db, table, after, ch, a, b);
    HandedIsIncoming(keys, feeds, db, table, sc, a);
    HandedIsIncoming(keys, feeds, db, table, sc, b);
    if ca.Some? && cb.Some? {
      DbIsSound(keys, feeds, db);
      LimitedAddsLast(parent, S, T, ca.value);
      var wa, wb := ConnView(feeds[a].conn, after), ConnView(feeds[b].conn, after);
      assert WorldAfter(S, T, b, cb.value)[b] == wb && T[a := wa][b] == T[b];
      assert WorldAfter(S, T[a := wa], b, cb.value) == T[a := wa][b := wb];
      SidesAtOnceIff(parent, child, j, S, Splits(feeds), T, a, ca.value, b, cb.value);
    } else {
      WriteCarries(p, keys, feeds, db, table, sc);
    }
  }

  lemma {:induction false} DbIsSound(keys: Keys, feeds: seq<Feed>, db: Tables)
    requires Sane(keys, feeds, db)
    ensures Sound(Schemas(feeds), WorldOf(feeds, db))
  {
    forall i | 0 <= i < |feeds| ensures Sorted(Schemas(feeds)[i].cmp, WorldOf(feeds, db)[i]) {
      ViewSorted(keys[feeds[i].table], feeds[i].conn, db[feeds[i].table]);
    }
  }

  /** What a connection hands on, as a change that arrives at a pipeline. */
  lemma {:induction false} HandedIsIncoming(keys: Keys, feeds: seq<Feed>, db: Tables, table: string, sc: SourceChange,
                                            i: nat)
    requires i < |feeds| && feeds[i].table == table && Sane(keys, feeds, db) && Unsplit(feeds, table, sc)
    requires table in db && Fitting(keys[table], db[table], sc)
    ensures var S, T, w := Schemas(feeds), WorldOf(feeds, db),
              ConnView(feeds[i].conn, Written(keys[table], db[table], sc));
            match SourceGate(feeds[i].conn.filter, ToChange(sc))
            case None => T[i := w] == T
            case Some(c) => Incoming(S, Splits(feeds), T, i, c) && WorldAfter(S, T, i, c) == T[i := w]
  {
    hide Legal, Apply, Fitting, Written, ConnView, SplitsOn, ToChange, SourceGate, Good, CompareBy;
    HandedOnce(keys, feeds, db, table, sc, i, []);
    GateIsGood(feeds[i].conn.splitEditKeys, feeds[i].conn.filter, sc);
  }

  function SelfJoin(j: Correlation): Pipe {
    JoinOf(Input(0), Input(1), j)
  }

  lemma AddToNone(sch: Schema, n: Node)
    ensures Apply(sch, [], Add(n)) == [n] && Legal(sch, [], Add(n))
  {
  }

  /** What a join of two bare connections emits. */
  lemma JoinedPair(j: Correlation, S: seq<Schema>, T: World, ch: Change)
    requires |S| == |T| == 2 && |j.parentKey| == |j.childKey|
    ensures Closed(SelfJoin(j), |S|)
    ensures Emit(SelfJoin(j), S, T, 0, ch) == [ParentStep(j, T[1], ch)]
    ensures Emit(SelfJoin(j), S, T, 1, ch) == ChildStep(j, T[0], Apply(S[1], T[1], ch), ch)
  {
    assert [ch][1..] == [];
    assert Closed(Input(0), |S|) && Closed(Input(1), |S|);
    assert Emit(Input(0), S, T, 0, ch) == [ch] && Emit(Input(1), S, T, 1, ch) == [ch];
    assert ParentSteps(j, T[1], []) == [];
    assert ChildSteps(j, S[1], T[0], Apply(S[1], T[1], ch), []) == [];
  }

  lemma NotCarried(out: Schema, a: Change, b: Change, t: seq<Node>)
    requires !Legal(out, Apply(out, [], a), b)
    ensures !Carries(out, [], [a] + [b], t)
  {
    assert ([a] + [b])[1..] == [b];
  }

  lemma SelfAttach(j: Correlation, n: Node)
    requires ValidKeys(j) && IsJoinMatch(n.row, j.parentKey, n.row, j.childKey)
    ensures ChildrenOf(j, [n], n.row) == [n] && Filtered([n], ParentOf(j, n.row)) == [n]
  {
    assert ChildOf(j, n.row)(n) && ParentOf(j, n.row)(n);
    FilteredAll([n], ChildOf(j, n.row));
    FilteredAll([n], ParentOf(j, n.row));
  }

  lemma SelfChild(j: Correlation, n: Node, m: Node)
    requires ValidKeys(j) && IsJoinMatch(n.row, j.parentKey, n.row, j.childKey)
             && m == Node(n.row, n.rels[j.rel := [n]])
    ensures ChildStep(j, [n], [n], Add(n)) == [Child(m, j.rel, Add(n))]
  {
    SelfAttach(j, n);
  }

  lemma SelfIllegal(j: Correlation, S: seq<Schema>, n: Node, m: Node)
    requires |S| == 2 && TotalOrder(S[0].cmp) && TotalOrder(S[1].cmp) && m == Node(n.row, n.rels[j.rel := [n]])
    ensures !Legal(JoinSchema(j, S[0], S[1]), [m], Child(m, j.rel, Add(n)))
  {
    var c := S[1].cmp;
    assert Sorted(c, [n]) && c([n][0].row, n.row) == 0;
    PosIsUnique(c, [n], 0, n.row);
    var d := S[0].cmp;
    assert Sorted(d, [m]) && d([m][0].row, m.row) == 0;
    PosIsUnique(d, [m], 0, m.row);
  }
}
