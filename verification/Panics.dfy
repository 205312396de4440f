/**
  No panic of the operators can be reached by a change that a connection hands on: not the ones for an
  edit that moves a parent or child to another partner or a row to another partition, and not the ones
  of the EXISTS operators and the fan-in.
 */
module Panics {
  import opened Values
  import opened Seqs
  import opened Views
  import opened JoinUtils
  import opened FilterChain
  import opened ChainPush
  import opened TakeUnion
  import opened JoinSpec
  import opened SourceRules
  import opened Pipeline
  import opened Database

  /** The operator handles the change without a panic. */
  ghost predicate OpCalm(op: Op, ch: Change) {
    match op
    case SkipTo(_, _) => true
    case Where(c) => PushChain(c, ch) != Panic
    case Limit(_, key) => KeepsPartition(key, ch)
  }

  /** Every operator of the tree handles all that reaches it without a panic. */
  ghost predicate Calm(p: Pipe, S: seq<Schema>, T: World, k: nat, ch: Change)
    requires |S| == |T| && Closed(p, |S|)
  {
    match p
    case Input(_) => true
    case Unary(op, input) => Calm(input, S, T, k, ch) && forall c | c in Emit(input, S, T, k, ch) :: OpCalm(op, c)
    case JoinOf(parent, child, j) =>
      if k in Conns(parent) then Calm(parent, S, T, k, ch) && forall c | c in Emit(parent, S, T, k, ch) ::
        KeepsKey(j.parentKey, c)
      else Calm(child, S, T, k, ch) && forall c | c in Emit(child, S, T, k, ch) :: KeepsKey(j.childKey, c)
  }

  lemma {:induction false} AllOpCalm(sch: Schema, op: Op, names: set<string>, split: set<string>, s: seq<Node>,
                                     chs: seq<Change>, t: seq<Node>)
    requires TotalOrder(sch.cmp) && Sorted(sch.cmp, s) && Shaped(names, s) && AllGood(names, split, chs)
    requires OpFits(op, names, split) && Carries(sch, s, chs, t)
    ensures forall c | c in chs :: OpCalm(op, c)
    decreases |chs|
  {
    hide Legal, Apply, Sorted, TotalOrder, Carries, AllGood, Good, Shaped, OpCalm;
    if chs != [] {
      CarriesSplit(sch, s, chs, t);
      GoodSplit(names, split, chs);
      ShapedAfter(names, split, sch, s, chs[0]);
      OneOpCalm(sch, op, names, split, s, chs[0]);
      AllOpCalm(sch, op, names, split, Apply(sch, s, chs[0]), chs[1..], t);
      HeadTail(chs);
    }
  }

  lemma OneOpCalm(sch: Schema, op: Op, names: set<string>, split: set<string>, s: seq<Node>, ch: Change)
    requires TotalOrder(sch.cmp) && Sorted(sch.cmp, s) && Legal(sch, s, ch) && Shaped(names, s)
             && Good(names, split, ch)
    requires OpFits(op, names, split)
    ensures OpCalm(op, ch)
  {
    hide Legal, Apply, Sorted, TotalOrder, Good, Shaped, PushChain, Sat;
    match op
    case SkipTo(_, _) =>
    case Where(c) =>
      LegalMoves(sch, s, ch);
      GoodFits(names, split, sch, s, ch, Names(c));
      ChainPushIsGate(c, ch, Pre(sch, s, ch), Post(ch));
    case Limit(_, key) => GoodKeepsKey(names, split, key, ch);
  }

  lemma KeyIsKept(names: set<string>, split: set<string>, key: Key, chs: seq<Change>)
    requires AllGood(names, split, chs) && Columns(key) <= split
    ensures forall c | c in chs :: KeepsKey(key, c)
  {
    forall c | c in chs ensures KeepsKey(key, c) { GoodKeepsKey(names, split, key, c); }
  }

  lemma {:induction false} PipeIsCalm(p: Pipe, S: seq<Schema>, split: seq<set<string>>, T: World, k: nat, ch: Change)
    requires |S| == |split| && Wired(p, S, split) && Sound(S, T) && Incoming(S, split, T, k, ch) && k in Conns(p)
    ensures Closed(p, |S|) && Calm(p, S, T, k, ch)
  {
    hide Carries, AllGood, Good, Shaped, Sorted, TotalOrder, Legal, Apply, OpCalm, KeepsKey, Emit, View, OpFits;
    WiredShape(p, S, split);
    match p
    case Input(_) =>
    case Unary(op, input) =>
      PipeIsCalm(input, S, split, T, k, ch);
      PipeCarries(input, S, split, T, k, ch);
      ViewFacts(input, S, split, T);
      AllOpCalm(PipeSchema(input, S), op, RelNames(input), split[Root(input)], View(input, S, T),
                Emit(input, S, T, k, ch), View(input, S, WorldAfter(S, T, k, ch)));
    case JoinOf(parent, child, j) =>
      if k in Conns(parent) {
        PipeIsCalm(parent, S, split, T, k, ch);
        PipeCarries(parent, S, split, T, k, ch);
        KeyIsKept(RelNames(parent), split[Root(parent)], j.parentKey, Emit(parent, S, T, k, ch));
      } else {
        PipeIsCalm(child, S, split, T, k, ch);
        PipeCarries(child, S, split, T, k, ch);
        KeyIsKept(RelNames(child), split[Root(child)], j.childKey, Emit(child, S, T, k, ch));
      }
  }

  /** Split-edit soundness, from the source on: whatever change of a table is pushed, each of the changes
      it is pushed as reaches no panic in any soundly wired pipeline, at any connection of the table. */
  lemma {:induction false} PushIsCalm(p: Pipe, keys: Keys, feeds: seq<Feed>, db: Tables, table: string,
                                      sc: SourceChange, pushed: SourceChange, i: nat)
    requires Sane(keys, feeds, db) && Wired(p, Schemas(feeds), Splits(feeds)) && i < |feeds|
    requires table in db && Fitting(keys[table], db[table], pushed) && pushed in PushedAs(feeds, table, sc)
    requires feeds[i].table == table && i in Conns(p)
    ensures Closed(p, |feeds|)
    ensures SourceGate(feeds[i].conn.filter, ToChange(pushed)).Some? ==>
              Calm(p, Schemas(feeds), WorldAt(feeds, db, table, Written(keys[table], db[table], pushed), i), i,
                   SourceGate(feeds[i].conn.filter, ToChange(pushed)).value)
  {
    hide Wired, Fitting, Written, ConnView, SplitsOn, ToChange, WorldAt, Sound, Good, Table, Completes, Becomes,
         Legal, Calm, Carries, SourceGate;
    var S, conn, after := Schemas(feeds), feeds[i].conn, Written(keys[table], db[table], pushed);
    var T := WorldAt(feeds, db, table, after, i);
    WiredShape(p, S, Splits(feeds));
    WrittenBecomes(keys[table], db[table], pushed);
    BecomesTable(keys[table], db[table], pushed, after);
    WorldIsSound(keys, feeds, db, table, after, i);
    WorldNext(feeds, db, table, after, i);
    PushedUnsplit(feeds, table, sc);
    assert Unsplit(feeds, table, pushed);
    var out := SourceGate(conn.filter, ToChange(pushed));
    GateIsGood(conn.splitEditKeys, conn.filter, pushed);
    ConnCarries(keys[table], db[table], pushed, conn);
    if out.Some? {
      CarriesSplit(S[i], T[i], Emitted(out), ConnView(conn, after));
      PipeIsCalm(p, S, Splits(feeds), T, i, out.value);
    }
  }

  lemma BecomesTable(primaryKey: Key, rows: seq<Row>, sc: SourceChange, after: seq<Row>)
    requires Becomes(primaryKey, rows, sc, after)
    ensures Table(primaryKey, after)
  {
  }
}
