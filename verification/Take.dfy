/** The Take operator: LIMIT, per partition, from a size and a bound (ivm/take.go). */
module Take {
  import opened Values
  import opened Seqs
  import opened Views
  import opened JoinUtils
  import opened Fetching
  import opened TakeSpec
  import opened TakeRules
  import opened TakeArms
  import opened TakeUnion

  class TakeOperator {
    const schema: Schema
    const limit: nat
    const partitionKey: Key
    var states: map<PartitionKey, TakeState>
    var maxBound: Option<Row>
    var rowHiddenFromFetch: Option<Row>
    /** What the input operator holds; while a push is handled this is the list after the change. */
    var input: seq<Node>

    constructor (schema: Schema, input: seq<Node>, limit: nat, partitionKey: Key)
      ensures this.schema == schema && this.input == input && this.limit == limit && this.partitionKey == partitionKey
      ensures states == map[] && maxBound == None && rowHiddenFromFetch == None
    {
      this.schema, this.input, this.limit, this.partitionKey := schema, input, limit, partitionKey;
      states, maxBound, rowHiddenFromFetch := map[], None, None;
    }

    // ----- the invariant

    /** Every hydrated partition has the size and the bound of its window of `s`,
        and the greatest bound is at or behind each of them. */
    ghost predicate Tracks(s: seq<Node>)
      reads this
    {
      && TotalOrder(schema.cmp) && Sorted(schema.cmp, s) && DistinctColumns(partitionKey)
      && rowHiddenFromFetch == None
      && (limit == 0 ==> states == map[])
      && forall key | key in states ::
           NoNulls(key) && |key| == |partitionKey|
             && StateOk(schema.cmp, limit, Part(s, partitionKey, key), states[key])
               && CoveredBy(schema.cmp, states[key].bound, maxBound)
    }

    // ----- storage

    method SetTakeState(key: PartitionKey, size: nat, bound: Option<Row>)
      requires TotalOrder(schema.cmp)
      modifies this`states, this`maxBound
      ensures states == old(states)[key := TakeState(size, bound)]
      ensures CoveredBy(schema.cmp, states[key].bound, maxBound)
      ensures CoveredBy(schema.cmp, old(maxBound), maxBound)
    {
      states := states[key := TakeState(size, bound)];
      if bound.Some? {
        if maxBound.None? || schema.cmp(bound.value, maxBound.value) > 0 {
          maxBound := bound;
        }
      }
    }

    // ----- fetch

    method InitialFetch(req: FetchRequest, key: PartitionKey) returns (r: seq<Node>)
      requires TotalOrder(schema.cmp) && key == KeyOfConstraint(partitionKey, req.constraint)
      modifies this`states, this`maxBound
      ensures r == Window(limit, Selected(schema.cmp, input, req))
      ensures limit == 0 ==> states == old(states) && maxBound == old(maxBound)
      ensures limit > 0 ==>
                states == old(states)[key := TakeState(|r|, if r == [] then None else Some(r[|r| - 1].row))]
                  && CoveredBy(schema.cmp, states[key].bound, maxBound)
      ensures CoveredBy(schema.cmp, old(maxBound), maxBound)
    {
      if limit == 0 { return []; }
      var size, bound;
      r, size, bound := FirstNodes(Selected(schema.cmp, input, req));
      SetTakeState(key, size, bound);
    }

    method FirstNodes(nodes: seq<Node>) returns (result: seq<Node>, size: nat, bound: Option<Row>)
      requires limit > 0
      ensures result == Window(limit, nodes) && size == |result|
      ensures bound == if result == [] then None else Some(result[|result| - 1].row)
    {
      result, size, bound := [], 0, None;
      while size < |nodes|
        invariant size <= |nodes| && size < limit && result == nodes[..size]
        invariant bound == if result == [] then None else Some(result[|result| - 1].row)
        decreases |nodes| - size
      {
        PrefixOne(nodes, size);
        result := result + [nodes[size]];
        bound := Some(nodes[size].row);
        size := size + 1;
        if size == limit { break; }
      }
    }

    method Fetch(req: FetchRequest) returns (r: seq<Node>)
      requires TotalOrder(schema.cmp)
      modifies this`states, this`maxBound
      ensures partitionKey != [] && !ConstraintIsOnKey(req.constraint, partitionKey) ==>
                r == UpToMaxBound(Selected(schema.cmp, input, req)) && states == old(states)
                  && maxBound == old(maxBound)
      ensures (partitionKey == [] || ConstraintIsOnKey(req.constraint, partitionKey))
              && KeyOfConstraint(partitionKey, req.constraint) in old(states) ==>
                var st := old(states)[KeyOfConstraint(partitionKey, req.constraint)];
                && r == (if st.bound.None? then []
                         else WhileWithin(schema.cmp, st.bound.value, rowHiddenFromFetch,
                                          Selected(schema.cmp, input, req)))
                && states == old(states) && maxBound == old(maxBound)
      ensures (partitionKey == [] || ConstraintIsOnKey(req.constraint, partitionKey))
              && KeyOfConstraint(partitionKey, req.constraint) !in old(states) ==>
                var key := KeyOfConstraint(partitionKey, req.constraint);
                && r == Window(limit, Selected(schema.cmp, input, req))
                && (limit == 0 ==> states == old(states) && maxBound == old(maxBound))
                && (limit > 0 ==> states
                                  == old(states)[key :=
                                                 TakeState(|r|, if r == [] then None else Some(r[|r| - 1].row))]
                                                   && CoveredBy(schema.cmp, states[key].bound, maxBound))
                && CoveredBy(schema.cmp, old(maxBound), maxBound)
    {
      var nodes := Selected(schema.cmp, input, req);
      if partitionKey == [] || ConstraintIsOnKey(req.constraint, partitionKey) {
        var key := KeyOfConstraint(partitionKey, req.constraint);
        if key !in states {
          r := InitialFetch(req, key);
          return;
        }
        if states[key].bound.None? { return []; }
        r := FetchWithin(nodes, states[key].bound.value);
        return;
      }
      r := FetchUpToMaxBound(nodes);
    }

    method FetchUpToMaxBound(nodes: seq<Node>) returns (r: seq<Node>)
      ensures r == UpToMaxBound(nodes)
    {
      r := [];
      if maxBound.None? { return; }
      var i := 0;
      while i < |nodes|
        invariant i <= |nodes| && r + UpToMaxBound(nodes[i..]) == UpToMaxBound(nodes)
      {
        var row := nodes[i].row;
        PrefixOne(nodes, i);
        AppendOne(r, nodes[i], UpToMaxBound(nodes[i + 1..]));
        if schema.cmp(row, maxBound.value) > 0 { break; }
        if InSomeWindow(row) { r := r + [nodes[i]]; }
        i := i + 1;
      }
    }

    method FetchWithin(nodes: seq<Node>, bound: Row) returns (r: seq<Node>)
      ensures r == WhileWithin(schema.cmp, bound, rowHiddenFromFetch, nodes)
    {
      r := [];
      var i := 0;
      while i < |nodes|
        invariant i <= |nodes|
        invariant r + WhileWithin(schema.cmp, bound, rowHiddenFromFetch, nodes[i..])
                  == WhileWithin(schema.cmp, bound, rowHiddenFromFetch, nodes)
      {
        PrefixOne(nodes, i);
        AppendOne(r, nodes[i], WhileWithin(schema.cmp, bound, rowHiddenFromFetch, nodes[i + 1..]));
        if schema.cmp(bound, nodes[i].row) < 0 { break; }
        if rowHiddenFromFetch.Some? && schema.cmp(rowHiddenFromFetch.value, nodes[i].row) == 0 {
          i := i + 1;
          continue;
        }
        r := r + [nodes[i]];
        i := i + 1;
      }
    }

    predicate InSomeWindow(row: Row)
      reads this
    {
      var key := KeyOf(partitionKey, row);
      key in states && states[key].bound.Some? && schema.cmp(states[key].bound.value, row) >= 0
    }

    /** The loop of an unconstrained fetch. */
    function UpToMaxBound(nodes: seq<Node>): seq<Node>
      reads this
    {
      if nodes == [] || maxBound.None? || schema.cmp(nodes[0].row, maxBound.value) > 0 then []
      else if InSomeWindow(nodes[0].row) then [nodes[0]] + UpToMaxBound(nodes[1..])
      else UpToMaxBound(nodes[1..])
    }

    // ----- push

    /** A change of a hydrated partition: its list was `s` and is `t` now. */
    ghost predicate Arriving(s: seq<Node>, t: seq<Node>, ch: Change, key: PartitionKey, c: Option<Constraint>)
      reads this
    {
      && TotalOrder(schema.cmp) && DistinctColumns(partitionKey) && Sorted(schema.cmp, input)
      && key == KeyOf(partitionKey, ch.node.row) && NoNulls(key) && c == PartitionConstraint(partitionKey, ch.node.row)
      && t == Part(input, partitionKey, key) && Sorted(schema.cmp, t)
      && Sorted(schema.cmp, s) && Legal(schema, s, ch) && t == Apply(schema, s, ch)
      && limit > 0 && rowHiddenFromFetch == None
      && key in states && StateOk(schema.cmp, limit, s, states[key])
        && CoveredBy(schema.cmp, states[key].bound, maxBound)
    }

    /** Fetching from the input, from the bound on, in the partition. */
    method Scan(ghost t: seq<Node>, ghost row: Row, c: Option<Constraint>, bound: Row, basis: Basis, reverse: bool)
      returns (nodes: seq<Node>)
      requires TotalOrder(schema.cmp) && Sorted(schema.cmp, input) && Sorted(schema.cmp, t)
      requires NoNulls(KeyOf(partitionKey, row)) && c == PartitionConstraint(partitionKey, row)
      requires t == Part(input, partitionKey, KeyOf(partitionKey, row))
      ensures ScanLow(schema.cmp, t, bound, basis, reverse) <= ScanHigh(schema.cmp, t, bound, basis, reverse) <= |t|
      ensures nodes == Directed(t[ScanLow(schema.cmp, t, bound, basis, reverse)..ScanHigh(schema.cmp, t, bound, basis,
              reverse)], reverse)
    {
      PartIsConstrained(schema.cmp, input, partitionKey, row);
      ScanFrom(schema.cmp, input, t, c, bound, basis, reverse);
      nodes := Selected(schema.cmp, input, FetchRequest(c, Some(Start(bound, basis)), reverse));
    }

    /** output.Push: the change, and what a constrained fetch would answer at this moment. */
    method Emit(ch: Change, ghost t: seq<Node>, row: Row) returns (e: Emission)
      requires TotalOrder(schema.cmp) && Sorted(schema.cmp, input) && DistinctColumns(partitionKey)
      requires NoNulls(KeyOf(partitionKey, row)) && KeyOf(partitionKey, row) in states
      requires t == Part(input, partitionKey, KeyOf(partitionKey, row))
      modifies this`states, this`maxBound
      ensures states == old(states) && maxBound == old(maxBound)
      ensures e.change == ch
      ensures var b := states[KeyOf(partitionKey, row)].bound;
              e.view == if b.None? then [] else WhileWithin(schema.cmp, b.value, rowHiddenFromFetch, t)
    {
      PartitionConstraintIsOnKey(partitionKey, row);
      PartIsConstrained(schema.cmp, input, partitionKey, row);
      var w := Fetch(FetchRequest(PartitionConstraint(partitionKey, row), None, false));
      e := Emission(ch, w);
    }

    method PushWithRowHiddenFromFetch(hidden: Row, ch: Change, ghost t: seq<Node>, row: Row) returns (e: Emission)
      requires TotalOrder(schema.cmp) && Sorted(schema.cmp, input) && DistinctColumns(partitionKey)
      requires NoNulls(KeyOf(partitionKey, row)) && KeyOf(partitionKey, row) in states
      requires t == Part(input, partitionKey, KeyOf(partitionKey, row))
      requires states[KeyOf(partitionKey, row)].bound.Some?
      modifies this`states, this`maxBound, this`rowHiddenFromFetch
      ensures states == old(states) && maxBound == old(maxBound) && rowHiddenFromFetch == None
      ensures e == Emission(ch, WhileWithin(schema.cmp, states[KeyOf(partitionKey, row)].bound.value, Some(hidden), t))
    {
      rowHiddenFromFetch := Some(hidden);
      e := Emit(ch, t, row);
      rowHiddenFromFetch := None;
    }

    /** The input holds the partition `t` of `row`. */
    ghost predicate Holds(t: seq<Node>, row: Row, key: PartitionKey)
      reads this
    {
      && TotalOrder(schema.cmp) && DistinctColumns(partitionKey) && Sorted(schema.cmp, input)
      && key == KeyOf(partitionKey, row) && NoNulls(key)
      && t == Part(input, partitionKey, key) && Sorted(schema.cmp, t)
      && limit > 0 && rowHiddenFromFetch == None
    }

    /** Stores a new state and pushes the change that completes the window. */
    method StoreAndEmit(key: PartitionKey, size: nat, bound: Option<Row>, ch: Change, ghost t: seq<Node>, row: Row)
      returns (e: Emission)
      requires Holds(t, row, key) && StateOk(schema.cmp, limit, t, TakeState(size, bound))
      modifies this`states, this`maxBound
      ensures states == old(states)[key := TakeState(size, bound)] && CoveredBy(schema.cmp, states[key].bound, maxBound)
      ensures CoveredBy(schema.cmp, old(maxBound), maxBound)
      ensures e == Emission(ch, Window(limit, t))
    {
      hide WhileWithin, Window, StateOk, Part, TotalOrder, Sorted, KeyOf, NoNulls, PartitionConstraint, DistinctColumns;
      FetchShowsState(schema.cmp, limit, t, TakeState(size, bound));
      SetTakeState(key, size, bound);
      e := Emit(ch, t, row);
    }

    /** Stores a new state and replaces one node of the window by another:
        `first` goes out while the row that comes in is hidden from fetches, then `second` goes out. */
    method StoreAndReplace(key: PartitionKey, size: nat, bound: Row, hidden: Row, first: Change, second: Change,
                           ghost t: seq<Node>, ghost m: nat, row: Row)
      returns (es: seq<Emission>)
      requires Holds(t, row, key) && StateOk(schema.cmp, limit, t, TakeState(size, Some(bound)))
      requires m < |Window(limit, t)| && t[m].row == hidden
      modifies this`states, this`maxBound, this`rowHiddenFromFetch
      ensures states == old(states)[key := TakeState(size, Some(bound))] && rowHiddenFromFetch == None
              && CoveredBy(schema.cmp, states[key].bound, maxBound)
      ensures CoveredBy(schema.cmp, old(maxBound), maxBound)
      ensures es == [Emission(first, RemoveAt(Window(limit, t), m)), Emission(second, Window(limit, t))]
    {
      hide WhileWithin, Window, StateOk, Part, TotalOrder, Sorted, KeyOf, NoNulls, PartitionConstraint, DistinctColumns;
      FetchShowsState(schema.cmp, limit, t, TakeState(size, Some(bound)));
      SetTakeState(key, size, Some(bound));
      var a := PushWithRowHiddenFromFetch(hidden, first, t, row);
      var b := Emit(second, t, row);
      return [a, b];
    }

    /** Pushes `first` with the old bound in place, then stores the new bound and pushes `second`. */
    method PushThenStore(key: PartitionKey, size: nat, bound: Row, first: Change, second: Change,
                         ghost t: seq<Node>, ghost shown: seq<Node>, row: Row)
      returns (es: seq<Emission>)
      requires Holds(t, row, key) && key in states && states[key].bound.Some?
      requires StateOk(schema.cmp, limit, t, TakeState(size, Some(bound)))
      requires shown == WhileWithin(schema.cmp, states[key].bound.value, None, t)
      modifies this`states, this`maxBound, this`rowHiddenFromFetch
      ensures states == old(states)[key := TakeState(size, Some(bound))] && rowHiddenFromFetch == None
              && CoveredBy(schema.cmp, states[key].bound, maxBound)
      ensures CoveredBy(schema.cmp, old(maxBound), maxBound)
      ensures es == [Emission(first, shown), Emission(second, Window(limit, t))]
    {
      hide WhileWithin, Window, StateOk, Part, TotalOrder, Sorted, KeyOf, NoNulls, PartitionConstraint, DistinctColumns;
      var a := Emit(first, t, row);
      var b := StoreAndEmit(key, size, Some(bound), second, t, row);
      return [a, b];
    }

    method PushAdd(ch: Change, ghost s: seq<Node>, ghost t: seq<Node>, key: PartitionKey, c: Option<Constraint>)
      returns (es: seq<Emission>)
      requires ch.Add? && Arriving(s, t, ch, key, c)
      modifies this`states, this`maxBound, this`rowHiddenFromFetch
      ensures key in states && states == old(states)[key := states[key]] && rowHiddenFromFetch == None
      ensures StateOk(schema.cmp, limit, t, states[key]) && CoveredBy(schema.cmp, states[key].bound, maxBound)
      ensures CoveredBy(schema.cmp, old(maxBound), maxBound)
      ensures Planned(schema, limit, s, t, ch, es)
    {
      hide Apply, Legal, WindowStep, Traced, Carries, Planned, WhileWithin, Window, StateOk, Part, TotalOrder, Sorted,
           Pos, KeyOf, NoNulls, PartitionConstraint, DistinctColumns;
      var st, row := states[key], ch.node.row;
      if st.size < limit {
        var newBound := st.bound;
        if newBound.None? || schema.cmp(newBound.value, row) < 0 {
          newBound := Some(row);
        }
        PlanGrow(schema, limit, s, t, ch, st, newBound.value);
        var e := StoreAndEmit(key, st.size + 1, newBound, ch, t, row);
        return [e];
      }
      AtMostLimit(schema.cmp, limit, s, st);
      es := PushAddToFull(ch, s, t, key, c);
    }

    method PushAddToFull(ch: Change, ghost s: seq<Node>, ghost t: seq<Node>, key: PartitionKey, c: Option<Constraint>)
      returns (es: seq<Emission>)
      requires ch.Add? && Arriving(s, t, ch, key, c) && states[key].size == limit
      modifies this`states, this`maxBound, this`rowHiddenFromFetch
      ensures key in states && states == old(states)[key := states[key]] && rowHiddenFromFetch == None
      ensures StateOk(schema.cmp, limit, t, states[key]) && CoveredBy(schema.cmp, states[key].bound, maxBound)
      ensures CoveredBy(schema.cmp, old(maxBound), maxBound)
      ensures Planned(schema, limit, s, t, ch, es)
    {
      hide Apply, Legal, WindowStep, Traced, Carries, Planned, WhileWithin, Window, StateOk, Part, TotalOrder, Sorted,
           Pos, KeyOf, NoNulls, PartitionConstraint, DistinctColumns;
      var st, row := states[key], ch.node.row;
      PlanAdd(schema, limit, s, t, ch, st);
      if st.bound.None? || schema.cmp(row, st.bound.value) >= 0 {
        return [];
      }
      var boundNode, beforeBoundNode := FetchBoundNodes(t, row, c, st.bound.value);
      if boundNode.None? {
        // the panic "boundNode must be found during fetch"
        assert false;
      }
      var newBound := row;
      if beforeBoundNode.Some? && schema.cmp(row, beforeBoundNode.value.row) <= 0 {
        newBound := beforeBoundNode.value.row;
      }
      es := StoreAndReplace(key, st.size, newBound, row, Remove(boundNode.value), ch, t, Pos(schema.cmp, s, row), row);
    }

    /** The bound row, and the row in front of it when the window has more than one. */
    method FetchBoundNodes(ghost t: seq<Node>, row: Row, c: Option<Constraint>, bound: Row)
      returns (boundNode: Option<Node>, beforeBoundNode: Option<Node>)
      requires Holds(t, row, KeyOf(partitionKey, row)) && c == PartitionConstraint(partitionKey, row)
      requires Pos(schema.cmp, t, bound) == limit && Has(schema.cmp, t, bound) && |t| > limit
      ensures boundNode == Some(t[limit])
      ensures beforeBoundNode == if limit == 1 then None else Some(t[limit - 1])
    {
      boundNode, beforeBoundNode := None, None;
      if limit == 1 {
        boundNode := FirstOf(t, row, c, bound, At, false);
      } else {
        boundNode, beforeBoundNode := FirstTwoUpTo(t, row, c, bound);
      }
    }

    method PushRemove(ch: Change, ghost s: seq<Node>, ghost t: seq<Node>, key: PartitionKey, c: Option<Constraint>)
      returns (es: seq<Emission>)
      requires ch.Remove? && Arriving(s, t, ch, key, c)
      modifies this`states, this`maxBound, this`rowHiddenFromFetch
      ensures key in states && states == old(states)[key := states[key]] && rowHiddenFromFetch == None
      ensures StateOk(schema.cmp, limit, t, states[key]) && CoveredBy(schema.cmp, states[key].bound, maxBound)
      ensures CoveredBy(schema.cmp, old(maxBound), maxBound)
      ensures Planned(schema, limit, s, t, ch, es)
    {
      hide Apply, Legal, WindowStep, Traced, Carries, Planned, WhileWithin, Window, StateOk, Part, TotalOrder, Sorted,
           Pos, KeyOf, NoNulls, PartitionConstraint, DistinctColumns;
      var st, row := states[key], ch.node.row;
      PlanRemove(schema, limit, s, t, ch, st);
      if st.bound.None? || schema.cmp(row, st.bound.value) > 0 {
        return [];
      }
      var newBound, push := FindNewBound(t, row, c, st.bound.value, st.size, Has(schema.cmp, t, st.bound.value));
      if newBound.Some? && push {
        es := PushThenStore(key, st.size, newBound.value.row, ch, Add(newBound.value), t, t[..st.size - 1], row);
      } else {
        // an unfindable bound means an empty window
        var size := if newBound.Some? then st.size - 1 else 0;
        var e := StoreAndEmit(key, size, if newBound.Some? then Some(newBound.value.row) else None, ch, t, row);
        return [e];
      }
    }

    /** The two scans of a remove: the row in front of the bound, else the first row behind it (which
        then enters the window, `push`), else the last row that was seen. */
    method FindNewBound(ghost t: seq<Node>, row: Row, c: Option<Constraint>, bound: Row, ghost k: nat,
                        ghost boundStays: bool)
      returns (newBound: Option<Node>, push: bool)
      requires Holds(t, row, KeyOf(partitionKey, row)) && c == PartitionConstraint(partitionKey, row)
      requires 0 < k <= |t| + 1 && (boundStays ==> k >= 2)
      requires Pos(schema.cmp, t, bound) == (if boundStays then k - 2 else k - 1)
               && (Has(schema.cmp, t, bound) <==> boundStays)
      ensures |t| >= k ==> newBound == Some(t[k - 1]) && push
      ensures |t| == k - 1 ==> newBound == (if k == 1 then None else Some(t[k - 2])) && !push
    {
      newBound, push := None, false;
      RemoveScans(schema.cmp, t, bound, if boundStays then 1 else 0);
      var nodes := Scan(t, row, c, bound, After, true);
      if |nodes| > 0 {
        newBound, push := Some(nodes[0]), schema.cmp(nodes[0].row, bound) > 0;
      }
      if newBound.None? || !push {
        nodes := Scan(t, row, c, bound, At, false);
        newBound, push := FirstBehind(nodes, bound, newBound, if boundStays then 1 else 0);
      }
    }

    /** The loop over the rows from the bound on, up to the first one behind it. */
    method FirstBehind(nodes: seq<Node>, bound: Row, before: Option<Node>, ghost at: nat)
      returns (newBound: Option<Node>, push: bool)
      requires at <= |nodes|
      requires forall i | 0 <= i < |nodes| :: schema.cmp(nodes[i].row, bound) > 0 <==> i >= at
      ensures at < |nodes| ==> newBound == Some(nodes[at]) && push
      ensures at == |nodes| ==> newBound == (if at == 0 then before else Some(nodes[at - 1])) && !push
    {
      newBound, push := before, false;
      var i := 0;
      while i < |nodes|
        invariant i <= at && !push
        invariant newBound == if i == 0 then before else Some(nodes[i - 1])
      {
        newBound, push := Some(nodes[i]), schema.cmp(nodes[i].row, bound) > 0;
        if push { break; }
        i := i + 1;
      }
    }

    method PushChild(ch: Change, ghost s: seq<Node>, ghost t: seq<Node>, key: PartitionKey, c: Option<Constraint>)
      returns (es: seq<Emission>)
      requires ch.Child? && Arriving(s, t, ch, key, c)
      modifies this`states, this`maxBound, this`rowHiddenFromFetch
      ensures key in states && states == old(states)[key := states[key]] && rowHiddenFromFetch == None
      ensures StateOk(schema.cmp, limit, t, states[key]) && CoveredBy(schema.cmp, states[key].bound, maxBound)
      ensures CoveredBy(schema.cmp, old(maxBound), maxBound)
      ensures Planned(schema, limit, s, t, ch, es)
    {
      hide Apply, Legal, WindowStep, Traced, Carries, Planned, WhileWithin, Window, StateOk, Part, TotalOrder, Sorted,
           Pos, KeyOf, NoNulls, PartitionConstraint, DistinctColumns;
      var st := states[key];
      PlanChild(schema, limit, s, t, ch, st);
      if st.bound.Some? && schema.cmp(ch.node.row, st.bound.value) <= 0 {
        es := KeepAndPush(key, ch, t);
      } else {
        es := [];
      }
    }

    method PushEditOfBound(ch: Change, ghost s: seq<Node>, ghost t: seq<Node>, key: PartitionKey, c: Option<Constraint>)
      returns (es: seq<Emission>)
      requires ch.Edit? && Arriving(s, t, ch, key, c) && states[key].bound.Some?
               && schema.cmp(ch.oldNode.row, states[key].bound.value) == 0
      modifies this`states, this`maxBound, this`rowHiddenFromFetch
      ensures key in states && states == old(states)[key := states[key]] && rowHiddenFromFetch == None
      ensures StateOk(schema.cmp, limit, t, states[key]) && CoveredBy(schema.cmp, states[key].bound, maxBound)
      ensures CoveredBy(schema.cmp, old(maxBound), maxBound)
      ensures Planned(schema, limit, s, t, ch, es)
    {
      hide Apply, Legal, WindowStep, Traced, Carries, Planned, WhileWithin, Window, StateOk, Part, TotalOrder, Sorted,
           Pos, KeyOf, NoNulls, PartitionConstraint, DistinctColumns;
      var st, row := states[key], ch.node.row;
      var bound := st.bound.value;
      PlanEditBound(schema, limit, s, t, ch, st);
      var newCmp := schema.cmp(row, bound);
      if newCmp == 0 {
        es := KeepAndPush(key, ch, t);
      } else if newCmp < 0 {
        var newBound := row;
        if limit != 1 {
          var beforeBoundNode := FirstOf(t, row, c, bound, After, true);
          if beforeBoundNode.None? {
            // the panic "beforeBoundNode must be found"
            assert false;
          }
          newBound := beforeBoundNode.value.row;
        }
        var e := StoreAndEmit(key, st.size, Some(newBound), ch, t, row);
        es := [e];
      } else {
        var newBoundNode := FirstOf(t, row, c, bound, At, false);
        if newBoundNode.None? {
          // the panic "newBoundNode must be found during fetch"
          assert false;
        }
        if schema.cmp(newBoundNode.value.row, row) == 0 {
          var e := StoreAndEmit(key, st.size, Some(row), ch, t, row);
          es := [e];
        } else {
          es := StoreAndReplace(key, st.size, newBoundNode.value.row, newBoundNode.value.row, Remove(ch.oldNode),
                                Add(newBoundNode.value), t, st.size - 1, row);
        }
      }
    }

    method PushEditBehindBound(ch: Change, ghost s: seq<Node>, ghost t: seq<Node>, key: PartitionKey,
                               c: Option<Constraint>)
      returns (es: seq<Emission>)
      requires ch.Edit? && Arriving(s, t, ch, key, c) && states[key].bound.Some?
               && schema.cmp(ch.oldNode.row, states[key].bound.value) > 0
      modifies this`states, this`maxBound, this`rowHiddenFromFetch
      ensures key in states && states == old(states)[key := states[key]] && rowHiddenFromFetch == None
      ensures StateOk(schema.cmp, limit, t, states[key]) && CoveredBy(schema.cmp, states[key].bound, maxBound)
      ensures CoveredBy(schema.cmp, old(maxBound), maxBound)
      ensures Planned(schema, limit, s, t, ch, es)
    {
      hide Apply, Legal, WindowStep, Traced, Carries, Planned, WhileWithin, Window, StateOk, Part, TotalOrder, Sorted,
           Pos, KeyOf, NoNulls, PartitionConstraint, DistinctColumns;
      var st, row := states[key], ch.node.row;
      var bound := st.bound.value;
      PlanEditBehind(schema, limit, s, t, ch, st);
      var newCmp := schema.cmp(row, bound);
      if newCmp == 0 {
        // the panic for a duplicate primary key
        assert false;
      }
      if newCmp > 0 { return []; }
      var oldBoundNode, newBoundNode := FirstTwoUpTo(t, row, c, bound);
      if oldBoundNode.None? {
        // the panic "oldBoundNode must be found during fetch"
        assert false;
      }
      if newBoundNode.None? {
        // the branch for a window that is not full cannot be reached
        assert false;
      }
      es := StoreAndReplace(key, st.size, newBoundNode.value.row, row, Remove(oldBoundNode.value), Add(ch.node), t,
                            Pos(schema.cmp, t, row), row);
    }

    method PushEditInFrontOfBound(ch: Change, ghost s: seq<Node>, ghost t: seq<Node>, key: PartitionKey,
                                  c: Option<Constraint>)
      returns (es: seq<Emission>)
      requires ch.Edit? && Arriving(s, t, ch, key, c) && states[key].bound.Some?
               && schema.cmp(ch.oldNode.row, states[key].bound.value) < 0
      modifies this`states, this`maxBound, this`rowHiddenFromFetch
      ensures key in states && states == old(states)[key := states[key]] && rowHiddenFromFetch == None
      ensures StateOk(schema.cmp, limit, t, states[key]) && CoveredBy(schema.cmp, states[key].bound, maxBound)
      ensures CoveredBy(schema.cmp, old(maxBound), maxBound)
      ensures Planned(schema, limit, s, t, ch, es)
    {
      hide Apply, Legal, WindowStep, Traced, Carries, Planned, WhileWithin, Window, StateOk, Part, TotalOrder, Sorted,
           Pos, KeyOf, NoNulls, PartitionConstraint, DistinctColumns;
      var st, row := states[key], ch.node.row;
      var bound := st.bound.value;
      PlanEditInFront(schema, limit, s, t, ch, st);
      var newCmp := schema.cmp(row, bound);
      if newCmp == 0 {
        // the panic for a duplicate primary key
        assert false;
      }
      if newCmp < 0 {
        es := KeepAndPush(key, ch, t);
        return;
      }
      var afterBoundNode := FirstOf(t, row, c, bound, After, false);
      if afterBoundNode.None? {
        // the panic "afterBoundNode must be found during fetch"
        assert false;
      }
      if schema.cmp(afterBoundNode.value.row, row) == 0 {
        var e := StoreAndEmit(key, st.size, Some(row), ch, t, row);
        es := [e];
      } else {
        es := PushThenStore(key, st.size, afterBoundNode.value.row, Remove(ch.oldNode), Add(afterBoundNode.value), t,
                            t[..st.size - 1], row);
      }
    }

    method PushEditChange(ch: Change, ghost s: seq<Node>, ghost t: seq<Node>, key: PartitionKey, c: Option<Constraint>)
      returns (es: seq<Emission>)
      requires ch.Edit? && Arriving(s, t, ch, key, c)
      modifies this`states, this`maxBound, this`rowHiddenFromFetch
      ensures key in states && states == old(states)[key := states[key]] && rowHiddenFromFetch == None
      ensures StateOk(schema.cmp, limit, t, states[key]) && CoveredBy(schema.cmp, states[key].bound, maxBound)
      ensures CoveredBy(schema.cmp, old(maxBound), maxBound)
      ensures Planned(schema, limit, s, t, ch, es)
    {
      EditHasBound(schema, limit, s, t, ch, states[key]);
      if states[key].bound.None? {
        // the panic "Bound should be set"
        assert false;
      }
      var oldCmp := schema.cmp(ch.oldNode.row, states[key].bound.value);
      if oldCmp == 0 {
        es := PushEditOfBound(ch, s, t, key, c);
      } else if oldCmp > 0 {
        es := PushEditBehindBound(ch, s, t, key, c);
      } else {
        es := PushEditInFrontOfBound(ch, s, t, key, c);
      }
    }

    /** Forwards a change and leaves the stored state as it is. */
    method KeepAndPush(key: PartitionKey, ch: Change, ghost t: seq<Node>) returns (es: seq<Emission>)
      requires Holds(t, ch.node.row, key) && key in states && states[key].bound.Some?
               && StateOk(schema.cmp, limit, t, states[key])
      modifies this`states, this`maxBound
      ensures states == old(states) && maxBound == old(maxBound)
      ensures es == [Emission(ch, Window(limit, t))]
    {
      hide WhileWithin, Window, StateOk, Part, TotalOrder, Sorted, KeyOf, NoNulls, PartitionConstraint, DistinctColumns;
      FetchShowsState(schema.cmp, limit, t, states[key]);
      var e := Emit(ch, t, ch.node.row);
      return [e];
    }

    /** The first node of a scan from the bound. */
    method FirstOf(ghost t: seq<Node>, row: Row, c: Option<Constraint>, bound: Row, basis: Basis, reverse: bool)
      returns (n: Option<Node>)
      requires Holds(t, row, KeyOf(partitionKey, row)) && c == PartitionConstraint(partitionKey, row)
      ensures ScanLow(schema.cmp, t, bound, basis, reverse) <= ScanHigh(schema.cmp, t, bound, basis, reverse) <= |t|
      ensures n == if ScanLow(schema.cmp, t, bound, basis, reverse)
              == ScanHigh(schema.cmp, t, bound, basis, reverse) then None
                   else Some(t[if reverse then ScanHigh(schema.cmp, t, bound, basis, reverse) - 1
                               else ScanLow(schema.cmp, t, bound, basis, reverse)])
    {
      var nodes := Scan(t, row, c, bound, basis, reverse);
      n := if |nodes| > 0 then Some(nodes[0]) else None;
    }

    /** The first two nodes of the reverse scan that begins at the bound. */
    method FirstTwoUpTo(ghost t: seq<Node>, row: Row, c: Option<Constraint>, bound: Row)
      returns (a: Option<Node>, b: Option<Node>)
      requires Holds(t, row, KeyOf(partitionKey, row)) && c == PartitionConstraint(partitionKey, row)
      requires Has(schema.cmp, t, bound) && Pos(schema.cmp, t, bound) > 0
      ensures Pos(schema.cmp, t, bound) < |t|
      ensures a == Some(t[Pos(schema.cmp, t, bound)]) && b == Some(t[Pos(schema.cmp, t, bound) - 1])
    {
      a, b := None, None;
      var nodes := Scan(t, row, c, bound, At, true);
      if |nodes| > 0 { a := Some(nodes[0]); }
      if |nodes| > 1 { b := Some(nodes[1]); }
    }

    ghost function Hydrated(): iset<PartitionKey>
      reads this
    {
      iset key | key in states
    }

    lemma PushSetup(before: seq<Node>, ch: Change)
      requires Tracks(before) && Legal(schema, before, ch) && input == Apply(schema, before, ch)
               && KeepsPartition(partitionKey, ch)
      requires KeyOf(partitionKey, ch.node.row) in states
      ensures Arriving(Part(before, partitionKey, KeyOf(partitionKey, ch.node.row)),
                       Part(input, partitionKey, KeyOf(partitionKey, ch.node.row)), ch,
                       KeyOf(partitionKey, ch.node.row), PartitionConstraint(partitionKey, ch.node.row))
      ensures var s := Part(before, partitionKey, KeyOf(partitionKey, ch.node.row));
              Sorted(schema.cmp, s) && Legal(schema, s, ch)
    {
      hide Apply, Legal, Part, KeyOf, PartitionConstraint, StateOk;
      ApplyFacts(schema, before, ch);
      PartApply(schema, before, ch, partitionKey, KeyOf(partitionKey, ch.node.row));
    }

    lemma TracksAfter(before: seq<Node>, ch: Change, oldStates: map<PartitionKey, TakeState>, oldMax: Option<Row>,
                      key: PartitionKey)
      requires TotalOrder(schema.cmp) && Sorted(schema.cmp, before) && DistinctColumns(partitionKey)
               && rowHiddenFromFetch == None && limit > 0
      requires forall k | k in oldStates ::
                 NoNulls(k) && |k| == |partitionKey|
                   && StateOk(schema.cmp, limit, Part(before, partitionKey, k), oldStates[k])
                     && CoveredBy(schema.cmp, oldStates[k].bound, oldMax)
      requires Legal(schema, before, ch) && input == Apply(schema, before, ch) && KeepsPartition(partitionKey, ch)
      requires key == KeyOf(partitionKey, ch.node.row) && key in oldStates && key in states
               && states == oldStates[key := states[key]]
      requires StateOk(schema.cmp, limit, Part(input, partitionKey, key), states[key])
      requires CoveredBy(schema.cmp, states[key].bound, maxBound) && CoveredBy(schema.cmp, oldMax, maxBound)
      ensures Tracks(input)
    {
      hide Apply, Legal, Part, KeyOf, PartitionConstraint, StateOk, CoveredBy;
      ApplyFacts(schema, before, ch);
      forall k | k in states && k != key
        ensures StateOk(schema.cmp, limit, Part(input, partitionKey, k), states[k])
                && CoveredBy(schema.cmp, states[k].bound, maxBound)
      {
        PartApply(schema, before, ch, partitionKey, k);
        CoverMore(schema.cmp, states[k].bound, oldMax, maxBound);
      }
    }

    lemma PushDone(before: seq<Node>, ch: Change, es: seq<Emission>, oldStates: map<PartitionKey, TakeState>,
                   oldMax: Option<Row>, key: PartitionKey)
      requires TotalOrder(schema.cmp) && Sorted(schema.cmp, before) && DistinctColumns(partitionKey)
               && rowHiddenFromFetch == None && (limit == 0 ==> oldStates == map[])
      requires forall k | k in oldStates ::
                 NoNulls(k) && |k| == |partitionKey|
                   && StateOk(schema.cmp, limit, Part(before, partitionKey, k), oldStates[k])
                     && CoveredBy(schema.cmp, oldStates[k].bound, oldMax)
      requires Legal(schema, before, ch) && input == Apply(schema, before, ch) && KeepsPartition(partitionKey, ch)
      requires key == KeyOf(partitionKey, ch.node.row) && key in oldStates && key in states
               && states == oldStates[key := states[key]]
      requires StateOk(schema.cmp, limit, Part(input, partitionKey, key), states[key])
      requires CoveredBy(schema.cmp, states[key].bound, maxBound) && CoveredBy(schema.cmp, oldMax, maxBound)
      requires Sorted(schema.cmp, Part(before, partitionKey, key)) && Legal(schema, Part(before, partitionKey, key), ch)
      requires Planned(schema, limit, Part(before, partitionKey, key), Part(input, partitionKey, key), ch, es)
      ensures Tracks(input) && states.Keys == oldStates.Keys
      ensures Traced(schema, Window(limit, Part(before, partitionKey, key)), es,
                     Window(limit, Part(input, partitionKey, key)))
      ensures Changes(es) == TakeStep(schema, limit, partitionKey, Hydrated(), before, ch)
    {
      hide Apply, Legal, Part, KeyOf, StateOk, CoveredBy, WindowStep, Traced, Window, Sorted, TotalOrder, NoNulls,
           Tracks, DistinctColumns;
      TracksAfter(before, ch, oldStates, oldMax, key);
    }

    /** A change of the input list from `before` to `input`. Every hydrated partition keeps its window;
        the emissions are exactly the changes of the window of the changed partition, and at each of
        them a fetch of that partition shows the old window with the changes so far folded in.
        A partition that was never fetched is not told. */
    method Push(ch: Change, ghost before: seq<Node>) returns (es: seq<Emission>)
      requires Tracks(before) && Legal(schema, before, ch) && input == Apply(schema, before, ch)
               && KeepsPartition(partitionKey, ch)
      modifies this`states, this`maxBound, this`rowHiddenFromFetch
      ensures Tracks(input) && states.Keys == old(states).Keys
      ensures KeyOf(partitionKey, ch.node.row) !in old(states) ==> es == []
      ensures KeyOf(partitionKey, ch.node.row) in old(states) ==>
                var s := Part(before, partitionKey, KeyOf(partitionKey, ch.node.row));
                var t := Part(input, partitionKey, KeyOf(partitionKey, ch.node.row));
                && Traced(schema, Window(limit, s), es, Window(limit, t))
                && Carries(schema, Window(limit, s), Changes(es), Window(limit, t))
      ensures Changes(es) == TakeStep(schema, limit, partitionKey, Hydrated(), before, ch)
      ensures Carries(schema, Shown(limit, partitionKey, Hydrated(), before), Changes(es),
                      Shown(limit, partitionKey, Hydrated(), input))
    {
      hide Traced, Carries, TakeStep, Window, Shown, Legal, Apply;
      var key := KeyOf(partitionKey, ch.node.row);
      if key in states {
        es := PushToPartition(ch, before, key);
        TracedCarries(schema, Window(limit, Part(before, partitionKey, key)), es,
                      Window(limit, Part(input, partitionKey, key)));
      } else {
        NotHydratedStays(before, ch);
        es := [];
      }
      TakeCarries(schema, limit, partitionKey, Hydrated(), before, ch);
    }

    method PushToPartition(ch: Change, ghost before: seq<Node>, key: PartitionKey) returns (es: seq<Emission>)
      requires Tracks(before) && Legal(schema, before, ch) && input == Apply(schema, before, ch)
               && KeepsPartition(partitionKey, ch)
      requires key == KeyOf(partitionKey, ch.node.row) && key in states
      modifies this`states, this`maxBound, this`rowHiddenFromFetch
      ensures Tracks(input) && states.Keys == old(states).Keys
      ensures Traced(schema, Window(limit, Part(before, partitionKey, key)), es,
                     Window(limit, Part(input, partitionKey, key)))
      ensures Changes(es) == TakeStep(schema, limit, partitionKey, Hydrated(), before, ch)
    {
      hide *;
      PushSetup(before, ch);
      TracksFacts(before);
      ghost var s, t, oldStates, oldMax := Part(before, partitionKey, key), Part(input, partitionKey,
          key), states, maxBound;
      es := Dispatch(ch, s, t, key, PartitionConstraint(partitionKey, ch.node.row));
      PushDone(before, ch, es, oldStates, oldMax, key);
    }

    method Dispatch(ch: Change, ghost s: seq<Node>, ghost t: seq<Node>, key: PartitionKey, c: Option<Constraint>)
      returns (es: seq<Emission>)
      requires Arriving(s, t, ch, key, c)
      modifies this`states, this`maxBound, this`rowHiddenFromFetch
      ensures key in states && states == old(states)[key := states[key]] && rowHiddenFromFetch == None
      ensures StateOk(schema.cmp, limit, t, states[key]) && CoveredBy(schema.cmp, states[key].bound, maxBound)
      ensures CoveredBy(schema.cmp, old(maxBound), maxBound)
      ensures Planned(schema, limit, s, t, ch, es)
    {
      hide *;
      match ch
      case Add(_) => es := PushAdd(ch, s, t, key, c);
      case Remove(_) => es := PushRemove(ch, s, t, key, c);
      case Child(_, _, _) => es := PushChild(ch, s, t, key, c);
      case Edit(_, _) => es := PushEditChange(ch, s, t, key, c);
    }

    lemma TracksFacts(s: seq<Node>)
      requires Tracks(s)
      ensures TotalOrder(schema.cmp) && Sorted(schema.cmp, s) && DistinctColumns(partitionKey)
              && rowHiddenFromFetch == None
      ensures limit == 0 ==> states == map[]
      ensures forall k | k in states ::
                NoNulls(k) && |k| == |partitionKey| && StateOk(schema.cmp, limit, Part(s, partitionKey, k), states[k])
                  && CoveredBy(schema.cmp, states[k].bound, maxBound)
    {
    }

    lemma NotHydratedStays(before: seq<Node>, ch: Change)
      requires Tracks(before) && Legal(schema, before, ch) && input == Apply(schema, before, ch)
               && KeepsPartition(partitionKey, ch)
      requires KeyOf(partitionKey, ch.node.row) !in states
      ensures Tracks(input) && Changes([]) == TakeStep(schema, limit, partitionKey, Hydrated(), before, ch)
    {
      hide Apply, Legal, Part, KeyOf, PartitionConstraint, StateOk, CoveredBy, WindowStep;
      ApplyFacts(schema, before, ch);
      forall k | k in states ensures StateOk(schema.cmp, limit, Part(input, partitionKey, k), states[k]) {
        PartApply(schema, before, ch, partitionKey, k);
      }
    }

    // ----- what fetches show between pushes

    lemma {:induction false} UpToMaxBoundFacts(nodes: seq<Node>)
      requires TotalOrder(schema.cmp) && Sorted(schema.cmp, nodes)
      requires forall key | key in states :: CoveredBy(schema.cmp, states[key].bound, maxBound)
      ensures Sorted(schema.cmp, UpToMaxBound(nodes))
      ensures forall x :: x in UpToMaxBound(nodes) <==> x in nodes && InSomeWindow(x.row)
    {
      hide Sorted, TotalOrder, CoveredBy, InSomeWindow;
      if nodes != [] {
        if maxBound.None? || schema.cmp(nodes[0].row, maxBound.value) > 0 {
          forall x | x in nodes ensures !InSomeWindow(x.row) {
            BehindMaxBound(nodes, x);
          }
          EmptySorted(schema.cmp);
        } else {
          TailFacts(schema.cmp, nodes);
          UpToMaxBoundFacts(nodes[1..]);
          HeadTail(nodes);
          SortedCons(schema.cmp, nodes, UpToMaxBound(nodes[1..]));
          ConsMembers(nodes[0], UpToMaxBound(nodes[1..]));
        }
      }
    }

    lemma BehindMaxBound(nodes: seq<Node>, x: Node)
      requires TotalOrder(schema.cmp) && Sorted(schema.cmp, nodes) && x in nodes
      requires maxBound.None? || schema.cmp(nodes[0].row, maxBound.value) > 0
      requires forall key | key in states :: CoveredBy(schema.cmp, states[key].bound, maxBound)
      ensures !InSomeWindow(x.row)
    {
      if InSomeWindow(x.row) {
        var bound := states[KeyOf(partitionKey, x.row)].bound.value;
        var i :| 0 <= i < |nodes| && nodes[i] == x;
        Transitive(schema.cmp, maxBound.value, nodes[0].row, x.row);
        if bound != maxBound.value { Transitive(schema.cmp, bound, maxBound.value, x.row); }
      }
    }

    /** A stored bound tells which nodes of the partition are in the window. */
    lemma BoundTellsWindow(t: seq<Node>, st: TakeState, x: Node)
      requires TotalOrder(schema.cmp) && Sorted(schema.cmp, t) && x in t && StateOk(schema.cmp, limit, t, st)
      ensures x in Window(limit, t) <==> st.bound.Some? && schema.cmp(st.bound.value, x.row) >= 0
    {
      MemberAt(schema.cmp, t, x);
      var p := Pos(schema.cmp, t, x.row);
      if st.bound.Some? {
        VersusBound(schema.cmp, t, st.size, st.bound.value, x.row);
        if p < st.size { assert Window(limit, t)[p] == x; }
        if x in Window(limit, t) {
          var i :| 0 <= i < |Window(limit, t)| && Window(limit, t)[i] == x;
          Distinct(schema.cmp, t);
        }
      }
    }

    /** The union of the hydrated windows is told by the stored bounds. */
    lemma ShownIsSomeWindow()
      requires Tracks(input)
      ensures Shown(limit, partitionKey, Hydrated(), input) == Filtered(input, SomeWindow())
    {
      forall x: Node | x in input
        ensures InWindow(limit, partitionKey, Hydrated(), input)(x) == SomeWindow()(x)
      {
        var key := KeyOf(partitionKey, x.row);
        FilteredFacts(schema.cmp, input, KeyIs(partitionKey, key));
        if key in states { BoundTellsWindow(Part(input, partitionKey, key), states[key], x); }
      }
      FilteredSame(input, InWindow(limit, partitionKey, Hydrated(), input), SomeWindow());
    }

    /** Seen as a whole, a fetch that is not bound to one partition shows the hydrated windows, in order:
        it answers as an input would that holds exactly their union. */
    lemma FetchShowsUnion(req: FetchRequest)
      requires Tracks(input) && !req.reverse
      ensures UpToMaxBound(Selected(schema.cmp, input, req)) ==
              Selected(schema.cmp, Shown(limit, partitionKey, Hydrated(), input), req)
    {
      var cmp, wanted, nodes := schema.cmp, Wanted(schema.cmp, req), Filtered(input, Wanted(schema.cmp, req));
      ShownIsSomeWindow();
      FiltersCommute(input, SomeWindow(), wanted);
      FilteredFacts(cmp, input, wanted);
      FilteredFacts(cmp, nodes, SomeWindow());
      UpToMaxBoundFacts(nodes);
      SortedUnique(cmp, UpToMaxBound(nodes), Filtered(nodes, SomeWindow()));
    }

    lemma {:induction false} UpToMaxBoundAll(nodes: seq<Node>)
      requires maxBound.Some? && forall n | n in nodes :: schema.cmp(n.row, maxBound.value) <= 0
      ensures UpToMaxBound(nodes) == Filtered(nodes, SomeWindow())
    {
      if nodes != [] { UpToMaxBoundAll(nodes[1..]); }
    }

    /** In reverse such a fetch begins at the far end, and stops at once when the first row there is behind
        every bound: it shows the reversed union exactly when that row is not, or none of the union is asked for. */
    lemma ReverseUnionIff(req: FetchRequest)
      requires Tracks(input) && req.reverse
      ensures var nodes := Selected(schema.cmp, input, req);
              var union := Selected(schema.cmp, Shown(limit, partitionKey, Hydrated(), input), req);
              UpToMaxBound(nodes) == union <==>
              union == [] || (nodes != [] && maxBound.Some? && schema.cmp(nodes[0].row, maxBound.value) <= 0)
    {
      hide Tracks, Shown, Sorted, TotalOrder, Filtered, SomeWindow, Wanted;
      var cmp, wanted, kept := schema.cmp, Wanted(schema.cmp, req), Filtered(input, Wanted(schema.cmp, req));
      TracksFacts(input);
      var nodes := Reversed(kept);
      ShownIsSomeWindow();
      FiltersCommute(input, SomeWindow(), wanted);
      FilteredReversed(kept, SomeWindow());
      FilteredFacts(cmp, input, wanted);
      if nodes != [] && maxBound.Some? && cmp(nodes[0].row, maxBound.value) <= 0 {
        ReversedMembers(kept);
        LastIsGreatest(cmp, kept, maxBound.value);
        UpToMaxBoundAll(nodes);
      }
    }

    static lemma LastIsGreatest(cmp: Comparator, s: seq<Node>, bound: Row)
      requires TotalOrder(cmp) && Sorted(cmp, s) && s != [] && cmp(s[|s| - 1].row, bound) <= 0
      ensures forall n | n in s :: cmp(n.row, bound) <= 0
    {
      forall i | 0 <= i < |s| ensures cmp(s[i].row, bound) <= 0 {
        if i < |s| - 1 { Transitive(cmp, s[i].row, s[|s| - 1].row, bound); }
      }
    }

    // ----- what fetches show at any moment, also while a row is hidden

    function Within(bound: Row, hidden: Option<Row>): Node -> bool {
      (n: Node) => schema.cmp(bound, n.row) >= 0 && (hidden.None? || schema.cmp(hidden.value, n.row) != 0)
    }

    lemma {:induction false} WhileWithinIs(bound: Row, hidden: Option<Row>, nodes: seq<Node>)
      requires TotalOrder(schema.cmp) && Sorted(schema.cmp, nodes)
      ensures WhileWithin(schema.cmp, bound, hidden, nodes) == Filtered(nodes, Within(bound, hidden))
    {
      if nodes != [] {
        TailFacts(schema.cmp, nodes);
        WhileWithinIs(bound, hidden, nodes[1..]);
        if schema.cmp(bound, nodes[0].row) < 0 {
          FilteredMembers(nodes, Within(bound, hidden));
          forall x | x in nodes ensures !Within(bound, hidden)(x) {
            var i :| 0 <= i < |nodes| && nodes[i] == x;
            if i > 0 { Transitive(schema.cmp, bound, nodes[0].row, x.row); }
          }
          NoMembers(Filtered(nodes, Within(bound, hidden)));
        }
      }
    }

    /** What a fetch that is bound to partition `key` would show of the input, if `hidden` were the hidden row. */
    function OfPartition(key: PartitionKey, hidden: Option<Row>, req: FetchRequest): seq<Node>
      reads this
    {
      if key in states && states[key].bound.Some?
        then WhileWithin(schema.cmp, states[key].bound.value, hidden,
                         Selected(schema.cmp, Part(input, partitionKey, key), req))
      else []
    }

    /** At every moment, in the middle of a push too: a fetch over partitions shows of each partition what a
        fetch of that partition would if no row were hidden. So at an emission made with a hidden row, the two
        differ in exactly that row: the fetch over partitions already shows the row that is about to come in. */
    lemma FetchOverPartitions(key: PartitionKey, req: FetchRequest, hidden: Row)
      requires TotalOrder(schema.cmp) && Sorted(schema.cmp, input) && !req.reverse
      requires forall k | k in states :: CoveredBy(schema.cmp, states[k].bound, maxBound)
      ensures var shown := Part(UpToMaxBound(Selected(schema.cmp, input, req)), partitionKey, key);
              && shown == OfPartition(key, None, req)
              && OfPartition(key, Some(hidden), req) == Filtered(shown, (n: Node) => schema.cmp(hidden, n.row) != 0)
    {
      hide TotalOrder, Sorted, CoveredBy, WhileWithin, UpToMaxBound;
      var nodes, some, of := Filtered(input, Wanted(schema.cmp, req)), SomeWindow(), KeyIs(partitionKey, key);
      var visible := (n: Node) => schema.cmp(hidden, n.row) != 0;
      FilteredFacts(schema.cmp, input, Wanted(schema.cmp, req));
      UpToMaxBoundFacts(nodes);
      FilteredFacts(schema.cmp, nodes, some);
      SortedUnique(schema.cmp, UpToMaxBound(nodes), Filtered(nodes, some));
      var mine := Filtered(nodes, of);
      FiltersCommute(input, Wanted(schema.cmp, req), of);
      FilteredFacts(schema.cmp, nodes, of);
      if key in states && states[key].bound.Some? {
        var bound := states[key].bound.value;
        WhileWithinIs(bound, None, mine);
        WhileWithinIs(bound, Some(hidden), mine);
        FilteredTwice(nodes, some, of, n => of(n) && Within(bound, None)(n));
        FilteredTwice(nodes, of, Within(bound, None), n => of(n) && Within(bound, None)(n));
        FilteredTwice(mine, Within(bound, None), visible, Within(bound, Some(hidden)));
      } else {
        FilteredMembers(nodes, some);
        FilteredMembers(Filtered(nodes, some), of);
        NoMembers(Filtered(Filtered(nodes, some), of));
      }
    }

    function SomeWindow(): Node -> bool
      reads this
    {
      var st := states;
      (n: Node) =>
        var key := KeyOf(partitionKey, n.row);
        key in st && st[key].bound.Some? && schema.cmp(st[key].bound.value, n.row) >= 0
    }

    // ----- one partition

    /** A fetch that is bound to one hydrated partition shows its window. */
    lemma FetchShowsPartition(row: Row)
      requires Tracks(input) && KeyOf(partitionKey, row) in states
      ensures var st, nodes := states[KeyOf(partitionKey, row)],
                Selected(schema.cmp, input, FetchRequest(PartitionConstraint(partitionKey, row), None, false));
              (if st.bound.None? then [] else WhileWithin(schema.cmp, st.bound.value, None, nodes))
                == Window(limit, Part(input, partitionKey, KeyOf(partitionKey, row)))
    {
      var key := KeyOf(partitionKey, row);
      PartIsConstrained(schema.cmp, input, partitionKey, row);
      FilteredFacts(schema.cmp, input, KeyIs(partitionKey, key));
      FetchShowsState(schema.cmp, limit, Part(input, partitionKey, key), states[key]);
    }

    /** The first fetch of a partition hydrates it and shows its window; the others keep theirs. */
    method Hydrate(row: Row) returns (r: seq<Node>)
      requires Tracks(input) && NoNulls(KeyOf(partitionKey, row)) && KeyOf(partitionKey, row) !in states
      modifies this`states, this`maxBound
      ensures Tracks(input)
      ensures r == Window(limit, Part(input, partitionKey, KeyOf(partitionKey, row)))
      ensures states.Keys == old(states).Keys + if limit > 0 then {KeyOf(partitionKey, row)} else {}
    {
      PartitionConstraintIsOnKey(partitionKey, row);
      PartIsConstrained(schema.cmp, input, partitionKey, row);
      ghost var key, oldStates, oldMax := KeyOf(partitionKey, row), states, maxBound;
      ghost var t := Part(input, partitionKey, key);
      r := Fetch(FetchRequest(PartitionConstraint(partitionKey, row), None, false));
      if limit > 0 {
        FreshState(t, r);
        forall k | k in oldStates ensures CoveredBy(schema.cmp, oldStates[k].bound, maxBound) {
          CoverMore(schema.cmp, oldStates[k].bound, oldMax, maxBound);
        }
      }
    }

    lemma FreshState(t: seq<Node>, r: seq<Node>)
      requires TotalOrder(schema.cmp) && r == Window(limit, t)
      ensures StateOk(schema.cmp, limit, t, TakeState(|r|, if r == [] then None else Some(r[|r| - 1].row)))
    {
      if r != [] { assert schema.cmp(r[|r| - 1].row, r[|r| - 1].row) == 0; }
    }
  }
}
