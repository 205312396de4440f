/** Merging the sorted answers of several branches into one, without repeats (ivm/union_fan_in.go). */
module UnionFanIn {
  import opened Values
  import opened Views

  /** How many nodes are still to be merged. */
  function Remaining(fetches: seq<seq<Node>>, positions: seq<nat>): nat
    requires |positions| == |fetches| && forall i | 0 <= i < |fetches| :: positions[i] <= |fetches[i]|
  {
    if fetches == [] then 0 else |fetches[0]| - positions[0] + Remaining(fetches[1..], positions[1..])
  }

  lemma {:induction false} RemainingDrops(fetches: seq<seq<Node>>, positions: seq<nat>, i: nat)
    requires |positions| == |fetches| && (forall i | 0 <= i < |fetches| :: positions[i] <= |fetches[i]|)
    requires i < |fetches| && positions[i] < |fetches[i]|
    ensures Remaining(fetches, positions[i := positions[i] + 1]) < Remaining(fetches, positions)
  {
    if i > 0 {
      RemainingDrops(fetches[1..], positions[1..], i - 1);
      assert positions[i := positions[i] + 1][1..] == positions[1..][i - 1 := positions[i] + 1];
    } else {
      assert positions[0 := positions[0] + 1][1..] == positions[1..];
    }
  }

  ghost predicate Heads(cmp: Comparator, fetches: seq<seq<Node>>, positions: seq<nat>) {
    && TotalOrder(cmp) && |positions| == |fetches|
    && forall i | 0 <= i < |fetches| :: positions[i] <= |fetches[i]| && Sorted(cmp, fetches[i])
  }

  /** The first branch, in order, whose next node sorts before the next node of no other. */
  method FindMin(fetches: seq<seq<Node>>, positions: seq<nat>, cmp: Comparator) returns (min: Option<Node>, index: nat)
    requires Heads(cmp, fetches, positions)
    ensures min.None? ==> forall i | 0 <= i < |fetches| :: positions[i] == |fetches[i]|
    ensures min.Some? ==>
              index < |fetches| && positions[index] < |fetches[index]| && min.value == fetches[index][positions[index]]
    ensures min.Some? ==>
              forall i | 0 <= i < |fetches| && positions[i] < |fetches[i]| ::
                cmp(min.value.row, fetches[i][positions[i]].row) <= 0
  {
    min, index := None, 0;
    for i := 0 to |fetches|
      invariant min.None? ==> forall k | 0 <= k < i :: positions[k] == |fetches[k]|
      invariant min.Some? ==>
                  index < i && positions[index] < |fetches[index]| && min.value == fetches[index][positions[index]]
      invariant min.Some? ==>
                  forall k | 0 <= k < i && positions[k] < |fetches[k]| ::
                    cmp(min.value.row, fetches[k][positions[k]].row) <= 0
    {
      if positions[i] >= |fetches[i]| { continue; }
      var node := fetches[i][positions[i]];
      if min.None? || cmp(node.row, min.value.row) < 0 {
        if min.Some? {
          forall k | 0 <= k < i && positions[k] < |fetches[k]|
            ensures cmp(node.row, fetches[k][positions[k]].row) <= 0 {
            Transitive(cmp, node.row, min.value.row, fetches[k][positions[k]].row);
          }
        }
        assert cmp(node.row, node.row) == 0;
        min, index := Some(node), i;
      }
    }
  }

  /** The node is in front of the position of its branch. */
  ghost predicate Consumed(fetches: seq<seq<Node>>, positions: seq<nat>, x: Node)
    requires |positions| == |fetches| && forall i | 0 <= i < |fetches| :: positions[i] <= |fetches[i]|
  {
    exists i, k :: 0 <= i < |fetches| && 0 <= k < positions[i] && fetches[i][k] == x
  }

  lemma ConsumedStays(fetches: seq<seq<Node>>, positions: seq<nat>, next: seq<nat>, x: Node)
    requires |positions| == |next| == |fetches|
             && forall i | 0 <= i < |fetches| :: positions[i] <= next[i] <= |fetches[i]|
    requires Consumed(fetches, positions, x)
    ensures Consumed(fetches, next, x)
  {
    var i, k :| 0 <= i < |fetches| && 0 <= k < positions[i] && fetches[i][k] == x;
    assert k < next[i];
  }

  lemma StandsMore(cmp: Comparator, s: seq<Node>, n: Node, x: Node)
    requires Stands(cmp, s, x)
    ensures Stands(cmp, s + [n], x)
  {
    var y :| y in s && cmp(y.row, x.row) == 0;
    assert y in s + [n];
  }

  lemma StandsLast(cmp: Comparator, s: seq<Node>, x: Node)
    requires s != [] && cmp(s[|s| - 1].row, x.row) == 0
    ensures Stands(cmp, s, x)
  {
    assert s[|s| - 1] in s;
  }

  /** The merge has dealt with the nodes in front of the positions, and shows one node for each. */
  ghost predicate Merged(cmp: Comparator, fetches: seq<seq<Node>>, positions: seq<nat>, result: seq<Node>)
    requires Heads(cmp, fetches, positions)
  {
    && Sorted(cmp, result)
    && (forall x | x in result :: Consumed(fetches, positions, x))
    && (forall i, k | 0 <= i < |fetches| && 0 <= k < positions[i] :: Stands(cmp, result, fetches[i][k]))
    && (result != [] ==> forall i, k | 0 <= i < |fetches| && positions[i] <= k < |fetches[i]| ::
        cmp(result[|result| - 1].row, fetches[i][k].row) <= 0)
  }

  ghost predicate Stands(cmp: Comparator, s: seq<Node>, x: Node) {
    exists y :: y in s && cmp(y.row, x.row) == 0
  }

  lemma MinIsLeast(cmp: Comparator, fetches: seq<seq<Node>>, positions: seq<nat>, min: Node, i: nat, k: nat)
    requires Heads(cmp, fetches, positions) && i < |fetches| && positions[i] <= k < |fetches[i]|
    requires forall i | 0 <= i < |fetches| && positions[i] < |fetches[i]| ::
               cmp(min.row, fetches[i][positions[i]].row) <= 0
    ensures cmp(min.row, fetches[i][k].row) <= 0
  {
    if k > positions[i] { Transitive(cmp, min.row, fetches[i][positions[i]].row, fetches[i][k].row); }
  }

  /** The next node is a repeat of the last one. */
  lemma SkipRepeat(cmp: Comparator, fetches: seq<seq<Node>>, positions: seq<nat>, result: seq<Node>, index: nat,
                   next: seq<nat>)
    requires Heads(cmp, fetches, positions) && Merged(cmp, fetches, positions, result) && index < |fetches|
             && positions[index] < |fetches[index]|
    requires next == positions[index := positions[index] + 1]
    requires result != [] && cmp(result[|result| - 1].row, fetches[index][positions[index]].row) == 0
    ensures Heads(cmp, fetches, next) && Merged(cmp, fetches, next, result)
  {
    hide TotalOrder, Sorted, Stands, Consumed;
    StandsLast(cmp, result, fetches[index][positions[index]]);
    forall i, k | 0 <= i < |fetches| && 0 <= k < next[i] ensures Stands(cmp, result, fetches[i][k]) {
      if k >= positions[i] { assert i == index && k == positions[index]; }
    }
    forall x | x in result ensures Consumed(fetches, next, x) {
      ConsumedStays(fetches, positions, next, x);
    }
  }

  /** The next node is new. */
  lemma TakeNew(cmp: Comparator, fetches: seq<seq<Node>>, positions: seq<nat>, result: seq<Node>, index: nat,
                next: seq<nat>, min: Node)
    requires Heads(cmp, fetches, positions) && Merged(cmp, fetches, positions, result) && index < |fetches|
             && positions[index] < |fetches[index]|
    requires next == positions[index := positions[index] + 1] && min == fetches[index][positions[index]]
    requires result != [] ==> cmp(result[|result| - 1].row, min.row) != 0
    requires forall i | 0 <= i < |fetches| && positions[i] < |fetches[i]| ::
               cmp(min.row, fetches[i][positions[i]].row) <= 0
    ensures Heads(cmp, fetches, next) && Merged(cmp, fetches, next, result + [min])
  {
    hide TotalOrder, Sorted, Stands, Consumed;
    var r := result + [min];
    NewComes(cmp, fetches, positions, result, index, min);
    StandsLast(cmp, r, min);
    forall i, k | 0 <= i < |fetches| && 0 <= k < next[i] ensures Stands(cmp, r, fetches[i][k]) {
      if k < positions[i] {
        StandsMore(cmp, result, min, fetches[i][k]);
      } else {
        assert i == index && k == positions[index];
      }
    }
    NewConsumed(fetches, next, index, min);
    forall x | x in r ensures Consumed(fetches, next, x) {
      if x in result { ConsumedStays(fetches, positions, next, x); }
    }
    forall i, k | 0 <= i < |fetches| && next[i] <= k < |fetches[i]| ensures cmp(min.row, fetches[i][k].row) <= 0 {
      MinIsLeast(cmp, fetches, positions, min, i, k);
    }
  }

  lemma NewConsumed(fetches: seq<seq<Node>>, next: seq<nat>, index: nat, min: Node)
    requires |next| == |fetches| && (forall i | 0 <= i < |fetches| :: next[i] <= |fetches[i]|)
    requires index < |fetches| && 0 < next[index] && fetches[index][next[index] - 1] == min
    ensures Consumed(fetches, next, min)
  {
  }

  lemma NewComes(cmp: Comparator, fetches: seq<seq<Node>>, positions: seq<nat>, result: seq<Node>, index: nat,
                 min: Node)
    requires Heads(cmp, fetches, positions) && Merged(cmp, fetches, positions, result) && index < |fetches|
             && positions[index] < |fetches[index]|
    requires min == fetches[index][positions[index]] && (result != [] ==> cmp(result[|result| - 1].row, min.row) != 0)
    ensures Sorted(cmp, result + [min]) && cmp(min.row, min.row) == 0
  {
    NewSorted(cmp, result, min);
  }

  lemma NewSorted(cmp: Comparator, result: seq<Node>, min: Node)
    requires TotalOrder(cmp) && Sorted(cmp, result)
    requires result != [] ==> cmp(result[|result| - 1].row, min.row) < 0
    ensures Sorted(cmp, result + [min])
  {
    forall i | 0 <= i < |result| ensures cmp(result[i].row, min.row) < 0 {
      if i < |result| - 1 { Transitive(cmp, result[i].row, result[|result| - 1].row, min.row); }
    }
  }

  /** The merge of forward fetches: in order, without repeats, with a node at every position at which
      some branch has one, and nothing that no branch has. */
  method MergeFetches(fetches: seq<seq<Node>>, cmp: Comparator) returns (result: seq<Node>)
    requires TotalOrder(cmp) && forall i | 0 <= i < |fetches| :: Sorted(cmp, fetches[i])
    ensures Sorted(cmp, result)
    ensures forall x | x in result :: exists i :: 0 <= i < |fetches| && x in fetches[i]
    ensures forall i, x | 0 <= i < |fetches| && x in fetches[i] :: Stands(cmp, result, x)
  {
    hide Merged, Sorted, TotalOrder, Stands;
    var positions := seq(|fetches|, i => 0);
    result := [];
    NothingMerged(cmp, fetches, positions);
    while true
      invariant Heads(cmp, fetches, positions) && Merged(cmp, fetches, positions, result)
      decreases Remaining(fetches, positions)
    {
      var min, index := FindMin(fetches, positions, cmp);
      if min.None? { break; }
      var next := positions[index := positions[index] + 1];
      RemainingDrops(fetches, positions, index);
      if result != [] && cmp(result[|result| - 1].row, min.value.row) == 0 {
        SkipRepeat(cmp, fetches, positions, result, index, next);
      } else {
        TakeNew(cmp, fetches, positions, result, index, next, min.value);
        result := result + [min.value];
      }
      positions := next;
    }
    AllMerged(cmp, fetches, positions, result);
  }

  lemma NothingMerged(cmp: Comparator, fetches: seq<seq<Node>>, positions: seq<nat>)
    requires TotalOrder(cmp) && (forall i | 0 <= i < |fetches| :: Sorted(cmp, fetches[i]))
    requires |positions| == |fetches| && forall i | 0 <= i < |fetches| :: positions[i] == 0
    ensures Heads(cmp, fetches, positions) && Merged(cmp, fetches, positions, [])
  {
  }

  lemma AllMerged(cmp: Comparator, fetches: seq<seq<Node>>, positions: seq<nat>, result: seq<Node>)
    requires Heads(cmp, fetches, positions) && Merged(cmp, fetches, positions, result)
    requires forall i | 0 <= i < |fetches| :: positions[i] == |fetches[i]|
    ensures Sorted(cmp, result)
    ensures forall x | x in result :: exists i :: 0 <= i < |fetches| && x in fetches[i]
    ensures forall i, x | 0 <= i < |fetches| && x in fetches[i] :: Stands(cmp, result, x)
  {
    forall x | x in result ensures exists i :: 0 <= i < |fetches| && x in fetches[i] {
      assert Consumed(fetches, positions, x);
    }
    forall i, x | 0 <= i < |fetches| && x in fetches[i] ensures Stands(cmp, result, x) {
      var k :| 0 <= k < |fetches[i]| && fetches[i][k] == x;
    }
  }

  /** When branches that have a row at one position have the same node there, the merge is the union. */
  lemma MergeIsUnion(fetches: seq<seq<Node>>, cmp: Comparator, result: seq<Node>, union: seq<Node>)
    requires TotalOrder(cmp) && Sorted(cmp, result) && Sorted(cmp, union)
    requires forall x :: x in union <==> exists i :: 0 <= i < |fetches| && x in fetches[i]
    requires forall x | x in result :: exists i :: 0 <= i < |fetches| && x in fetches[i]
    requires forall i, x | 0 <= i < |fetches| && x in fetches[i] :: Stands(cmp, result, x)
    ensures result == union
  {
    forall x | x in union ensures x in result {
      var i :| 0 <= i < |fetches| && x in fetches[i];
      assert Stands(cmp, result, x);
      var y :| y in result && cmp(y.row, x.row) == 0;
      SamePositionSameNode(cmp, union, x, y);
    }
    SortedUnique(cmp, result, union);
  }
}
