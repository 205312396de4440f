/** Join keys and the undo overlay of an in-progress child change (ivm/join_utils.go). */
module JoinUtils {
  import opened Values
  import opened Seqs
  import opened Views

  type Key = seq<string>
  type Constraint = map<string, Value>

  // ----- keys

  /** The values of a row in the columns of a key. */
  function KeyOf(key: Key, row: Row): seq<Value> {
    seq(|key|, i requires 0 <= i < |key| => Get(row, key[i]))
  }

  /** Equal on every key column; null counts as equal to null here. */
  predicate RowEqualsForKey(a: Row, b: Row, key: Key) {
    forall i | 0 <= i < |key| :: Get(a, key[i]) == Get(b, key[i])
  }

  predicate IsJoinMatch(parent: Row, parentKey: Key, child: Row, childKey: Key)
    requires |parentKey| == |childKey|
  {
    forall i | 0 <= i < |parentKey| :: ValuesEqual(Get(parent, parentKey[i]), Get(child, childKey[i]))
  }

  predicate ConstraintMatches(c: Constraint, row: Row) {
    forall k | k in c :: ValuesEqual(Get(row, k), c[k])
  }

  /** What the source's loop has filled in after `n` columns: of equal target columns the later wins. */
  function KeyMap(row: Row, sourceKey: Key, targetKey: Key, n: nat): Constraint
    requires |sourceKey| == |targetKey| && n <= |targetKey|
  {
    if n == 0 then map[] else KeyMap(row, sourceKey, targetKey, n - 1)[targetKey[n - 1] := Get(row, sourceKey[n - 1])]
  }

  function JoinConstraint(row: Row, sourceKey: Key, targetKey: Key): Option<Constraint>
    requires |sourceKey| == |targetKey|
  {
    if exists i | 0 <= i < |sourceKey| :: Get(row, sourceKey[i]).Null? then None
    else Some(KeyMap(row, sourceKey, targetKey, |targetKey|))
  }

  method BuildJoinConstraint(row: Row, sourceKey: Key, targetKey: Key) returns (c: Option<Constraint>)
    requires |sourceKey| == |targetKey|
    ensures c == JoinConstraint(row, sourceKey, targetKey)
  {
    var m: Constraint := map[];
    for i := 0 to |targetKey|
      invariant m == KeyMap(row, sourceKey, targetKey, i)
      invariant forall j | 0 <= j < i :: !Get(row, sourceKey[j]).Null?
    {
      var value := Get(row, sourceKey[i]);
      if value == Null { return None; }
      m := m[targetKey[i] := value];
    }
    return Some(m);
  }

  /** A target column that occurs twice stands for one source column. */
  ghost predicate Consistent(sourceKey: Key, targetKey: Key)
    requires |sourceKey| == |targetKey|
  {
    forall i, j | 0 <= i < |targetKey| && 0 <= j < |targetKey| && targetKey[i] == targetKey[j] ::
      sourceKey[i] == sourceKey[j]
  }

  /** Of source columns that are aimed at one target column the last one counts. */
  lemma {:induction false} LaterWins(row: Row, sourceKey: Key, targetKey: Key, n: nat, i: nat)
    requires |sourceKey| == |targetKey| && i < n <= |targetKey|
    requires forall k | i < k < n :: targetKey[k] != targetKey[i]
    ensures var m := KeyMap(row, sourceKey, targetKey, n);
            targetKey[i] in m && m[targetKey[i]] == Get(row, sourceKey[i])
  {
    if i < n - 1 { LaterWins(row, sourceKey, targetKey, n - 1, i); }
  }

  lemma {:induction false} KeyMapAt(row: Row, sourceKey: Key, targetKey: Key, n: nat)
    requires |sourceKey| == |targetKey| && n <= |targetKey|
    ensures forall i | 0 <= i < n :: targetKey[i] in KeyMap(row, sourceKey, targetKey, n)
    ensures forall k | k in KeyMap(row, sourceKey, targetKey, n) ::
              exists i :: 0 <= i < n && targetKey[i] == k
                          && KeyMap(row, sourceKey, targetKey, n)[k] == Get(row, sourceKey[i])
  {
    if n > 0 {
      KeyMapAt(row, sourceKey, targetKey, n - 1);
      var before, after := KeyMap(row, sourceKey, targetKey, n - 1), KeyMap(row, sourceKey, targetKey, n);
      forall k | k in after ensures exists i :: 0 <= i < n && targetKey[i] == k && after[k] == Get(row, sourceKey[i]) {
        if k == targetKey[n - 1] {
          assert after[k] == Get(row, sourceKey[n - 1]);
        } else {
          var i :| 0 <= i < n - 1 && targetKey[i] == k && before[k] == Get(row, sourceKey[i]);
          assert after[k] == before[k];
        }
      }
    }
  }

  /** The fetch constraint built from one side selects exactly the rows that join with it. */
  lemma ConstraintIsJoinMatch(row: Row, sourceKey: Key, other: Row, targetKey: Key)
    requires |sourceKey| == |targetKey| && Consistent(sourceKey, targetKey)
    ensures JoinConstraint(row, sourceKey, targetKey).Some?
            && ConstraintMatches(JoinConstraint(row, sourceKey, targetKey).value, other)
            <==> IsJoinMatch(row, sourceKey, other, targetKey)
  {
    var m := KeyMap(row, sourceKey, targetKey, |targetKey|);
    KeyMapAt(row, sourceKey, targetKey, |targetKey|);
    forall i | 0 <= i < |targetKey| ensures m[targetKey[i]] == Get(row, sourceKey[i]) {
      var j :| 0 <= j < |targetKey| && targetKey[j] == targetKey[i] && m[targetKey[i]] == Get(row, sourceKey[j]);
    }
    if JoinConstraint(row, sourceKey, targetKey).Some? && ConstraintMatches(m, other) {
      forall i | 0 <= i < |sourceKey| ensures ValuesEqual(Get(row, sourceKey[i]), Get(other, targetKey[i])) {
        assert targetKey[i] in m;
      }
    }
    if IsJoinMatch(row, sourceKey, other, targetKey) {
      forall k | k in m ensures ValuesEqual(Get(other, k), m[k]) {
        var i :| 0 <= i < |targetKey| && targetKey[i] == k && m[k] == Get(row, sourceKey[i]);
        assert ValuesEqual(Get(row, sourceKey[i]), Get(other, targetKey[i]));
      }
    }
  }

  /** A row that gives 2 to one column and 1 to every other column of `key`. */
  function Marked(key: Key, column: string): Row {
    map k | k in key :: if k == column then Num(2.0) else Num(1.0)
  }

  ghost predicate ConstraintMeansJoin(sourceKey: Key, targetKey: Key, row: Row, other: Row)
    requires |sourceKey| == |targetKey|
  {
    (JoinConstraint(row, sourceKey, targetKey).Some?
     && ConstraintMatches(JoinConstraint(row, sourceKey, targetKey).value, other))
    <==> IsJoinMatch(row, sourceKey, other, targetKey)
  }

  /** With two source columns aimed at one target column the loop drops one of them:
      the constraint then accepts a row that does not join. So for a pair of keys the constraint
      means the join on all rows if and only if the keys are Consistent. */
  lemma ConstraintIsJoinMatchIff(sourceKey: Key, targetKey: Key)
    requires |sourceKey| == |targetKey|
    ensures Consistent(sourceKey, targetKey) <==>
            forall row: Row, other: Row :: ConstraintMeansJoin(sourceKey, targetKey, row, other)
  {
    if Consistent(sourceKey, targetKey) {
      forall row: Row, other: Row ensures ConstraintMeansJoin(sourceKey, targetKey, row, other) {
        ConstraintIsJoinMatch(row, sourceKey, other, targetKey);
      }
    } else {
      var i, j :| 0 <= i < |targetKey| && 0 <= j < |targetKey| && targetKey[i] == targetKey[j]
        && sourceKey[i] != sourceKey[j];
      var row := Marked(sourceKey, sourceKey[i]);
      var other := KeyMap(row, sourceKey, targetKey, |targetKey|);
      KeyMapAt(row, sourceKey, targetKey, |targetKey|);
      assert JoinConstraint(row, sourceKey, targetKey) == Some(other);
      assert ConstraintMatches(other, other) by {
        forall k | k in other ensures ValuesEqual(Get(other, k), other[k]) {
          var h :| 0 <= h < |targetKey| && targetKey[h] == k && other[k] == Get(row, sourceKey[h]);
        }
      }
      assert Get(row, sourceKey[i]) == Num(2.0) && Get(row, sourceKey[j]) == Num(1.0);
      assert !(ValuesEqual(Get(row, sourceKey[i]), Get(other, targetKey[i]))
               && ValuesEqual(Get(row, sourceKey[j]), Get(other, targetKey[j])));
      assert !ConstraintMeansJoin(sourceKey, targetKey, row, other);
    }
  }

  lemma MatchIsSymmetric(a: Row, key: Key, b: Row, otherKey: Key)
    requires |key| == |otherKey|
    ensures IsJoinMatch(a, key, b, otherKey) <==> IsJoinMatch(b, otherKey, a, key)
  {
  }

  /** Rows that agree on the key join with the same rows. */
  lemma SameKeySameMatches(a: Row, b: Row, key: Key, other: Row, otherKey: Key)
    requires |key| == |otherKey| && RowEqualsForKey(a, b, key)
    ensures IsJoinMatch(a, key, other, otherKey) <==> IsJoinMatch(b, key, other, otherKey)
    ensures IsJoinMatch(other, otherKey, a, key) <==> IsJoinMatch(other, otherKey, b, key)
  {
  }

  // ----- undoing a change

  /** The list before the change, computed from the list after it. */
  ghost function Undo(sch: Schema, s: seq<Node>, ch: Change): seq<Node>
    decreases ch
  {
    match ch
    case Add(n) => Delete(sch.cmp, s, n.row)
    case Remove(n) => Insert(sch.cmp, s, n)
    case Edit(n, o) => Insert(sch.cmp, Delete(sch.cmp, s, n.row), o)
    case Child(n, rel, c) =>
      var p := Pos(sch.cmp, s, n.row);
      if Has(sch.cmp, s, n.row) && rel in sch.rels && rel in s[p].rels then
        s[p := Node(s[p].row, s[p].rels[rel := Undo(sch.rels[rel], s[p].rels[rel], c)])]
      else s
  }

  /** The list could be the result of the change. */
  ghost predicate Undoable(sch: Schema, s: seq<Node>, ch: Change)
    decreases ch
  {
    match ch
    case Add(n) => Has(sch.cmp, s, n.row)
    case Remove(n) => !Has(sch.cmp, s, n.row)
    case Edit(n, o) => Has(sch.cmp, s, n.row) && !Has(sch.cmp, Delete(sch.cmp, s, n.row), o.row)
    case Child(n, rel, c) =>
      && Has(sch.cmp, s, n.row)
      && rel in sch.rels && TotalOrder(sch.rels[rel].cmp)
      && var m := s[Pos(sch.cmp, s, n.row)];
      && rel in m.rels && Sorted(sch.rels[rel].cmp, m.rels[rel])
      && Undoable(sch.rels[rel], m.rels[rel], c)
  }

  /** The undo overlay is the exact inverse of every legal change, at every depth. */
  lemma {:induction false} UndoApply(sch: Schema, s: seq<Node>, ch: Change)
    requires TotalOrder(sch.cmp) && Sorted(sch.cmp, s) && Legal(sch, s, ch)
    ensures Undoable(sch, Apply(sch, s, ch), ch)
    ensures Undo(sch, Apply(sch, s, ch), ch) == s
    decreases ch
  {
    if !ch.Child? {
      UndoApplyFlat(sch, s, ch);
    } else {
      var m := s[Pos(sch.cmp, s, ch.node.row)];
      var inner := sch.rels[ch.rel];
      UndoApply(inner, m.rels[ch.rel], ch.change);
      ApplyFacts(inner, m.rels[ch.rel], ch.change);
      UndoApplyChild(sch, s, ch);
    }
  }

  lemma UndoApplyFlat(sch: Schema, s: seq<Node>, ch: Change)
    requires TotalOrder(sch.cmp) && Sorted(sch.cmp, s) && Legal(sch, s, ch) && !ch.Child?
    ensures Undoable(sch, Apply(sch, s, ch), ch)
    ensures Undo(sch, Apply(sch, s, ch), ch) == s
  {
    ApplyFacts(sch, s, ch);
    LegalDelta(sch, s, ch);
    UndoOne(sch.cmp, s, Pre(sch, s, ch), Post(ch), Apply(sch, s, ch));
  }

  lemma UndoApplyChild(sch: Schema, s: seq<Node>, ch: Change)
    requires TotalOrder(sch.cmp) && Sorted(sch.cmp, s) && Legal(sch, s, ch) && ch.Child?
    requires var m := s[Pos(sch.cmp, s, ch.node.row)];
             Undoable(sch.rels[ch.rel], ch.node.rels[ch.rel], ch.change)
               && Undo(sch.rels[ch.rel], ch.node.rels[ch.rel], ch.change) == m.rels[ch.rel]
    requires Sorted(sch.rels[ch.rel].cmp, ch.node.rels[ch.rel])
    ensures Undoable(sch, Apply(sch, s, ch), ch)
    ensures Undo(sch, Apply(sch, s, ch), ch) == s
  {
    var n, rel, p := ch.node, ch.rel, Pos(sch.cmp, s, ch.node.row);
    var m := s[p];
    var t := s[p := n];
    assert Apply(sch, s, ch) == t;
    assert t[p] == n;
    ReplaceFacts(sch.cmp, s, p, n);
    PosIsUnique(sch.cmp, t, p, n.row);
    MapUpdateTwice(m.rels, rel, n.rels[rel]);
    assert Undo(sch, t, ch) == t[p := m];
    UpdateTwice(s, p, n);
  }

  lemma UndoOne(cmp: Comparator, s: seq<Node>, pre: Option<Node>, post: Option<Node>, t: seq<Node>)
    requires TotalOrder(cmp) && Sorted(cmp, s) && Sorted(cmp, t) && Replaces(s, pre, post, t)
    requires post.Some? ==> forall x | x in s && pre != Some(x) :: cmp(x.row, post.value.row) != 0
    ensures post.Some? ==> Has(cmp, t, post.value.row)
    ensures var d := if post.Some? then Delete(cmp, t, post.value.row) else t;
            if pre.Some? then !Has(cmp, d, pre.value.row) && Insert(cmp, d, pre.value) == s else d == s
  {
    var d := t;
    if post.Some? {
      var n := post.value;
      MemberAt(cmp, t, n);
      d := Delete(cmp, t, n.row);
      DeleteFacts(cmp, t, n.row);
      assert cmp(n.row, n.row) == 0;
    }
    assert forall x :: x in d <==> x in s && pre != Some(x);
    if pre.Some? {
      forall x | x in d && cmp(x.row, pre.value.row) == 0 ensures false {
        SamePositionSameNode(cmp, s, x, pre.value);
      }
      HasMeansMember(cmp, d, pre.value.row);
      InsertFacts(cmp, d, pre.value);
      SortedUnique(cmp, Insert(cmp, d, pre.value), s);
    } else {
      SortedUnique(cmp, d, s);
    }
  }

  // ----- the overlay loop

  ghost function Without<T>(s: seq<T>, b: nat): seq<T> {
    if b < |s| then RemoveAt(s, b) else s
  }

  ghost function Slot(a: nat, b: nat): nat {
    if b < a then a - 1 else a
  }

  /** `s` without element `b` (if `b` is an index) and with `x` in front of element `a` (if `a` is at most |s|). */
  ghost function Woven<T>(s: seq<T>, a: nat, x: T, b: nat): seq<T>
    requires b <= |s|
  {
    if a <= |s| then InsertAt(Without(s, b), Slot(a, b), x) else Without(s, b)
  }

  /** How much of it is there before element `i` is visited. */
  ghost function Done(i: nat, a: nat, b: nat): nat {
    i - (if b < i then 1 else 0) + (if a < i then 1 else 0)
  }

  ghost predicate Shape<T>(s: seq<T>, a: nat, x: T, b: nat, w: seq<T>) {
    && |w| == Done(|s|, a, b) + (if a == |s| then 1 else 0)
    && (a <= |s| ==> Done(a, a, b) < |w| && w[Done(a, a, b)] == x)
    && forall i {:trigger s[i]} | 0 <= i < |s| && i != b ::
      0 < Done(i + 1, a, b) <= |w| && w[Done(i + 1, a, b) - 1] == s[i]
  }

  lemma WovenShape<T>(s: seq<T>, a: nat, x: T, b: nat)
    requires b <= |s|
    ensures Shape(s, a, x, b, Woven(s, a, x, b))
  {
    var d, w := Without(s, b), Woven(s, a, x, b);
    forall i | 0 <= i < |s| && i != b ensures 0 < Done(i + 1, a, b) <= |w| && w[Done(i + 1, a, b) - 1] == s[i] {
      var k := if b < i then i - 1 else i;
      assert d[k] == s[i];
      if a <= |s| { assert w[if k < Slot(a, b) then k else k + 1] == d[k]; }
    }
  }

  lemma TakeOneMore<T>(w: seq<T>, d: nat)
    requires d < |w|
    ensures w[..d] + [w[d]] == w[..d + 1]
  {
  }

  /** The number of leading nodes that do not sort after `row`. */
  ghost function UpperPos(cmp: Comparator, s: seq<Node>, row: Row, i: nat): (p: nat)
    requires i <= |s|
    ensures i <= p <= |s|
    ensures forall k | i <= k < p :: cmp(row, s[k].row) >= 0
    ensures p < |s| ==> cmp(row, s[p].row) < 0
    decreases |s| - i
  {
    if i == |s| || cmp(row, s[i].row) < 0 then i else UpperPos(cmp, s, row, i + 1)
  }

  lemma UpperPosSplits(cmp: Comparator, s: seq<Node>, row: Row)
    requires TotalOrder(cmp) && Sorted(cmp, s)
    ensures forall i | 0 <= i < |s| :: cmp(row, s[i].row) < 0 <==> UpperPos(cmp, s, row, 0) <= i
  {
    var p := UpperPos(cmp, s, row, 0);
    forall i | p < i < |s| ensures cmp(row, s[i].row) < 0 {
      Transitive(cmp, row, s[p].row, s[i].row);
    }
  }

  /** Inserting at the slot that the loop finds is inserting in sort position. */
  lemma SlotIsPos(cmp: Comparator, s: seq<Node>, b: nat, d: seq<Node>, n: Node)
    requires TotalOrder(cmp) && Sorted(cmp, s) && b <= |s| && d == Without(s, b)
    requires Sorted(cmp, d) && !Has(cmp, d, n.row)
    ensures Slot(UpperPos(cmp, s, n.row, 0), b) == Pos(cmp, d, n.row)
  {
    var a := UpperPos(cmp, s, n.row, 0);
    UpperPosSplits(cmp, s, n.row);
    AfterPos(cmp, d, n.row);
    SlotIsBetween(cmp, s, a, b, d, n);
    PosBetween(cmp, d, Slot(a, b), n.row);
  }

  lemma SlotIsBetween(cmp: Comparator, s: seq<Node>, a: nat, b: nat, d: seq<Node>, n: Node)
    requires TotalOrder(cmp) && a <= |s| && b <= |s| && d == Without(s, b)
    requires forall i | 0 <= i < |s| :: cmp(n.row, s[i].row) < 0 <==> a <= i
    requires forall i | 0 <= i < |d| :: cmp(d[i].row, n.row) != 0
    ensures Slot(a, b) <= |d|
    ensures Slot(a, b) > 0 ==> cmp(d[Slot(a, b) - 1].row, n.row) < 0
    ensures Slot(a, b) < |d| ==> cmp(d[Slot(a, b)].row, n.row) >= 0
  {
    var q := Slot(a, b);
    if q > 0 {
      assert d[q - 1] == s[if b < q then q else q - 1];
    }
    if q < |d| {
      assert d[q] == s[if b <= q then q + 1 else q];
    }
  }

  /** The lists that the overlay code is used on: sorted, down to the relationship that changes. */
  ghost predicate Ready(sch: Schema, s: seq<Node>, ch: Change)
    decreases ch
  {
    && TotalOrder(sch.cmp) && Sorted(sch.cmp, s)
    && (ch.Child? && Has(sch.cmp, s, ch.node.row) ==>
          var m := s[Pos(sch.cmp, s, ch.node.row)];
          ch.rel in sch.rels && ch.rel in m.rels ==> Ready(sch.rels[ch.rel], m.rels[ch.rel], ch.change))
  }

  /** The code finds what it looks for, at every depth. */
  ghost predicate Applies(sch: Schema, s: seq<Node>, ch: Change)
    decreases ch
  {
    match ch
    case Add(n) => Has(sch.cmp, s, n.row)
    case Remove(_) => true
    case Edit(n, _) => Has(sch.cmp, s, n.row)
    case Child(n, rel, c) =>
      && Has(sch.cmp, s, n.row) && rel in sch.rels
      && var m := s[Pos(sch.cmp, s, n.row)];
      && rel in m.rels && Applies(sch.rels[rel], m.rels[rel], c)
  }

  lemma {:induction false} UndoableIsReady(sch: Schema, s: seq<Node>, ch: Change)
    requires TotalOrder(sch.cmp) && Sorted(sch.cmp, s) && Undoable(sch, s, ch)
    ensures Ready(sch, s, ch) && Applies(sch, s, ch)
    decreases ch
  {
    if ch.Child? {
      UndoableIsReady(sch.rels[ch.rel], s[Pos(sch.cmp, s, ch.node.row)].rels[ch.rel], ch.change);
    }
  }

  /** The loop drops the node at `b` and puts PutBack(overlay) in front of index `a`. */
  ghost predicate Places(nodes: seq<Node>, overlay: Change, cmp: Comparator, a: nat, b: nat) {
    && b <= |nodes|
    && (overlay.Remove? ==> b == |nodes|)
    && (!overlay.Remove? ==> forall i | 0 <= i < |nodes| :: cmp(overlay.node.row, nodes[i].row) == 0 <==> i == b)
    && (overlay.Remove? || overlay.Edit? ==>
          a <= |nodes| && forall i | 0 <= i < |nodes| :: cmp(PutBack(overlay).row, nodes[i].row) < 0 <==> a <= i)
    && (overlay.Add? || overlay.Child? ==> a == |nodes| + 1)
  }

  ghost function PutBack(overlay: Change): Node {
    if overlay.Edit? then overlay.oldNode else overlay.node
  }

  lemma OverlayPlan(nodes: seq<Node>, overlay: Change, cmp: Comparator) returns (a: nat, b: nat)
    requires TotalOrder(cmp) && Sorted(cmp, nodes)
    ensures Places(nodes, overlay, cmp, a, b)
    ensures !overlay.Remove? ==> (b < |nodes| <==> Has(cmp, nodes, overlay.node.row))
    ensures !overlay.Remove? && b < |nodes| ==> b == Pos(cmp, nodes, overlay.node.row)
    ensures overlay.Remove? || overlay.Edit? ==> a == UpperPos(cmp, nodes, PutBack(overlay).row, 0)
  {
    AfterPos(cmp, nodes, overlay.node.row);
    UpperPosSplits(cmp, nodes, PutBack(overlay).row);
    b := if !overlay.Remove? && Has(cmp, nodes, overlay.node.row) then Pos(cmp, nodes, overlay.node.row) else |nodes|;
    a := if overlay.Remove? || overlay.Edit? then UpperPos(cmp, nodes, PutBack(overlay).row, 0) else |nodes| + 1;
  }

  /** What the loop builds is the undone list. */
  lemma WovenIsUndo(nodes: seq<Node>, overlay: Change, schema: Schema, a: nat, b: nat)
    requires TotalOrder(schema.cmp) && Sorted(schema.cmp, nodes) && !overlay.Child? && Undoable(schema, nodes, overlay)
    requires Places(nodes, overlay, schema.cmp, a, b)
    requires !overlay.Remove? ==> b == Pos(schema.cmp, nodes, overlay.node.row)
    requires overlay.Remove? || overlay.Edit? ==> a == UpperPos(schema.cmp, nodes, PutBack(overlay).row, 0)
    ensures Undo(schema, nodes, overlay) == Woven(nodes, a, PutBack(overlay), b)
  {
    match overlay
    case Add(_) =>
    case Remove(n) => SlotIsPos(schema.cmp, nodes, b, nodes, n);
    case Edit(n, was) =>
      DeleteFacts(schema.cmp, nodes, n.row);
      SlotIsPos(schema.cmp, nodes, b, Without(nodes, b), was);
  }

  /** The loop. A child overlay leaves the list as it is and reports the node whose
      relationship stream it replaces; None is a panic. */
  method OverlayLoop(nodes: seq<Node>, overlay: Change, cmp: Comparator, ghost a: nat, ghost b: nat, ghost w: seq<Node>)
    returns (r: Option<seq<Node>>, changed: nat)
    requires Places(nodes, overlay, cmp, a, b)
    requires Shape(nodes, a, PutBack(overlay), b, w)
    ensures r.None? <==> !overlay.Remove? && b == |nodes|
    ensures r.Some? && overlay.Child? ==> r.value == nodes && changed == b
    ensures r.Some? && !overlay.Child? ==> r.value == w
  {
    changed := 0;
    var result: seq<Node> := [];
    var applied, editOldApplied, editNewApplied := false, false, false;
    for i := 0 to |nodes|
      invariant applied == match overlay
                           case Remove(_) => a < i
                           case Edit(_, _) => editOldApplied && editNewApplied
                           case _ => b < i
      invariant overlay.Edit? ==> editOldApplied == (a < i) && editNewApplied == (b < i)
      invariant overlay.Child? ==> result == nodes[..i] && (b < i ==> changed == b)
      invariant !overlay.Child? ==> Done(i, a, b) <= |w| && result == w[..Done(i, a, b)]
    {
      var node := nodes[i];
      var yieldNode := true;
      if !applied {
        match overlay
        case Add(added) =>
          if cmp(added.row, node.row) == 0 {
            applied, yieldNode := true, false;
          }
        case Remove(removed) =>
          if cmp(removed.row, node.row) < 0 {
            applied := true;
            result := result + [removed];
          }
        case Edit(added, removed) =>
          if !editOldApplied && cmp(removed.row, node.row) < 0 {
            editOldApplied := true;
            if editNewApplied { applied := true; }
            result := result + [removed];
          }
          if !editNewApplied && cmp(added.row, node.row) == 0 {
            editNewApplied := true;
            if editOldApplied { applied := true; }
            yieldNode := false;
          }
        case Child(child, _, _) =>
          if cmp(child.row, node.row) == 0 {
            applied, changed, yieldNode := true, i, false;
            result := result + [node];
          }
      }
      if !overlay.Child? && a == i { TakeOneMore(w, Done(i, a, b)); }
      if !overlay.Child? && b != i { TakeOneMore(w, Done(i + 1, a, b) - 1); }
      if yieldNode {
        result := result + [node];
      }
    }
    if a == |nodes| { TakeOneMore(w, Done(|nodes|, a, b)); }
    if !applied {
      if overlay.Remove? {
        applied := true;
        result := result + [overlay.node];
      } else if overlay.Edit? {
        if !editNewApplied { return None, changed; }
        editOldApplied := true;
        applied := true;
        result := result + [overlay.oldNode];
      }
    }
    if !applied { return None, changed; }
    return Some(result), changed;
  }

  /** Undoes a change on a sorted list; None is a panic. It panics exactly when the changed node
      is not in the list, and on every list that the change can have produced it gives the list
      from before the change. */
  method GenerateWithOverlay(nodes: seq<Node>, overlay: Change, schema: Schema) returns (r: Option<seq<Node>>)
    requires Ready(schema, nodes, overlay)
    ensures r.None? <==> !Applies(schema, nodes, overlay)
    ensures Undoable(schema, nodes, overlay) ==> r == Some(Undo(schema, nodes, overlay))
    decreases overlay
  {
    ghost var a, b := OverlayPlan(nodes, overlay, schema.cmp);
    var changed;
    WovenShape(nodes, a, PutBack(overlay), b);
    r, changed := OverlayLoop(nodes, overlay, schema.cmp, a, b, Woven(nodes, a, PutBack(overlay), b));
    if overlay.Child? && r.Some? {
      var node := nodes[changed];
      if overlay.rel !in schema.rels || overlay.rel !in node.rels { return None; }
      var inner := GenerateWithOverlay(node.rels[overlay.rel], overlay.change, schema.rels[overlay.rel]);
      if inner.None? { return None; }
      return Some(nodes[changed := Node(node.row, node.rels[overlay.rel := inner.value])]);
    }
    if !overlay.Child? && Undoable(schema, nodes, overlay) {
      WovenIsUndo(nodes, overlay, schema, a, b);
    }
  }
}
