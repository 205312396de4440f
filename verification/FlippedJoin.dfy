/** The flipped join: an inner join that starts from the children and merges the parents that each of
    them fetches (ivm/flipped_join.go), between pushes. */
module FlippedJoin {
  import opened Values
  import opened Seqs
  import opened Views
  import opened JoinUtils
  import opened Fetching
  import opened JoinSpec

  // ----- from a constraint on parents to one on children

  function IndexOf(key: Key, column: string): (i: nat)
    ensures i <= |key| && (i < |key| ==> key[i] == column) && (i == |key| <==> column !in key)
  {
    if key == [] then 0 else if key[0] == column then 0 else 1 + IndexOf(key[1..], column)
  }

  /** The child's column for a column of the parent key. */
  function Target(j: Correlation, column: string): string
    requires |j.parentKey| == |j.childKey| && column in j.parentKey
  {
    j.childKey[IndexOf(j.parentKey, column)]
  }

  /** The columns of `done` that are join columns are carried over to the child's columns. */
  ghost predicate Translates(j: Correlation, c: Constraint, done: set<string>, m: Constraint)
    requires |j.parentKey| == |j.childKey| && done <= c.Keys
  {
    && (forall k | k in done && k in j.parentKey :: Target(j, k) in m && m[Target(j, k)] == c[k])
    && forall i | i in m :: exists k :: k in done && k in j.parentKey && Target(j, k) == i
  }

  method ChildConstraint(j: Correlation, c: Constraint) returns (m: Option<Constraint>)
    requires ValidKeys(j)
    ensures Translates(j, c, c.Keys, m.GetOr(map[]))
  {
    hide Consistent, Translates;
    var hasChildConstraint := false;
    TranslatesNone(j, c);
    var built: Constraint := map[];
    var keys := c.Keys;
    ghost var done := {};
    while keys != {}
      invariant done + keys == c.Keys && done !! keys
      invariant Translates(j, c, done, built) && (!hasChildConstraint ==> built == map[])
      decreases |keys|
    {
      var key :| key in keys;
      keys := keys - {key};
      ghost var was, before := built, done;
      done := done + {key};
      var idx := IndexOf(j.parentKey, key);
      if idx != |j.parentKey| {
        hasChildConstraint := true;
        built := built[j.childKey[idx] := c[key]];
      }
      TranslatesMore(j, c, before, was, key, built);
    }
    m := if hasChildConstraint then Some(built) else None;
  }

  lemma TranslatesNone(j: Correlation, c: Constraint)
    requires |j.parentKey| == |j.childKey|
    ensures Translates(j, c, {}, map[])
  {
  }

  lemma DifferentTargets(j: Correlation, a: string, b: string)
    requires ValidKeys(j) && a in j.parentKey && b in j.parentKey && a != b
    ensures Target(j, a) != Target(j, b)
  {
    var x, y := IndexOf(j.parentKey, a), IndexOf(j.parentKey, b);
  }

  lemma TranslatesMore(j: Correlation, c: Constraint, done: set<string>, m: Constraint, key: string, next: Constraint)
    requires ValidKeys(j) && done <= c.Keys && key in c && key !in done && Translates(j, c, done, m)
    requires next == if key in j.parentKey then m[Target(j, key) := c[key]] else m
    ensures Translates(j, c, done + {key}, next)
  {
    hide Target, ValidKeys, IndexOf;
    SameLength(j);
    forall k | k in done && k in j.parentKey && key in j.parentKey ensures Target(j, k) != Target(j, key) {
      DifferentTargets(j, k, key);
    }
    forall i | i in next ensures exists k :: k in done + {key} && k in j.parentKey && Target(j, k) == i {
      if i in m {
        var k :| k in done && k in j.parentKey && Target(j, k) == i;
        assert k in done + {key};
      } else {
        assert key in done + {key};
      }
    }
  }

  lemma SameLength(j: Correlation)
    requires ValidKeys(j)
    ensures |j.parentKey| == |j.childKey|
  {
  }

  /** Every child of a parent that meets the constraint meets the translated constraint. */
  lemma TranslatedKeeps(j: Correlation, c: Constraint, m: Constraint, parent: Row, child: Row)
    requires ValidKeys(j) && Translates(j, c, c.Keys, m)
    requires ConstraintMatches(c, parent) && IsJoinMatch(parent, j.parentKey, child, j.childKey)
    ensures ConstraintMatches(m, child)
  {
    forall i | i in m ensures ValuesEqual(Get(child, i), m[i]) {
      var k :| k in c.Keys && k in j.parentKey && Target(j, k) == i;
      assert ValuesEqual(Get(parent, k), c[k]);
      assert ValuesEqual(Get(parent, j.parentKey[IndexOf(j.parentKey, k)]),
                         Get(child, j.childKey[IndexOf(j.parentKey, k)]));
    }
  }

  // ----- the parents of one child

  predicate Compatible(a: Constraint, b: Constraint) {
    forall k | k in a && k in b :: ValuesEqual(a[k], b[k])
  }

  function Merge(existing: Option<Constraint>, additional: Constraint): Constraint {
    if existing.Some? then existing.value + additional else additional
  }

  function ParentsOf(cmp: Comparator, parents: seq<Node>, req: FetchRequest, fromChild: Option<Constraint>): seq<Node> {
    if fromChild.None? || (req.constraint.Some? && !Compatible(fromChild.value, req.constraint.value)) then []
    else Selected(cmp, parents, FetchRequest(Some(Merge(req.constraint, fromChild.value)), req.start, req.reverse))
  }

  lemma MergedMeans(j: Correlation, req: FetchRequest, child: Row, parent: Row)
    requires ValidKeys(j)
    ensures var fc := JoinConstraint(child, j.childKey, j.parentKey);
            (ConstraintOk(req.constraint, parent) && IsJoinMatch(parent, j.parentKey, child, j.childKey))
            <==> fc.Some? && (req.constraint.Some? ==> Compatible(fc.value, req.constraint.value))
                 && ConstraintMatches(Merge(req.constraint, fc.value), parent)
  {
    var fc := JoinConstraint(child, j.childKey, j.parentKey);
    ConstraintIsJoinMatch(child, j.childKey, parent, j.parentKey);
    MatchIsSymmetric(parent, j.parentKey, child, j.childKey);
    if fc.Some? && req.constraint.Some? {
      var m, a := Merge(req.constraint, fc.value), req.constraint.value;
      if ConstraintMatches(m, parent) {
        forall k | k in fc.value ensures ValuesEqual(Get(parent, k), fc.value[k]) { assert m[k] == fc.value[k]; }
        if Compatible(fc.value, a) {
          forall k | k in a ensures ValuesEqual(Get(parent, k), a[k]) {
            assert k in m;
            if k !in fc.value { assert m[k] == a[k]; }
          }
        }
      }
    }
  }

  /** The parents fetched for one child: of what the request selects, those that the child belongs to. */
  lemma ParentsOfIs(cmp: Comparator, j: Correlation, parents: seq<Node>, req: FetchRequest, child: Row)
    requires ValidKeys(j)
    ensures ParentsOf(cmp, parents, req, JoinConstraint(child, j.childKey, j.parentKey))
            == Filtered(Selected(cmp, parents, req), ParentOf(j, child))
  {
    var fc, keep := JoinConstraint(child, j.childKey, j.parentKey), ParentOf(j, child);
    FilteredTwice(parents, Wanted(cmp, req), keep, n => Wanted(cmp, req)(n) && keep(n));
    if req.reverse { FilteredReversed(Filtered(parents, Wanted(cmp, req)), keep); }
    forall n: Node ensures ConstraintOk(req.constraint, n.row) && keep(n) <==>
                           fc.Some? && (req.constraint.Some? ==> Compatible(fc.value, req.constraint.value))
                             && ConstraintMatches(Merge(req.constraint, fc.value), n.row)
    {
      MergedMeans(j, req, child, n.row);
    }
    if fc.None? || (req.constraint.Some? && !Compatible(fc.value, req.constraint.value)) {
      FilteredNone(parents, n => Wanted(cmp, req)(n) && keep(n));
    } else {
      FilteredSame(parents, Wanted(cmp, FetchRequest(Some(Merge(req.constraint, fc.value)), req.start, req.reverse)),
                   n => Wanted(cmp, req)(n) && keep(n));
    }
  }

  // ----- the merge

  function Compare(cmp: Comparator, reverse: bool, a: Row, b: Row): int {
    if reverse then -cmp(a, b) else cmp(a, b)
  }

  ghost predicate InOrder(cmp: Comparator, reverse: bool, s: seq<Node>) {
    forall i, j | 0 <= i < j < |s| :: Compare(cmp, reverse, s[i].row, s[j].row) < 0
  }

  /** The iterators that stand at the row, from left to right. */
  function Ties(next: seq<Option<Node>>, row: Row, cmp: Comparator, n: nat): seq<nat>
    requires n <= |next|
  {
    if n == 0 then []
    else Ties(next, row, cmp, n - 1) + if next[n - 1].Some? && cmp(next[n - 1].value.row, row) == 0 then [n - 1] else []
  }

  lemma {:induction false} NoTies(next: seq<Option<Node>>, row: Row, cmp: Comparator, n: nat)
    requires n <= |next| && forall i | 0 <= i < n && next[i].Some? :: cmp(next[i].value.row, row) != 0
    ensures Ties(next, row, cmp, n) == []
  {
    if n > 0 { NoTies(next, row, cmp, n - 1); }
  }

  method FindMin(next: seq<Option<Node>>, cmp: Comparator, reverse: bool) returns (min: Option<Node>, indexes: seq<nat>)
    requires TotalOrder(cmp)
    ensures min.None? <==> forall i | 0 <= i < |next| :: next[i].None?
    ensures min.Some? ==>
              min in next && forall i | 0 <= i < |next| && next[i].Some? ::
                Compare(cmp, reverse, min.value.row, next[i].value.row) <= 0
    ensures min.Some? ==> indexes == Ties(next, min.value.row, cmp, |next|)
  {
    min, indexes := None, [];
    for i := 0 to |next|
      invariant min.None? <==> forall k | 0 <= k < i :: next[k].None?
      invariant min.Some? ==>
                  min in next && forall k | 0 <= k < i && next[k].Some? ::
                    Compare(cmp, reverse, min.value.row, next[k].value.row) <= 0
      invariant min.Some? ==> indexes == Ties(next, min.value.row, cmp, i)
    {
      if next[i].None? { continue; }
      var row := next[i].value.row;
      if min.None? {
        NoTies(next, row, cmp, i);
        min, indexes := next[i], [i];
      } else {
        var c := Compare(cmp, reverse, row, min.value.row);
        if c == 0 {
          indexes := indexes + [i];
        } else if c < 0 {
          SmallerThanAll(next, cmp, reverse, min.value.row, row, i);
          NoTies(next, row, cmp, i);
          min, indexes := next[i], [i];
        }
      }
    }
  }

  lemma SmallerThanAll(next: seq<Option<Node>>, cmp: Comparator, reverse: bool, min: Row, row: Row, n: nat)
    requires TotalOrder(cmp) && n <= |next| && Compare(cmp, reverse, row, min) < 0
    requires forall k | 0 <= k < n && next[k].Some? :: Compare(cmp, reverse, min, next[k].value.row) <= 0
    ensures forall k | 0 <= k < n && next[k].Some? ::
              Compare(cmp, reverse, row, next[k].value.row) < 0 && cmp(next[k].value.row, row) != 0
  {
    forall k | 0 <= k < n && next[k].Some? ensures Compare(cmp, reverse, row, next[k].value.row) < 0 {
      if reverse { Transitive(cmp, next[k].value.row, min, row); }
        else { Transitive(cmp, row, min, next[k].value.row); }
    }
  }

  function HeadOf(s: seq<Node>): Option<Node> {
    if s == [] then None else Some(s[0])
  }

  /** What is left of the list of one child when the merge has passed the first `t` parents. */
  ghost function Left(j: Correlation, base: seq<Node>, child: Node, t: nat): seq<Node>
    requires |j.parentKey| == |j.childKey| && t <= |base|
  {
    Filtered(base[t..], ParentOf(j, child.row))
  }

  /** The iterators stand where the merge is. */
  ghost predicate StandsAt(j: Correlation, base: seq<Node>, kids: seq<Node>, lists: seq<seq<Node>>, pos: seq<nat>,
                           next: seq<Option<Node>>, t: nat)
    requires |j.parentKey| == |j.childKey| && t <= |base|
  {
    && |lists| == |pos| == |next| == |kids|
    && forall i | 0 <= i < |kids| ::
         && pos[i] <= |lists[i]|
         && (if next[i].None? then pos[i] == |lists[i]| && Left(j, base, kids[i], t) == []
             else Left(j, base, kids[i], t) == [next[i].value] + lists[i][pos[i]..])
  }

  lemma LeftNext(j: Correlation, base: seq<Node>, child: Node, t: nat)
    requires |j.parentKey| == |j.childKey| && t < |base|
    ensures Left(j, base, child, t) == (if ParentOf(j, child.row)(base[t]) then [base[t]] else [])
            + Left(j, base, child, t + 1)
  {
    PrefixOne(base, t);
  }

  /** Where some child belongs to parent `t`, the smallest iterator stands at it, and the iterators that
      stand at it are those of its children. */
  lemma MinIsNext(j: Correlation, cmp: Comparator, reverse: bool, base: seq<Node>, kids: seq<Node>,
                  lists: seq<seq<Node>>, pos: seq<nat>, next: seq<Option<Node>>,
                  t: nat, i: nat)
    requires |j.parentKey| == |j.childKey| && TotalOrder(cmp) && InOrder(cmp, reverse, base) && t < |base| && i < |kids|
    requires StandsAt(j, base, kids, lists, pos, next, t)
    ensures ParentOf(j, kids[i].row)(base[t]) <==> next[i].Some? && cmp(next[i].value.row, base[t].row) == 0
    ensures ParentOf(j, kids[i].row)(base[t]) ==> next[i] == Some(base[t])
    ensures next[i].Some? && next[i] != Some(base[t]) ==> Compare(cmp, reverse, base[t].row, next[i].value.row) < 0
  {
    LeftNext(j, base, kids[i], t);
    assert cmp(base[t].row, base[t].row) == 0;
    if ParentOf(j, kids[i].row)(base[t]) { assert Left(j, base, kids[i], t)[0] == base[t]; }
    if next[i].Some? && !ParentOf(j, kids[i].row)(base[t]) {
      var rest := Left(j, base, kids[i], t + 1);
      assert rest[0] == next[i].value;
      FilteredMembers(base[t + 1..], ParentOf(j, kids[i].row));
      assert rest[0] in rest;
      var k :| 0 <= k < |base[t + 1..]| && base[t + 1..][k] == rest[0];
      assert base[t + 1 + k] == next[i].value;
    }
  }

  /** The output for the first parents: those that have children, with them. */
  function FlipOut(j: Correlation, base: seq<Node>, kids: seq<Node>): seq<Node>
    requires |j.parentKey| == |j.childKey|
  {
    if base == [] then []
    else FlipOut(j, base[..|base| - 1], kids) + FlipOne(j, base[|base| - 1], kids)
  }

  function FlipOne(j: Correlation, p: Node, kids: seq<Node>): seq<Node>
    requires |j.parentKey| == |j.childKey|
  {
    if ChildrenOf(j, kids, p.row) == [] then [] else [Attach(j, kids, p)]
  }

  lemma FlipOutNext(j: Correlation, base: seq<Node>, kids: seq<Node>, t: nat)
    requires |j.parentKey| == |j.childKey| && t < |base|
    ensures FlipOut(j, base[..t + 1], kids) == FlipOut(j, base[..t], kids) + FlipOne(j, base[t], kids)
  {
    assert base[..t + 1][..t] == base[..t];
  }

  /** A parent that no iterator stands at has no children. */
  lemma Passed(j: Correlation, base: seq<Node>, kids: seq<Node>, lists: seq<seq<Node>>, pos: seq<nat>,
               next: seq<Option<Node>>, t: nat)
    requires |j.parentKey| == |j.childKey| && t < |base| && StandsAt(j, base, kids, lists, pos, next, t)
    requires forall i | 0 <= i < |kids| :: !ParentOf(j, kids[i].row)(base[t])
    ensures StandsAt(j, base, kids, lists, pos, next, t + 1) && FlipOne(j, base[t], kids) == []
  {
    forall i | 0 <= i < |kids| ensures Left(j, base, kids[i], t + 1)
      == Left(j, base, kids[i], t) { LeftNext(j, base, kids[i], t); }
    forall c | c in kids ensures !ChildOf(j, base[t].row)(c) {
      var i :| 0 <= i < |kids| && kids[i] == c;
    }
    FilteredNone(kids, ChildOf(j, base[t].row));
  }

  function Pick(kids: seq<Node>, indexes: seq<nat>): seq<Node>
    requires forall k | 0 <= k < |indexes| :: indexes[k] < |kids|
  {
    seq(|indexes|, k requires 0 <= k < |indexes| => kids[indexes[k]])
  }

  lemma {:induction false} TiesBounded(next: seq<Option<Node>>, row: Row, cmp: Comparator, n: nat)
    requires n <= |next|
    ensures forall k | 0 <= k < |Ties(next, row, cmp, n)| :: Ties(next, row, cmp, n)[k] < n
    ensures forall a, b | 0 <= a < b < |Ties(next, row, cmp, n)| ::
              Ties(next, row, cmp, n)[a] < Ties(next, row, cmp, n)[b]
    ensures forall i | 0 <= i < n :: i in Ties(next, row, cmp, n) <==> next[i].Some? && cmp(next[i].value.row, row) == 0
  {
    if n > 0 { TiesBounded(next, row, cmp, n - 1); }
  }

  lemma PickAppend(kids: seq<Node>, indexes: seq<nat>, x: nat)
    requires x < |kids| && forall k | 0 <= k < |indexes| :: indexes[k] < |kids|
    ensures Pick(kids, indexes + [x]) == Pick(kids, indexes) + [kids[x]]
  {
  }

  lemma {:induction false} TiesPickChildren(j: Correlation, next: seq<Option<Node>>, row: Row, cmp: Comparator,
                                            kids: seq<Node>, n: nat)
    requires |j.parentKey| == |j.childKey| && n <= |next| == |kids|
    requires forall i | 0 <= i < n :: ChildOf(j, row)(kids[i]) <==> next[i].Some? && cmp(next[i].value.row, row) == 0
    ensures forall k | 0 <= k < |Ties(next, row, cmp, n)| :: Ties(next, row, cmp, n)[k] < |kids|
    ensures Pick(kids, Ties(next, row, cmp, n)) == ChildrenOf(j, kids[..n], row)
  {
    hide Pick, Filtered, ChildOf;
    TiesBounded(next, row, cmp, n);
    if n == 0 {
      PickNone(j, kids, row);
    } else {
      TiesPickChildren(j, next, row, cmp, kids, n - 1);
      PrefixOne(kids, n - 1);
      FilteredAppend(kids[..n - 1], kids[n - 1], ChildOf(j, row));
      PickAppend(kids, Ties(next, row, cmp, n - 1), n - 1);
      assert Ties(next, row, cmp, n - 1) + [] == Ties(next, row, cmp, n - 1);
      assert ChildrenOf(j, kids[..n - 1], row) + [] == ChildrenOf(j, kids[..n - 1], row);
    }
  }

  lemma PickNone(j: Correlation, kids: seq<Node>, row: Row)
    requires |j.parentKey| == |j.childKey|
    ensures Pick(kids, []) == ChildrenOf(j, kids[..0], row)
  {
  }

  ghost predicate SomeoneAt(j: Correlation, base: seq<Node>, kids: seq<Node>, t: nat)
    requires |j.parentKey| == |j.childKey| && t < |base|
  {
    exists i | 0 <= i < |kids| :: ParentOf(j, kids[i].row)(base[t])
  }

  method Merging(j: Correlation, cmp: Comparator, reverse: bool, ghost base: seq<Node>, kids: seq<Node>,
                 lists: seq<seq<Node>>) returns (result: seq<Node>)
    requires |j.parentKey| == |j.childKey| && TotalOrder(cmp) && InOrder(cmp, reverse, base) && |lists| == |kids|
    requires forall i | 0 <= i < |kids| :: lists[i] == Filtered(base, ParentOf(j, kids[i].row))
    ensures result == FlipOut(j, base, kids)
  {
    hide FlipOut, FlipOne, StandsAt, InOrder, TotalOrder, SomeoneAt, Ties;
    result := [];
    assert base[..0] == [];
    NoneYet(j, kids);
    var pos := seq(|kids|, i requires 0 <= i < |kids| => if lists[i] == [] then 0 else 1);
    var next := seq(|kids|, i requires 0 <= i < |kids| => HeadOf(lists[i]));
    ghost var t := 0;
    Starts(j, base, kids, lists, pos, next);
    while true
      invariant t <= |base| && StandsAt(j, base, kids, lists, pos, next, t) && result == FlipOut(j, base[..t], kids)
      decreases |base| - t
    {
      t := PassOver(j, base, kids, lists, pos, next, t);
      var min, indexes := FindMin(next, cmp, reverse);
      if min.None? {
        AllDone(j, base, kids, lists, pos, next, t);
        break;
      }
      var node;
      node, pos, next := TakeMin(j, cmp, reverse, base, kids, lists, pos, next, t, min.value, indexes);
      result := result + node;
      FlipOutNext(j, base, kids, t);
      t := t + 1;
    }
  }

  lemma NoneYet(j: Correlation, kids: seq<Node>)
    requires |j.parentKey| == |j.childKey|
    ensures FlipOut(j, [], kids) == []
  {
  }

  lemma Starts(j: Correlation, base: seq<Node>, kids: seq<Node>, lists: seq<seq<Node>>, pos: seq<nat>,
               next: seq<Option<Node>>)
    requires |j.parentKey| == |j.childKey| && |lists| == |pos| == |next| == |kids|
    requires forall i | 0 <= i < |kids| :: lists[i] == Filtered(base, ParentOf(j, kids[i].row))
    requires forall i | 0 <= i < |kids| :: pos[i] == (if lists[i] == [] then 0 else 1) && next[i] == HeadOf(lists[i])
    ensures StandsAt(j, base, kids, lists, pos, next, 0)
  {
    assert base[0..] == base;
    forall i | 0 <= i < |kids| && lists[i] != []
      ensures lists[i] == [lists[i][0]] + lists[i][1..] { HeadTail(lists[i]); }
  }

  /** Passes the parents that have no children. */
  ghost method PassOver(j: Correlation, base: seq<Node>, kids: seq<Node>, lists: seq<seq<Node>>, pos: seq<nat>,
                        next: seq<Option<Node>>, from: nat) returns (t: nat)
    requires |j.parentKey| == |j.childKey| && from <= |base| && StandsAt(j, base, kids, lists, pos, next, from)
    ensures from <= t <= |base| && StandsAt(j, base, kids, lists, pos, next, t)
    ensures FlipOut(j, base[..t], kids) == FlipOut(j, base[..from], kids)
    ensures t < |base| ==> SomeoneAt(j, base, kids, t)
  {
    hide FlipOut, FlipOne, StandsAt;
    t := from;
    while t < |base| && !SomeoneAt(j, base, kids, t)
      invariant from <= t <= |base| && StandsAt(j, base, kids, lists, pos, next, t)
      invariant FlipOut(j, base[..t], kids) == FlipOut(j, base[..from], kids)
    {
      Passed(j, base, kids, lists, pos, next, t);
      FlipOutNext(j, base, kids, t);
      t := t + 1;
    }
  }

  lemma AllDone(j: Correlation, base: seq<Node>, kids: seq<Node>, lists: seq<seq<Node>>, pos: seq<nat>,
                next: seq<Option<Node>>, t: nat)
    requires |j.parentKey| == |j.childKey| && t <= |base| && StandsAt(j, base, kids, lists, pos, next, t)
    requires t < |base| ==> SomeoneAt(j, base, kids, t)
    requires forall i | 0 <= i < |next| :: next[i].None?
    ensures t == |base| && base[..t] == base
  {
    if t < |base| {
      assert false;
    }
  }

  method TakeMin(j: Correlation, cmp: Comparator, reverse: bool, ghost base: seq<Node>, kids: seq<Node>,
                 lists: seq<seq<Node>>, pos: seq<nat>, next: seq<Option<Node>>,
                 ghost t: nat, min: Node, indexes: seq<nat>)
    returns (node: seq<Node>, pos': seq<nat>, next': seq<Option<Node>>)
    requires |j.parentKey| == |j.childKey| && TotalOrder(cmp) && InOrder(cmp, reverse, base)
    requires t <= |base| && (t < |base| ==> SomeoneAt(j, base, kids, t))
    requires StandsAt(j, base, kids, lists, pos, next, t)
    requires Some(min) in next && indexes == Ties(next, min.row, cmp, |next|)
    requires forall i | 0 <= i < |next| && next[i].Some? :: Compare(cmp, reverse, min.row, next[i].value.row) <= 0
    ensures t < |base| && node == FlipOne(j, base[t], kids)
    ensures StandsAt(j, base, kids, lists, pos', next', t + 1)
  {
    MinIs(j, cmp, reverse, base, kids, lists, pos, next, t, min);
    TiesBounded(next, min.row, cmp, |next|);
    forall i | 0 <= i < |kids| ensures ChildOf(j, min.row)(kids[i]) <==>
      next[i].Some? && cmp(next[i].value.row, min.row) == 0 {
      MinIsNext(j, cmp, reverse, base, kids, lists, pos, next, t, i);
    }
    TiesPickChildren(j, next, min.row, cmp, kids, |kids|);
    assert kids[..|kids|] == kids;
    var related := Pick(kids, indexes);
    pos', next' := Advance(lists, pos, next, indexes);
    Advanced(j, cmp, reverse, base, kids, lists, pos, next, t, indexes, pos', next');
    // an inner join shows only parents with children
    node := if |related| > 0 then [Node(min.row, min.rels[j.rel := related])] else [];
  }

  lemma MinIs(j: Correlation, cmp: Comparator, reverse: bool, base: seq<Node>, kids: seq<Node>, lists: seq<seq<Node>>,
              pos: seq<nat>, next: seq<Option<Node>>,
              t: nat, min: Node)
    requires |j.parentKey| == |j.childKey| && TotalOrder(cmp) && InOrder(cmp, reverse, base)
    requires t <= |base| && (t < |base| ==> SomeoneAt(j, base, kids, t))
    requires StandsAt(j, base, kids, lists, pos, next, t) && Some(min) in next
    requires forall i | 0 <= i < |next| && next[i].Some? :: Compare(cmp, reverse, min.row, next[i].value.row) <= 0
    ensures t < |base| && min == base[t]
  {
    var m :| 0 <= m < |next| && next[m] == Some(min);
    if t == |base| {
      assert false;
    }
    var i :| 0 <= i < |kids| && ParentOf(j, kids[i].row)(base[t]);
    MinIsNext(j, cmp, reverse, base, kids, lists, pos, next, t, i);
    MinIsNext(j, cmp, reverse, base, kids, lists, pos, next, t, m);
  }

  method Advance(lists: seq<seq<Node>>, pos: seq<nat>, next: seq<Option<Node>>, indexes: seq<nat>)
    returns (pos': seq<nat>, next': seq<Option<Node>>)
    requires |lists| == |pos| == |next| && forall k | 0 <= k < |indexes| :: indexes[k] < |lists|
    requires forall a, b | 0 <= a < b < |indexes| :: indexes[a] < indexes[b]
    requires forall i | 0 <= i < |lists| :: pos[i] <= |lists[i]|
    ensures |pos'| == |next'| == |lists|
    ensures forall i | 0 <= i < |lists| && i !in indexes :: pos'[i] == pos[i] && next'[i] == next[i]
    ensures forall i | 0 <= i < |lists| && i in indexes ::
              next'[i] == HeadOf(lists[i][pos[i]..]) && pos'[i] == if pos[i] < |lists[i]| then pos[i] + 1 else pos[i]
  {
    pos', next' := pos, next;
    for k := 0 to |indexes|
      invariant |pos'| == |next'| == |lists|
      invariant forall i | 0 <= i < |lists| && i !in indexes[..k] :: pos'[i] == pos[i] && next'[i] == next[i]
      invariant forall i | 0 <= i < |lists| && i in indexes[..k] ::
                  next'[i] == HeadOf(lists[i][pos[i]..]) && pos'[i] == if pos[i] < |lists[i]| then pos[i] + 1
                    else pos[i]
    {
      var idx := indexes[k];
      PrefixOne(indexes, k);
      assert idx !in indexes[..k];
      if pos'[idx] < |lists[idx]| {
        next', pos' := next'[idx := Some(lists[idx][pos'[idx]])], pos'[idx := pos'[idx] + 1];
      } else {
        next' := next'[idx := None];
      }
    }
    assert indexes[..|indexes|] == indexes;
  }

  lemma Advanced(j: Correlation, cmp: Comparator, reverse: bool, base: seq<Node>, kids: seq<Node>,
                 lists: seq<seq<Node>>, pos: seq<nat>, next: seq<Option<Node>>,
                 t: nat, indexes: seq<nat>, pos': seq<nat>, next': seq<Option<Node>>)
    requires |j.parentKey| == |j.childKey| && TotalOrder(cmp) && InOrder(cmp, reverse, base) && t < |base|
    requires StandsAt(j, base, kids, lists, pos, next, t) && indexes == Ties(next, base[t].row, cmp, |next|)
    requires |pos'| == |next'| == |lists|
    requires forall i | 0 <= i < |lists| && i !in indexes :: pos'[i] == pos[i] && next'[i] == next[i]
    requires forall i | 0 <= i < |lists| && i in indexes ::
               next'[i] == HeadOf(lists[i][pos[i]..]) && pos'[i] == if pos[i] < |lists[i]| then pos[i] + 1 else pos[i]
    ensures StandsAt(j, base, kids, lists, pos', next', t + 1)
  {
    TiesBounded(next, base[t].row, cmp, |next|);
    forall i | 0 <= i < |kids|
      ensures pos'[i] <= |lists[i]|
      ensures if next'[i].None? then pos'[i] == |lists[i]| && Left(j, base, kids[i], t + 1) == []
              else Left(j, base, kids[i], t + 1) == [next'[i].value] + lists[i][pos'[i]..]
    {
      MinIsNext(j, cmp, reverse, base, kids, lists, pos, next, t, i);
      LeftNext(j, base, kids[i], t);
      if i in indexes {
        var rest := lists[i][pos[i]..];
        assert Left(j, base, kids[i], t)[1..] == rest
          && Left(j, base, kids[i], t)[1..] == Left(j, base, kids[i], t + 1);
        if rest != [] { HeadTail(rest); }
      }
    }
  }

  // ----- the fetch

  function HasChildren(j: Correlation): Node -> bool {
    (n: Node) => j.rel in n.rels && n.rels[j.rel] != []
  }

  lemma {:induction false} FlipOutIs(j: Correlation, base: seq<Node>, kids: seq<Node>, children: seq<Node>)
    requires |j.parentKey| == |j.childKey|
    requires forall p | p in base :: ChildrenOf(j, kids, p.row) == ChildrenOf(j, children, p.row)
    ensures FlipOut(j, base, kids) == Filtered(Joined(j, base, children), HasChildren(j))
  {
    hide ChildrenOf;
    if base == [] {
      assert Joined(j, base, children) == [];
    } else {
      var n := |base| - 1;
      FlipOutIs(j, base[..n], kids, children);
      assert base[n] in base;
      assert Joined(j, base, children) == Joined(j, base[..n], children) + [Attach(j, children, base[n])];
      FilteredAppend(Joined(j, base[..n], children), Attach(j, children, base[n]), HasChildren(j));
    }
  }

  lemma SelectedInOrder(cmp: Comparator, parents: seq<Node>, req: FetchRequest)
    requires Sorted(cmp, parents) && TotalOrder(cmp)
    ensures InOrder(cmp, req.reverse, Selected(cmp, parents, req))
  {
    FilteredFacts(cmp, parents, Wanted(cmp, req));
  }

  /** With no push in progress the flipped join answers what the join answers, without the parents
      that have no children: for every constraint, start and direction. */
  method Fetch(j: Correlation, parent: Comparator, child: Comparator, parents: seq<Node>, children: seq<Node>,
               req: FetchRequest) returns (r: seq<Node>)
    requires ValidKeys(j) && TotalOrder(parent) && TotalOrder(child) && Sorted(parent, parents)
             && Sorted(child, children)
    ensures r == Filtered(Selected(parent, Joined(j, parents, children), req), HasChildren(j))
  {
    var childConstraint: Option<Constraint> := None;
    if req.constraint.Some? { childConstraint := ChildConstraint(j, req.constraint.value); }
    var childNodes := Selected(child, children, FetchRequest(childConstraint, None, false));
    var parentLists: seq<seq<Node>> := [];
    ghost var base := Selected(parent, parents, req);
    for i := 0 to |childNodes|
      invariant |parentLists| == i
                && forall k | 0 <= k < i :: parentLists[k] == Filtered(base, ParentOf(j, childNodes[k].row))
    {
      var constraintFromChild := BuildJoinConstraint(childNodes[i].row, j.childKey, j.parentKey);
      ParentsOfIs(parent, j, parents, req, childNodes[i].row);
      parentLists := parentLists + [ParentsOf(parent, parents, req, constraintFromChild)];
    }
    SelectedInOrder(parent, parents, req);
    r := Merging(j, parent, req.reverse, base, childNodes, parentLists);
    KidsSuffice(j, parent, child, parents, children, req, childConstraint);
    FlipOutIs(j, base, childNodes, children);
    JoinedSelected(j, parent, parents, children, req);
  }

  lemma KidsSuffice(j: Correlation, parent: Comparator, child: Comparator, parents: seq<Node>, children: seq<Node>,
                    req: FetchRequest, m: Option<Constraint>)
    requires ValidKeys(j)
    requires if req.constraint.Some?
             then Translates(j, req.constraint.value, req.constraint.value.Keys, m.GetOr(map[])) else m.None?
    ensures forall p | p in Selected(parent, parents, req) ::
              ChildrenOf(j, Selected(child, children, FetchRequest(m, None, false)), p.row)
                == ChildrenOf(j, children, p.row)
  {
    var asked := FetchRequest(m, None, false);
    SelectedMembers(parent, parents, req);
    forall p | p in Selected(parent, parents, req)
      ensures ChildrenOf(j, Selected(child, children, asked), p.row) == ChildrenOf(j, children, p.row) {
      forall c: Node ensures ChildOf(j, p.row)(c) == (Wanted(child, asked)(c) && ChildOf(j, p.row)(c)) {
        if req.constraint.Some? && ChildOf(j, p.row)(c) {
          TranslatedKeeps(j, req.constraint.value, m.GetOr(map[]), p.row, c.row);
        }
      }
      FilteredTwice(children, Wanted(child, asked), ChildOf(j, p.row), ChildOf(j, p.row));
    }
  }

  lemma SelectedMembers(cmp: Comparator, s: seq<Node>, req: FetchRequest)
    ensures forall x | x in Selected(cmp, s, req) :: x in s && Wanted(cmp, req)(x)
  {
    var kept := Filtered(s, Wanted(cmp, req));
    FilteredMembers(s, Wanted(cmp, req));
    forall x | x in Reversed(kept) ensures x in kept {
      var i :| 0 <= i < |kept| && Reversed(kept)[i] == x;
    }
  }

  lemma JoinedSelected(j: Correlation, cmp: Comparator, parents: seq<Node>, children: seq<Node>, req: FetchRequest)
    requires |j.parentKey| == |j.childKey|
    ensures Selected(cmp, Joined(j, parents, children), req) == Joined(j, Selected(cmp, parents, req), children)
  {
    SelectedShown(j, cmp, parents, children, children, None, req);
    var f := Shower(j, cmp, children, children, None);
    assert MapNodes(parents, f) == Joined(j, parents, children);
    assert MapNodes(Selected(cmp, parents, req), f) == Joined(j, Selected(cmp, parents, req), children);
  }
}
