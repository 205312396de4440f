/** What the builder's bookkeeping amounts to: numbers, split columns and which queries can be built
    (builder/builder.go). */
module BuilderMeaning {
  import opened Values
  import opened Seqs
  import opened JoinUtils
  import opened Ast
  import opened Pipeline
  import opened Database
  import opened Naming
  import opened Builder
  import opened BuilderWiring
  import opened Results

  // ----- numbers

  /** A subquery under the name that it is built with. */
  function NumberedAs(e: Condition, n: nat): Condition
    requires e.Exists?
  {
    Exists(e.related.(subquery := e.related.subquery.(alias := Numbered(e.related.subquery.alias, n))), e.not, e.flip,
           e.scalar)
  }

  ghost predicate NumberedFrom(list: seq<Condition>, named: seq<Condition>, count: nat)
    requires AllExists(list)
  {
    |named| == |list| && forall k | 0 <= k < |list| :: named[k] == NumberedAs(list[k], count + k)
  }

  lemma NumberedConcat(a: seq<Condition>, x: seq<Condition>, b: seq<Condition>, y: seq<Condition>, count: nat)
    requires AllExists(a) && AllExists(b) && NumberedFrom(a, x, count) && NumberedFrom(b, y, count + |a|)
    ensures AllExists(a + b) && NumberedFrom(a + b, x + y, count)
  {
  }

  /** The subqueries of a condition are numbered from left to right, and nothing else about them changes. */
  lemma {:induction false} UniquifyNumbers(c: Condition, count: nat)
    ensures AllExists(Gather(c)) && NumberedFrom(Gather(c), Gather(Uniquify(c, count).0), count)
    ensures Uniquify(c, count).1 == count + |Gather(c)|
    decreases c, 1
  {
    GatherFacts(c);
    match c
    case Simple(_, _, _) =>
    case Exists(_, _, _, _) =>
    case And(cs) => UniquifyAllNumbers(cs, count);
    case Or(cs) => UniquifyAllNumbers(cs, count);
  }

  lemma {:induction false} UniquifyAllNumbers(cs: seq<Condition>, count: nat)
    ensures AllExists(GatherAll(cs)) && NumberedFrom(GatherAll(cs), GatherAll(UniquifyAll(cs, count).0), count)
    ensures UniquifyAll(cs, count).1 == count + |GatherAll(cs)|
    decreases cs, 0
  {
    hide NumberedFrom, Gather, Uniquify, AllExists;
    GatherAllFacts(cs);
    if cs == [] {
      NumberedNone(count);
    } else {
      var head := Uniquify(cs[0], count);
      var tail := UniquifyAll(cs[1..], head.1);
      UniquifyNumbers(cs[0], count);
      UniquifyAllNumbers(cs[1..], head.1);
      NumberedConcat(Gather(cs[0]), Gather(head.0), GatherAll(cs[1..]), GatherAll(tail.0), count);
      var all := [head.0] + tail.0;
      assert all[1..] == tail.0;
    }
  }

  lemma NumberedNone(count: nat)
    ensures AllExists([]) && NumberedFrom([], [], count)
  {
  }

  // ----- split columns

  /** The columns whose edits a connection has split are those of the partition key, of the related subqueries'
      parent keys and of the EXISTS subqueries' parent keys, and no others. */
  lemma SplitKeysAre(where: Option<Condition>, related: seq<CorrelatedSubquery>, partitionKey: Key)
    ensures forall c :: c in CollectSplitEditKeys(where, related, partitionKey) <==>
              || c in partitionKey
              || (exists q :: q in related && c in q.parentField)
              || (where.Some? && exists e :: e in Gather(where.value) && e.Exists? && c in e.related.parentField)
  {
    KeyColumnsAre(related);
    GatheredColumnsAre(Subqueries(where));
    if where.Some? { GatherFacts(where.value); }
  }

  lemma {:induction false} KeyColumnsAre(list: seq<CorrelatedSubquery>)
    ensures forall c :: c in KeyColumns(list) <==> exists q :: q in list && c in q.parentField
  {
    if list != [] {
      KeyColumnsAre(list[1..]);
      HeadTail(list);
    }
  }

  lemma {:induction false} GatheredColumnsAre(list: seq<Condition>)
    requires AllExists(list)
    ensures forall c :: c in GatheredColumns(list) <==> exists e :: e in list && e.Exists? && c in e.related.parentField
  {
    if list != [] {
      GatheredColumnsAre(list[1..]);
      HeadTail(list);
    }
  }

  // ----- what can be built

  /** The keys are of one length, and the subquery can be built. */
  predicate Builds(q: CorrelatedSubquery, keys: Keys) {
    |q.parentField| == |q.childField| && Buildable(q.subquery, keys)
  }

  lemma {:induction false} ChildrenBuildableMeans(bound: nat, list: seq<CorrelatedSubquery>, keys: Keys)
    requires FitsIn(list, bound)
    ensures ChildrenBuildable(bound, list, keys) <==> forall q | q in list :: Builds(q, keys)
    decreases |list|
  {
    hide Buildable;
    if list != [] {
      HeadTail(list);
      ChildrenBuildableMeans(bound, list[1..], keys);
      assert ChildrenBuildable(bound, list, keys) <==>
        Builds(list[0], keys) && ChildrenBuildable(bound, list[1..], keys);
    }
  }

  /** Names and limits do not matter to that. */
  lemma BuildableAnyway(ast: AST, alias: string, limit: Option<nat>, keys: Keys)
    ensures Buildable(ast.(alias := alias, limit := limit), keys) <==> Buildable(ast, keys)
  {
    var r := ast.(alias := alias, limit := limit);
    ChildrenFit(ast);
    ChildrenFit(r);
    assert SizeOf(r) == SizeOf(ast) && Renamed(r) == Renamed(ast) && r.related == ast.related;
  }

  lemma {:induction false} ExistsChildrenBuild(list: seq<Condition>, keys: Keys)
    requires AllExists(list)
    ensures (forall q | q in ExistsChildren(list) :: Builds(q, keys)) <==>
              forall e | e in list && !e.flip :: Builds(e.related, keys)
  {
    hide Buildable;
    if list != [] {
      var q := list[0].related;
      var first := q.(subquery := q.subquery.(limit := Some(EXISTS_LIMIT)));
      ExistsChildrenBuild(list[1..], keys);
      HeadTail(list);
      BuildableAnyway(q.subquery, q.subquery.alias, Some(EXISTS_LIMIT), keys);
      assert Builds(first, keys) <==> Builds(q, keys);
      ConsMembers(first, ExistsChildren(list[1..]));
    }
  }

  /** The subqueries that are built are the last ones with their names. */
  lemma {:induction false} DedupeIsLast(list: seq<CorrelatedSubquery>, q: CorrelatedSubquery)
    requires q in Dedupe(list)
    ensures exists k: nat :: LastNamed(list, k) && list[k] == q
  {
    hide RelName, PutLast, NewNames;
    var n := |list| - 1;
    var before := Dedupe(list[..n]);
    DedupeNames(list[..n], {});
    PutLastOnly(before, list[n], {});
    if q == list[n] {
      assert LastNamed(list, n);
    } else {
      DedupeIsLast(list[..n], q);
      var k: nat :| LastNamed(list[..n], k) && list[..n][k] == q;
      StillLast(list, k);
    }
  }

  lemma StillLast(list: seq<CorrelatedSubquery>, k: nat)
    requires list != [] && LastNamed(list[..|list| - 1], k) && RelName(list[k]) != RelName(list[|list| - 1])
    ensures LastNamed(list, k)
  {
    forall i | k < i < |list| ensures RelName(list[i]) != RelName(list[k]) {
      if i < |list| - 1 { assert list[..|list| - 1][i] == list[i] && list[..|list| - 1][k] == list[k]; }
    }
  }

  function NamesSeq(list: seq<CorrelatedSubquery>): seq<string> {
    seq(|list|, i requires 0 <= i < |list| => RelName(list[i]))
  }

  /** The names of the list, each where it is first met. */
  function FirstNames(list: seq<CorrelatedSubquery>): seq<string> {
    if list == [] then []
    else
      var before, name := FirstNames(list[..|list| - 1]), RelName(list[|list| - 1]);
      if name in before then before else before + [name]
  }

  lemma NamesCons(q: CorrelatedSubquery, list: seq<CorrelatedSubquery>)
    ensures NamesSeq([q] + list) == [RelName(q)] + NamesSeq(list)
  {
  }

  lemma {:induction false} PutLastInPlace(list: seq<CorrelatedSubquery>, q: CorrelatedSubquery)
    ensures NamesSeq(PutLast(list, q)) == if RelName(q) in NamesSeq(list) then NamesSeq(list)
            else NamesSeq(list) + [RelName(q)]
  {
    assert NamesSeq([]) == [];
    hide RelName, NamesSeq;
    NamesCons(q, []);
    assert [q] + [] == [q];
    if list != [] {
      var head, tail := list[0], list[1..];
      assert list == [head] + tail;
      NamesCons(head, tail);
      NamesCons(q, tail);
      PutLastInPlace(tail, q);
      NamesCons(head, PutLast(tail, q));
      var names := NamesSeq(tail);
      assert [RelName(head)] + (names + [RelName(q)]) == [RelName(head)] + names + [RelName(q)];
    }
  }

  /** The related joins are built in the order in which their names are first met. */
  lemma {:induction false} DedupeInPlace(list: seq<CorrelatedSubquery>)
    ensures NamesSeq(Dedupe(list)) == FirstNames(list)
  {
    if list != [] {
      DedupeInPlace(list[..|list| - 1]);
      PutLastInPlace(Dedupe(list[..|list| - 1]), list[|list| - 1]);
    }
  }

  lemma {:induction false} PutLastOnly(list: seq<CorrelatedSubquery>, q: CorrelatedSubquery, names: set<string>)
    requires NewNames(list, names)
    ensures forall r | r in PutLast(list, q) :: r == q || (r in list && RelName(r) != RelName(q))
    decreases |list|
  {
    if list != [] {
      HeadTail(list);
      var more := names + {RelName(list[0])};
      if RelName(list[0]) == RelName(q) {
        ConsMembers(q, list[1..]);
        forall r | r in list[1..] ensures RelName(r) != RelName(q) {
          LaterNamesDiffer(list[1..], more, r);
        }
      } else {
        PutLastOnly(list[1..], q, more);
        ConsMembers(list[0], PutLast(list[1..], q));
      }
    }
  }

  lemma {:induction false} LaterNamesDiffer(list: seq<CorrelatedSubquery>, names: set<string>, r: CorrelatedSubquery)
    requires NewNames(list, names) && r in list
    ensures RelName(r) !in names
    decreases |list|
  {
    HeadTail(list);
    if r != list[0] { LaterNamesDiffer(list[1..], names + {RelName(list[0])}, r); }
  }

  lemma RelatedBuild(related: seq<CorrelatedSubquery>, keys: Keys)
    ensures (forall q | q in Dedupe(related) :: Builds(q, keys)) <==>
              forall k: nat | LastNamed(related, k) :: Builds(related[k], keys)
  {
    hide Builds;
    forall k: nat | LastNamed(related, k) ensures related[k] in Dedupe(related) {
      DedupeHas(related, k);
    }
    forall q | q in Dedupe(related) ensures exists k: nat :: LastNamed(related, k) && related[k] == q {
      DedupeIsLast(related, q);
    }
  }

  /** A query can be built exactly if its table exists, and every EXISTS that is not flipped and the last related
      subquery of each name can, with keys of one length. */
  lemma BuildableMeans(ast: AST, keys: Keys)
    ensures Buildable(ast, keys) <==>
            && ast.table in keys
            && (ast.where.Some? ==> forall e | e in Gather(ast.where.value) && e.Exists? && !e.flip ::
                Builds(e.related, keys))
            && forall k: nat | LastNamed(ast.related, k) :: Builds(ast.related[k], keys)
  {
    hide Builds, ChildrenBuildable;
    ChildrenFit(ast);
    var checks, list := ExistsChildren(Subqueries(Renamed(ast))), Dedupe(ast.related);
    ChildrenBuildableMeans(SizeOf(ast), checks, keys);
    ChildrenBuildableMeans(SizeOf(ast), list, keys);
    RelatedBuild(ast.related, keys);
    ExistsChildrenBuild(Subqueries(Renamed(ast)), keys);
    if ast.where.Some? { RenamedBuild(ast.where.value, keys); }
  }

  lemma RenamedBuild(c: Condition, keys: Keys)
    ensures AllExists(Gather(UniquifyAliases(c))) && AllExists(Gather(c))
    ensures (forall e | e in Gather(UniquifyAliases(c)) && !e.flip :: Builds(e.related, keys)) <==>
              forall e | e in Gather(c) && !e.flip :: Builds(e.related, keys)
  {
    hide Builds, Gather, Uniquify, NumberedAs;
    GatherFacts(c);
    GatherFacts(UniquifyAliases(c));
    if c.And? || c.Or? {
      UniquifyNumbers(c, 0);
      var list, named := Gather(c), Gather(UniquifyAliases(c));
      forall k | 0 <= k < |list|
        ensures named[k].flip == list[k].flip && (Builds(named[k].related, keys) <==> Builds(list[k].related, keys))
      {
        NumberedBuilds(list[k], k, keys);
      }
      if forall e | e in list && !e.flip :: Builds(e.related, keys) { SameBuild(list, named, keys); }
      if forall e | e in named && !e.flip :: Builds(e.related, keys) { SameBuild(named, list, keys); }
    }
  }

  lemma SameBuild(a: seq<Condition>, b: seq<Condition>, keys: Keys)
    requires AllExists(a) && AllExists(b) && |a| == |b|
    requires forall k | 0 <= k < |a| ::
               a[k].flip == b[k].flip && (Builds(a[k].related, keys) <==> Builds(b[k].related, keys))
    requires forall e | e in a && !e.flip :: Builds(e.related, keys)
    ensures forall e | e in b && !e.flip :: Builds(e.related, keys)
  {
    hide Builds;
    forall e | e in b && !e.flip ensures Builds(e.related, keys) {
      var k :| 0 <= k < |b| && b[k] == e;
      assert a[k] in a;
    }
  }

  lemma NumberedBuilds(e: Condition, n: nat, keys: Keys)
    requires e.Exists?
    ensures var r := NumberedAs(e, n);
            r.flip == e.flip && (Builds(r.related, keys) <==> Builds(e.related, keys))
  {
    hide Buildable;
    var sub := e.related.subquery;
    BuildableAnyway(sub, Numbered(sub.alias, n), sub.limit, keys);
  }
}
