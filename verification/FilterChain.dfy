/**
  The WHERE part of a pipeline: Filter, Exists and FanOut/FanIn operators
  (ivm/filter.go, ivm/exists.go, ivm/fan_out.go, ivm/fan_in.go, ivm/push_accumulated.go)
  and their wiring from a condition (builder/builder.go).
 */
module FilterChain {
  import opened Values
  import opened Views
  import opened Ast

  // ----- what a condition means

  predicate NonEmpty(n: Node, rel: string) {
    rel in n.rels && n.rels[rel] != []
  }

  /** The condition is true of a node. A flipped subquery is not realized by the builder and passes. */
  predicate Sat(c: Condition, n: Node) {
    match c
    case Simple(_, _, _) => EvalSimple(c, n.row)
    case And(cs) => forall i | 0 <= i < |cs| :: Sat(cs[i], n)
    case Or(cs) => exists i | 0 <= i < |cs| :: Sat(cs[i], n)
    case Exists(q, not, flip, _) => flip || NonEmpty(n, RelName(q)) != not
  }

  // ----- one change through one gate

  /** What becomes of a change from `pre` to `post` when only nodes that pass are shown. */
  function Gate(ch: Change, pre: Option<Node>, post: Option<Node>, passPre: bool, passPost: bool): Option<Change> {
    if pre.Some? && passPre then
      if post.Some? && passPost then Some(ch) else Some(Remove(pre.value))
    else if post.Some? && passPost then Some(Add(post.value))
    else None
  }

  ghost function Emitted(ch: Option<Change>): seq<Change> {
    if ch.Some? then [ch.value] else []
  }

  /** A child change that is legal on one list carries every list that holds its node. */
  lemma CarriesChild(sch: Schema, s: seq<Node>, ch: Change, m: Node, t: seq<Node>)
    requires TotalOrder(sch.cmp) && Sorted(sch.cmp, s) && Sorted(sch.cmp, t) && ch.Child?
    requires ch.rel in sch.rels && TotalOrder(sch.rels[ch.rel].cmp)
    requires ch.rel in m.rels && Sorted(sch.rels[ch.rel].cmp, m.rels[ch.rel])
             && Legal(sch.rels[ch.rel], m.rels[ch.rel], ch.change)
    requires ch.node == Node(m.row, m.rels[ch.rel := Apply(sch.rels[ch.rel], m.rels[ch.rel], ch.change)])
    requires Replaces(s, Some(m), Some(ch.node), t)
    ensures Legal(sch, s, ch) && Apply(sch, s, ch) == t
    ensures Carries(sch, s, [ch], t)
  {
    MemberAt(sch.cmp, s, m);
    var p := Pos(sch.cmp, s, m.row);
    ReplaceFacts(sch.cmp, s, p, ch.node);
    SortedUnique(sch.cmp, s[p := ch.node], t);
    CarriesOne(sch, s, ch, t);
  }

  lemma FilteredReplaces(sch: Schema, s: seq<Node>, ch: Change, keep: Node -> bool)
    requires TotalOrder(sch.cmp) && Sorted(sch.cmp, s) && Legal(sch, s, ch)
    ensures var pre, post := Pre(sch, s, ch), Post(ch);
            Replaces(Filtered(s, keep),
                     if pre.Some? && keep(pre.value) then pre else None,
                     if post.Some? && keep(post.value) then post else None,
                     Filtered(Apply(sch, s, ch), keep))
    ensures Sorted(sch.cmp, Filtered(s, keep)) && Sorted(sch.cmp, Filtered(Apply(sch, s, ch), keep))
  {
    ApplyFacts(sch, s, ch);
    FilteredFacts(sch.cmp, s, keep);
    FilteredFacts(sch.cmp, Apply(sch, s, ch), keep);
  }

  /** A node that a legal change puts in is new, or is the one it takes out. */
  lemma PostIsNew(sch: Schema, s: seq<Node>, ch: Change)
    requires TotalOrder(sch.cmp) && Sorted(sch.cmp, s) && Legal(sch, s, ch)
    ensures Post(ch).Some? && ch.node in s ==> Pre(sch, s, ch) == Some(ch.node)
  {
    if Post(ch).Some? && ch.node in s {
      MemberAt(sch.cmp, s, ch.node);
      if !ch.Child? {
        LegalDelta(sch, s, ch);
        assert sch.cmp(ch.node.row, ch.node.row) == 0;
      }
    }
  }

  /** A gate on nodes carries the filtered view to the filtered view. */
  lemma GateCarries(sch: Schema, s: seq<Node>, ch: Change, keep: Node -> bool)
    requires TotalOrder(sch.cmp) && Sorted(sch.cmp, s) && Legal(sch, s, ch)
    ensures var pre, post := Pre(sch, s, ch), Post(ch);
            Carries(sch, Filtered(s, keep),
                    Emitted(Gate(ch, pre, post, pre.Some? && keep(pre.value), post.Some? && keep(post.value))),
                    Filtered(Apply(sch, s, ch), keep))
  {
    var pre, post := Pre(sch, s, ch), Post(ch);
    var fs, ft := Filtered(s, keep), Filtered(Apply(sch, s, ch), keep);
    var a, b := pre.Some? && keep(pre.value), post.Some? && keep(post.value);
    FilteredReplaces(sch, s, ch, keep);
    FilteredMembers(s, keep);
    PostIsNew(sch, s, ch);
    if a && b && ch.Child? {
      CarriesChild(sch, fs, ch, pre.value, ft);
    } else if a && b {
      CarriesDelta(sch, fs, ch, ft);
    } else if a {
      CarriesDelta(sch, fs, Remove(pre.value), ft);
    } else if b {
      CarriesDelta(sch, fs, Add(post.value), ft);
    } else {
      SortedUnique(sch.cmp, fs, ft);
    }
  }

  /** A change whose old and new node both pass or both fail is the same change of the filtered
      list, or none. */
  lemma FilterApply(sch: Schema, s: seq<Node>, ch: Change, keep: Node -> bool)
    requires TotalOrder(sch.cmp) && Sorted(sch.cmp, s) && Legal(sch, s, ch)
    requires Pre(sch, s, ch).Some? ==> keep(Pre(sch, s, ch).value) == keep(ch.node)
    ensures keep(ch.node) ==>
              Legal(sch, Filtered(s, keep), ch)
                && Filtered(Apply(sch, s, ch), keep) == Apply(sch, Filtered(s, keep), ch)
    ensures !keep(ch.node) ==> Filtered(Apply(sch, s, ch), keep) == Filtered(s, keep)
  {
    hide Legal, Apply, TotalOrder, Sorted, Filtered;
    var pre, post := Pre(sch, s, ch), Post(ch);
    GateCarries(sch, s, ch, keep);
    var g := Gate(ch, pre, post, pre.Some? && keep(pre.value), post.Some? && keep(post.value));
    assert g == (if keep(ch.node) then Some(ch) else None) by { PreIsNode(sch, s, ch); }
    assert Emitted(g) != [] ==> Emitted(g)[1..] == [];
  }

  lemma PreIsNode(sch: Schema, s: seq<Node>, ch: Change)
    requires Legal(sch, s, ch)
    ensures ch.Add? <==> Pre(sch, s, ch).None?
    ensures ch.Remove? ==> Pre(sch, s, ch) == Some(ch.node)
  {
  }

  // ----- the compiled predicate and the source filter

  /** The predicate compiled from a condition; a subquery passes, its operators come later. */
  predicate Pred(c: Condition, row: Row) {
    match c
    case Simple(_, _, _) => EvalSimple(c, row)
    case And(cs) => forall i | 0 <= i < |cs| :: Pred(cs[i], row)
    case Or(cs) => exists i | 0 <= i < |cs| :: Pred(cs[i], row)
    case Exists(_, _, _, _) => true
  }

  /** The part of the condition that the source can already apply. */
  function StripSubqueries(c: Condition): Option<Condition> {
    match c
    case Simple(_, _, _) => Some(c)
    case Exists(_, _, _, _) => None
    case And(cs) =>
      var kept := StripAll(cs);
      if |kept| == 0 then None else if |kept| == 1 then Some(kept[0]) else Some(And(kept))
    case Or(cs) => if exists i | 0 <= i < |cs| :: ContainsSubquery(cs[i]) then None else Some(c)
  }

  function StripAll(cs: seq<Condition>): seq<Condition> {
    if cs == [] then []
    else
      var rest := StripAll(cs[1..]);
      match StripSubqueries(cs[0])
      case Some(c) => [c] + rest
      case None => rest
  }

  predicate SourceAccepts(c: Condition, row: Row) {
    match StripSubqueries(c)
    case Some(p) => Pred(p, row)
    case None => true
  }

  /** The conditions that a conjunction, however nested, is made of. */
  function Conjuncts(c: Condition): seq<Condition>
    decreases c, 1
  {
    if c.And? then AllConjuncts(c.conditions) else [c]
  }

  function AllConjuncts(cs: seq<Condition>): seq<Condition>
    decreases cs, 0
  {
    if cs == [] then [] else Conjuncts(cs[0]) + AllConjuncts(cs[1..])
  }

  ghost predicate OnConjuncts(list: seq<Condition>, row: Row) {
    forall d | d in list && !ContainsSubquery(d) :: Pred(d, row)
  }

  lemma OnConcat(a: seq<Condition>, b: seq<Condition>, row: Row)
    ensures OnConjuncts(a + b, row) <==> OnConjuncts(a, row) && OnConjuncts(b, row)
  {
    hide Pred, ContainsSubquery;
    assert forall d :: d in a + b <==> d in a || d in b;
  }

  /** The connection is given every conjunct that has no subquery, and nothing else. */
  lemma {:induction false} StripKeeps(c: Condition, row: Row)
    ensures SourceAccepts(c, row) <==> OnConjuncts(Conjuncts(c), row)
    decreases c, 1
  {
    if c.And? {
      StripAllKeeps(c.conditions, row);
      var kept := StripAll(c.conditions);
      if |kept| == 1 { assert AllHold(kept, row) <==> Pred(kept[0], row); }
    } else {
      assert Conjuncts(c) == [c] && c in [c];
      assert OnConjuncts([c], row) <==> ContainsSubquery(c) || Pred(c, row);
    }
  }

  ghost predicate AllHold(list: seq<Condition>, row: Row) {
    forall i | 0 <= i < |list| :: Pred(list[i], row)
  }

  lemma AllHoldCons(c: Condition, list: seq<Condition>, row: Row)
    ensures AllHold([c] + list, row) <==> Pred(c, row) && AllHold(list, row)
  {
    hide Pred;
    var all := [c] + list;
    assert all[0] == c && all[1..] == list;
    assert forall i | 0 <= i < |list| :: list[i] == all[i + 1];
  }

  lemma {:induction false} StripAllKeeps(cs: seq<Condition>, row: Row)
    ensures AllHold(StripAll(cs), row) <==> OnConjuncts(AllConjuncts(cs), row)
    decreases cs, 0
  {
    hide Pred, ContainsSubquery, StripSubqueries, Conjuncts;
    if cs != [] {
      StripKeeps(cs[0], row);
      StripAllKeeps(cs[1..], row);
      OnConcat(Conjuncts(cs[0]), AllConjuncts(cs[1..]), row);
      if StripSubqueries(cs[0]).Some? { AllHoldCons(StripSubqueries(cs[0]).value, StripAll(cs[1..]), row); }
    }
  }

  lemma {:induction false} PredIsSat(c: Condition, n: Node)
    requires !ContainsSubquery(c)
    ensures Pred(c, n.row) == Sat(c, n)
  {
    match c
    case Simple(_, _, _) =>
    case Exists(_, _, _, _) =>
    case And(cs) =>
      forall i | 0 <= i < |cs| ensures Pred(cs[i], n.row) == Sat(cs[i], n) { PredIsSat(cs[i], n); }
    case Or(cs) =>
      forall i | 0 <= i < |cs| ensures Pred(cs[i], n.row) == Sat(cs[i], n) { PredIsSat(cs[i], n); }
  }

  /** The source filter drops only what the whole condition drops,
      and where there is no subquery it is the whole condition. */
  lemma {:induction false} StripIsNecessary(c: Condition, n: Node)
    ensures Sat(c, n) ==> SourceAccepts(c, n.row)
    ensures !ContainsSubquery(c) ==> (SourceAccepts(c, n.row) <==> Sat(c, n))
    decreases c, 1
  {
    match c
    case Simple(_, _, _) =>
    case Exists(_, _, _, _) =>
    case Or(cs) => if !ContainsSubquery(c) { PredIsSat(c, n); }
    case And(cs) =>
      StripAllIsNecessary(cs, n);
      var kept := StripAll(cs);
      assert |kept| == 1 ==> (forall i | 0 <= i < |kept| :: Pred(kept[i], n.row)) == Pred(kept[0], n.row);
  }

  predicate AllSat(cs: seq<Condition>, n: Node) {
    forall i | 0 <= i < |cs| :: Sat(cs[i], n)
  }

  predicate AllPred(cs: seq<Condition>, row: Row) {
    forall i | 0 <= i < |cs| :: Pred(cs[i], row)
  }

  predicate NoSubquery(cs: seq<Condition>) {
    forall i | 0 <= i < |cs| :: !ContainsSubquery(cs[i])
  }

  lemma AllSplit(cs: seq<Condition>, n: Node)
    requires cs != []
    ensures AllSat(cs, n) <==> Sat(cs[0], n) && AllSat(cs[1..], n)
    ensures AllPred(cs, n.row) <==> Pred(cs[0], n.row) && AllPred(cs[1..], n.row)
    ensures NoSubquery(cs) <==> !ContainsSubquery(cs[0]) && NoSubquery(cs[1..])
  {
    ForallSplit(cs, (c: Condition) => Sat(c, n));
    ForallSplit(cs, (c: Condition) => Pred(c, n.row));
    ForallSplit(cs, (c: Condition) => !ContainsSubquery(c));
  }

  lemma {:induction false} StripAllIsNecessary(cs: seq<Condition>, n: Node)
    ensures AllSat(cs, n) ==> AllPred(StripAll(cs), n.row)
    ensures NoSubquery(cs) ==> (AllSat(cs, n) <==> AllPred(StripAll(cs), n.row))
    decreases cs, 0
  {
    hide AllSat, AllPred, NoSubquery, Sat, Pred, ContainsSubquery, StripSubqueries;
    if cs == [] {
      AllOfNone(n);
    } else {
      StripIsNecessary(cs[0], n);
      StripAllIsNecessary(cs[1..], n);
      AllSplit(cs, n);
      if StripSubqueries(cs[0]).Some? {
        AllSplit(StripAll(cs), n);
        assert StripAll(cs)[1..] == StripAll(cs[1..]);
      }
    }
  }

  lemma AllOfNone(n: Node)
    ensures AllSat([], n) && AllPred([], n.row)
  {
  }

  lemma ForallSplit<T>(s: seq<T>, p: T -> bool)
    requires s != []
    ensures (forall i | 0 <= i < |s| :: p(s[i])) <==> p(s[0]) && forall i | 0 <= i < |s[1..]| :: p(s[1..][i])
  {
    assert forall i | 0 < i < |s| :: s[i] == s[1..][i - 1];
  }

  // ----- filtering a node on fetch

  /** The filter call of the compiled chain; `next` is what the operator behind it answers.
      A fan-out asks its branches in turn, each of them with the rest of the chain behind it. */
  predicate ChainFilter(c: Condition, n: Node, next: bool)
    decreases c, 1
  {
    match c
    case Simple(_, _, _) => EvalSimple(c, n.row) && next
    case Exists(q, not, flip, _) => if flip then next else NonEmpty(n, RelName(q)) != not && next
    case And(cs) => AndFilter(cs, n, next)
    case Or(cs) =>
      if exists i | 0 <= i < |cs| ::
        ContainsSubquery(cs[i]) then BranchFilter(cs, n, next) || (SimpleBranches(cs, n.row) && next)
      else (exists i | 0 <= i < |cs| :: Pred(cs[i], n.row)) && next
  }

  predicate AndFilter(cs: seq<Condition>, n: Node, next: bool)
    decreases cs, 0
  {
    if cs == [] then next else ChainFilter(cs[0], n, AndFilter(cs[1..], n, next))
  }

  predicate BranchFilter(cs: seq<Condition>, n: Node, next: bool)
    decreases cs, 0
  {
    if cs == [] then false
    else (ContainsSubquery(cs[0]) && ChainFilter(cs[0], n, next)) || BranchFilter(cs[1..], n, next)
  }

  /** The one Filter that the branches without a subquery are merged into. */
  predicate SimpleBranches(cs: seq<Condition>, row: Row) {
    exists i | 0 <= i < |cs| :: !ContainsSubquery(cs[i]) && Pred(cs[i], row)
  }

  lemma {:induction false} ChainFilterIsSat(c: Condition, n: Node, next: bool)
    ensures ChainFilter(c, n, next) <==> Sat(c, n) && next
    decreases c, 1
  {
    match c
    case Simple(_, _, _) =>
    case Exists(_, _, _, _) =>
    case And(cs) => AndFilterIsSat(cs, n, next);
    case Or(cs) =>
      forall i | 0 <= i < |cs| && !ContainsSubquery(cs[i]) ensures Pred(cs[i], n.row) == Sat(cs[i], n) {
        PredIsSat(cs[i], n);
      }
      BranchFilterIsSat(cs, n, next);
  }

  lemma {:induction false} AndFilterIsSat(cs: seq<Condition>, n: Node, next: bool)
    ensures AndFilter(cs, n, next) <==> (forall i | 0 <= i < |cs| :: Sat(cs[i], n)) && next
    decreases cs, 0
  {
    if cs != [] {
      ChainFilterIsSat(cs[0], n, AndFilter(cs[1..], n, next));
      AndFilterIsSat(cs[1..], n, next);
      ForallSplit(cs, (c: Condition) => Sat(c, n));
    }
  }

  lemma {:induction false} BranchFilterIsSat(cs: seq<Condition>, n: Node, next: bool)
    ensures BranchFilter(cs, n, next) <==> next && exists i | 0 <= i < |cs| :: ContainsSubquery(cs[i]) && Sat(cs[i], n)
    decreases cs, 0
  {
    if cs != [] {
      ChainFilterIsSat(cs[0], n, next);
      BranchFilterIsSat(cs[1..], n, next);
      ForallSplit(cs, (c: Condition) => !(ContainsSubquery(c) && Sat(c, n)));
    }
  }

  /** Compiling WHERE keeps its meaning: the filter given to the source, followed by the operator
      chain (which is built only when there is a subquery), accepts exactly the nodes of which
      the condition is true. */
  lemma WhereCompiles(c: Condition, n: Node)
    ensures SourceAccepts(c, n.row) && (ContainsSubquery(c) ==> ChainFilter(c, n, true)) <==> Sat(c, n)
  {
    StripIsNecessary(c, n);
    ChainFilterIsSat(c, n, true);
  }
}
