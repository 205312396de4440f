/**
  A pipeline as a tree of operators over source connections, and the central property of the
  engine: for every tree that the builder may wire and every change of one connection, folding
  the changes that come out of the tree into what it showed gives exactly what it shows then.
 */
module Pipeline {
  import opened Values
  import opened Seqs
  import opened Views
  import opened JoinUtils
  import opened Ast
  import opened FilterChain
  import opened ChainPush
  import opened Fetching
  import opened TakeSpec
  import opened TakeRules
  import opened TakeUnion
  import opened JoinSpec

  datatype Op =
    | SkipTo(bound: Row, exclusive: bool)
    | Where(cond: Condition)
    | Limit(limit: nat, partitionKey: Key)

  datatype Pipe =
    | Input(conn: nat)
    | Unary(op: Op, input: Pipe)
    | JoinOf(parent: Pipe, child: Pipe, corr: Correlation)

  /** What the source connections show: one sorted list each. */
  type World = seq<seq<Node>>

  // ----- what a pipeline shows

  /** Skip.shouldBePresent, for a bound that gives every sort column. */
  function Present(cmp: Comparator, bound: Row, exclusive: bool): Row -> bool {
    (row: Row) => cmp(bound, row) < 0 || (cmp(bound, row) == 0 && !exclusive)
  }

  function OfRow(pred: Row -> bool): Node -> bool {
    (n: Node) => pred(n.row)
  }

  function Satisfies(c: Condition): Node -> bool {
    (n: Node) => Sat(c, n)
  }

  /** The partitions that a parent can ask for: no null in the key. */
  ghost function Askable(): iset<PartitionKey> {
    iset key: PartitionKey | NoNulls(key)
  }

  ghost function OpView(sch: Schema, op: Op, s: seq<Node>): seq<Node> {
    match op
    case SkipTo(bound, exclusive) => Filtered(s, OfRow(Present(sch.cmp, bound, exclusive)))
    case Where(c) => Filtered(s, Satisfies(c))
    case Limit(n, key) => Shown(n, key, Askable(), s)
  }

  /** The connections exist, and the two keys of every join have one length. */
  predicate Closed(p: Pipe, n: nat) {
    match p
    case Input(k) => k < n
    case Unary(_, input) => Closed(input, n)
    case JoinOf(parent, child, j) => Closed(parent, n) && Closed(child, n) && |j.parentKey| == |j.childKey|
  }

  function PipeSchema(p: Pipe, S: seq<Schema>): Schema
    requires Closed(p, |S|)
  {
    match p
    case Input(k) => S[k]
    case Unary(_, input) => PipeSchema(input, S)
    case JoinOf(parent, child, j) => JoinSchema(j, PipeSchema(parent, S), PipeSchema(child, S))
  }

  function Conns(p: Pipe): set<nat> {
    match p
    case Input(k) => {k}
    case Unary(_, input) => Conns(input)
    case JoinOf(parent, child, _) => Conns(parent) + Conns(child)
  }

  ghost function View(p: Pipe, S: seq<Schema>, T: World): seq<Node>
    requires |S| == |T| && Closed(p, |S|)
  {
    match p
    case Input(k) => T[k]
    case Unary(op, input) => OpView(PipeSchema(input, S), op, View(input, S, T))
    case JoinOf(parent, child, j) => Joined(j, View(parent, S, T), View(child, S, T))
  }

  // ----- what a pipeline emits

  ghost function OpStep(sch: Schema, op: Op, s: seq<Node>, ch: Change): seq<Change> {
    match op
    case SkipTo(bound, exclusive) => Emitted(FilterPush(ch, Present(sch.cmp, bound, exclusive)))
    case Where(c) => PushedList(PushChain(c, ch))
    case Limit(n, key) =>
      if TotalOrder(sch.cmp) && Sorted(sch.cmp, s) && Legal(sch, s, ch) && KeepsPartition(key, ch)
      then TakeStep(sch, n, key, Askable(), s, ch) else []
  }

  ghost function OpSteps(sch: Schema, op: Op, s: seq<Node>, chs: seq<Change>): seq<Change>
    decreases |chs|
  {
    if chs == [] then [] else OpStep(sch, op, s, chs[0]) + OpSteps(sch, op, Apply(sch, s, chs[0]), chs[1..])
  }

  function ParentSteps(j: Correlation, children: seq<Node>, chs: seq<Change>): seq<Change>
    requires |j.parentKey| == |j.childKey|
  {
    if chs == [] then [] else [ParentStep(j, children, chs[0])] + ParentSteps(j, children, chs[1..])
  }

  ghost function ChildSteps(j: Correlation, child: Schema, parents: seq<Node>, children: seq<Node>,
                            chs: seq<Change>): seq<Change>
    requires |j.parentKey| == |j.childKey|
    decreases |chs|
  {
    if chs == [] then []
    else
      var after := Apply(child, children, chs[0]);
      ChildStep(j, parents, after, chs[0]) + ChildSteps(j, child, parents, after, chs[1..])
  }

  /** What comes out of the tree when connection `k` hands on the change `ch` of what it shows. */
  ghost function Emit(p: Pipe, S: seq<Schema>, T: World, k: nat, ch: Change): seq<Change>
    requires |S| == |T| && Closed(p, |S|)
  {
    match p
    case Input(i) => if i == k then [ch] else []
    case Unary(op, input) => OpSteps(PipeSchema(input, S), op, View(input, S, T), Emit(input, S, T, k, ch))
    case JoinOf(parent, child, j) =>
      if k in Conns(parent) then ParentSteps(j, View(child, S, T), Emit(parent, S, T, k, ch))
      else ChildSteps(j, PipeSchema(child, S), View(parent, S, T), View(child, S, T), Emit(child, S, T, k, ch))
  }

  // ----- what the builder has to see to

  /** The connection whose rows the pipeline's own nodes are. */
  function Root(p: Pipe): nat {
    match p
    case Input(k) => k
    case Unary(_, input) => Root(input)
    case JoinOf(parent, _, _) => Root(parent)
  }

  function RelNames(p: Pipe): set<string> {
    match p
    case Input(_) => {}
    case Unary(_, input) => RelNames(input)
    case JoinOf(parent, _, j) => RelNames(parent) + {j.rel}
  }

  function Columns(key: Key): set<string> {
    set c | c in key
  }

  ghost predicate OpFits(op: Op, names: set<string>, split: set<string>) {
    match op
    case SkipTo(_, _) => true
    case Where(c) => DistinctNames(c) && Names(c) <= names
    case Limit(_, key) => Columns(key) <= split
  }

  /** The tree is wired as the builder wires it: every connection is used once, every join has its
      own relationship name and keys that mean the join, and every join key and partition key is
      among the columns whose edits the feeding connection has split. */
  ghost predicate Wired(p: Pipe, S: seq<Schema>, split: seq<set<string>>)
    requires |S| == |split|
  {
    match p
    case Input(k) => k < |S| && TotalOrder(S[k].cmp) && S[k].rels == map[]
    case Unary(op, input) => Wired(input, S, split) && Root(input) < |S|
      && OpFits(op, RelNames(input), split[Root(input)])
    case JoinOf(parent, child, j) =>
      && Wired(parent, S, split) && Wired(child, S, split) && Conns(parent) !! Conns(child)
      && ValidKeys(j) && j.rel !in RelNames(parent)
      && Root(parent) < |S| && Columns(j.parentKey) <= split[Root(parent)]
      && Root(child) < |S| && Columns(j.childKey) <= split[Root(child)]
  }

  lemma {:induction false} WiredShape(p: Pipe, S: seq<Schema>, split: seq<set<string>>)
    requires |S| == |split| && Wired(p, S, split)
    ensures Closed(p, |S|) && Root(p) in Conns(p)
    ensures TotalOrder(PipeSchema(p, S).cmp) && PipeSchema(p, S).rels.Keys == RelNames(p)
  {
    match p
    case Input(k) =>
    case Unary(_, input) => WiredShape(input, S, split);
    case JoinOf(parent, child, _) => WiredShape(parent, S, split); WiredShape(child, S, split);
  }

  // ----- changes that keep their keys and relationships

  /** The nodes of a change have the relationships `names`; an edit keeps the columns `split`
      and every relationship. */
  ghost predicate Good(names: set<string>, split: set<string>, ch: Change) {
    && names <= ch.node.rels.Keys
    && (ch.Edit? ==>
          && names <= ch.oldNode.rels.Keys && ch.node.rels == ch.oldNode.rels
          && forall c | c in split :: Get(ch.oldNode.row, c) == Get(ch.node.row, c))
  }

  ghost predicate AllGood(names: set<string>, split: set<string>, chs: seq<Change>) {
    forall c | c in chs :: Good(names, split, c)
  }

  ghost predicate Shaped(names: set<string>, s: seq<Node>) {
    forall n | n in s :: names <= n.rels.Keys
  }

  lemma GoodKeepsKey(names: set<string>, split: set<string>, key: Key, ch: Change)
    requires Good(names, split, ch) && Columns(key) <= split
    ensures KeepsKey(key, ch) && KeepsPartition(key, ch)
  {
    if ch.Edit? {
      forall i | 0 <= i < |key| ensures Get(ch.oldNode.row, key[i]) == Get(ch.node.row, key[i]) {
        assert key[i] in Columns(key);
      }
    }
  }

  lemma GoodFits(names: set<string>, split: set<string>, sch: Schema, s: seq<Node>, ch: Change, less: set<string>)
    requires TotalOrder(sch.cmp) && Sorted(sch.cmp, s) && Legal(sch, s, ch) && Shaped(names, s)
             && Good(names, split, ch) && less <= names
    ensures Fits(less, ch, Pre(sch, s, ch), Post(ch))
  {
    ApplyFacts(sch, s, ch);
  }

  lemma ShapedAfter(names: set<string>, split: set<string>, sch: Schema, s: seq<Node>, ch: Change)
    requires TotalOrder(sch.cmp) && Sorted(sch.cmp, s) && Legal(sch, s, ch) && Shaped(names, s)
             && Good(names, split, ch)
    ensures Sorted(sch.cmp, Apply(sch, s, ch)) && Shaped(names, Apply(sch, s, ch))
  {
    ApplyFacts(sch, s, ch);
  }

  /** What an operator of one input may make of a change: the change itself, or the removal or
      addition of a node that it held or holds. */
  ghost predicate Derived(s: seq<Node>, t: seq<Node>, ch: Change, d: Change) {
    d == ch || ((d.Add? || d.Remove?) && (d.node in s || d.node in t))
  }

  lemma DerivedIsGood(names: set<string>, split: set<string>, sch: Schema, s: seq<Node>, ch: Change, out: seq<Change>)
    requires TotalOrder(sch.cmp) && Sorted(sch.cmp, s) && Legal(sch, s, ch) && Shaped(names, s)
             && Good(names, split, ch)
    requires forall d | d in out :: Derived(s, Apply(sch, s, ch), ch, d)
    ensures AllGood(names, split, out)
  {
    ShapedAfter(names, split, sch, s, ch);
  }

  // ----- each operator

  lemma WindowStepDerived(sch: Schema, limit: nat, s: seq<Node>, ch: Change)
    requires TotalOrder(sch.cmp) && Sorted(sch.cmp, s) && Legal(sch, s, ch)
    ensures forall d | d in WindowStep(sch, limit, s, ch) :: Derived(s, Apply(sch, s, ch), ch, d)
  {
    hide Legal, Apply, Pos, Sorted, TotalOrder;
    if limit > 0 && ch.Edit? {
      EditSizes(sch, s, ch);
      EditStepsDerived(limit, s, ch, Pos(sch.cmp, s, ch.oldNode.row), Pos(sch.cmp, Apply(sch, s, ch), ch.node.row),
                       Apply(sch, s, ch));
    }
    PreIsMember(sch, s, ch);
  }

  lemma EditStepsDerived(limit: nat, s: seq<Node>, ch: Change, p: nat, q: nat, t: seq<Node>)
    requires limit > 0 && ch.Edit? && p < |s| && q < |t| && |s| == |t| && s[p] == ch.oldNode && ch.node in t
    ensures forall d | d in EditSteps(limit, s, ch, p, q, t) :: Derived(s, t, ch, d)
  {
  }

  lemma LimitDerived(sch: Schema, limit: nat, key: Key, s: seq<Node>, ch: Change)
    requires TotalOrder(sch.cmp) && Sorted(sch.cmp, s) && Legal(sch, s, ch) && KeepsPartition(key, ch)
    ensures forall d | d in TakeStep(sch, limit, key, Askable(), s, ch) :: Derived(s, Apply(sch, s, ch), ch, d)
  {
    hide Legal, Apply, WindowStep;
    var k := KeyOf(key, ch.node.row);
    PartApply(sch, s, ch, key, k);
    WindowStepDerived(sch, limit, Part(s, key, k), ch);
    FilteredMembers(s, KeyIs(key, k));
    FilteredMembers(Apply(sch, s, ch), KeyIs(key, k));
  }

  lemma GateDerived(s: seq<Node>, t: seq<Node>, ch: Change, pre: Option<Node>, post: Option<Node>, a: bool, b: bool)
    requires (pre.Some? ==> pre.value in s) && (post.Some? ==> post.value in t)
    ensures forall d | d in Emitted(Gate(ch, pre, post, a, b)) :: Derived(s, t, ch, d)
  {
  }

  /** The gates: Skip and Where. */
  ghost function KeepOf(sch: Schema, op: Op): Node -> bool
    requires !op.Limit?
  {
    if op.SkipTo? then OfRow(Present(sch.cmp, op.bound, op.exclusive)) else Satisfies(op.cond)
  }

  lemma GateStep(sch: Schema, op: Op, names: set<string>, split: set<string>, s: seq<Node>, ch: Change)
    requires TotalOrder(sch.cmp) && Sorted(sch.cmp, s) && Legal(sch, s, ch) && Shaped(names, s)
             && Good(names, split, ch)
    requires !op.Limit? && OpFits(op, names, split)
    ensures var pre, post, keep := Pre(sch, s, ch), Post(ch), KeepOf(sch, op);
            OpStep(sch, op, s, ch) == Emitted(Gate(ch, pre, post, pre.Some? && keep(pre.value), post.Some?
                                                   && keep(post.value)))
  {
    hide Legal, Apply, Sorted, TotalOrder, PushChain, Sat;
    var pre, post := Pre(sch, s, ch), Post(ch);
    LegalMoves(sch, s, ch);
    match op
    case SkipTo(bound, exclusive) => FilterPushIsGate(ch, pre, post, Present(sch.cmp, bound, exclusive));
    case Where(c) =>
      GoodFits(names, split, sch, s, ch, Names(c));
      ChainPushIsGate(c, ch, pre, post);
    case Limit(_, _) =>
  }

  /** One change through one operator: it carries what the operator shows, and what comes out is good again. */
  lemma OpCarries(sch: Schema, op: Op, names: set<string>, split: set<string>, s: seq<Node>, ch: Change)
    requires TotalOrder(sch.cmp) && Sorted(sch.cmp, s) && Legal(sch, s, ch) && Shaped(names, s)
             && Good(names, split, ch)
    requires OpFits(op, names, split)
    ensures Carries(sch, OpView(sch, op, s), OpStep(sch, op, s, ch), OpView(sch, op, Apply(sch, s, ch)))
    ensures AllGood(names, split, OpStep(sch, op, s, ch))
  {
    hide Legal, Apply, Sorted, TotalOrder, PushChain, FilterPush, Sat, TakeStep, Shown, Filtered, Carries, Gate, Good,
         Shaped;
    if op.Limit? {
      GoodKeepsKey(names, split, op.partitionKey, ch);
      TakeCarries(sch, op.limit, op.partitionKey, Askable(), s, ch);
      LimitDerived(sch, op.limit, op.partitionKey, s, ch);
    } else {
      var pre, post, keep := Pre(sch, s, ch), Post(ch), KeepOf(sch, op);
      GateStep(sch, op, names, split, s, ch);
      GateCarries(sch, s, ch, keep);
      PreIsMember(sch, s, ch);
      GateDerived(s, Apply(sch, s, ch), ch, pre, post, pre.Some? && keep(pre.value), post.Some? && keep(post.value));
    }
    DerivedIsGood(names, split, sch, s, ch, OpStep(sch, op, s, ch));
  }

  lemma PreIsMember(sch: Schema, s: seq<Node>, ch: Change)
    requires TotalOrder(sch.cmp) && Sorted(sch.cmp, s) && Legal(sch, s, ch)
    ensures Pre(sch, s, ch).Some? ==> Pre(sch, s, ch).value in s
    ensures Post(ch).Some? ==> Post(ch).value in Apply(sch, s, ch)
  {
    ApplyFacts(sch, s, ch);
  }

  lemma OpViewFacts(sch: Schema, op: Op, names: set<string>, s: seq<Node>)
    requires TotalOrder(sch.cmp) && Sorted(sch.cmp, s) && Shaped(names, s)
    ensures Sorted(sch.cmp, OpView(sch, op, s)) && Shaped(names, OpView(sch, op, s))
  {
    match op
    case SkipTo(bound, exclusive) => FilteredFacts(sch.cmp, s, OfRow(Present(sch.cmp, bound, exclusive)));
    case Where(c) => FilteredFacts(sch.cmp, s, Satisfies(c));
    case Limit(n, key) => FilteredFacts(sch.cmp, s, InWindow(n, key, Askable(), s));
  }

  lemma GoodSplit(names: set<string>, split: set<string>, chs: seq<Change>)
    requires AllGood(names, split, chs) && chs != []
    ensures Good(names, split, chs[0]) && AllGood(names, split, chs[1..])
  {
    HeadTail(chs);
  }

  lemma GoodConcat(names: set<string>, split: set<string>, a: seq<Change>, b: seq<Change>)
    requires AllGood(names, split, a) && AllGood(names, split, b)
    ensures AllGood(names, split, a + b)
  {
  }

  lemma CarriesSplit(sch: Schema, s: seq<Node>, chs: seq<Change>, t: seq<Node>)
    requires Carries(sch, s, chs, t) && chs != []
    ensures Legal(sch, s, chs[0]) && Carries(sch, Apply(sch, s, chs[0]), chs[1..], t)
  {
  }

  lemma CarriesEmpty(sch: Schema, s: seq<Node>, t: seq<Node>)
    requires Carries(sch, s, [], t)
    ensures s == t
  {
  }

  /** A list of changes through one operator. */
  lemma {:induction false} OpStepsCarry(sch: Schema, op: Op, names: set<string>, split: set<string>, s: seq<Node>,
                                        chs: seq<Change>, t: seq<Node>)
    requires TotalOrder(sch.cmp) && Sorted(sch.cmp, s) && Shaped(names, s) && AllGood(names, split, chs)
    requires OpFits(op, names, split) && Carries(sch, s, chs, t)
    ensures Carries(sch, OpView(sch, op, s), OpSteps(sch, op, s, chs), OpView(sch, op, t))
    ensures AllGood(names, split, OpSteps(sch, op, s, chs))
    decreases |chs|
  {
    hide Legal, Apply, Sorted, TotalOrder, Carries, AllGood, Good, Shaped, OpFits, OpStep, OpView;
    if chs == [] {
      CarriesEmpty(sch, s, t);
      CarriesNone(sch, OpView(sch, op, s));
      NoneGood(names, split);
    } else {
      var c := chs[0];
      CarriesSplit(sch, s, chs, t);
      GoodSplit(names, split, chs);
      ShapedAfter(names, split, sch, s, c);
      OpCarries(sch, op, names, split, s, c);
      var u := Apply(sch, s, c);
      OpStepsCarry(sch, op, names, split, u, chs[1..], t);
      CarriesConcat(sch, OpView(sch, op, s), OpStep(sch, op, s, c), OpView(sch, op, u), OpSteps(sch, op, u, chs[1..]),
                    OpView(sch, op, t));
      GoodConcat(names, split, OpStep(sch, op, s, c), OpSteps(sch, op, u, chs[1..]));
    }
  }

  lemma NoneGood(names: set<string>, split: set<string>)
    ensures AllGood(names, split, [])
  {
  }

  // ----- joins

  lemma AttachGood(j: Correlation, children: seq<Node>, names: set<string>, split: set<string>, ch: Change)
    requires |j.parentKey| == |j.childKey| && Good(names, split, ch) && Columns(j.parentKey) <= split
    ensures Good(names + {j.rel}, split, ParentStep(j, children, ch))
  {
    if ch.Edit? {
      var o, n := ch.oldNode, ch.node;
      GoodKeepsKey(names, split, j.parentKey, ch);
      forall c: Node ensures ChildOf(j, o.row)(c) == ChildOf(j, n.row)(c) {
        SameKeySameMatches(o.row, n.row, j.parentKey, c.row, j.childKey);
      }
      FilteredSame(children, ChildOf(j, o.row), ChildOf(j, n.row));
    }
  }

  lemma JoinedFacts(j: Correlation, cmp: Comparator, names: set<string>, parents: seq<Node>, children: seq<Node>)
    requires |j.parentKey| == |j.childKey| && Sorted(cmp, parents) && Shaped(names, parents)
    ensures Sorted(cmp, Joined(j, parents, children)) && Shaped(names + {j.rel}, Joined(j, parents, children))
  {
    forall n | n in Joined(j, parents, children) ensures names + {j.rel} <= n.rels.Keys {
      var i :| 0 <= i < |parents| && n == Attach(j, children, parents[i]);
      assert parents[i] in parents;
    }
  }

  lemma {:induction false} ParentStepsCarry(j: Correlation, parent: Schema, child: Schema, names: set<string>,
                                            split: set<string>,
                                            s: seq<Node>, children: seq<Node>, chs: seq<Change>, t: seq<Node>)
    requires Joinable(j, parent, child) && Sorted(parent.cmp, s) && Shaped(names, s) && AllGood(names, split, chs)
    requires Columns(j.parentKey) <= split && Carries(parent, s, chs, t)
    ensures Carries(JoinSchema(j, parent, child), Joined(j, s, children), ParentSteps(j, children, chs),
                    Joined(j, t, children))
    ensures AllGood(names + {j.rel}, split, ParentSteps(j, children, chs))
    decreases |chs|
  {
    hide Legal, Apply, Sorted, TotalOrder, Carries, AllGood, Good, Shaped, Joined, ParentStep, Consistent;
    var out := JoinSchema(j, parent, child);
    if chs == [] {
      CarriesEmpty(parent, s, t);
      CarriesNone(out, Joined(j, s, children));
      NoneGood(names + {j.rel}, split);
    } else {
      var c := chs[0];
      CarriesSplit(parent, s, chs, t);
      GoodSplit(names, split, chs);
      ShapedAfter(names, split, parent, s, c);
      ParentStepCarries(j, parent, child, s, children, c);
      ParentStepsCarry(j, parent, child, names, split, Apply(parent, s, c), children, chs[1..], t);
      CarriesCons(out, Joined(j, s, children), ParentStep(j, children, c), ParentSteps(j, children, chs[1..]),
                  Joined(j, t, children));
      AttachGood(j, children, names, split, c);
      OneGood(names + {j.rel}, split, ParentStep(j, children, c));
      GoodConcat(names + {j.rel}, split, [ParentStep(j, children, c)], ParentSteps(j, children, chs[1..]));
    }
  }

  lemma OneGood(names: set<string>, split: set<string>, ch: Change)
    requires Good(names, split, ch)
    ensures AllGood(names, split, [ch])
  {
  }

  lemma ChildStepGood(j: Correlation, names: set<string>, split: set<string>, parents: seq<Node>, after: seq<Node>,
                      ch: Change)
    requires |j.parentKey| == |j.childKey| && Shaped(names, parents)
    ensures AllGood(names + {j.rel}, split, ChildStep(j, parents, after, ch))
  {
    var matching := Filtered(parents, ParentOf(j, ch.node.row));
    FilteredMembers(parents, ParentOf(j, ch.node.row));
    forall c | c in ChildStep(j, parents, after, ch) ensures Good(names + {j.rel}, split, c) {
      var i :| 0 <= i < |matching| && c == Child(Attach(j, after, matching[i]), j.rel, ch);
      assert matching[i] in matching;
    }
  }

  lemma {:induction false} ChildStepsCarry(j: Correlation, parent: Schema, child: Schema, names: set<string>,
                                           split: set<string>,
                                           childNames: set<string>, childSplit: set<string>,
                                           parents: seq<Node>, s: seq<Node>, chs: seq<Change>, t: seq<Node>)
    requires Joinable(j, parent, child) && Sorted(parent.cmp, parents) && Shaped(names, parents)
    requires Sorted(child.cmp, s) && Shaped(childNames, s) && AllGood(childNames, childSplit, chs)
    requires Columns(j.childKey) <= childSplit && Carries(child, s, chs, t)
    ensures Carries(JoinSchema(j, parent, child), Joined(j, parents, s), ChildSteps(j, child, parents, s, chs),
                    Joined(j, parents, t))
    ensures AllGood(names + {j.rel}, split, ChildSteps(j, child, parents, s, chs))
    decreases |chs|
  {
    hide Legal, Apply, Sorted, TotalOrder, Carries, AllGood, Good, Shaped, Joined, ChildStep, Consistent, KeepsKey;
    var out := JoinSchema(j, parent, child);
    if chs == [] {
      CarriesEmpty(child, s, t);
      CarriesNone(out, Joined(j, parents, s));
      NoneGood(names + {j.rel}, split);
    } else {
      var c := chs[0];
      CarriesSplit(child, s, chs, t);
      GoodSplit(childNames, childSplit, chs);
      GoodKeepsKey(childNames, childSplit, j.childKey, c);
      ShapedAfter(childNames, childSplit, child, s, c);
      ChildStepCarries(j, parent, child, parents, s, c);
      var u := Apply(child, s, c);
      ChildStepsCarry(j, parent, child, names, split, childNames, childSplit, parents, u, chs[1..], t);
      CarriesConcat(out, Joined(j, parents, s), ChildStep(j, parents, u, c), Joined(j, parents, u),
                    ChildSteps(j, child, parents, u, chs[1..]), Joined(j, parents, t));
      ChildStepGood(j, names, split, parents, u, c);
      GoodConcat(names + {j.rel}, split, ChildStep(j, parents, u, c), ChildSteps(j, child, parents, u, chs[1..]));
    }
  }

  // ----- the whole tree

  ghost predicate Sound(S: seq<Schema>, T: World) {
    |S| == |T| && forall i | 0 <= i < |S| :: Sorted(S[i].cmp, T[i])
  }

  lemma {:induction false} ViewFacts(p: Pipe, S: seq<Schema>, split: seq<set<string>>, T: World)
    requires |S| == |split| && Wired(p, S, split) && Sound(S, T)
    ensures Closed(p, |S|)
    ensures TotalOrder(PipeSchema(p, S).cmp)
    ensures Sorted(PipeSchema(p, S).cmp, View(p, S, T)) && Shaped(RelNames(p), View(p, S, T))
  {
    WiredShape(p, S, split);
    match p
    case Input(_) =>
    case Unary(op, input) =>
      WiredShape(input, S, split);
      ViewFacts(input, S, split, T);
      OpViewFacts(PipeSchema(input, S), op, RelNames(input), View(input, S, T));
    case JoinOf(parent, child, j) =>
      ViewFacts(parent, S, split, T);
      ViewFacts(child, S, split, T);
      JoinedFacts(j, PipeSchema(parent, S).cmp, RelNames(parent), View(parent, S, T), View(child, S, T));
  }

  /** A connection that the tree does not use does not matter to it. */
  lemma {:induction false} OtherConnection(p: Pipe, S: seq<Schema>, T: World, k: nat, list: seq<Node>)
    requires |S| == |T| && Closed(p, |S|) && k < |T| && k !in Conns(p)
    ensures View(p, S, T[k := list]) == View(p, S, T)
  {
    match p
    case Input(_) =>
    case Unary(_, input) => OtherConnection(input, S, T, k, list);
    case JoinOf(parent, child, _) => OtherConnection(parent, S, T, k, list); OtherConnection(child, S, T, k, list);
  }

  /** What a pipeline shows and emits depends on its own connections only. */
  lemma {:induction false} EmitIsLocal(p: Pipe, S: seq<Schema>, T: World, U: World, k: nat, ch: Change)
    requires |S| == |T| == |U| && Closed(p, |S|) && forall i | i in Conns(p) && i < |T| :: T[i] == U[i]
    ensures View(p, S, T) == View(p, S, U) && Emit(p, S, T, k, ch) == Emit(p, S, U, k, ch)
  {
    match p
    case Input(_) =>
    case Unary(_, input) => EmitIsLocal(input, S, T, U, k, ch);
    case JoinOf(parent, child, _) => EmitIsLocal(parent, S, T, U, k, ch); EmitIsLocal(child, S, T, U, k, ch);
  }

  /** The change that connection `k` hands on: legal for what it shows, of bare rows, and an edit
      keeps the columns whose edits are split. */
  ghost predicate Incoming(S: seq<Schema>, split: seq<set<string>>, T: World, k: nat, ch: Change) {
    |S| == |split| == |T| && k < |S| && Legal(S[k], T[k], ch) && Good({}, split[k], ch)
  }

  ghost function WorldAfter(S: seq<Schema>, T: World, k: nat, ch: Change): World
    requires |S| == |T| && k < |T|
  {
    T[k := Apply(S[k], T[k], ch)]
  }

  lemma {:induction false} OrderedConns(p: Pipe, S: seq<Schema>, split: seq<set<string>>, k: nat)
    requires |S| == |split| && Wired(p, S, split) && k in Conns(p)
    ensures k < |S| && TotalOrder(S[k].cmp)
  {
    match p
    case Input(_) =>
    case Unary(_, input) => OrderedConns(input, S, split, k);
    case JoinOf(parent, child, _) =>
      if k in Conns(parent) { OrderedConns(parent, S, split, k); } else { OrderedConns(child, S, split, k); }
  }

  lemma StaysSound(S: seq<Schema>, split: seq<set<string>>, T: World, k: nat, ch: Change)
    requires Sound(S, T) && Incoming(S, split, T, k, ch) && TotalOrder(S[k].cmp)
    ensures Sound(S, WorldAfter(S, T, k, ch))
  {
    ApplyFacts(S[k], T[k], ch);
  }

  /** The central property, for one change of one connection: what comes out of the tree carries
      what it showed to what it shows then. A tree may use a table through several connections;
      each of them is told on its own, so self-joins are covered. */
  lemma {:induction false} PipeCarries(p: Pipe, S: seq<Schema>, split: seq<set<string>>, T: World, k: nat, ch: Change)
    requires |S| == |split| && Wired(p, S, split) && Sound(S, T) && Incoming(S, split, T, k, ch) && k in Conns(p)
    ensures Closed(p, |S|)
    ensures Carries(PipeSchema(p, S), View(p, S, T), Emit(p, S, T, k, ch), View(p, S, WorldAfter(S, T, k, ch)))
    ensures AllGood(RelNames(p), split[Root(p)], Emit(p, S, T, k, ch))
    decreases p
  {
    hide Carries, AllGood, Good, Shaped, Sorted, TotalOrder, Legal, Apply, OpView, OpSteps, ParentSteps, ChildSteps,
         Joined, OpFits, ValidKeys;
    WiredShape(p, S, split);
    match p
    case Input(i) =>
      CarriesOne(S[k], T[k], ch, Apply(S[k], T[k], ch));
      OneGood({}, split[k], ch);
    case Unary(op, input) =>
      var sch := PipeSchema(input, S);
      PipeCarries(input, S, split, T, k, ch);
      ViewFacts(input, S, split, T);
      OpStepsCarry(sch, op, RelNames(input), split[Root(input)], View(input, S, T), Emit(input, S, T, k, ch),
                   View(input, S, WorldAfter(S, T, k, ch)));
    case JoinOf(parent, child, j) =>
      JoinCarries(parent, child, j, S, split, T, k, ch);
  }

  lemma {:induction false} JoinCarries(parent: Pipe, child: Pipe, j: Correlation, S: seq<Schema>,
                                       split: seq<set<string>>, T: World, k: nat, ch: Change)
    requires var p := JoinOf(parent, child, j);
             |S| == |split| && Wired(p, S, split) && Sound(S, T) && Incoming(S, split, T, k, ch) && k in Conns(p)
    ensures var p := JoinOf(parent, child, j);
            && Closed(p, |S|)
            && Carries(PipeSchema(p, S), View(p, S, T), Emit(p, S, T, k, ch), View(p, S, WorldAfter(S, T, k, ch)))
            && AllGood(RelNames(p), split[Root(p)], Emit(p, S, T, k, ch))
    decreases JoinOf(parent, child, j), 0
  {
    hide Carries, AllGood, Good, Shaped, Sorted, TotalOrder, Legal, Apply, ParentSteps, ChildSteps, Joined;
    var p := JoinOf(parent, child, j);
    WiredShape(parent, S, split);
    WiredShape(child, S, split);
    ViewFacts(parent, S, split, T);
    ViewFacts(child, S, split, T);
    var ps, cs := PipeSchema(parent, S), PipeSchema(child, S);
    if k in Conns(parent) {
      PipeCarries(parent, S, split, T, k, ch);
      OtherConnection(child, S, T, k, Apply(S[k], T[k], ch));
      ParentStepsCarry(j, ps, cs, RelNames(parent), split[Root(parent)], View(parent, S, T), View(child, S, T),
                       Emit(parent, S, T, k, ch), View(parent, S, WorldAfter(S, T, k, ch)));
    } else {
      PipeCarries(child, S, split, T, k, ch);
      OtherConnection(parent, S, T, k, Apply(S[k], T[k], ch));
      ChildStepsCarry(j, ps, cs, RelNames(parent), split[Root(parent)], RelNames(child), split[Root(child)],
                      View(parent, S, T), View(child, S, T), Emit(child, S, T, k, ch),
                        View(child, S, WorldAfter(S, T, k, ch)));
    }
  }
}
