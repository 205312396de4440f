/**
  Pushing a change through the compiled WHERE chain
  (ivm/filter.go, ivm/exists.go, ivm/fan_out.go, ivm/fan_in.go, ivm/push_accumulated.go).
 */
module ChainPush {
  import opened Values
  import opened Seqs
  import opened Views
  import opened Ast
  import opened FilterChain

  /** What an operator hands on. */
  datatype Pushed = Panic | Nothing | Push(change: Change)

  function ToPushed(ch: Option<Change>): Pushed {
    match ch case Some(c) => Push(c) case None => Nothing
  }

  datatype Kind = KAdd | KRemove | KEdit | KChild

  function KindOf(ch: Change): Kind {
    match ch
    case Add(_) => KAdd
    case Remove(_) => KRemove
    case Edit(_, _) => KEdit
    case Child(_, _, _) => KChild
  }

  // ----- Filter

  /** filterPush with MaybeSplitAndPushEditChange. */
  function FilterPush(ch: Change, pred: Row -> bool): Option<Change> {
    match ch
    case Edit(n, o) =>
      if pred(o.row) && pred(n.row) then Some(ch)
      else if !pred(o.row) && pred(n.row) then Some(Add(n))
      else if pred(o.row) && !pred(n.row) then Some(Remove(o))
      else None
    case _ => if pred(ch.node.row) then Some(ch) else None
  }

  // ----- Exists

  function WithRel(n: Node, rel: string, list: seq<Node>): Node {
    Node(n.row, n.rels[rel := list])
  }

  function PushWithFilter(ch: Change, present: bool, not: bool): Pushed {
    if present != not then Push(ch) else Nothing
  }

  function ExistsPush(ch: Change, rel: string, not: bool): Pushed {
    if rel !in ch.node.rels then Panic
    else
      var size := |ch.node.rels[rel]|;
      if ch.Child? && ch.rel == rel && ch.change.Add? then
        if size == 1 then
          if not then Push(Remove(WithRel(ch.node, rel, []))) else Push(Add(ch.node))
        else PushWithFilter(ch, size > 0, not)
      else if ch.Child? && ch.rel == rel && ch.change.Remove? then
        if size == 0 then
          if not then Push(Add(ch.node)) else Push(Remove(WithRel(ch.node, rel, [ch.change.node])))
        else PushWithFilter(ch, size > 0, not)
      else PushWithFilter(ch, size > 0, not)
  }

  // ----- FanIn

  function First(acc: seq<Change>, kind: Kind): Option<Change> {
    if acc == [] then None
    else if KindOf(acc[0]) == kind then Some(acc[0])
    else First(acc[1..], kind)
  }

  /** PushAccumulatedChanges with the identity merges that the fan-in uses. */
  function Collapse(acc: seq<Change>, kind: Kind): Pushed {
    if acc == [] then Nothing
    else
      var add, remove := First(acc, KAdd), First(acc, KRemove);
      match kind
      case KRemove => if remove.Some? then Push(remove.value) else Panic
      case KAdd => if add.Some? then Push(add.value) else Panic
      case KEdit =>
        var edit := First(acc, KEdit);
        if edit.Some? then Push(edit.value)
        else if add.Some? && remove.Some? then Push(Edit(add.value.node, remove.value.node))
        else if add.Some? then Push(add.value)
        else if remove.Some? then Push(remove.value)
        else Panic
      case KChild =>
        var child := First(acc, KChild);
        if child.Some? then Push(child.value)
        else if add.Some? && remove.Some? then Panic
        else if add.Some? then Push(add.value)
        else if remove.Some? then Push(remove.value)
        else Panic
  }

  /** The fan-in: pushes of the branches are gathered, then collapsed to one. */
  class FanIn {
    var accumulatedPushes: seq<Change>

    constructor ()
      ensures accumulatedPushes == []
    {
      accumulatedPushes := [];
    }

    method Push(change: Change)
      modifies this
      ensures accumulatedPushes == old(accumulatedPushes) + [change]
    {
      accumulatedPushes := accumulatedPushes + [change];
    }

    method FanOutDonePushingToAllBranches(kind: Kind) returns (r: Pushed)
      modifies this
      ensures r == Collapse(old(accumulatedPushes), kind)
      ensures accumulatedPushes == []
    {
      r := PushAccumulatedChanges(accumulatedPushes, kind);
      accumulatedPushes := [];
    }
  }

  method PushAccumulatedChanges(acc: seq<Change>, kind: Kind) returns (r: Pushed)
    ensures r == Collapse(acc, kind)
  {
    if |acc| == 0 { return Nothing; }
    var candidates: map<Kind, Change> := map[];
    for i := 0 to |acc|
      invariant forall k :: First(acc, k) == if k in candidates then Some(candidates[k]) else First(acc[i..], k)
    {
      var change := acc[i];
      // the identity merge keeps the change that is there already
      if KindOf(change) !in candidates {
        candidates := candidates[KindOf(change) := change];
      }
    }
    match kind
    case KRemove =>
      if KRemove !in candidates { return Panic; }
      return Push(candidates[KRemove]);
    case KAdd =>
      if KAdd !in candidates { return Panic; }
      return Push(candidates[KAdd]);
    case KEdit =>
      if KEdit in candidates { return Push(candidates[KEdit]); }
      if KAdd in candidates && KRemove in candidates {
        return Push(Edit(candidates[KAdd].node, candidates[KRemove].node));
      }
      if KAdd in candidates { return Push(candidates[KAdd]); }
      if KRemove in candidates { return Push(candidates[KRemove]); }
      return Panic;
    case KChild =>
      if KChild in candidates { return Push(candidates[KChild]); }
      if KAdd in candidates && KRemove in candidates { return Panic; }
      if KAdd in candidates { return Push(candidates[KAdd]); }
      if KRemove in candidates { return Push(candidates[KRemove]); }
      return Panic;
  }

  // ----- the chain

  function PushChain(c: Condition, ch: Change): Pushed
    decreases c, 1
  {
    match c
    case Simple(_, _, _) => ToPushed(FilterPush(ch, row => EvalSimple(c, row)))
    case Exists(q, not, flip, _) => if flip then Push(ch) else ExistsPush(ch, RelName(q), not)
    case And(cs) => AndPush(cs, ch)
    case Or(cs) =>
      if exists i | 0 <= i < |cs| :: ContainsSubquery(cs[i]) then
        match BranchPush(cs, ch)
        case None => Panic
        case Some(acc) => Collapse(acc + SimplePush(cs, ch), KindOf(ch))
      else ToPushed(FilterPush(ch, row => exists i | 0 <= i < |cs| :: Pred(cs[i], row)))
  }

  function AndPush(cs: seq<Condition>, ch: Change): Pushed
    decreases cs, 0
  {
    if cs == [] then Push(ch)
    else match PushChain(cs[0], ch)
      case Push(c) => AndPush(cs[1..], c)
      case other => other
  }

  /** The pushes that reach the fan-in from the branches with a subquery; None is a panic. */
  function BranchPush(cs: seq<Condition>, ch: Change): Option<seq<Change>>
    decreases cs, 0
  {
    if cs == [] then Some([])
    else if !ContainsSubquery(cs[0]) then BranchPush(cs[1..], ch)
    else match (PushChain(cs[0], ch), BranchPush(cs[1..], ch))
      case (Push(c), Some(rest)) => Some([c] + rest)
      case (Nothing, Some(rest)) => Some(rest)
      case (_, _) => None
  }

  /** The push from the branch that the other branches are merged into, if there are any. */
  function SimplePush(cs: seq<Condition>, ch: Change): seq<Change> {
    match FilterPush(ch, row => SimpleBranches(cs, row))
    case Some(c) => [c]
    case None => []
  }

  // ----- what a change does to a node

  ghost predicate SizeMoves(c: Change, before: seq<Node>, after: seq<Node>) {
    match c
    case Add(_) => |after| == |before| + 1
    case Remove(n) => |before| == |after| + 1 && (after == [] ==> before == [n])
    case _ => before != [] && after != []
  }

  /** `ch` takes the node `pre` to the node `post`. */
  ghost predicate Moves(ch: Change, pre: Option<Node>, post: Option<Node>) {
    && post == Post(ch)
    && match ch
       case Add(_) => pre == None
       case Remove(n) => pre == Some(n)
       case Edit(_, o) => pre == Some(o)
       case Child(n, rel, c) =>
         && pre.Some? && pre.value.row == n.row
         && rel in pre.value.rels && pre.value.rels.Keys == n.rels.Keys
         && (forall r | r in n.rels && r != rel :: pre.value.rels[r] == n.rels[r])
         && SizeMoves(c, pre.value.rels[rel], n.rels[rel])
  }

  lemma LegalMoves(sch: Schema, s: seq<Node>, ch: Change)
    requires TotalOrder(sch.cmp) && Sorted(sch.cmp, s) && Legal(sch, s, ch)
    ensures Moves(ch, Pre(sch, s, ch), Post(ch))
  {
    if ch.Child? {
      var m := s[Pos(sch.cmp, s, ch.node.row)];
      LegalSizes(sch.rels[ch.rel], m.rels[ch.rel], ch.change);
    }
  }

  lemma LegalSizes(sch: Schema, s: seq<Node>, ch: Change)
    requires TotalOrder(sch.cmp) && Sorted(sch.cmp, s) && Legal(sch, s, ch)
    ensures SizeMoves(ch, s, Apply(sch, s, ch))
  {
    if ch.Remove? {
      MemberAt(sch.cmp, s, ch.node);
    } else if ch.Edit? {
      MemberAt(sch.cmp, s, ch.oldNode);
    }
  }

  // ----- the names of the relationships a chain looks at

  ghost function Names(c: Condition): set<string>
    decreases c, 1
  {
    match c
    case Simple(_, _, _) => {}
    case Exists(q, _, flip, _) => if flip then {} else {RelName(q)}
    case And(cs) => NamesOf(cs)
    case Or(cs) => NamesOf(cs)
  }

  ghost function NamesOf(cs: seq<Condition>): set<string>
    decreases cs, 0
  {
    if cs == [] then {} else Names(cs[0]) + NamesOf(cs[1..])
  }

  /** No two subqueries of the condition share a relationship. */
  ghost predicate DistinctNames(c: Condition)
    decreases c, 1
  {
    match c
    case And(cs) => DistinctNamesOf(cs)
    case Or(cs) => DistinctNamesOf(cs)
    case _ => true
  }

  ghost predicate DistinctNamesOf(cs: seq<Condition>)
    decreases cs, 0
  {
    cs == [] || (DistinctNames(cs[0]) && Names(cs[0]) !! NamesOf(cs[1..]) && DistinctNamesOf(cs[1..]))
  }

  /** The nodes have the relationships, and an edit does not change which of them are empty. */
  ghost predicate Fits(names: set<string>, ch: Change, pre: Option<Node>, post: Option<Node>) {
    && (pre.Some? ==> names <= pre.value.rels.Keys)
    && (post.Some? ==> names <= post.value.rels.Keys)
    && (ch.Edit? ==> forall r | r in names :: NonEmpty(ch.node, r) == NonEmpty(ch.oldNode, r))
  }

  predicate SatOpt(c: Condition, n: Option<Node>) {
    n.Some? && Sat(c, n.value)
  }

  // ----- each operator is a gate

  lemma FilterPushIsGate(ch: Change, pre: Option<Node>, post: Option<Node>, pred: Row -> bool)
    requires Moves(ch, pre, post)
    ensures FilterPush(ch, pred) == Gate(ch, pre, post, pre.Some? && pred(pre.value.row), post.Some?
                                         && pred(post.value.row))
  {
  }

  lemma ExistsPushIsGate(ch: Change, pre: Option<Node>, post: Option<Node>, rel: string, not: bool)
    requires Moves(ch, pre, post) && Fits({rel}, ch, pre, post)
    ensures ExistsPush(ch, rel, not) ==
            ToPushed(Gate(ch, pre, post, pre.Some? && NonEmpty(pre.value, rel) != not, post.Some?
                          && NonEmpty(post.value, rel) != not))
  {
    assert rel in {rel};
    if ch.Child? && ch.rel == rel {
      var list := pre.value.rels[rel];
      assert ch.node.rels[rel := list] == pre.value.rels;
      assert WithRel(ch.node, rel, list) == pre.value;
    }
  }

  /** The accumulated pushes are the change itself, its removal half or its add half. */
  ghost predicate Gathered(acc: seq<Change>, ch: Change, pre: Option<Node>, post: Option<Node>, both: bool,
                           onlyPre: bool, onlyPost: bool) {
    && (both ==> ch in acc)
    && (onlyPre ==> pre.Some? && Remove(pre.value) in acc)
    && (onlyPost ==> post.Some? && Add(post.value) in acc)
    && forall c | c in acc :: (both && c == ch) || (onlyPre && c == Remove(pre.value))
                              || (onlyPost && c == Add(post.value))
  }

  lemma {:induction false} FirstOfKind(acc: seq<Change>, kind: Kind, c: Change)
    requires KindOf(c) == kind
    requires forall d | d in acc && KindOf(d) == kind :: d == c
    ensures First(acc, kind) == if c in acc then Some(c) else None
  {
    if acc != [] {
      HeadTail(acc);
      FirstOfKind(acc[1..], kind, c);
    }
  }

  lemma {:induction false} NoneOfKind(acc: seq<Change>, kind: Kind)
    requires forall d | d in acc :: KindOf(d) != kind
    ensures First(acc, kind) == None
  {
    if acc != [] {
      HeadTail(acc);
      NoneOfKind(acc[1..], kind);
    }
  }

  lemma FirstFacts(acc: seq<Change>, ch: Change, pre: Option<Node>, post: Option<Node>, both: bool, onlyPre: bool,
                   onlyPost: bool)
    requires Moves(ch, pre, post) && Gathered(acc, ch, pre, post, both, onlyPre, onlyPost)
    requires both ==> pre.Some? && post.Some?
    ensures First(acc, KRemove) == if onlyPre then Some(Remove(pre.value)) else None
    ensures First(acc, KAdd) == if onlyPost then Some(Add(post.value)) else None
    ensures ch.Edit? || ch.Child? ==> First(acc, KindOf(ch)) == if both then Some(ch) else None
  {
    if onlyPre { FirstOfKind(acc, KRemove, Remove(pre.value)); } else { NoneOfKind(acc, KRemove); }
    if onlyPost { FirstOfKind(acc, KAdd, Add(post.value)); } else { NoneOfKind(acc, KAdd); }
    if ch.Edit? || ch.Child? {
      if both { FirstOfKind(acc, KindOf(ch), ch); } else { NoneOfKind(acc, KindOf(ch)); }
    }
  }

  lemma CollapseIsGate(acc: seq<Change>, ch: Change, pre: Option<Node>, post: Option<Node>, both: bool, onlyPre: bool,
                       onlyPost: bool)
    requires Moves(ch, pre, post) && Gathered(acc, ch, pre, post, both, onlyPre, onlyPost)
    requires both ==> pre.Some? && post.Some?
    ensures Collapse(acc, KindOf(ch)) ==
            if ch.Child? && onlyPre && onlyPost && !both then Panic
              else ToPushed(Gate(ch, pre, post, both || onlyPre, both || onlyPost))
  {
    FirstFacts(acc, ch, pre, post, both, onlyPre, onlyPost);
    assert acc == [] <==> !both && !onlyPre && !onlyPost by {
      if acc != [] { assert acc[0] in acc; }
    }
  }

  lemma GatherConcat(xs: seq<Change>, ys: seq<Change>, ch: Change, pre: Option<Node>, post: Option<Node>,
                     b0: bool, r0: bool, a0: bool, b1: bool, r1: bool, a1: bool)
    requires Gathered(xs, ch, pre, post, b0, r0, a0) && Gathered(ys, ch, pre, post, b1, r1, a1)
    ensures Gathered(xs + ys, ch, pre, post, b0 || b1, r0 || r1, a0 || a1)
  {
    assert forall c :: c in xs + ys <==> c in xs || c in ys;
  }

  lemma GatherNone(ch: Change, pre: Option<Node>, post: Option<Node>)
    ensures Gathered([], ch, pre, post, false, false, false)
  {
  }

  lemma GatherGate(ch: Change, pre: Option<Node>, post: Option<Node>, a: bool, b: bool)
    requires Moves(ch, pre, post) && (a ==> pre.Some?) && (b ==> post.Some?)
    ensures Gathered(Emitted(Gate(ch, pre, post, a, b)), ch, pre, post, a && b, a && !b, !a && b)
  {
  }

  /** Some branch with a subquery is passed before (`a`) and after (`b`) the change. */
  ghost predicate AnyBranch(cs: seq<Condition>, pre: Option<Node>, post: Option<Node>, a: bool, b: bool)
    decreases |cs|
  {
    cs != [] && ((ContainsSubquery(cs[0]) && SatOpt(cs[0], pre) == a && SatOpt(cs[0], post) == b)
                 || AnyBranch(cs[1..], pre, post, a, b))
  }

  lemma {:induction false} AnyBranchMeans(cs: seq<Condition>, pre: Option<Node>, post: Option<Node>)
    ensures AnyBranch(cs, pre, post, true, true) || AnyBranch(cs, pre, post, true, false)
            <==> exists i | 0 <= i < |cs| :: ContainsSubquery(cs[i]) && SatOpt(cs[i], pre)
    ensures AnyBranch(cs, pre, post, true, true) || AnyBranch(cs, pre, post, false, true)
            <==> exists i | 0 <= i < |cs| :: ContainsSubquery(cs[i]) && SatOpt(cs[i], post)
    decreases |cs|
  {
    if cs != [] {
      AnyBranchMeans(cs[1..], pre, post);
      ForallSplit(cs, (c: Condition) => !(ContainsSubquery(c) && SatOpt(c, pre)));
      ForallSplit(cs, (c: Condition) => !(ContainsSubquery(c) && SatOpt(c, post)));
    }
  }

  /** A child change of a relationship that the condition does not look at leaves it as it was. */
  lemma {:induction false} QuietCondition(c: Condition, ch: Change, pre: Option<Node>, post: Option<Node>)
    requires Moves(ch, pre, post) && ch.Child? && ch.rel !in Names(c)
    ensures Sat(c, pre.value) == Sat(c, post.value)
    decreases c, 1
  {
    match c
    case Simple(_, _, _) =>
    case Exists(q, _, flip, _) =>
    case And(cs) => QuietConditions(cs, ch, pre, post);
    case Or(cs) => QuietConditions(cs, ch, pre, post);
  }

  lemma {:induction false} QuietConditions(cs: seq<Condition>, ch: Change, pre: Option<Node>, post: Option<Node>)
    requires Moves(ch, pre, post) && ch.Child? && ch.rel !in NamesOf(cs)
    ensures forall i | 0 <= i < |cs| :: Sat(cs[i], pre.value) == Sat(cs[i], post.value)
    ensures !AnyBranch(cs, pre, post, true, false) && !AnyBranch(cs, pre, post, false, true)
    decreases cs, 0
  {
    if cs != [] {
      QuietCondition(cs[0], ch, pre, post);
      QuietConditions(cs[1..], ch, pre, post);
      assert forall i | 0 < i < |cs| :: cs[i] == cs[1..][i - 1];
    }
  }

  /** One child change does not both open one branch and close another. */
  lemma {:induction false} NotBothWays(cs: seq<Condition>, ch: Change, pre: Option<Node>, post: Option<Node>)
    requires Moves(ch, pre, post) && ch.Child? && DistinctNamesOf(cs)
    ensures !(AnyBranch(cs, pre, post, true, false) && AnyBranch(cs, pre, post, false, true))
    decreases |cs|
  {
    if cs != [] {
      if ch.rel in Names(cs[0]) {
        QuietConditions(cs[1..], ch, pre, post);
      } else {
        QuietCondition(cs[0], ch, pre, post);
        NotBothWays(cs[1..], ch, pre, post);
      }
    }
  }

  predicate SatAllOpt(cs: seq<Condition>, n: Option<Node>) {
    n.Some? && forall i | 0 <= i < |cs| :: Sat(cs[i], n.value)
  }

  lemma FitsLess(less: set<string>, names: set<string>, ch: Change, pre: Option<Node>, post: Option<Node>)
    requires Fits(names, ch, pre, post) && less <= names
    ensures Fits(less, ch, pre, post)
  {
  }

  /** On the way of a child change to a node, from `pre` to `post`, a fan-in of the chain is reached at
      which some branch opens, another closes, and none holds throughout. */
  ghost predicate Clashes(c: Condition, pre: Node, post: Node)
    decreases c, 1
  {
    match c
    case And(cs) => ClashesInTurn(cs, pre, post)
    case Or(cs) => SomeClashes(cs, pre, post) || BothWays(cs, pre, post)
    case _ => false
  }

  /** Some condition clashes, and those before it hold throughout. */
  ghost predicate ClashesInTurn(cs: seq<Condition>, pre: Node, post: Node)
    decreases cs, 0
  {
    cs != [] && (Clashes(cs[0], pre, post)
                 || (Sat(cs[0], pre) && Sat(cs[0], post) && ClashesInTurn(cs[1..], pre, post)))
  }

  ghost predicate SomeClashes(cs: seq<Condition>, pre: Node, post: Node)
    decreases cs, 0
  {
    cs != [] && ((ContainsSubquery(cs[0]) && Clashes(cs[0], pre, post)) || SomeClashes(cs[1..], pre, post))
  }

  ghost predicate BothWays(cs: seq<Condition>, pre: Node, post: Node) {
    && AnyBranch(cs, Some(pre), Some(post), true, false) && AnyBranch(cs, Some(pre), Some(post), false, true)
    && !AnyBranch(cs, Some(pre), Some(post), true, true)
      && !(SimpleBranches(cs, pre.row) && SimpleBranches(cs, post.row))
  }

  /** What a chain hands on in the end. */
  function Outcome(panics: bool, out: Option<Change>): Pushed {
    if panics then Panic else ToPushed(out)
  }

  /** The compiled chain, pushed any change, for every condition: it panics exactly on a child change
      that clashes, and otherwise emits what one gate with the whole condition would emit. */
  lemma {:induction false} ChainPushIs(c: Condition, ch: Change, pre: Option<Node>, post: Option<Node>)
    requires Moves(ch, pre, post) && Fits(Names(c), ch, pre, post)
    ensures PushChain(c, ch) == Outcome(ch.Child?
                                        && Clashes(c, pre.value, post.value),
                                          Gate(ch, pre, post, SatOpt(c, pre), SatOpt(c, post)))
    decreases c, 1
  {
    match c
    case Simple(_, _, _) =>
      FilterPushIsGate(ch, pre, post, row => EvalSimple(c, row));
    case Exists(q, not, flip, _) =>
      if !flip { ExistsPushIsGate(ch, pre, post, RelName(q), not); }
    case And(cs) =>
      AndPushIs(cs, ch, pre, post);
    case Or(cs) =>
      OrPushIs(c, cs, ch, pre, post);
  }

  lemma {:induction false} AndPushIs(cs: seq<Condition>, ch: Change, pre: Option<Node>, post: Option<Node>)
    requires Moves(ch, pre, post) && Fits(NamesOf(cs), ch, pre, post)
    ensures AndPush(cs, ch) == Outcome(ch.Child?
                                       && ClashesInTurn(cs, pre.value, post.value),
                                         Gate(ch, pre, post, SatAllOpt(cs, pre), SatAllOpt(cs, post)))
    decreases cs, 0
  {
    if cs != [] {
      FitsLess(Names(cs[0]), NamesOf(cs), ch, pre, post);
      FitsLess(NamesOf(cs[1..]), NamesOf(cs), ch, pre, post);
      ChainPushIs(cs[0], ch, pre, post);
      SatAllSplit(cs, pre);
      SatAllSplit(cs, post);
      var g := Gate(ch, pre, post, SatOpt(cs[0], pre), SatOpt(cs[0], post));
      if g == Some(ch) {
        AndPushIs(cs[1..], ch, pre, post);
      } else if g.Some? && g.value.Remove? {
        AndPushIs(cs[1..], g.value, pre, None);
      } else if g.Some? {
        AndPushIs(cs[1..], g.value, None, post);
      }
    }
  }

  lemma SatAllSplit(cs: seq<Condition>, n: Option<Node>)
    requires cs != []
    ensures SatAllOpt(cs, n) <==> SatOpt(cs[0], n) && SatAllOpt(cs[1..], n)
  {
    assert forall i | 0 < i < |cs| :: cs[i] == cs[1..][i - 1];
  }

  lemma {:induction false} BranchPushGathers(cs: seq<Condition>, ch: Change, pre: Option<Node>, post: Option<Node>)
    requires Moves(ch, pre, post) && Fits(NamesOf(cs), ch, pre, post)
    ensures BranchPush(cs, ch).None? <==> ch.Child? && SomeClashes(cs, pre.value, post.value)
    ensures BranchPush(cs, ch).Some? ==>
              Gathered(BranchPush(cs, ch).value, ch, pre, post,
                       AnyBranch(cs, pre, post, true, true), AnyBranch(cs, pre, post, true, false),
                         AnyBranch(cs, pre, post, false, true))
    decreases cs, 0
  {
    hide Gathered, Fits, Sat, Names, ContainsSubquery, Clashes;
    if cs == [] {
      GatherNone(ch, pre, post);
    } else {
      FitsLess(NamesOf(cs[1..]), NamesOf(cs), ch, pre, post);
      BranchPushGathers(cs[1..], ch, pre, post);
      if ContainsSubquery(cs[0]) {
        FitsLess(Names(cs[0]), NamesOf(cs), ch, pre, post);
        ChainPushIs(cs[0], ch, pre, post);
        if BranchPush(cs, ch).Some? {
          var a, b := SatOpt(cs[0], pre), SatOpt(cs[0], post);
          var g := Emitted(Gate(ch, pre, post, a, b));
          GatherGate(ch, pre, post, a, b);
          GatherConcat(g, BranchPush(cs[1..], ch).value, ch, pre, post, a && b, a && !b, !a && b,
                       AnyBranch(cs[1..], pre, post, true, true), AnyBranch(cs[1..], pre, post, true, false),
                         AnyBranch(cs[1..], pre, post, false, true));
          assert BranchPush(cs, ch).value == g + BranchPush(cs[1..], ch).value;
        }
      }
    }
  }

  lemma {:induction false} OrPushIs(c: Condition, cs: seq<Condition>, ch: Change, pre: Option<Node>, post: Option<Node>)
    requires c == Or(cs) && Moves(ch, pre, post) && Fits(NamesOf(cs), ch, pre, post)
    ensures PushChain(c, ch) ==
            Outcome(ch.Child? && (SomeClashes(cs, pre.value, post.value) || BothWays(cs, pre.value, post.value)),
                    Gate(ch, pre, post, SatOpt(c, pre), SatOpt(c, post)))
    decreases cs, 1
  {
    hide Gathered, Fits, Sat, Pred, AnyBranch, NamesOf, Collapse, BranchPush, ContainsSubquery, SomeClashes;
    OrSplits(cs, pre);
    OrSplits(cs, post);
    AnyBranchMeans(cs, pre, post);
    if exists i | 0 <= i < |cs| :: ContainsSubquery(cs[i]) {
      var a, b := pre.Some? && SimpleBranches(cs, pre.value.row), post.Some? && SimpleBranches(cs, post.value.row);
      BranchPushGathers(cs, ch, pre, post);
      if BranchPush(cs, ch).Some? {
        FilterPushIsGate(ch, pre, post, row => SimpleBranches(cs, row));
        GatherGate(ch, pre, post, a, b);
        var both, onlyPre, onlyPost := AnyBranch(cs, pre, post, true, true), AnyBranch(cs, pre, post, true, false),
          AnyBranch(cs, pre, post, false, true);
        GatherConcat(BranchPush(cs, ch).value, SimplePush(cs, ch), ch, pre, post, both, onlyPre, onlyPost, a && b, a
                     && !b, !a && b);
        CollapseIsGate(BranchPush(cs, ch).value + SimplePush(cs, ch), ch, pre, post, both || (a && b), onlyPre
                       || (a && !b), onlyPost || (!a && b));
      }
    } else {
      FilterPushIsGate(ch, pre, post, row => exists i | 0 <= i < |cs| :: Pred(cs[i], row));
      if ch.Child? { NoneClashes(cs, pre.value, post.value); }
    }
  }

  lemma {:induction false} NoneClashes(cs: seq<Condition>, pre: Node, post: Node)
    requires forall i | 0 <= i < |cs| :: !ContainsSubquery(cs[i])
    ensures !SomeClashes(cs, pre, post)
  {
    if cs != [] { NoneClashes(cs[1..], pre, post); }
  }

  // ----- distinct names

  /** Where no two subqueries of the condition share a relationship, nothing clashes. */
  lemma {:induction false} DistinctDoNotClash(c: Condition, ch: Change, pre: Option<Node>, post: Option<Node>)
    requires Moves(ch, pre, post) && ch.Child? && DistinctNames(c)
    ensures !Clashes(c, pre.value, post.value)
    decreases c, 1
  {
    match c
    case And(cs) => AllDistinct(cs, ch, pre, post);
    case Or(cs) => AllDistinct(cs, ch, pre, post); NotBothWays(cs, ch, pre, post);
    case _ =>
  }

  lemma {:induction false} AllDistinct(cs: seq<Condition>, ch: Change, pre: Option<Node>, post: Option<Node>)
    requires Moves(ch, pre, post) && ch.Child? && DistinctNamesOf(cs)
    ensures !ClashesInTurn(cs, pre.value, post.value) && !SomeClashes(cs, pre.value, post.value)
    decreases cs, 0
  {
    if cs != [] {
      DistinctDoNotClash(cs[0], ch, pre, post);
      AllDistinct(cs[1..], ch, pre, post);
    }
  }

  /** So the chain emits exactly what one gate with the whole condition would emit, and none of its
      panics is reachable. */
  lemma ChainPushIsGate(c: Condition, ch: Change, pre: Option<Node>, post: Option<Node>)
    requires Moves(ch, pre, post) && DistinctNames(c) && Fits(Names(c), ch, pre, post)
    ensures PushChain(c, ch) == ToPushed(Gate(ch, pre, post, SatOpt(c, pre), SatOpt(c, post)))
  {
    ChainPushIs(c, ch, pre, post);
    if ch.Child? { DistinctDoNotClash(c, ch, pre, post); }
  }

  lemma OrSplits(cs: seq<Condition>, n: Option<Node>)
    ensures SatOpt(Or(cs), n) <==>
            n.Some? && ((exists i | 0 <= i < |cs| :: ContainsSubquery(cs[i]) && SatOpt(cs[i], n))
                        || SimpleBranches(cs, n.value.row))
  {
    if n.Some? {
      forall i | 0 <= i < |cs| && !ContainsSubquery(cs[i]) ensures Pred(cs[i], n.value.row) == Sat(cs[i], n.value) {
        PredIsSat(cs[i], n.value);
      }
    }
  }

  /** Two EXISTS branches of a disjunction make the fan-in panic exactly on a child change of a
      relationship that they share, with opposite polarities, that makes it non-empty or empty. */
  lemma SharedNamePanicsIff(q: CorrelatedSubquery, r: CorrelatedSubquery, notQ: bool, notR: bool, s: bool, t: bool,
                            ch: Change, pre: Option<Node>, post: Option<Node>)
    requires Moves(ch, pre, post) && ch.Child? && Fits({RelName(q), RelName(r)}, ch, pre, post)
    ensures PushChain(Or([Exists(q, notQ, false, s), Exists(r, notR, false, t)]), ch) == Panic <==>
            RelName(q) == RelName(r) == ch.rel && notQ != notR
              && NonEmpty(pre.value, ch.rel) != NonEmpty(post.value, ch.rel)
  {
    hide PushChain, Clashes, Fits, Moves, Sat;
    var a, b := Exists(q, notQ, false, s), Exists(r, notR, false, t);
    TwoNames(a, b);
    ChainPushIs(Or([a, b]), ch, pre, post);
    BranchHolds(q, notQ, s, ch, pre, post);
    BranchHolds(r, notR, t, ch, pre, post);
    TwoBranches(a, b, pre.value, post.value);
  }

  lemma TwoNames(a: Condition, b: Condition)
    requires a.Exists? && b.Exists? && !a.flip && !b.flip
    ensures Names(Or([a, b])) == {RelName(a.related), RelName(b.related)}
  {
    assert [a, b][1..] == [b] && [b][1..] == [];
    assert NamesOf([b]) == {RelName(b.related)} + NamesOf([]);
    assert NamesOf([a, b]) == {RelName(a.related)} + NamesOf([b]);
  }

  /** What an EXISTS says before and after a child change. */
  lemma BranchHolds(q: CorrelatedSubquery, not: bool, scalar: bool, ch: Change, pre: Option<Node>, post: Option<Node>)
    requires Moves(ch, pre, post) && ch.Child?
    ensures pre.Some? && post.Some?
    ensures Sat(Exists(q, not, false, scalar), pre.value) <==> NonEmpty(pre.value, RelName(q)) != not
    ensures Sat(Exists(q, not, false, scalar), post.value) <==> NonEmpty(post.value, RelName(q)) != not
    ensures ch.rel != RelName(q) ==> NonEmpty(pre.value, RelName(q)) == NonEmpty(post.value, RelName(q))
  {
  }

  lemma TwoBranches(a: Condition, b: Condition, pre: Node, post: Node)
    requires a.Exists? && b.Exists? && !a.flip && !b.flip
    ensures Clashes(Or([a, b]), pre, post) <==>
            || (Sat(a, pre) && !Sat(a, post) && !Sat(b, pre) && Sat(b, post))
            || (!Sat(a, pre) && Sat(a, post) && Sat(b, pre) && !Sat(b, post))
  {
    hide Sat;
    var cs := [a, b];
    assert cs[1..] == [b] && [b][1..] == [];
    assert forall i | 0 <= i < |cs| :: ContainsSubquery(cs[i]);
    assert !SimpleBranches(cs, pre.row) && !SimpleBranches(cs, post.row);
    assert !Clashes(a, pre, post) && !Clashes(b, pre, post) && !SomeClashes([], pre, post);
    assert !SomeClashes([b], pre, post);
    assert !SomeClashes(cs, pre, post);
    forall x, y ensures AnyBranch(cs, Some(pre), Some(post), x, y) <==>
      (Sat(a, pre) == x && Sat(a, post) == y) || (Sat(b, pre) == x && Sat(b, post) == y) {
      assert AnyBranch([b], Some(pre), Some(post), x, y) <==> Sat(b, pre) == x && Sat(b, post) == y;
    }
  }

  /** So it panics on every node that gets its first child. */
  lemma SharedNamePanics(q: CorrelatedSubquery, scalar: bool, n: Node, c: Node)
    requires RelName(q) in n.rels && |n.rels[RelName(q)]| == 1
    ensures var either := Or([Exists(q, false, false, scalar), Exists(q, true, false, scalar)]);
            !DistinctNames(either) && PushChain(either, Child(n, RelName(q), Add(c))) == Panic
  {
    var a, b, ch := Exists(q, false, false, scalar), Exists(q, true, false, scalar), Child(n, RelName(q), Add(c));
    assert [a, b][1..] == [b];
    assert RelName(q) in Names(a) && RelName(q) in NamesOf([b]);
    SharedNamePanicsIff(q, q, false, true, scalar, scalar, ch, Some(WithRel(n, RelName(q), [])), Some(n));
  }

  /** End to end for one WHERE chain: the emitted changes carry the filtered view of the old input
      to the filtered view of the new input. */
  lemma ChainCarries(c: Condition, sch: Schema, s: seq<Node>, ch: Change)
    requires TotalOrder(sch.cmp) && Sorted(sch.cmp, s) && Legal(sch, s, ch)
    requires DistinctNames(c) && Fits(Names(c), ch, Pre(sch, s, ch), Post(ch))
    ensures PushChain(c, ch) != Panic
    ensures Carries(sch, Filtered(s, n => Sat(c, n)), PushedList(PushChain(c, ch)),
                    Filtered(Apply(sch, s, ch), n => Sat(c, n)))
  {
    hide Legal, Apply, Carries, Sat, PushChain, DistinctNames, Fits, Moves, TotalOrder, Sorted, Filtered, Gate, Pre;
    var pre, post := Pre(sch, s, ch), Post(ch);
    LegalMoves(sch, s, ch);
    ChainPushIsGate(c, ch, pre, post);
    GateCarries(sch, s, ch, n => Sat(c, n));
  }

  function PushedList(p: Pushed): seq<Change> {
    if p.Push? then [p.change] else []
  }
}
