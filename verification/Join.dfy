/** The Join operator (ivm/join.go). */
module Join {
  import opened Values
  import opened Seqs
  import opened Views
  import opened JoinUtils
  import opened Fetching
  import opened JoinSpec

  class JoinOperator {
    const corr: Correlation
    const parentSchema: Schema
    const childSchema: Schema
    /** What the two inputs hold; while a push is handled the list that changed is the list after the change. */
    var parent: seq<Node>
    var child: seq<Node>
    var inprogressChildChange: Option<Change>
    var inprogressChildChangePosition: Option<Row>
    /** The children before the change that is in progress. */
    ghost var before: seq<Node>

    constructor (corr: Correlation, parentSchema: Schema, childSchema: Schema, parent: seq<Node>, child: seq<Node>)
      requires Joinable(corr, parentSchema, childSchema) && Sorted(parentSchema.cmp, parent)
               && Sorted(childSchema.cmp, child)
      ensures Valid() && inprogressChildChange == None
      ensures this.corr == corr && this.parentSchema == parentSchema && this.childSchema == childSchema
      ensures this.parent == parent && this.child == child
    {
      this.corr, this.parentSchema, this.childSchema, this.parent, this.child := corr, parentSchema, childSchema,
        parent, child;
      inprogressChildChange, inprogressChildChangePosition := None, None;
    }

    ghost predicate Valid()
      reads this
    {
      && Joinable(corr, parentSchema, childSchema) && Sorted(parentSchema.cmp, parent) && Sorted(childSchema.cmp, child)
      && (inprogressChildChange.Some? ==>
            var ch := inprogressChildChange.value;
            Sorted(childSchema.cmp, before) && Legal(childSchema, before, ch)
              && child == Apply(childSchema, before, ch) && KeepsKey(corr.childKey, ch))
    }

    /** How a fetch shows a parent now. */
    ghost function Shows(): Node -> Node
      requires |corr.parentKey| == |corr.childKey|
      reads this
    {
      Shower(corr, parentSchema.cmp, before, child, if inprogressChildChange.Some? then inprogressChildChangePosition
             else None)
    }

    lemma ShowsIs(p: Node)
      requires |corr.parentKey| == |corr.childKey|
      ensures Shows()(p) == Attach(corr, if Behind(p.row) then before else child, p)
    {
    }

    /** A child push is in progress and has not come to this parent. */
    predicate Behind(row: Row)
      reads this
    {
      inprogressChildChange.Some? && inprogressChildChangePosition.Some?
        && parentSchema.cmp(row, inprogressChildChangePosition.value) > 0
    }

    /** What the join holds now. */
    ghost function View(): seq<Node>
      requires |corr.parentKey| == |corr.childKey|
      reads this
    {
      MapNodes(parent, Shows())
    }

    /** The parent with its children; None is a panic of the overlay. */
    method ProcessParentNode(p: Node) returns (r: Option<Node>)
      requires Valid()
      ensures r == Some(Shows()(p))
    {
      ChildFetchIsFilter(p.row);
      ShowsIs(p);
      var constraint := BuildJoinConstraint(p.row, corr.parentKey, corr.childKey);
      var nodes: seq<Node> := [];
      if constraint.Some? {
        nodes := Selected(childSchema.cmp, child, FetchRequest(constraint, None, false));
      }
      if && inprogressChildChange.Some?
         && IsJoinMatch(p.row, corr.parentKey, inprogressChildChange.value.node.row, corr.childKey)
         && inprogressChildChangePosition.Some?
         && parentSchema.cmp(p.row, inprogressChildChangePosition.value) > 0
      {
        OverlayFits(p.row);
        var overlaid := GenerateWithOverlay(nodes, inprogressChildChange.value, childSchema);
        if overlaid.None? { return None; }
        nodes := overlaid.value;
      } else {
        NoOverlayNeeded(p.row);
      }
      return Some(Node(p.row, p.rels[corr.rel := nodes]));
    }

    lemma ChildFetchIsFilter(row: Row)
      requires Valid()
      ensures var c := JoinConstraint(row, corr.parentKey, corr.childKey);
              ChildrenOf(corr, child, row) == if c.None? then []
                else Selected(childSchema.cmp, child, FetchRequest(c, None, false))
    {
      var c := JoinConstraint(row, corr.parentKey, corr.childKey);
      forall x: Node ensures ChildOf(corr, row)(x) <==> c.Some? && ConstraintMatches(c.value, x.row) {
        ConstraintIsJoinMatch(row, corr.parentKey, x.row, corr.childKey);
      }
      if c.Some? {
        FilteredSame(child, ChildOf(corr, row), Wanted(childSchema.cmp, FetchRequest(c, None, false)));
      } else {
        FilteredNone(child, ChildOf(corr, row));
      }
    }

    /** For a parent that is not reached yet, undoing the change gives its old children. */
    lemma OverlayFits(row: Row)
      requires Valid() && inprogressChildChange.Some?
               && IsJoinMatch(row, corr.parentKey, inprogressChildChange.value.node.row, corr.childKey)
      ensures var nodes, ch := ChildrenOf(corr, child, row), inprogressChildChange.value;
              Ready(childSchema, nodes, ch) && Undoable(childSchema, nodes, ch)
                && Undo(childSchema, nodes, ch) == ChildrenOf(corr, before, row)
    {
      var ch := inprogressChildChange.value;
      ChildrenAfter(corr, childSchema, before, ch, row);
      ApplyFacts(childSchema, ChildrenOf(corr, before, row), ch);
      UndoApply(childSchema, ChildrenOf(corr, before, row), ch);
      UndoableIsReady(childSchema, ChildrenOf(corr, child, row), ch);
    }

    lemma NoOverlayNeeded(row: Row)
      requires Valid()
      ensures inprogressChildChange.Some?
              && !IsJoinMatch(row, corr.parentKey, inprogressChildChange.value.node.row, corr.childKey) ==>
                ChildrenOf(corr, before, row) == ChildrenOf(corr, child, row)
    {
      if inprogressChildChange.Some? { ChildrenAfter(corr, childSchema, before, inprogressChildChange.value, row); }
    }

    /** A fetch answers as an input would that holds the view. */
    method Fetch(req: FetchRequest) returns (r: Option<seq<Node>>)
      requires Valid()
      ensures r == Some(Selected(parentSchema.cmp, View(), req))
    {
      var parentNodes := Selected(parentSchema.cmp, parent, req);
      var result: seq<Node> := [];
      for i := 0 to |parentNodes|
        invariant result == MapNodes(parentNodes[..i], Shows())
      {
        var n := ProcessParentNode(parentNodes[i]);
        if n.None? { return None; }
        PrefixOne(parentNodes, i);
        result := result + [n.value];
      }
      assert parentNodes[..|parentNodes|] == parentNodes;
      SelectedShown(corr, parentSchema.cmp, parent, before, child, if inprogressChildChange.Some?
                    then inprogressChildChangePosition else None, req);
      return Some(result);
    }

    // ----- push

    ghost function Out(): Schema {
      JoinSchema(corr, parentSchema, childSchema)
    }

    /** output.Push: the change, and what a fetch would answer at this moment. */
    method Emit(ch: Change) returns (e: Option<Emission>)
      requires Valid()
      ensures e == Some(Emission(ch, View()))
    {
      var shown := Fetch(FetchRequest(None, None, false));
      if shown.None? { return None; }
      SelectsAll(parentSchema.cmp, View());
      return Some(Emission(ch, shown.value));
    }

    lemma IdleView()
      requires Valid() && inprogressChildChange == None
      ensures View() == Joined(corr, parent, child)
    {
    }

    lemma IdleNode(p: Node)
      requires Valid() && inprogressChildChange == None
      ensures Shows()(p) == Attach(corr, child, p)
    {
      ShowsIs(p);
    }

    method PushOne(ch: Change) returns (r: Option<seq<Emission>>)
      requires Valid() && inprogressChildChange == None
      ensures r == Some([Emission(ch, Joined(corr, parent, child))])
    {
      IdleView();
      var e := Emit(ch);
      if e.None? { return None; }
      return Some([e.value]);
    }

    /** A change of the parents from `was` to the present list. None is the panic on an edit that
        moves the parent to other children; it happens exactly on such an edit. */
    method PushParent(ch: Change, ghost was: seq<Node>) returns (r: Option<seq<Emission>>)
      requires Valid() && inprogressChildChange == None
      requires Sorted(parentSchema.cmp, was) && Legal(parentSchema, was, ch) && parent == Apply(parentSchema, was, ch)
      ensures r.None? <==> !KeepsKey(corr.parentKey, ch)
      ensures r.Some? ==> Changes(r.value) == [ParentStep(corr, child, ch)]
      ensures r.Some? ==> Traced(Out(), Joined(corr, was, child), r.value, Joined(corr, parent, child))
      ensures r.Some? ==> Carries(Out(), Joined(corr, was, child), Changes(r.value), Joined(corr, parent, child))
    {
      hide Legal, Apply, Traced, Carries, Sorted, TotalOrder, Joined, Joinable, RowEqualsForKey;
      ValidIs();
      ParentTraced(ch, was);
      IdleNode(ch.node);
      var node := ProcessParentNode(ch.node);
      if node.None? { return None; }
      match ch
      case Add(_) => r := PushOne(Add(node.value));
      case Remove(_) => r := PushOne(Remove(node.value));
      case Child(_, rel, c) => r := PushOne(Child(node.value, rel, c));
      case Edit(_, o) =>
        if !RowEqualsForKey(o.row, ch.node.row, corr.parentKey) { return None; }
        IdleNode(o);
        var oldNode := ProcessParentNode(o);
        if oldNode.None? { return None; }
        r := PushOne(Edit(node.value, oldNode.value));
    }

    lemma ParentTraced(ch: Change, was: seq<Node>)
      requires Joinable(corr, parentSchema, childSchema)
      requires Sorted(parentSchema.cmp, was) && Legal(parentSchema, was, ch) && parent == Apply(parentSchema, was, ch)
      ensures var v, w, e := Joined(corr, was, child), Joined(corr, parent, child),
                Emission(ParentStep(corr, child, ch), Joined(corr, parent, child));
              Traced(Out(), v, [e], w) && Changes([e]) == [e.change] && Carries(Out(), v, Changes([e]), w)
    {
      hide Legal, Apply, Joined, ParentStep;
      var v, w, e := Joined(corr, was, child), Joined(corr, parent, child),
        Emission(ParentStep(corr, child, ch), Joined(corr, parent, child));
      ParentStepCarries(corr, parentSchema, childSchema, was, child, ch);
      CarriesOne(Out(), v, e.change, w);
      TracedOne(Out(), v, e, w);
    }

    lemma ValidIs()
      requires Valid()
      ensures Joinable(corr, parentSchema, childSchema) && ValidKeys(corr) && Sorted(parentSchema.cmp, parent)
              && Sorted(childSchema.cmp, child)
    {
    }

    /** The constraint that a child push builds selects the parents that the child belongs to. */
    lemma ParentFetchIsFilter(row: Row)
      requires Joinable(corr, parentSchema, childSchema)
      ensures var c := JoinConstraint(row, corr.childKey, corr.parentKey);
              Filtered(parent, ParentOf(corr, row)) == if c.None? then []
                else Selected(parentSchema.cmp, parent, FetchRequest(c, None, false))
    {
      var c := JoinConstraint(row, corr.childKey, corr.parentKey);
      forall x: Node ensures ParentOf(corr, row)(x) <==> c.Some? && ConstraintMatches(c.value, x.row) {
        ConstraintIsJoinMatch(row, corr.childKey, x.row, corr.parentKey);
        MatchIsSymmetric(x.row, corr.parentKey, row, corr.childKey);
      }
      if c.Some? {
        FilteredSame(parent, ParentOf(corr, row), Wanted(parentSchema.cmp, FetchRequest(c, None, false)));
      } else {
        FilteredNone(parent, ParentOf(corr, row));
      }
    }

    /** A change of the children from `was` to the present list. None is the panic on an edit that
        moves the child to other parents; it happens exactly on such an edit. Each emission is made
        while a fetch shows the change applied to the parents told so far and undone for the rest. */
    method PushChild(ch: Change, ghost was: seq<Node>) returns (r: Option<seq<Emission>>)
      requires Valid() && inprogressChildChange == None
      requires Sorted(childSchema.cmp, was) && Legal(childSchema, was, ch) && child == Apply(childSchema, was, ch)
      modifies this`inprogressChildChange, this`inprogressChildChangePosition, this`before
      ensures Valid() && inprogressChildChange == None
      ensures r.None? <==> !KeepsKey(corr.childKey, ch)
      ensures r.Some? ==> Changes(r.value) == ChildStep(corr, parent, child, ch)
      ensures r.Some? ==> Traced(Out(), Joined(corr, parent, was), r.value, Joined(corr, parent, child))
      ensures r.Some? ==> Carries(Out(), Joined(corr, parent, was), Changes(r.value), Joined(corr, parent, child))
    {
      hide Traced, Carries, Legal, Apply, Sorted, TotalOrder, Joined, ChildStep, RowEqualsForKey;
      if ch.Edit? && !RowEqualsForKey(ch.oldNode.row, ch.node.row, corr.childKey) { return None; }
      r := PushChildChange(ch, was);
      TracedCarries(Out(), Joined(corr, parent, was), r.value, Joined(corr, parent, child));
      inprogressChildChange := None;
    }

    method PushChildChange(ch: Change, ghost was: seq<Node>) returns (r: Option<seq<Emission>>)
      requires Valid() && inprogressChildChange == None && KeepsKey(corr.childKey, ch)
      requires Sorted(childSchema.cmp, was) && Legal(childSchema, was, ch) && child == Apply(childSchema, was, ch)
      modifies this`inprogressChildChange, this`inprogressChildChangePosition, this`before
      ensures Valid()
      ensures r.Some? && Changes(r.value) == ChildStep(corr, parent, child, ch)
      ensures Traced(Out(), Joined(corr, parent, was), r.value, Joined(corr, parent, child))
    {
      hide Traced, Apply, Legal, Changes, ChildChanges, Telling, Selected, Filtered, JoinConstraint, TotalOrder,
           Sorted, KeepsKey, Joinable;
      ValidIs();
      before := was;
      inprogressChildChange := Some(ch);
      inprogressChildChangePosition := None;
      var constraint := BuildJoinConstraint(ch.node.row, corr.childKey, corr.parentKey);
      ParentFetchIsFilter(ch.node.row);
      if constraint.None? {
        TellNone(ch, []);
        Told(ch, [], 0, []);
        return Some([]);
      }
      var parentNodes := Selected(parentSchema.cmp, parent, FetchRequest(constraint, None, false));
      r := PushToParents(ch, parentNodes);
    }

    /** The emissions `es` have told the first `k` of the matching parents. */
    ghost predicate Telling(ch: Change, parentNodes: seq<Node>, k: nat, es: seq<Emission>)
      requires |corr.parentKey| == |corr.childKey|
      reads this`parent, this`child, this`before
    {
      && k <= |parentNodes|
      && Changes(es) == ChildChanges(corr, parentNodes[..k], child, ch)
      && Traced(Out(), Joined(corr, parent, before), es,
                Progress(corr, parentSchema.cmp, parent, parentNodes, before, child, k))
    }

    ghost predicate Pushing(ch: Change, parentNodes: seq<Node>)
      reads this
    {
      && Valid() && inprogressChildChange == Some(ch) && child == Apply(childSchema, before, ch)
      && ChildPush(corr, parentSchema, childSchema, parent, parentNodes, before, ch)
    }

    method PushToParents(ch: Change, parentNodes: seq<Node>) returns (r: Option<seq<Emission>>)
      requires Pushing(ch, parentNodes)
      modifies this`inprogressChildChangePosition
      ensures Valid()
      ensures r.Some? && Changes(r.value) == ChildStep(corr, parent, child, ch)
      ensures Traced(Out(), Joined(corr, parent, before), r.value, Joined(corr, parent, child))
    {
      hide Traced, Apply, Legal, Changes, ChildChanges, Progress, ChildPush, Telling;
      var allChanges: seq<Emission> := [];
      TellNone(ch, parentNodes);
      for k := 0 to |parentNodes|
        invariant Pushing(ch, parentNodes) && Telling(ch, parentNodes, k, allChanges)
      {
        inprogressChildChangePosition := Some(parentNodes[k].row);
        var e := PushAt(ch, parentNodes, k);
        if e.None? { return None; }
        TellOneMore(ch, parentNodes, k, allChanges, e.value);
        allChanges := allChanges + [e.value];
      }
      Told(ch, parentNodes, |parentNodes|, allChanges);
      return Some(allChanges);
    }

    lemma TellNone(ch: Change, parentNodes: seq<Node>)
      requires Pushing(ch, parentNodes)
      ensures Telling(ch, parentNodes, 0, [])
    {
    }

    lemma TellOneMore(ch: Change, parentNodes: seq<Node>, k: nat, es: seq<Emission>, e: Emission)
      requires Pushing(ch, parentNodes) && Telling(ch, parentNodes, k, es) && k < |parentNodes|
      requires e == Emission(Child(Attach(corr, child, parentNodes[k]), corr.rel, ch),
                             Progress(corr, parentSchema.cmp, parent, parentNodes, before, child, k + 1))
      ensures Telling(ch, parentNodes, k + 1, es + [e])
    {
      hide Apply, Legal, Traced, Progress, ChildPush, Attach;
      ProgressStep(corr, parentSchema, childSchema, parent, parentNodes, before, ch, k);
      TracedAppend(Out(), Joined(corr, parent, before), es,
                   Progress(corr, parentSchema.cmp, parent, parentNodes, before, child, k), e);
      PrefixOne(parentNodes, k);
    }

    lemma Told(ch: Change, parentNodes: seq<Node>, k: nat, es: seq<Emission>)
      requires Pushing(ch, parentNodes) && Telling(ch, parentNodes, k, es) && k == |parentNodes|
      ensures Changes(es) == ChildStep(corr, parent, child, ch)
      ensures Traced(Out(), Joined(corr, parent, before), es, Joined(corr, parent, child))
    {
      hide Apply, Legal, Traced, Progress, Attach;
      ProgressEnds(corr, parentSchema, childSchema, parent, parentNodes, before, ch);
      assert parentNodes[..k] == parentNodes;
    }

    method PushAt(ch: Change, parentNodes: seq<Node>, k: nat) returns (e: Option<Emission>)
      requires Valid() && inprogressChildChange == Some(ch) && k < |parentNodes|
               && inprogressChildChangePosition == Some(parentNodes[k].row)
      ensures e == Some(Emission(Child(Attach(corr, child, parentNodes[k]), corr.rel, ch),
                                 Progress(corr, parentSchema.cmp, parent, parentNodes, before, child, k + 1)))
    {
      ShowsIs(parentNodes[k]);
      assert parentSchema.cmp(parentNodes[k].row, parentNodes[k].row) == 0;
      var node := ProcessParentNode(parentNodes[k]);
      if node.None? { return None; }
      e := Emit(Child(node.value, corr.rel, ch));
    }
  }
}
