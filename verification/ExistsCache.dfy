/** The Exists operator's state: the cache of one fetch and the flag of a push (ivm/exists.go). */
module ExistsCache {
  import opened Values
  import opened Seqs
  import opened Views
  import opened JoinUtils
  import opened FilterChain
  import opened ChainPush
  import opened Fetching
  import opened JoinSpec

  /** Nodes with one key agree on whether the relationship is empty. */
  ghost predicate KeyDecides(nodes: seq<Node>, key: Key, rel: string) {
    forall a, b | a in nodes && b in nodes && KeyOf(key, a.row) == KeyOf(key, b.row) ::
      NonEmpty(a, rel) == NonEmpty(b, rel)
  }

  function Passing(rel: string, not: bool): Node -> bool {
    (n: Node) => NonEmpty(n, rel) != not
  }

  class ExistsOperator {
    const rel: string
    const not: bool
    const parentJoinKey: Key
    /** Set where the join key is the primary key: then no two nodes share an entry. */
    const noSizeReuse: bool
    var cache: map<seq<Value>, bool>
    var inPush: bool

    constructor (rel: string, not: bool, parentJoinKey: Key, primaryKey: Key)
      ensures this.rel == rel && this.not == not && this.parentJoinKey == parentJoinKey
      ensures noSizeReuse == (parentJoinKey == primaryKey) && cache == map[] && !inPush
    {
      this.rel, this.not, this.parentJoinKey, noSizeReuse := rel, not, parentJoinKey, parentJoinKey == primaryKey;
      cache, inPush := map[], false;
    }

    /** What is cached is right for all nodes of the fetch. */
    ghost predicate RightFor(nodes: seq<Node>)
      reads this`cache
    {
      forall n | n in nodes && KeyOf(parentJoinKey, n.row) in cache ::
        cache[KeyOf(parentJoinKey, n.row)] == NonEmpty(n, rel)
    }

    /** None is the panic on a node without the relationship. */
    method FetchExists(node: Node) returns (r: Option<bool>)
      ensures r == if rel in node.rels then Some(NonEmpty(node, rel)) else None
    {
      if rel !in node.rels { return None; }
      return Some(|node.rels[rel]| > 0);
    }

    /** One node of a fetch; `next` is what the operator behind answers. */
    method Filter(node: Node, next: bool, ghost nodes: seq<Node>) returns (r: Option<bool>)
      requires node in nodes && RightFor(nodes) && KeyDecides(nodes, parentJoinKey, rel)
      modifies this`cache
      ensures RightFor(nodes)
      ensures rel in node.rels ==> r == Some(Passing(rel, not)(node) && next)
    {
      var present;
      if !noSizeReuse && !inPush {
        var key := KeyOf(parentJoinKey, node.row);
        if key in cache {
          present := Some(cache[key]);
        } else {
          present := FetchExists(node);
          if present.None? { return None; }
          cache := cache[key := present.value];
        }
      } else {
        present := FetchExists(node);
        if present.None? { return None; }
      }
      return Some(present.value != not && next);
    }

    method EndFilter()
      modifies this`cache
      ensures cache == map[]
    {
      cache := map[];
    }

    /** A whole fetch through the operator: with the cache it lets through exactly what it would without,
        provided that nodes with one key agree, and it leaves no entry behind. */
    method FilterFetched(nodes: seq<Node>) returns (r: Option<seq<Node>>)
      requires cache == map[] && KeyDecides(nodes, parentJoinKey, rel) && forall n | n in nodes :: rel in n.rels
      modifies this`cache
      ensures r == Some(Filtered(nodes, Passing(rel, not))) && cache == map[]
    {
      var result: seq<Node> := [];
      for i := 0 to |nodes|
        invariant RightFor(nodes) && result == Filtered(nodes[..i], Passing(rel, not))
      {
        assert nodes[i] in nodes;
        var pass := Filter(nodes[i], true, nodes);
        if pass.None? { return None; }
        PrefixOne(nodes, i);
        FilteredAppend(nodes[..i], nodes[i], Passing(rel, not));
        if pass.value { result := result + [nodes[i]]; }
      }
      assert nodes[..|nodes|] == nodes;
      EndFilter();
      return Some(result);
    }

    /** What is handed on tells from the size after the change alone what a gate on the node before and the
        node after would. While it is handed on, fetches do not go by the cache. */
    method Push(change: Change) returns (r: Pushed)
      modifies this`inPush
      ensures !inPush && (r.Panic? <==> rel !in change.node.rels)
      ensures forall pre, post | Moves(change, pre, post) && Fits({rel}, change, pre, post) ::
                r == ToPushed(Gate(change, pre, post, pre.Some? && Passing(rel, not)(pre.value), post.Some?
                                   && Passing(rel, not)(post.value)))
    {
      inPush := true;
      r := ExistsPush(change, rel, not);
      inPush := false;
      forall pre, post | Moves(change, pre, post) && Fits({rel}, change, pre, post)
        ensures r == ToPushed(Gate(change, pre, post, pre.Some? && Passing(rel, not)(pre.value), post.Some?
                                   && Passing(rel, not)(post.value)))
      {
        ExistsPushIsGate(change, pre, post, rel, not);
      }
    }
  }

  /** Behind a join on the same key the cache is right: the children depend on the parent's key alone,
      and later joins leave the relationship as it is. */
  lemma JoinDecides(j: Correlation, parents: seq<Node>, children: seq<Node>)
    requires |j.parentKey| == |j.childKey|
    ensures KeyDecides(Joined(j, parents, children), j.parentKey, j.rel)
  {
    var s := Joined(j, parents, children);
    forall a, b | a in s && b in s && KeyOf(j.parentKey, a.row) == KeyOf(j.parentKey, b.row)
      ensures NonEmpty(a, j.rel) == NonEmpty(b, j.rel) {
      var x :| 0 <= x < |parents| && a == Attach(j, children, parents[x]);
      var y :| 0 <= y < |parents| && b == Attach(j, children, parents[y]);
      forall i | 0 <= i < |j.parentKey| ensures Get(a.row, j.parentKey[i]) == Get(b.row, j.parentKey[i]) {
        assert KeyOf(j.parentKey, a.row)[i] == KeyOf(j.parentKey, b.row)[i];
      }
      forall c: Node ensures ChildOf(j, a.row)(c) == ChildOf(j, b.row)(c) {
        SameKeySameMatches(a.row, b.row, j.parentKey, c.row, j.childKey);
      }
      FilteredSame(children, ChildOf(j, a.row), ChildOf(j, b.row));
    }
  }

  lemma LaterJoinKeeps(j: Correlation, parents: seq<Node>, children: seq<Node>, key: Key, rel: string)
    requires |j.parentKey| == |j.childKey| && rel != j.rel && KeyDecides(parents, key, rel)
    ensures KeyDecides(Joined(j, parents, children), key, rel)
  {
    hide KeyOf, NonEmpty, Attach;
    var s := Joined(j, parents, children);
    forall a, b | a in s && b in s && KeyOf(key, a.row) == KeyOf(key, b.row)
      ensures NonEmpty(a, rel) == NonEmpty(b, rel) {
      var x :| 0 <= x < |parents| && a == Attach(j, children, parents[x]);
      var y :| 0 <= y < |parents| && b == Attach(j, children, parents[y]);
      OtherRelationship(j, children, parents[x], rel);
      OtherRelationship(j, children, parents[y], rel);
      assert parents[x] in parents && parents[y] in parents;
    }
  }

  lemma OtherRelationship(j: Correlation, children: seq<Node>, p: Node, rel: string)
    requires |j.parentKey| == |j.childKey| && rel != j.rel
    ensures Attach(j, children, p).row == p.row && NonEmpty(Attach(j, children, p), rel) == NonEmpty(p, rel)
  {
  }
}
