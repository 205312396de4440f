/** The Skip operator: fetching from a cursor on (ivm/skip.go), for a bound that gives every sort column. */
module Skip {
  import opened Values
  import opened Seqs
  import opened Views
  import opened Fetching
  import opened Pipeline

  datatype EffectiveStart = From(start: Option<Start>) | Empty

  /** The start that a fetch asks of the input: the later of the bound and the requested start in the
      direction of the scan, or the answer that there is nothing. */
  function GetStart(cmp: Comparator, bound: Row, exclusive: bool, req: FetchRequest): EffectiveStart {
    var boundStart := Some(Start(bound, if exclusive then After else At));
    match req.start
    case None => From(if req.reverse then None else boundStart)
    case Some(st) =>
      var c := cmp(bound, st.row);
      if !req.reverse then
        if c > 0 then From(boundStart)
        else if c == 0 then
          if exclusive || st.basis.After? then From(Some(Start(bound, After))) else From(boundStart)
        else From(req.start)
      else
        if c > 0 then Empty
        else if c == 0 then
          if !exclusive && st.basis.At? then From(boundStart) else Empty
        else From(req.start)
  }

  /** Forward, the effective start stands for the bound and the requested start together. */
  lemma ForwardStart(cmp: Comparator, bound: Row, exclusive: bool, req: FetchRequest, x: Row)
    requires TotalOrder(cmp) && !req.reverse
    ensures var e := GetStart(cmp, bound, exclusive, req);
            e.From? && (StartOk(cmp, e.start, false, x) <==>
                        Present(cmp, bound, exclusive)(x) && StartOk(cmp, req.start, false, x))
  {
    if req.start.Some? {
      var r := req.start.value.row;
      if cmp(bound, r) > 0 {
        if cmp(bound, x) <= 0 { Transitive(cmp, r, bound, x); }
      } else if cmp(bound, r) == 0 {
        SameSign(cmp, bound, r, x);
      } else {
        if cmp(r, x) <= 0 { Transitive(cmp, bound, r, x); }
      }
    }
  }

  /** In reverse, the effective start never cuts off a row that is to be shown, and keeps only rows
      up to the requested start; without one, no row is to be shown. */
  lemma ReverseStart(cmp: Comparator, bound: Row, exclusive: bool, req: FetchRequest, x: Row)
    requires TotalOrder(cmp) && req.reverse
    ensures var e := GetStart(cmp, bound, exclusive, req);
            var wanted := Present(cmp, bound, exclusive)(x) && StartOk(cmp, req.start, true, x);
            if e.Empty? then !wanted else wanted <==>
              Present(cmp, bound, exclusive)(x) && StartOk(cmp, e.start, true, x)
  {
    if req.start.Some? {
      var r := req.start.value.row;
      if cmp(bound, r) > 0 {
        if cmp(x, r) <= 0 { Transitive(cmp, x, r, bound); }
      } else if cmp(bound, r) == 0 {
        SameSign(cmp, bound, r, x);
      }
    }
  }

  lemma {:induction false} PresentPrefix(cmp: Comparator, nodes: seq<Node>, keep: Node -> bool, k: nat)
    requires k <= |nodes| && (forall i | 0 <= i < k :: keep(nodes[i]))
             && (forall i | k <= i < |nodes| :: !keep(nodes[i]))
    ensures Filtered(nodes, keep) == nodes[..k]
  {
    if k > 0 {
      PresentPrefix(cmp, nodes[1..], keep, k - 1);
      assert nodes[..k] == [nodes[0]] + nodes[1..][..k - 1];
    } else {
      FilteredNone(nodes, keep);
    }
  }

  /** Going back from the end, a row in front of the bound is followed only by such rows. */
  lemma AbsentStays(cmp: Comparator, s: seq<Node>, bound: Row, exclusive: bool, k: nat, i: nat)
    requires TotalOrder(cmp) && Sorted(cmp, Reversed(s)) && k <= i < |s| && !Present(cmp, bound, exclusive)(s[k].row)
    ensures !Present(cmp, bound, exclusive)(s[i].row)
  {
    if k < i {
      var t := Reversed(s);
      assert t[|s| - 1 - i] == s[i] && t[|s| - 1 - k] == s[k];
      assert cmp(s[i].row, s[k].row) < 0;
      Transitive(cmp, s[i].row, s[k].row, bound);
    }
  }

  method UpToBound(cmp: Comparator, nodes: seq<Node>, bound: Row, exclusive: bool) returns (result: seq<Node>)
    requires TotalOrder(cmp) && Sorted(cmp, Reversed(nodes))
    ensures result == Filtered(nodes, OfRow(Present(cmp, bound, exclusive)))
  {
    result := [];
    var i := 0;
    while i < |nodes|
      invariant i <= |nodes| && result == nodes[..i]
                && forall k | 0 <= k < i :: Present(cmp, bound, exclusive)(nodes[k].row)
    {
      if !Present(cmp, bound, exclusive)(nodes[i].row) { break; }
      PrefixOne(nodes, i);
      result := result + [nodes[i]];
      i := i + 1;
    }
    forall k | i <= k < |nodes| ensures !Present(cmp, bound, exclusive)(nodes[k].row) {
      AbsentStays(cmp, nodes, bound, exclusive, i, k);
    }
    PresentPrefix(cmp, nodes, OfRow(Present(cmp, bound, exclusive)), i);
  }

  /** Fetching through the Skip answers as an input would that holds only the rows from the bound on,
      for every constraint, start, basis and direction. */
  method Fetch(cmp: Comparator, input: seq<Node>, bound: Row, exclusive: bool, req: FetchRequest) returns (r: seq<Node>)
    requires TotalOrder(cmp) && Sorted(cmp, input)
    ensures r == Selected(cmp, Filtered(input, OfRow(Present(cmp, bound, exclusive))), req)
    ensures forall n :: n in r <==>
              n in input && Wanted(cmp, req)(n) && (cmp(bound, n.row) < 0 || (cmp(bound, n.row) == 0 && !exclusive))
    ensures req == FetchRequest(None, None, false) ==>
              forall n | n in input ::
                && (cmp(n.row, bound) > 0 ==> n in r)
                && (cmp(n.row, bound) < 0 ==> n !in r)
                && (cmp(n.row, bound) == 0 ==> (n in r <==> !exclusive))
  {
    SkipMembers(cmp, input, bound, exclusive, req);
    var e := GetStart(cmp, bound, exclusive, req);
    if e.Empty? {
      NothingWanted(cmp, input, bound, exclusive, req);
      return [];
    }
    var nodes := Selected(cmp, input, FetchRequest(req.constraint, e.start, req.reverse));
    if !req.reverse {
      ForwardFetch(cmp, input, bound, exclusive, req);
      return nodes;
    }
    ReverseFetch(cmp, input, bound, exclusive, req);
    r := UpToBound(cmp, nodes, bound, exclusive);
  }

  /** Said of the nodes: those behind the bound, and those at it unless it is exclusive. */
  lemma SkipMembers(cmp: Comparator, input: seq<Node>, bound: Row, exclusive: bool, req: FetchRequest)
    requires TotalOrder(cmp)
    ensures forall n :: n in Selected(cmp, Filtered(input, OfRow(Present(cmp, bound, exclusive))), req) <==>
              n in input && Wanted(cmp, req)(n) && (cmp(bound, n.row) < 0 || (cmp(bound, n.row) == 0 && !exclusive))
    ensures req == FetchRequest(None, None, false) ==> forall n: Node :: Wanted(cmp, req)(n)
  {
    var present := Filtered(input, OfRow(Present(cmp, bound, exclusive)));
    FilteredMembers(input, OfRow(Present(cmp, bound, exclusive)));
    FilteredMembers(present, Wanted(cmp, req));
    ReversedMembers(Filtered(present, Wanted(cmp, req)));
  }

  lemma NothingWanted(cmp: Comparator, input: seq<Node>, bound: Row, exclusive: bool, req: FetchRequest)
    requires TotalOrder(cmp) && GetStart(cmp, bound, exclusive, req).Empty?
    ensures Selected(cmp, Filtered(input, OfRow(Present(cmp, bound, exclusive))), req) == []
  {
    var present := Filtered(input, OfRow(Present(cmp, bound, exclusive)));
    FilteredMembers(input, OfRow(Present(cmp, bound, exclusive)));
    forall x | x in present ensures !Wanted(cmp, req)(x) { ReverseStart(cmp, bound, exclusive, req, x.row); }
    FilteredNone(present, Wanted(cmp, req));
  }

  lemma ForwardFetch(cmp: Comparator, input: seq<Node>, bound: Row, exclusive: bool, req: FetchRequest)
    requires TotalOrder(cmp) && !req.reverse
    ensures var e := GetStart(cmp, bound, exclusive, req);
            e.From? && Selected(cmp, input, FetchRequest(req.constraint, e.start, false))
                       == Selected(cmp, Filtered(input, OfRow(Present(cmp, bound, exclusive))), req)
  {
    var e := GetStart(cmp, bound, exclusive, req);
    ForwardStart(cmp, bound, exclusive, req, bound);
    forall x: Node ensures Wanted(cmp, FetchRequest(req.constraint, e.start, false))(x) ==
                           (OfRow(Present(cmp, bound, exclusive))(x) && Wanted(cmp, req)(x)) {
      ForwardStart(cmp, bound, exclusive, req, x.row);
    }
    FilteredTwice(input, OfRow(Present(cmp, bound, exclusive)), Wanted(cmp, req),
                  Wanted(cmp, FetchRequest(req.constraint, e.start, false)));
  }

  lemma ReverseFetch(cmp: Comparator, input: seq<Node>, bound: Row, exclusive: bool, req: FetchRequest)
    requires TotalOrder(cmp) && Sorted(cmp, input) && req.reverse && GetStart(cmp, bound, exclusive, req).From?
    ensures var nodes := Selected(cmp, input,
                                  FetchRequest(req.constraint, GetStart(cmp, bound, exclusive, req).start, true));
            && Sorted(cmp, Reversed(nodes))
            && Filtered(nodes, OfRow(Present(cmp, bound, exclusive)))
              == Selected(cmp, Filtered(input, OfRow(Present(cmp, bound, exclusive))), req)
  {
    var e, present := GetStart(cmp, bound, exclusive, req), OfRow(Present(cmp, bound, exclusive));
    var asked := FetchRequest(req.constraint, e.start, true);
    var kept := Filtered(input, Wanted(cmp, asked));
    FilteredFacts(cmp, input, Wanted(cmp, asked));
    assert Reversed(Reversed(kept)) == kept;
    forall x: Node ensures (Wanted(cmp, asked)(x) && present(x)) == (present(x) && Wanted(cmp, req)(x)) {
      ReverseStart(cmp, bound, exclusive, req, x.row);
    }
    FilteredTwice(input, Wanted(cmp, asked), present, x => present(x) && Wanted(cmp, req)(x));
    FilteredTwice(input, present, Wanted(cmp, req), x => present(x) && Wanted(cmp, req)(x));
    FilteredReversed(kept, present);
  }
}
