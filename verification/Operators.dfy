/** What the operators of a WHERE clause say, in terms of the values themselves (builder/filter.go). */
module Operators {
  import opened Values
  import opened Seqs
  import opened Ast
  import opened RowOrder

  /** The side of a comparison stands for the value `v`. */
  predicate Gives(side: ValuePos, row: Row, v: Value) {
    match side
    case Column(name) => if name in row then row[name] == v else v.Null?
    case Literal(value) => value == v
    case LiteralList(_) => false
  }

  predicate Holds(op: Operator, left: ValuePos, right: ValuePos, row: Row) {
    EvalSimple(Simple(op, left, right), row)
  }

  /** On known values the comparisons are those of the values. */
  lemma OnKnown(left: ValuePos, right: ValuePos, row: Row, x: Value, y: Value)
    requires Gives(left, row, x) && Gives(right, row, y) && !x.Null? && !y.Null?
    ensures Holds(Lt, left, right, row) <==> ValueBefore(x, y)
    ensures Holds(Gt, left, right, row) <==> ValueBefore(y, x)
    ensures Holds(Le, left, right, row) <==> ValueBefore(x, y) || x == y
    ensures Holds(Ge, left, right, row) <==> ValueBefore(y, x) || x == y
    ensures Holds(Eq, left, right, row) <==> x == y
    ensures Holds(Ne, left, right, row) <==> x != y
  {
    OrderMeans(x, y);
    OrderLaws(x, y);
  }

  lemma OnNumbers(left: ValuePos, right: ValuePos, row: Row, x: real, y: real)
    requires Gives(left, row, Num(x)) && Gives(right, row, Num(y))
    ensures Holds(Lt, left, right, row) <==> x < y
    ensures Holds(Gt, left, right, row) <==> x > y
    ensures Holds(Le, left, right, row) <==> x <= y
    ensures Holds(Ge, left, right, row) <==> x >= y
    ensures Holds(Eq, left, right, row) <==> x == y
    ensures Holds(Ne, left, right, row) <==> x != y
  {
    OnKnown(left, right, row, Num(x), Num(y));
  }

  lemma OnTexts(left: ValuePos, right: ValuePos, row: Row, x: string, y: string)
    requires Gives(left, row, Str(x)) && Gives(right, row, Str(y))
    ensures Holds(Lt, left, right, row) <==> TextBefore(x, y)
    ensures Holds(Gt, left, right, row) <==> TextBefore(y, x)
    ensures Holds(Le, left, right, row) <==> TextBefore(x, y) || x == y
    ensures Holds(Ge, left, right, row) <==> TextBefore(y, x) || x == y
    ensures Holds(Eq, left, right, row) <==> x == y
    ensures Holds(Ne, left, right, row) <==> x != y
    ensures Holds(NotLike, left, right, row) <==> !Holds(Like, left, right, row)
  {
    OnKnown(left, right, row, Str(x), Str(y));
  }

  lemma OnBooleans(left: ValuePos, right: ValuePos, row: Row, x: bool, y: bool)
    requires Gives(left, row, Bool(x)) && Gives(right, row, Bool(y))
    ensures Holds(Lt, left, right, row) <==> !x && y
    ensures Holds(Gt, left, right, row) <==> x && !y
    ensures Holds(Le, left, right, row) <==> (x ==> y)
    ensures Holds(Ge, left, right, row) <==> (y ==> x)
    ensures Holds(Eq, left, right, row) <==> x == y
    ensures Holds(Ne, left, right, row) <==> x != y
  {
    OnKnown(left, right, row, Bool(x), Bool(y));
  }

  /** IS compares with null like any other value; with a null on either side, everything else is false. */
  lemma OnNull(left: ValuePos, right: ValuePos, row: Row, x: Value, y: Value, op: Operator)
    requires Gives(left, row, x) && Gives(right, row, y)
    ensures Holds(Is, left, right, row) <==> x == y
    ensures Holds(IsNot, left, right, row) <==> x != y
    ensures (x.Null? || y.Null?) && op != Is && op != IsNot ==> !Holds(op, left, right, row)
  {
  }

  /** IN holds exactly when some listed value equals the left one, NOT IN when none does; null is in neither. */
  lemma OnLists(left: ValuePos, values: seq<Value>, row: Row, x: Value)
    requires Gives(left, row, x)
    ensures Holds(In, left, LiteralList(values), row) <==> !x.Null? && exists i | 0 <= i < |values| :: values[i] == x
    ensures Holds(NotIn, left, LiteralList(values), row) <==> !x.Null? && forall i | 0 <= i < |values| :: values[i] != x
  {
  }

  // ----- LIKE

  function Concatenated(pieces: seq<string>): string {
    if pieces == [] then "" else pieces[0] + Concatenated(pieces[1..])
  }

  /** The piece of the text that a character of the pattern stands for: anything for `%`, one character for
      `_`, and itself for every other. */
  predicate Takes(p: char, piece: string) {
    p == '%' || (|piece| == 1 && (p == '_' || piece[0] == p))
  }

  ghost predicate Cut(s: string, p: string, pieces: seq<string>) {
    |pieces| == |p| && Concatenated(pieces) == s && forall i | 0 <= i < |p| :: Takes(p[i], pieces[i])
  }

  /** A text is LIKE a pattern exactly if it can be cut into pieces that the pattern's characters stand for. */
  lemma {:induction false} LikeMeans(s: string, p: string)
    ensures LikeMatch(s, p) <==> exists pieces: seq<string> :: Cut(s, p, pieces)
    decreases |p|, |s|
  {
    if LikeMatch(s, p) {
      var pieces := Cutting(s, p);
    }
    if pieces: seq<string> :| Cut(s, p, pieces) { CutIsLike(s, p, pieces); }
  }

  lemma {:induction false} Cutting(s: string, p: string) returns (pieces: seq<string>)
    requires LikeMatch(s, p)
    ensures Cut(s, p, pieces)
    decreases |p|, |s|
  {
    if p == "" {
      pieces := [];
    } else if p[0] == '%' && LikeMatch(s, p[1..]) {
      var rest := Cutting(s, p[1..]);
      pieces := [""] + rest;
      CutCons("", p, rest);
    } else if p[0] == '%' {
      var longer := Cutting(s[1..], p);
      pieces := [[s[0]] + longer[0]] + longer[1..];
      CutCons([s[0]] + longer[0], p, longer[1..]);
      assert [s[0]] + (longer[0] + Concatenated(longer[1..])) == ([s[0]] + longer[0]) + Concatenated(longer[1..]);
      HeadTail(s);
    } else {
      var rest := Cutting(s[1..], p[1..]);
      pieces := [[s[0]]] + rest;
      CutCons([s[0]], p, rest);
      HeadTail(s);
    }
  }

  lemma CutCons(first: string, p: string, rest: seq<string>)
    requires p != "" && |rest| == |p| - 1 && Takes(p[0], first)
             && forall i | 0 <= i < |rest| :: Takes(p[i + 1], rest[i])
    ensures Cut(first + Concatenated(rest), p, [first] + rest)
  {
    assert ([first] + rest)[1..] == rest;
  }

  lemma {:induction false} CutIsLike(s: string, p: string, pieces: seq<string>)
    requires Cut(s, p, pieces)
    ensures LikeMatch(s, p)
    decreases |p|
  {
    if p != "" {
      var first, rest := pieces[0], Concatenated(pieces[1..]);
      assert forall i | 0 <= i < |p| - 1 :: p[1..][i] == p[i + 1] && pieces[1..][i] == pieces[i + 1];
      CutIsLike(rest, p[1..], pieces[1..]);
      if p[0] == '%' {
        LikeAnyStretch(s, p);
        assert s[|first|..] == rest;
      } else {
        assert s[1..] == rest && s[0] == first[0];
      }
    }
  }

  /** A pattern without wildcards is matched by itself alone. */
  lemma {:induction false} PlainPattern(s: string, p: string)
    requires '%' !in p && '_' !in p
    ensures LikeMatch(s, p) <==> s == p
  {
    if p != "" {
      HeadTail(p);
      if s != "" {
        HeadTail(s);
        PlainPattern(s[1..], p[1..]);
      }
    }
  }
}
