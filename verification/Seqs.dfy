/** Putting an element into a list and taking one out, by index. */
module Seqs {
  function InsertAt<T>(s: seq<T>, p: nat, x: T): (r: seq<T>)
    requires p <= |s|
  {
    seq(|s| + 1, i requires 0 <= i <= |s| => if i < p then s[i] else if i == p then x else s[i - 1])
  }

  function RemoveAt<T>(s: seq<T>, p: nat): (r: seq<T>)
    requires p < |s|
  {
    seq(|s| - 1, i requires 0 <= i < |s| - 1 => if i < p then s[i] else s[i + 1])
  }

  lemma InsertAtMembers<T>(s: seq<T>, p: nat, x: T)
    requires p <= |s|
    ensures forall y :: y in InsertAt(s, p, x) <==> y in s || y == x
  {
    var r := InsertAt(s, p, x);
    assert r[p] == x;
    forall y | y in s ensures y in r {
      var i :| 0 <= i < |s| && s[i] == y;
      assert r[if i < p then i else i + 1] == y;
    }
  }

  lemma RemoveAtMembers<T>(s: seq<T>, p: nat)
    requires p < |s|
    requires forall i | 0 <= i < |s| && i != p :: s[i] != s[p]
    ensures forall y :: y in RemoveAt(s, p) <==> y in s && y != s[p]
  {
    var r := RemoveAt(s, p);
    forall y | y in s && y != s[p] ensures y in r {
      var i :| 0 <= i < |s| && s[i] == y;
      assert r[if i < p then i else i - 1] == y;
    }
    forall y | y in r ensures y in s && y != s[p] {
      var i :| 0 <= i < |r| && r[i] == y;
      assert s[if i < p then i else i + 1] == y;
    }
  }

  lemma UpdateMembers<T>(s: seq<T>, p: nat, x: T, r: seq<T>)
    requires p < |s| && r == s[p := x]
    requires forall i | 0 <= i < |s| && i != p :: s[i] != s[p]
    ensures forall y :: y in r <==> (y in s && y != s[p]) || y == x
  {
    assert r[p] == x;
    forall y | y in s && y != s[p] ensures y in r {
      var i :| 0 <= i < |s| && s[i] == y;
      assert r[i] == y;
    }
    forall y | y in r && y != x ensures y in s && y != s[p] {
      var i :| 0 <= i < |r| && r[i] == y;
      assert s[i] == y && i != p;
    }
  }

  lemma InsertAtSlices<T>(s: seq<T>, p: nat, x: T)
    requires p <= |s|
    ensures InsertAt(s, p, x) == s[..p] + [x] + s[p..]
  {
  }

  lemma RemoveAtSlices<T>(s: seq<T>, p: nat)
    requires p < |s|
    ensures RemoveAt(s, p) == s[..p] + s[p + 1..]
  {
  }

  lemma RemoveInserted<T>(s: seq<T>, p: nat, x: T)
    requires p <= |s|
    ensures RemoveAt(InsertAt(s, p, x), p) == s
  {
  }

  lemma MapUpdateTwice<K, V>(m: map<K, V>, k: K, v: V)
    requires k in m
    ensures m[k := v][k := m[k]] == m
  {
  }

  lemma MapSetTwice<K, V>(m: map<K, V>, k: K, v: V, w: V)
    ensures m[k := v][k := w] == m[k := w]
  {
  }

  lemma UpdateTwice<T>(s: seq<T>, p: nat, x: T)
    requires p < |s|
    ensures s[p := x][p := s[p]] == s
  {
  }

  lemma ConcatSplit<T>(a: seq<T>, b: seq<T>)
    requires a != []
    ensures a + b == [a[0]] + (a[1..] + b)
    ensures (a + b)[0] == a[0] && (a + b)[1..] == a[1..] + b
  {
  }

  lemma AppendOne<T>(a: seq<T>, x: T, b: seq<T>)
    ensures (a + [x]) + b == a + ([x] + b)
  {
  }

  lemma PrefixOne<T>(s: seq<T>, i: nat)
    requires i < |s|
    ensures s[..i] + [s[i]] == s[..i + 1] && s[i..] == [s[i]] + s[i + 1..] && s[i..][1..] == s[i + 1..]
  {
  }

  lemma SliceMembers<T>(t: seq<T>, i: nat, j: nat)
    requires i <= j <= |t|
    ensures forall x :: x in t[i..j] <==> exists k :: i <= k < j && t[k] == x
  {
    forall x, k | i <= k < j && t[k] == x ensures x in t[i..j] { assert t[i..j][k - i] == x; }
    forall x | x in t[i..j] ensures exists k :: i <= k < j && t[k] == x {
      var k :| 0 <= k < j - i && t[i..j][k] == x;
      assert t[i + k] == x;
    }
  }

  lemma HeadTail<T>(a: seq<T>)
    requires a != []
    ensures a == [a[0]] + a[1..]
    ensures forall x :: x in a <==> x == a[0] || x in a[1..]
  {
  }

  lemma ConsMembers<T>(x: T, a: seq<T>)
    ensures forall y :: y in [x] + a <==> y == x || y in a
  {
  }
}
