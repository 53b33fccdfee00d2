/** Lists of distinct elements: removal, insertion, search. */
module Sequences {
  datatype Option<T> = None | Some(value: T)

  function IndexOf<T(==)>(s: seq<T>, t: T): (i: nat)
    requires t in s
    ensures i < |s| && s[i] == t && t !in s[..i]
  {
    if s[0] == t then 0 else
      var i := 1 + IndexOf(s[1..], t);
      assert s[..i] == [s[0]] + s[1..][..i - 1];
      i
  }

  function RemoveAt<T>(s: seq<T>, i: nat): seq<T>
    requires i < |s|
  {
    s[..i] + s[i + 1..]
  }

  function Without<T(==)>(s: seq<T>, t: T): seq<T> {
    if t in s then RemoveAt(s, IndexOf(s, t)) else s
  }

  function InsertAt<T>(s: seq<T>, j: nat, t: T): seq<T>
    requires j <= |s|
  {
    s[..j] + [t] + s[j..]
  }

  ghost predicate Distinct<T>(s: seq<T>) {
    forall i, j | 0 <= i < j < |s| :: s[i] != s[j]
  }

  lemma {:induction false} IndexOfDistinct<T>(s: seq<T>, i: nat)
    requires Distinct(s) && i < |s|
    ensures IndexOf(s, s[i]) == i
  {
  }

  lemma RemoveAtMembers<T>(s: seq<T>, i: nat)
    requires Distinct(s) && i < |s|
    ensures var w := RemoveAt(s, i);
      Distinct(w) && s[i] !in w && forall u :: u in w <==> u in s && u != s[i]
  {
    var w := RemoveAt(s, i);
    forall u | u in s && u != s[i] ensures u in w {
      var j :| 0 <= j < |s| && s[j] == u;
      assert w[if j < i then j else j - 1] == u;
    }
  }

  lemma WithoutMembers<T>(s: seq<T>, t: T)
    requires Distinct(s)
    ensures Distinct(Without(s, t))
    ensures forall u :: u in Without(s, t) <==> u in s && u != t
  {
    if t in s {
      RemoveAtMembers(s, IndexOf(s, t));
    }
  }

  lemma InsertAtMembers<T>(s: seq<T>, j: nat, t: T)
    requires Distinct(s) && j <= |s| && t !in s
    ensures Distinct(InsertAt(s, j, t))
    ensures forall u :: u in InsertAt(s, j, t) <==> u in s || u == t
  {
    var w := InsertAt(s, j, t);
    forall a, b | 0 <= a < b < |w| ensures w[a] != w[b] {
      var a', b' := if a < j then a else a - 1, if b < j then b else b - 1;
      if a != j && b != j { assert w[a] == s[a'] && w[b] == s[b']; }
      else if a == j { assert w[b] == s[b'] && w[a] == t; }
      else { assert w[a] == s[a'] && w[b] == t; }
    }
    forall u | u in s ensures u in w {
      var i :| 0 <= i < |s| && s[i] == u;
      assert w[if i < j then i else i + 1] == u;
    }
    assert w[j] == t;
  }

  lemma AppendMembers<T>(s: seq<T>, t: T)
    requires Distinct(s) && t !in s
    ensures Distinct(s + [t])
    ensures forall u :: u in s + [t] <==> u in s || u == t
  {
  }

  /** How many elements satisfy `f`. */
  function Tally<T>(s: seq<T>, f: T -> bool): nat {
    if s == [] then 0 else Tally(s[..|s| - 1], f) + if f(s[|s| - 1]) then 1 else 0
  }

  lemma {:induction false} TallyUpdate<T>(s: seq<T>, i: nat, x: T, f: T -> bool)
    requires i < |s|
    ensures Tally(s[i := x], f) == Tally(s, f) - (if f(s[i]) then 1 else 0) + (if f(x) then 1 else 0)
  {
    var last := |s| - 1;
    if i == last {
      assert s[i := x][..last] == s[..last];
    } else {
      assert s[i := x][..last] == s[..last][i := x];
      TallyUpdate(s[..last], i, x, f);
    }
  }

  lemma {:induction false} TallyAppend<T>(s: seq<T>, x: T, f: T -> bool)
    ensures Tally(s + [x], f) == Tally(s, f) + if f(x) then 1 else 0
  {
    assert (s + [x])[..|s|] == s;
  }

  /** Sequences that agree elementwise on `f` have the same tally. */
  lemma {:induction false} TallySame<T>(s: seq<T>, r: seq<T>, f: T -> bool)
    requires |s| == |r| && forall i | 0 <= i < |s| :: f(s[i]) == f(r[i])
    ensures Tally(s, f) == Tally(r, f)
  {
    if s != [] {
      TallySame(s[..|s| - 1], r[..|s| - 1], f);
    }
  }

  lemma {:induction false} TallyPositive<T>(s: seq<T>, i: nat, f: T -> bool)
    requires i < |s| && f(s[i])
    ensures Tally(s, f) > 0
  {
    if i < |s| - 1 { TallyPositive(s[..|s| - 1], i, f); }
  }

  lemma {:induction false} TallyZero<T>(s: seq<T>, f: T -> bool)
    requires forall i | 0 <= i < |s| :: !f(s[i])
    ensures Tally(s, f) == 0
  {
    if s != [] { TallyZero(s[..|s| - 1], f); }
  }
}
