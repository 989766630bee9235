/** How many elements of a sequence satisfy a predicate. */
module Counting {

  function CountIf<T>(s: seq<T>, p: T -> bool): nat {
    if s == [] then 0 else (if p(s[0]) then 1 else 0) + CountIf(s[1..], p)
  }

  lemma {:induction false} CountIfUpdate<T>(s: seq<T>, i: nat, x: T, p: T -> bool)
    requires i < |s|
    ensures CountIf(s[i := x], p) == CountIf(s, p) - (if p(s[i]) then 1 else 0) + (if p(x) then 1 else 0)
  {
    if i == 0 {
      assert s[i := x][1..] == s[1..];
    } else {
      CountIfUpdate(s[1..], i - 1, x, p);
      assert s[i := x][1..] == s[1..][i - 1 := x];
    }
  }

  lemma {:induction false} CountIfSame<T>(s: seq<T>, t: seq<T>, p: T -> bool)
    requires |s| == |t| && forall i :: 0 <= i < |s| ==> p(s[i]) == p(t[i])
    ensures CountIf(s, p) == CountIf(t, p)
  {
    if s != [] { CountIfSame(s[1..], t[1..], p); }
  }

  lemma {:induction false} CountIfBounds<T>(s: seq<T>, p: T -> bool)
    ensures CountIf(s, p) <= |s|
    ensures CountIf(s, p) == 0 <==> forall i :: 0 <= i < |s| ==> !p(s[i])
    ensures CountIf(s, p) == |s| <==> forall i :: 0 <= i < |s| ==> p(s[i])
  {
    if s != [] {
      CountIfBounds(s[1..], p);
      assert forall i :: 1 <= i < |s| ==> s[i] == s[1..][i - 1];
      assert (forall i :: 0 <= i < |s| ==> !p(s[i])) <==> !p(s[0]) && forall i :: 0 <= i < |s[1..]| ==> !p(s[1..][i]);
      assert (forall i :: 0 <= i < |s| ==> p(s[i])) <==> p(s[0]) && forall i :: 0 <= i < |s[1..]| ==> p(s[1..][i]);
    }
  }

  lemma {:induction false} CountIfTwo<T>(s: seq<T>, p: T -> bool, i: nat, j: nat)
    requires i < j < |s| && p(s[i]) && p(s[j])
    ensures CountIf(s, p) >= 2
  {
    if i == 0 {
      assert p(s[1..][j - 1]);
      CountIfBounds(s[1..], p);
    } else {
      CountIfTwo(s[1..], p, i - 1, j - 1);
    }
  }

  /** Two kinds that exclude each other leave room for an element of neither. */
  lemma {:induction false} CountIfNeither<T>(s: seq<T>, p: T -> bool, q: T -> bool, i: nat)
    requires i < |s| && !p(s[i]) && !q(s[i])
    requires forall k :: 0 <= k < |s| ==> !(p(s[k]) && q(s[k]))
    ensures CountIf(s, p) + CountIf(s, q) < |s|
  {
    var t := s[1..];
    if i > 0 {
      CountIfNeither(t, p, q, i - 1);
    } else {
      CountIfDisjoint(t, p, q);
    }
  }

  lemma {:induction false} CountIfDisjoint<T>(s: seq<T>, p: T -> bool, q: T -> bool)
    requires forall k :: 0 <= k < |s| ==> !(p(s[k]) && q(s[k]))
    ensures CountIf(s, p) + CountIf(s, q) <= |s|
  {
    if s != [] { CountIfDisjoint(s[1..], p, q); }
  }
}
