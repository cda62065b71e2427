/** Array.prototype.filter, forEach-style maps and counting over sequences. */
module Seqs {

  /** The elements of `s` that satisfy `keep`, in their original order. */
  function Filter<T>(s: seq<T>, keep: T -> bool): (r: seq<T>)
    ensures |r| <= |s|
    ensures forall i :: 0 <= i < |r| ==> keep(r[i])
    ensures forall x :: x in r ==> x in s
    ensures forall x :: x in s && keep(x) ==> x in r
    ensures multiset(r) <= multiset(s)
  {
    if s == [] then []
    else
      assert s == [s[0]] + s[1..];
      if keep(s[0]) then [s[0]] + Filter(s[1..], keep)
      else Filter(s[1..], keep)
  }

  /** Filtering a sequence whose every element is kept changes nothing. */
  lemma {:induction false} FilterKeepsAll<T>(s: seq<T>, keep: T -> bool)
    requires forall i :: 0 <= i < |s| ==> keep(s[i])
    ensures Filter(s, keep) == s
  {
    if s != [] {
      FilterKeepsAll(s[1..], keep);
    }
  }

  /** Filtering a sequence none of whose elements is kept leaves nothing. */
  lemma {:induction false} FilterKeepsNone<T>(s: seq<T>, keep: T -> bool)
    requires forall i :: 0 <= i < |s| ==> !keep(s[i])
    ensures Filter(s, keep) == []
  {
    if s != [] {
      FilterKeepsNone(s[1..], keep);
    }
  }

  /** Filtering distributes over concatenation. */
  lemma {:induction false} FilterAppend<T>(s: seq<T>, t: seq<T>, keep: T -> bool)
    ensures Filter(s + t, keep) == Filter(s, keep) + Filter(t, keep)
  {
    if s == [] {
      assert s + t == t;
    } else {
      assert (s + t)[1..] == s[1..] + t;
      FilterAppend(s[1..], t, keep);
    }
  }

  /** `f` applied to every element, as forEach does to each entity in turn. */
  function MapSeq<T, U>(s: seq<T>, f: T -> U): (r: seq<U>)
    ensures |r| == |s|
    ensures forall i :: 0 <= i < |s| ==> r[i] == f(s[i])
  {
    seq(|s|, i requires 0 <= i < |s| => f(s[i]))
  }

  /** The number of elements of `s` that satisfy `p`. */
  function Count<T>(s: seq<T>, p: T -> bool): (n: nat)
    ensures n <= |s|
  {
    if s == [] then 0 else (if p(s[0]) then 1 else 0) + Count(s[1..], p)
  }

  /** Replacing one element changes the count by what the old and the new element
      contribute: up by one, down by one, or not at all. */
  lemma {:induction false} CountUpdate<T>(s: seq<T>, j: nat, v: T, p: T -> bool)
    requires j < |s|
    ensures Count(s[j := v], p) == Count(s, p) - (if p(s[j]) then 1 else 0) + (if p(v) then 1 else 0)
  {
    if j > 0 {
      assert s[j := v][1..] == s[1..][j - 1 := v];
      CountUpdate(s[1..], j - 1, v, p);
    } else {
      assert s[j := v][1..] == s[1..];
    }
  }

  /** Filtering never raises the number of elements satisfying `p`. */
  lemma {:induction false} CountFilter<T>(s: seq<T>, keep: T -> bool, p: T -> bool)
    ensures Count(Filter(s, keep), p) <= Count(s, p)
  {
    if s != [] {
      CountFilter(s[1..], keep, p);
    }
  }

  /** The count is zero exactly when no element satisfies `p`. */
  lemma {:induction false} CountNone<T>(s: seq<T>, p: T -> bool)
    ensures Count(s, p) == 0 <==> forall i :: 0 <= i < |s| ==> !p(s[i])
  {
    if s != [] {
      CountNone(s[1..], p);
      assert forall i :: 1 <= i < |s| ==> s[i] == s[1..][i - 1];
    }
  }

  /** The reverse of `s`: what a push/pop drain of a stack produces. */
  function Reverse<T>(s: seq<T>): (r: seq<T>)
    ensures |r| == |s|
    ensures forall i :: 0 <= i < |s| ==> r[i] == s[|s| - 1 - i]
  {
    if s == [] then [] else Reverse(s[1..]) + [s[0]]
  }

  /** Popping the last element and pushing it elsewhere is the first step of the reverse. */
  lemma {:induction false} ReverseLast<T>(s: seq<T>)
    requires s != []
    ensures Reverse(s) == [s[|s| - 1]] + Reverse(s[..|s| - 1])
  {
    if |s| > 1 {
      var init := s[..|s| - 1];
      ReverseLast(s[1..]);
      assert s[1..][..|s| - 2] == init[1..];
      assert init[0] == s[0];
      calc {
        Reverse(s);
        Reverse(s[1..]) + [s[0]];
        [s[|s| - 1]] + Reverse(init[1..]) + [s[0]];
        [s[|s| - 1]] + (Reverse(init[1..]) + [init[0]]);
        [s[|s| - 1]] + Reverse(init);
      }
    }
  }
}
