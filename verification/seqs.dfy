// Sequence vocabulary shared by the components: filtering, flattening, order.
module Seqs {
  function Filter<T>(s: seq<T>, p: T -> bool): seq<T> {
    if s == [] then [] else Filter(s[..|s| - 1], p) + (if p(s[|s| - 1]) then [s[|s| - 1]] else [])
  }

  lemma FilterAppend<T>(s: seq<T>, x: T, p: T -> bool)
    ensures Filter(s + [x], p) == Filter(s, p) + (if p(x) then [x] else [])
  {
  }

  lemma FilterUpto<T>(s: seq<T>, i: nat, p: T -> bool)
    requires i < |s|
    ensures Filter(s[..i + 1], p) == Filter(s[..i], p) + (if p(s[i]) then [s[i]] else [])
  {
    assert s[..i + 1] == s[..i] + [s[i]];
    FilterAppend(s[..i], s[i], p);
  }

  lemma {:induction false} FilterConcat<T>(s: seq<T>, t: seq<T>, p: T -> bool)
    ensures Filter(s + t, p) == Filter(s, p) + Filter(t, p)
  {
    if t == [] {
      assert s + t == s;
    } else {
      var u := t[..|t| - 1];
      FilterConcat(s, u, p);
      FilterAppend(s + u, t[|t| - 1], p);
      assert s + t == (s + u) + [t[|t| - 1]];
    }
  }

  lemma {:induction false} FilterMembers<T>(s: seq<T>, p: T -> bool)
    ensures forall x :: x in Filter(s, p) <==> x in s && p(x)
    ensures |Filter(s, p)| <= |s|
  {
    if s != [] {
      FilterMembers(s[..|s| - 1], p);
      assert s == s[..|s| - 1] + [s[|s| - 1]];
    }
  }

  lemma {:induction false} FilterCount<T>(s: seq<T>, p: T -> bool, x: T)
    ensures multiset(Filter(s, p))[x] == if p(x) then multiset(s)[x] else 0
  {
    if s != [] {
      var init, last := s[..|s| - 1], s[|s| - 1];
      FilterCount(init, p, x);
      assert s == init + [last];
    }
  }

  function Flat<T>(ss: seq<seq<T>>): seq<T> {
    if ss == [] then [] else Flat(ss[..|ss| - 1]) + ss[|ss| - 1]
  }

  lemma FlatAppend<T>(ss: seq<seq<T>>, s: seq<T>)
    ensures Flat(ss + [s]) == Flat(ss) + s
  {
  }

  lemma FlatBag<T>(ss: seq<seq<T>>)
    requires ss != []
    ensures multiset(Flat(ss)) == multiset(Flat(ss[..|ss| - 1])) + multiset(ss[|ss| - 1])
  {
  }

  // Replacing one part changes the bag of elements by exactly that part.
  lemma {:induction false} FlatUpdate<T>(ss: seq<seq<T>>, i: nat, s: seq<T>)
    requires i < |ss|
    ensures multiset(Flat(ss[i := s])) + multiset(ss[i]) == multiset(Flat(ss)) + multiset(s)
  {
    var init, last := ss[..|ss| - 1], ss[|ss| - 1];
    if i == |ss| - 1 {
      assert ss[i := s][..|ss| - 1] == init;
      assert multiset(Flat(ss[i := s])) == multiset(Flat(init)) + multiset(s);
      assert multiset(Flat(ss)) == multiset(Flat(init)) + multiset(last);
    } else {
      FlatUpdate(init, i, s);
      assert ss[i := s][..|ss| - 1] == init[i := s];
      assert ss[i := s][|ss| - 1] == last;
      assert multiset(Flat(ss[i := s])) == multiset(Flat(init[i := s])) + multiset(last);
      assert multiset(Flat(ss)) == multiset(Flat(init)) + multiset(last);
      calc {
        multiset(Flat(ss[i := s])) + multiset(ss[i]);
        (multiset(Flat(init[i := s])) + multiset(init[i])) + multiset(last);
        (multiset(Flat(init)) + multiset(s)) + multiset(last);
        multiset(Flat(ss)) + multiset(s);
      }
    }
  }

  lemma {:induction false} FlatOfEmpties<T>(ss: seq<seq<T>>)
    requires forall i :: 0 <= i < |ss| ==> ss[i] == []
    ensures Flat(ss) == []
  {
    if ss != [] {
      FlatOfEmpties(ss[..|ss| - 1]);
    }
  }

  ghost predicate Increasing(s: seq<int>) {
    forall i, j :: 0 <= i < j < |s| ==> s[i] < s[j]
  }

  ghost predicate Distinct<T(!new)>(s: seq<T>) {
    forall i, j :: 0 <= i < j < |s| ==> s[i] != s[j]
  }

  lemma DistinctAppend<T(!new)>(s: seq<T>, x: T)
    requires Distinct(s) && x !in s
    ensures Distinct(s + [x])
  {
  }

  // Elements `out` leave one bag's part `was` (which becomes `now`) for another bag.
  lemma BagMove<T>(f: multiset<T>, b: multiset<T>, all: multiset<T>, f': multiset<T>, b': multiset<T>,
                   was: multiset<T>, now: multiset<T>, out: multiset<T>, come: multiset<T>)
    requires f + b == all && f' == f + out
    requires b' + was == b + now && was + come == now + out
    ensures f' + b' == all + come
  {
    forall x | x in f' + b' + all + come ensures (f' + b')[x] == (all + come)[x] {
      assert (b' + was)[x] == (b + now)[x] && (was + come)[x] == (now + out)[x];
      assert (f + b)[x] == all[x];
    }
  }
}
