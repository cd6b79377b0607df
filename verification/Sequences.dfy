/** Sequence operations shared by the gossip model: order-preserving selection, and relations
    that hold between every two positions of a sequence. */
module Sequences {

  datatype Option<+T> = None | Some(value: T) {
    function GetOr(default: T): T {
      match this
      case None => default
      case Some(v) => v
    }
  }

  lemma Associate<T>(a: seq<T>, b: seq<T>, c: seq<T>)
    ensures a + b + c == a + (b + c)
  {
  }

  /** The elements of `s` that satisfy `p`, in their original order. */
  function Filter<T>(p: T -> bool, s: seq<T>): (r: seq<T>)
    ensures |r| <= |s|
  {
    if s == [] then
      []
    else
      var rest := Filter(p, s[..|s| - 1]);
      if p(s[|s| - 1]) then rest + [s[|s| - 1]] else rest
  }

  lemma {:induction false} FilterMember<T>(p: T -> bool, s: seq<T>, x: T)
    ensures x in Filter(p, s) <==> x in s && p(x)
  {
    if s == [] {
    } else {
      FilterMember(p, s[..|s| - 1], x);
      assert s == s[..|s| - 1] + [s[|s| - 1]];
    }
  }

  lemma FilterMembers<T(!new)>(p: T -> bool, s: seq<T>)
    ensures forall x :: x in Filter(p, s) <==> x in s && p(x)
  {
    forall x
      ensures x in Filter(p, s) <==> x in s && p(x)
    {
      FilterMember(p, s, x);
    }
  }

  function Not<T>(p: T -> bool): T -> bool {
    x => !p(x)
  }

  lemma FilterStep<T>(p: T -> bool, s: seq<T>, n: nat)
    requires n < |s|
    ensures Filter(p, s[..n + 1]) == Filter(p, s[..n]) + if p(s[n]) then [s[n]] else []
  {
    assert s[..n + 1][..n] == s[..n];
  }

  lemma {:induction false} FilterNone<T>(p: T -> bool, s: seq<T>)
    requires forall x | x in s :: !p(x)
    ensures Filter(p, s) == [] && Filter(Not(p), s) == s
  {
    if s == [] {
    } else {
      FilterNone(p, s[..|s| - 1]);
    }
  }

  lemma {:induction false} FilterAll<T>(p: T -> bool, s: seq<T>)
    requires forall x | x in s :: p(x)
    ensures Filter(p, s) == s
  {
    if s == [] {
    } else {
      FilterAll(p, s[..|s| - 1]);
    }
  }

  lemma {:induction false} FilterConcat<T>(p: T -> bool, s: seq<T>, t: seq<T>)
    ensures Filter(p, s + t) == Filter(p, s) + Filter(p, t)
  {
    if t == [] {
      assert s + t == s;
    } else {
      FilterConcat(p, s, t[..|t| - 1]);
      assert (s + t)[..|s + t| - 1] == s + t[..|t| - 1];
    }
  }

  lemma {:induction false} FilterSame<T>(p: T -> bool, q: T -> bool, s: seq<T>)
    requires forall x | x in s :: p(x) <==> q(x)
    ensures Filter(p, s) == Filter(q, s)
  {
    if s == [] {
    } else {
      FilterSame(p, q, s[..|s| - 1]);
    }
  }

  /** Selecting twice is selecting by a predicate that, on `s`, means both. */
  lemma {:induction false} FilterTwice<T>(p: T -> bool, q: T -> bool, both: T -> bool, s: seq<T>)
    requires forall x | x in s :: both(x) <==> p(x) && q(x)
    ensures Filter(q, Filter(p, s)) == Filter(both, s)
  {
    if s == [] {
    } else {
      var front := s[..|s| - 1];
      FilterTwice(p, q, both, front);
      assert p(s[|s| - 1]) ==> (Filter(p, front) + [s[|s| - 1]])[..|Filter(p, front)|] == Filter(p, front);
    }
  }

  /** How many elements of `s` satisfy `p`. */
  function Count<T>(p: T -> bool, s: seq<T>): nat {
    if s == [] then 0 else Count(p, s[..|s| - 1]) + if p(s[|s| - 1]) then 1 else 0
  }

  lemma CountAppend<T>(p: T -> bool, s: seq<T>, x: T)
    ensures Count(p, s + [x]) == Count(p, s) + if p(x) then 1 else 0
  {
    assert (s + [x])[..|s|] == s;
  }

  lemma {:induction false} CountConcat<T>(p: T -> bool, s: seq<T>, t: seq<T>)
    ensures Count(p, s + t) == Count(p, s) + Count(p, t)
  {
    if t == [] {
      assert s + t == s;
    } else {
      CountConcat(p, s, t[..|t| - 1]);
      assert (s + t)[..|s + t| - 1] == s + t[..|t| - 1];
    }
  }

  lemma CountConcat5<T>(p: T -> bool, a: seq<T>, b: seq<T>, c: seq<T>, d: seq<T>, e: seq<T>)
    ensures Count(p, a + b + c + d + e) == Count(p, a) + Count(p, b) + Count(p, c) + Count(p, d) + Count(p, e)
  {
    CountConcat(p, a + b + c + d, e);
    CountConcat(p, a + b + c, d);
    CountConcat(p, a + b, c);
    CountConcat(p, a, b);
  }

  lemma {:induction false} CountSplit<T>(p: T -> bool, q: T -> bool, s: seq<T>)
    ensures Count(p, s) == Count(p, Filter(q, s)) + Count(p, Filter(Not(q), s))
  {
    if s == [] {
    } else {
      CountSplit(p, q, s[..|s| - 1]);
    }
  }

  lemma Reassemble<T>(t: seq<T>, i: nat)
    requires i < |t|
    ensures t[..i] + [t[i]] + t[i + 1..] == t
  {
  }

  lemma MultisetWithout<T>(t: seq<T>, i: nat)
    requires i < |t|
    ensures multiset(t[..i] + t[i + 1..]) == multiset(t) - multiset{t[i]}
  {
    Reassemble(t, i);
  }

  lemma CountInsert<T>(p: T -> bool, left: seq<T>, x: T, right: seq<T>)
    ensures Count(p, left + [x] + right) == Count(p, left + right) + if p(x) then 1 else 0
  {
    CountConcat(p, left + [x], right);
    CountAppend(p, left, x);
    CountConcat(p, left, right);
  }

  lemma CountWithout<T>(p: T -> bool, t: seq<T>, i: nat)
    requires i < |t|
    ensures Count(p, t) == Count(p, t[..i] + t[i + 1..]) + if p(t[i]) then 1 else 0
  {
    Reassemble(t, i);
    CountInsert(p, t[..i], t[i], t[i + 1..]);
  }

  /** Counting does not depend on the order. */
  lemma {:induction false} CountOfMultiset<T>(p: T -> bool, s: seq<T>, t: seq<T>)
    requires multiset(s) == multiset(t)
    ensures Count(p, s) == Count(p, t)
  {
    if s == [] {
      assert |multiset(t)| == 0;
    } else {
      var k := |s| - 1;
      assert s[k] in multiset(t);
      var i :| 0 <= i < |t| && t[i] == s[k];
      MultisetWithout(s, k);
      MultisetWithout(t, i);
      CountWithout(p, t, i);
      assert s[..k] + s[k + 1..] == s[..k];
      CountOfMultiset(p, s[..k], t[..i] + t[i + 1..]);
    }
  }

  lemma {:induction false} CountSame<T>(p: T -> bool, q: T -> bool, s: seq<T>)
    requires forall x | x in s :: p(x) <==> q(x)
    ensures Count(p, s) == Count(q, s)
  {
    if s == [] {
    } else {
      CountSame(p, q, s[..|s| - 1]);
    }
  }

  lemma {:induction false} CountIsFilter<T>(p: T -> bool, s: seq<T>)
    ensures Count(p, s) == |Filter(p, s)|
  {
    if s == [] {
    } else {
      CountIsFilter(p, s[..|s| - 1]);
    }
  }

  lemma {:induction false} CountBounds<T>(p: T -> bool, q: T -> bool, s: seq<T>)
    ensures Count(Not(p), s) == |s| - Count(p, s)
    ensures (forall x | x in s :: p(x) ==> q(x)) ==> Count(p, s) <= Count(q, s)
    ensures Count(p, s) == 0 <==> forall x | x in s :: !p(x)
  {
    if s == [] {
    } else {
      CountBounds(p, q, s[..|s| - 1]);
      assert s == s[..|s| - 1] + [s[|s| - 1]];
    }
  }

  /** A loop that walks over `s`, deleting as it goes, has looked at the first `j` elements: `left`
      is the current list, position `i` is where the walk stands, `gone` is what was deleted. */
  ghost predicate Deleting<T(!new)>(drop: T -> bool, s: seq<T>, j: int, left: seq<T>, i: int, gone: seq<T>) {
    && 0 <= j <= |s|
    && left == Filter(Not(drop), s[..j]) + s[j..]
    && i == |Filter(Not(drop), s[..j])|
    && gone == Filter(drop, s[..j])
  }

  lemma DeletingStep<T(!new)>(drop: T -> bool, s: seq<T>, j: int, left: seq<T>, i: int, gone: seq<T>)
    requires Deleting(drop, s, j, left, i, gone) && j < |s|
    ensures i < |left| && left[i] == s[j]
    ensures if drop(s[j]) then Deleting(drop, s, j + 1, left[..i] + left[i + 1..], i, gone + [s[j]])
            else Deleting(drop, s, j + 1, left, i + 1, gone)
  {
    FilterStep(drop, s, j);
    FilterStep(Not(drop), s, j);
    var kept := Filter(Not(drop), s[..j]);
    assert left[..i] + left[i + 1..] == kept + s[j + 1..];
    assert left == kept + [s[j]] + s[j + 1..];
  }

  lemma DeletingEnd<T(!new)>(drop: T -> bool, s: seq<T>, left: seq<T>, i: int, gone: seq<T>)
    requires Deleting(drop, s, |s|, left, i, gone)
    ensures left == Filter(Not(drop), s) && gone == Filter(drop, s)
  {
    assert s[..|s|] == s;
  }

  ghost predicate Pairwise<T(!new)>(rel: (T, T) -> bool, s: seq<T>) {
    forall i, j {:trigger rel(s[i], s[j])} | 0 <= i < j < |s| :: rel(s[i], s[j])
  }

  lemma {:induction false} FilterPairwise<T(!new)>(rel: (T, T) -> bool, p: T -> bool, s: seq<T>)
    requires Pairwise(rel, s)
    ensures Pairwise(rel, Filter(p, s))
  {
    if s == [] {
    } else {
      var front := s[..|s| - 1];
      FilterPairwise(rel, p, front);
      var kept := Filter(p, front);
      FilterMembers(p, front);
      forall i | 0 <= i < |kept|
        ensures rel(kept[i], s[|s| - 1])
      {
        assert kept[i] in front;
      }
    }
  }
}
