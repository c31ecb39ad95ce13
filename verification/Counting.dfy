/** Counting the elements of a sequence that satisfy a predicate, and summing a measure over them. */
module Counting {

  datatype Option<+T> = None | Some(value: T)

  function Min(a: nat, b: nat): nat {
    if a <= b then a else b
  }

  ghost function Count<T>(s: seq<T>, p: T -> bool): nat {
    if s == [] then 0
    else Count(s[..|s| - 1], p) + if p(s[|s| - 1]) then 1 else 0
  }

  lemma CountPush<T>(s: seq<T>, x: T, p: T -> bool)
    ensures Count(s + [x], p) == Count(s, p) + if p(x) then 1 else 0
  {
    assert (s + [x])[..|s|] == s;
  }

  lemma {:induction false} CountAppend<T>(s: seq<T>, t: seq<T>, p: T -> bool)
    ensures Count(s + t, p) == Count(s, p) + Count(t, p)
  {
    if t == [] {
      assert s + t == s;
    } else {
      var t' := t[..|t| - 1];
      assert s + t == (s + t') + [t[|t| - 1]];
      CountPush(s + t', t[|t| - 1], p);
      CountAppend(s, t', p);
    }
  }

  lemma CountUpdate<T>(s: seq<T>, i: nat, x: T, p: T -> bool)
    requires i < |s|
    ensures Count(s[i := x], p)
         == Count(s, p) - (if p(s[i]) then 1 else 0) + (if p(x) then 1 else 0)
  {
    assert s == (s[..i] + [s[i]]) + s[i + 1..];
    assert s[i := x] == (s[..i] + [x]) + s[i + 1..];
    CountPush(s[..i], s[i], p);
    CountPush(s[..i], x, p);
    CountAppend(s[..i] + [s[i]], s[i + 1..], p);
    CountAppend(s[..i] + [x], s[i + 1..], p);
  }

  lemma {:induction false} CountAll<T>(s: seq<T>, p: T -> bool)
    requires forall x | x in s :: p(x)
    ensures Count(s, p) == |s|
  {
    if s != [] {
      CountAll(s[..|s| - 1], p);
    }
  }

  lemma {:induction false} CountNone<T>(s: seq<T>, p: T -> bool)
    requires forall x | x in s :: !p(x)
    ensures Count(s, p) == 0
  {
    if s != [] {
      CountNone(s[..|s| - 1], p);
    }
  }

  lemma {:induction false} CountMono<T>(s: seq<T>, p: T -> bool, q: T -> bool)
    requires forall x | x in s && p(x) :: q(x)
    ensures Count(s, p) <= Count(s, q)
  {
    if s != [] {
      CountMono(s[..|s| - 1], p, q);
    }
  }

  /** If every element counted by p is counted by q or by r, then p counts no more than both. */
  lemma {:induction false} CountCover<T>(s: seq<T>, p: T -> bool, q: T -> bool, r: T -> bool)
    requires forall x | x in s && p(x) :: q(x) || r(x)
    ensures Count(s, p) <= Count(s, q) + Count(s, r)
  {
    if s != [] {
      CountCover(s[..|s| - 1], p, q, r);
    }
  }

  /** If p splits into the disjoint q and r, the counts add up. */
  lemma {:induction false} CountSplit<T>(s: seq<T>, p: T -> bool, q: T -> bool, r: T -> bool)
    requires forall x | x in s :: p(x) == (q(x) || r(x)) && !(q(x) && r(x))
    ensures Count(s, p) == Count(s, q) + Count(s, r)
  {
    if s != [] {
      CountSplit(s[..|s| - 1], p, q, r);
    }
  }

  /** At most one counted element: any two counted positions are the same. */
  lemma {:induction false} CountAtMostOne<T>(s: seq<T>, p: T -> bool)
    requires forall i, j | 0 <= i < |s| && 0 <= j < |s| && p(s[i]) && p(s[j]) :: i == j
    ensures Count(s, p) <= 1
  {
    if s != [] {
      var n := |s| - 1;
      if p(s[n]) {
        CountNone(s[..n], p);
      } else {
        CountAtMostOne(s[..n], p);
      }
    }
  }

  lemma AppendAssociates<T>(a: seq<T>, b: seq<T>, c: seq<T>)
    ensures (a + b) + c == a + (b + c)
  {
  }

  lemma EmptyAppend<T>(s: seq<T>)
    ensures [] + s == s
  {
  }

  lemma AppendNothing<T>(a: seq<T>, b: seq<T>)
    ensures a + b == a <==> b == []
  {
    assert |a + b| == |a| + |b|;
  }

  lemma TakeNext<T>(s: seq<T>, n: nat)
    requires n < |s|
    ensures s[..n + 1] == s[..n] + [s[n]]
  {
  }

  lemma TakePushed<T>(s: seq<T>, x: T, n: nat)
    requires n <= |s|
    ensures (s + [x])[..n] == s[..n]
  {
  }

  lemma TakeAll<T>(s: seq<T>, n: nat)
    requires n == |s|
    ensures s[..n] == s
  {
  }

  ghost predicate NoDuplicates<T>(s: seq<T>) {
    forall i, j | 0 <= i < j < |s| :: s[i] != s[j]
  }

  lemma {:induction false} CopiesOf<T>(s: seq<T>, x: T)
    requires NoDuplicates(s)
    ensures multiset(s)[x] == if x in s then 1 else 0
  {
    if s != [] {
      CopiesOf(s[1..], x);
      assert s == [s[0]] + s[1..];
    }
  }

  ghost function Sum<T>(s: seq<T>, f: T -> real): real {
    if s == [] then 0.0 else f(s[0]) + Sum(s[1..], f)
  }

  lemma {:induction false} SumAppend<T>(s: seq<T>, t: seq<T>, f: T -> real)
    ensures Sum(s + t, f) == Sum(s, f) + Sum(t, f)
  {
    if s == [] {
      assert s + t == t;
    } else {
      assert (s + t)[1..] == s[1..] + t;
      SumAppend(s[1..], t, f);
    }
  }

  lemma SumPush<T>(s: seq<T>, x: T, f: T -> real)
    ensures Sum(s + [x], f) == Sum(s, f) + f(x)
  {
    SumAppend(s, [x], f);
    assert [x][1..] == [];
  }

  /** One more element of s is summed. */
  lemma SumNext<T>(s: seq<T>, n: nat, f: T -> real)
    requires n < |s|
    ensures Sum(s[..n + 1], f) == Sum(s[..n], f) + f(s[n])
  {
    TakeNext(s, n);
    SumPush(s[..n], s[n], f);
  }

  lemma SumCons<T>(x: T, s: seq<T>, f: T -> real)
    ensures Sum([x] + s, f) == f(x) + Sum(s, f)
  {
    assert ([x] + s)[1..] == s;
  }

  /** Position i of s may be summed first. */
  lemma PullFront<T>(s: seq<T>, i: nat, f: T -> real)
    requires i < |s|
    ensures Sum(s, f) == f(s[i]) + Sum(s[..i] + s[i + 1..], f)
  {
    var a, b := s[..i], s[i + 1..];
    SumAppend(a, [s[i]] + b, f);
    SumCons(s[i], b, f);
    SumAppend(a, b, f);
    assert s == a + ([s[i]] + b);
  }

  lemma PullMultiset<T>(s: seq<T>, i: nat)
    requires i < |s|
    ensures multiset(s[..i] + s[i + 1..]) == multiset(s) - multiset{s[i]}
  {
    assert s == s[..i] + [s[i]] + s[i + 1..];
  }

  lemma TailMultiset<T>(s: seq<T>)
    requires s != []
    ensures multiset(s[1..]) == multiset(s) - multiset{s[0]}
  {
    assert s == [s[0]] + s[1..];
  }

  /** The head of a sequence, found in a rearrangement of it. */
  lemma FindHead<T>(s: seq<T>, t: seq<T>) returns (i: nat)
    requires multiset(s) == multiset(t) && s != []
    ensures i < |t| && t[i] == s[0]
    ensures multiset(s[1..]) == multiset(t[..i] + t[i + 1..])
  {
    assert s[0] in multiset(s);
    assert s[0] in t;
    i :| 0 <= i < |t| && t[i] == s[0];
    PullMultiset(t, i);
    TailMultiset(s);
  }

  /** A sum depends only on which elements are there, not on their order. */
  lemma {:induction false} SumPermutation<T>(s: seq<T>, t: seq<T>, f: T -> real)
    requires multiset(s) == multiset(t)
    ensures Sum(s, f) == Sum(t, f)
    decreases |s|
  {
    if s == [] {
      assert |multiset(t)| == 0;
    } else {
      var i := FindHead(s, t);
      PullFront(t, i, f);
      SumPermutation(s[1..], t[..i] + t[i + 1..], f);
    }
  }

  lemma {:induction false} SumMono<T>(s: seq<T>, f: T -> real, g: T -> real)
    requires forall x | x in s :: f(x) <= g(x)
    ensures Sum(s, f) <= Sum(s, g)
  {
    if s != [] {
      SumMono(s[1..], f, g);
    }
  }

  function Concat<T>(parts: seq<seq<T>>): seq<T> {
    if parts == [] then [] else Concat(parts[..|parts| - 1]) + parts[|parts| - 1]
  }

  /** Where part k begins in the concatenation. */
  function Start<T>(parts: seq<seq<T>>, k: nat): nat
    requires k <= |parts|
  {
    |Concat(parts[..k])|
  }

  lemma {:induction false} PartAt<T>(parts: seq<seq<T>>, k: nat)
    requires k < |parts|
    ensures Start(parts, k) <= Start(parts, k + 1) <= |Concat(parts)|
    ensures Concat(parts)[Start(parts, k)..Start(parts, k + 1)] == parts[k]
    decreases |parts|
  {
    var n := |parts| - 1;
    assert parts[..k + 1][..k] == parts[..k];
    if k < n {
      PartAt(parts[..n], k);
      assert parts[..n][..k] == parts[..k] && parts[..n][..k + 1] == parts[..k + 1];
    } else {
      assert parts[..k + 1] == parts;
    }
  }

  function Map<A, B>(s: seq<A>, f: A -> B): (r: seq<B>)
    ensures |r| == |s| && forall i | 0 <= i < |s| :: r[i] == f(s[i])
  {
    seq(|s|, i requires 0 <= i < |s| => f(s[i]))
  }

  lemma MapPull<A, B>(s: seq<A>, i: nat, f: A -> B)
    requires i < |s|
    ensures multiset(Map(s, f)) == multiset{f(s[i])} + multiset(Map(s[..i] + s[i + 1..], f))
  {
    var a, b := Map(s[..i], f), Map(s[i + 1..], f);
    assert Map(s, f) == a + [f(s[i])] + b;
    assert Map(s[..i] + s[i + 1..], f) == a + b;
  }

  lemma MapHead<A, B>(s: seq<A>, f: A -> B)
    requires s != []
    ensures multiset(Map(s, f)) == multiset{f(s[0])} + multiset(Map(s[1..], f))
  {
    assert Map(s, f) == [f(s[0])] + Map(s[1..], f);
  }

  /** Mapping a rearranged sequence gives a rearranged result. */
  lemma {:induction false} MapPermutation<A, B>(s: seq<A>, t: seq<A>, f: A -> B)
    requires multiset(s) == multiset(t)
    ensures multiset(Map(s, f)) == multiset(Map(t, f))
    decreases |s|
  {
    if s == [] {
      assert |multiset(t)| == 0;
      assert t == [];
    } else {
      var i := FindHead(s, t);
      MapPermutation(s[1..], t[..i] + t[i + 1..], f);
      MapPull(t, i, f);
      MapHead(s, f);
    }
  }
}
