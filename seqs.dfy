/** Python list operations the core relies on, and facts about them. */
module Seqs {

  /** No element occurs twice. */
  ghost predicate NoDup<T>(s: seq<T>) {
    forall i, j :: 0 <= i < j < |s| ==> s[i] != s[j]
  }

  /** `list.remove(x)` when `x` is present: drops the first occurrence of `x`;
      a list without `x` is returned unchanged. */
  function RemoveFirst<T(==)>(s: seq<T>, x: T): (r: seq<T>)
    ensures x in s ==> |r| == |s| - 1
    ensures x !in s ==> r == s
  {
    if s == [] then []
    else if s[0] == x then s[1..]
    else [s[0]] + RemoveFirst(s[1..], x)
  }

  /** `RemoveFirst` takes away one copy of `x` and nothing else. */
  lemma {:induction false} RemoveFirstMultiset<T>(s: seq<T>, x: T)
    ensures multiset(RemoveFirst(s, x)) == multiset(s) - multiset{x}
  {
    if s != [] {
      assert s == [s[0]] + s[1..];
      if s[0] != x { RemoveFirstMultiset(s[1..], x); }
    }
  }

  /** `a` is `b` with some elements left out, the rest in their original order. */
  predicate IsSubseq<T(==)>(a: seq<T>, b: seq<T>)
    decreases |b|
  {
    if a == [] then true
    else if b == [] then false
    else if a[0] == b[0] then IsSubseq(a[1..], b[1..])
    else IsSubseq(a, b[1..])
  }

  lemma {:induction false} SubseqRefl<T>(a: seq<T>)
    ensures IsSubseq(a, a)
  {
    if a != [] { SubseqRefl(a[1..]); }
  }

  lemma {:induction false} SubseqMembers<T>(a: seq<T>, b: seq<T>)
    requires IsSubseq(a, b)
    ensures forall x :: x in a ==> x in b
    decreases |b|
  {
    if a != [] && b != [] {
      if a[0] == b[0] {
        SubseqMembers(a[1..], b[1..]);
        assert a == [a[0]] + a[1..];
      } else {
        SubseqMembers(a, b[1..]);
      }
    }
  }

  lemma {:induction false} SubseqLength<T>(a: seq<T>, b: seq<T>)
    requires IsSubseq(a, b)
    ensures |a| <= |b|
    decreases |b|
  {
    if a != [] && b != [] {
      if a[0] == b[0] { SubseqLength(a[1..], b[1..]); } else { SubseqLength(a, b[1..]); }
    }
  }

  /** Prepending the same element keeps a subsequence. */
  lemma SubseqCons<T>(x: T, a: seq<T>, b: seq<T>)
    requires IsSubseq(a, b)
    ensures IsSubseq([x] + a, [x] + b)
  {
    assert ([x] + a)[1..] == a;
    assert ([x] + b)[1..] == b;
  }

  /** Prepending an element to the longer sequence only keeps a subsequence. */
  lemma {:induction false} SubseqSkip<T>(x: T, a: seq<T>, b: seq<T>)
    requires IsSubseq(a, b)
    ensures IsSubseq(a, [x] + b)
    decreases |b|, 1
  {
    assert ([x] + b)[1..] == b;
    if a != [] && a[0] == x {
      // matching `x` first also works: `a[1..]` is a subsequence of `b`
      SubseqDrop(a, b);
    }
  }

  /** Dropping the first element of a subsequence keeps a subsequence. */
  lemma {:induction false} SubseqDrop<T>(a: seq<T>, b: seq<T>)
    requires a != [] && IsSubseq(a, b)
    ensures IsSubseq(a[1..], b)
    decreases |b|, 0
  {
    if a[0] == b[0] {
      SubseqSkip(b[0], a[1..], b[1..]);
      assert [b[0]] + b[1..] == b;
    } else {
      SubseqDrop(a, b[1..]);
      SubseqSkip(b[0], a[1..], b[1..]);
      assert [b[0]] + b[1..] == b;
    }
  }

  /** A subsequence of a subsequence is a subsequence. */
  lemma {:induction false} SubseqTrans<T>(a: seq<T>, b: seq<T>, c: seq<T>)
    requires IsSubseq(a, b) && IsSubseq(b, c)
    ensures IsSubseq(a, c)
    decreases |c|
  {
    if a != [] && c != [] {
      if b[0] == c[0] {
        if a[0] == b[0] {
          SubseqTrans(a[1..], b[1..], c[1..]);
        } else {
          SubseqTrans(a, b[1..], c[1..]);
        }
      } else {
        SubseqTrans(a, b, c[1..]);
        if a[0] == c[0] { SubseqDrop(a, c[1..]); }
      }
    }
  }

  /** A subsequence of a list without duplicates has none either. */
  lemma {:induction false} SubseqNoDup<T>(a: seq<T>, b: seq<T>)
    requires IsSubseq(a, b) && NoDup(b)
    ensures NoDup(a)
    decreases |b|
  {
    if a != [] && b != [] {
      assert NoDup(b[1..]);
      if a[0] == b[0] {
        SubseqNoDup(a[1..], b[1..]);
        SubseqMembers(a[1..], b[1..]);
        assert a[0] !in b[1..];
        ConsNoDup(a[0], a[1..]);
        assert [a[0]] + a[1..] == a;
      } else {
        SubseqNoDup(a, b[1..]);
      }
    }
  }

  lemma ConsNoDup<T>(x: T, s: seq<T>)
    requires NoDup(s) && x !in s
    ensures NoDup([x] + s)
  {
    var r := [x] + s;
    forall i, j | 0 <= i < j < |r| ensures r[i] != r[j] {
      if i == 0 { assert r[j] == s[j - 1]; }
    }
  }

  lemma SnocNoDup<T>(s: seq<T>, x: T)
    requires NoDup(s) && x !in s
    ensures NoDup(s + [x])
  {
  }

  /** `RemoveFirst` drops exactly the first occurrence: what precedes it is kept as it is. */
  lemma {:induction false} RemoveFirstAt<T>(a: seq<T>, x: T, b: seq<T>)
    requires x !in a
    ensures RemoveFirst(a + [x] + b, x) == a + b
    ensures RemoveFirst(a + ([x] + b), x) == a + b
  {
    assert a + [x] + b == a + ([x] + b);
    if a == [] {
      assert a + [x] + b == [x] + b;
      assert ([x] + b)[1..] == b;
    } else {
      var t := a[1..] + [x] + b;
      HeadSplit(a, [x] + b);
      HeadSplit(a, b);
      assert a + [x] + b == a + ([x] + b) && a[1..] + ([x] + b) == t;
      RemoveFirstAt(a[1..], x, b);
      RemoveFirstCons(a[0], t, x);
    }
  }

  lemma HeadSplit<T>(a: seq<T>, b: seq<T>)
    requires a != []
    ensures a + b == [a[0]] + (a[1..] + b)
  {
    assert a == [a[0]] + a[1..];
  }

  /** `RemoveFirst` passes over a head that differs from `x`. */
  lemma RemoveFirstCons<T>(y: T, t: seq<T>, x: T)
    requires y != x
    ensures RemoveFirst([y] + t, x) == [y] + RemoveFirst(t, x)
  {
    assert ([y] + t)[0] == y && ([y] + t)[1..] == t;
  }

  /** Moving the head of the rest onto the end of the prefix. */
  lemma AppendStep<T>(whole: seq<T>, prefix: seq<T>, x: T, rest: seq<T>, tail: seq<T>)
    requires whole == prefix + rest && rest == [x] + tail
    ensures whole == (prefix + [x]) + tail
  {
  }

  /** What `RemoveFirst` keeps stays in its original order. */
  lemma {:induction false} RemoveFirstSubseq<T>(s: seq<T>, x: T)
    ensures IsSubseq(RemoveFirst(s, x), s)
  {
    if s == [] {
    } else if s[0] == x {
      SubseqRefl(s[1..]);
      SubseqSkip(s[0], s[1..], s[1..]);
      assert [s[0]] + s[1..] == s;
    } else {
      RemoveFirstSubseq(s[1..], x);
      SubseqCons(s[0], RemoveFirst(s[1..], x), s[1..]);
      assert [s[0]] + s[1..] == s;
    }
  }

  /** On a list without duplicates, `RemoveFirst` removes every copy of `x`. */
  lemma RemoveFirstNoDup<T>(s: seq<T>, x: T)
    requires NoDup(s)
    ensures NoDup(RemoveFirst(s, x))
    ensures x !in RemoveFirst(s, x)
    ensures forall y :: y in RemoveFirst(s, x) <==> y in s && y != x
  {
    var r := RemoveFirst(s, x);
    RemoveFirstSubseq(s, x);
    SubseqNoDup(r, s);
    NoDupMultiset(s);
    RemoveFirstMultiset(s, x);
    assert forall y :: y in r <==> y in multiset(r);
    assert forall y :: y in s <==> y in multiset(s);
  }

  /** Without duplicates every element occurs exactly once. */
  lemma {:induction false} NoDupMultiset<T>(s: seq<T>)
    requires NoDup(s)
    ensures forall y :: multiset(s)[y] == if y in s then 1 else 0
  {
    if s != [] {
      assert s == [s[0]] + s[1..];
      assert NoDup(s[1..]);
      NoDupMultiset(s[1..]);
      assert s[0] !in s[1..];
    }
  }
}
