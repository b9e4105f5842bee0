/** Python lists used as ordered collections: `x in list`, `list.remove(x)`
    (first occurrence only), "append if absent", and order-preserving filtering. */
module Lists {

  /** No element occurs twice. */
  predicate NoDup<T(==)>(s: seq<T>) {
    forall i, j :: 0 <= i < j < |s| ==> s[i] != s[j]
  }

  /** The elements of `s`. */
  function Elems<T>(s: seq<T>): set<T> {
    set x | x in s
  }

  /** `list.remove(x)` guarded by `if x in list`: drops the first occurrence
      of `x`, and leaves a list without `x` as it is (`RemoveFirstOrder`
      says that the rest keep their order). */
  function RemoveFirst<T(==,!new)>(s: seq<T>, x: T): (r: seq<T>)
    ensures x !in s ==> r == s
    ensures x in s ==> |r| == |s| - 1
    ensures forall y :: y in r ==> y in s
    ensures multiset(r) == multiset(s) - multiset{x}
  {
    if s == [] then []
    else if s[0] == x then
      assert s == [s[0]] + s[1..];
      s[1..]
    else
      assert s == [s[0]] + s[1..];
      [s[0]] + RemoveFirst(s[1..], x)
  }

  /** Removing `x` cuts out exactly its first occurrence: the part before it
      (which holds no `x`) and the part after it stay, in order. */
  lemma {:induction false} RemoveFirstOrder<T(!new)>(a: seq<T>, x: T, b: seq<T>)
    requires x !in a
    ensures RemoveFirst(a + [x] + b, x) == a + b
  {
    var s := a + [x] + b;
    if a == [] {
      assert s == [x] + b && s[1..] == b;
      assert RemoveFirst(s, x) == b;
    } else {
      var t := a[1..] + [x] + b;
      assert s == [a[0]] + t;
      assert s[1..] == t;
      assert x != a[0];
      RemoveFirstOrder(a[1..], x, b);
      assert RemoveFirst(s, x) == [a[0]] + RemoveFirst(t, x);
      ConsAppend(a, b);
    }
  }

  lemma ConsAppend<T>(a: seq<T>, b: seq<T>)
    requires a != []
    ensures a + b == [a[0]] + (a[1..] + b)
  {
    assert a == [a[0]] + a[1..];
  }

  /** `s` with every element of `xs` filtered out, order kept. */
  function Without<T(==,!new)>(s: seq<T>, xs: set<T>): (r: seq<T>)
    ensures forall y :: y in r <==> y in s && y !in xs
  {
    if s == [] then []
    else (if s[0] in xs then [] else [s[0]]) + Without(s[1..], xs)
  }

  /** Append `x` unless it is already present. */
  function AddIfAbsent<T(==)>(s: seq<T>, x: T): seq<T> {
    if x in s then s else s + [x]
  }

  /** Each element of `xs` appended in turn unless `s` already holds it. */
  function AddAll<T(==,!new)>(s: seq<T>, xs: seq<T>): (r: seq<T>)
    ensures forall y :: y in r <==> y in s || y in xs
  {
    if xs == [] then s
    else
      assert forall y :: y in xs <==> y in xs[..|xs| - 1] || y == xs[|xs| - 1] by {
        assert xs == xs[..|xs| - 1] + [xs[|xs| - 1]];
      }
      AddIfAbsent(AddAll(s, xs[..|xs| - 1]), xs[|xs| - 1])
  }

  /** Adding one more element is one more `AddIfAbsent`. */
  lemma AddAllSnoc<T(!new)>(s: seq<T>, xs: seq<T>, x: T)
    ensures AddAll(s, xs + [x]) == AddIfAbsent(AddAll(s, xs), x)
  {
    assert (xs + [x])[..|xs|] == xs;
  }

  /** The first occurrence of each element of `xs` removed in turn, when present. */
  function RemoveAll<T(==,!new)>(s: seq<T>, xs: seq<T>): (r: seq<T>)
    ensures multiset(r) == multiset(s) - multiset(xs)
  {
    if xs == [] then s
    else
      var rest := RemoveAll(s, xs[..|xs| - 1]);
      assert xs == xs[..|xs| - 1] + [xs[|xs| - 1]];
      MultisetDifferenceOfSum(multiset(s), multiset(xs[..|xs| - 1]), multiset{xs[|xs| - 1]});
      RemoveFirst(rest, xs[|xs| - 1])
  }

  lemma MultisetDifferenceOfSum<T>(a: multiset<T>, b: multiset<T>, c: multiset<T>)
    ensures (a - b) - c == a - (b + c)
  {
    forall e ensures ((a - b) - c)[e] == (a - (b + c))[e] {
    }
  }

  /** On a duplicate-free list, removing the first occurrence removes every
      occurrence. */
  lemma {:induction false} RemoveFirstNoDup<T(!new)>(s: seq<T>, x: T)
    requires NoDup(s)
    ensures RemoveFirst(s, x) == Without(s, {x})
  {
    if s != [] {
      assert NoDup(s[1..]);
      if s[0] == x {
        assert x !in s[1..];
        WithoutAbsent(s[1..], {x});
      } else {
        RemoveFirstNoDup(s[1..], x);
      }
    }
  }

  /** Filtering out elements that do not occur changes nothing. */
  lemma {:induction false} WithoutAbsent<T(!new)>(s: seq<T>, xs: set<T>)
    requires forall y :: y in xs ==> y !in s
    ensures Without(s, xs) == s
  {
    if s != [] {
      WithoutAbsent(s[1..], xs);
      assert s == [s[0]] + s[1..];
    }
  }

  /** Filtering keeps a list duplicate-free. */
  lemma {:induction false} WithoutNoDup<T(!new)>(s: seq<T>, xs: set<T>)
    requires NoDup(s)
    ensures NoDup(Without(s, xs))
  {
    if s != [] {
      assert NoDup(s[1..]);
      WithoutNoDup(s[1..], xs);
      var head := if s[0] in xs then [] else [s[0]];
      var r := head + Without(s[1..], xs);
      forall i, j | 0 <= i < j < |r| ensures r[i] != r[j] {
        if |head| == 1 && i == 0 {
          assert r[j] in Without(s[1..], xs);
          assert s[0] !in s[1..];
        } else {
          assert r[i] == Without(s[1..], xs)[i - |head|];
          assert r[j] == Without(s[1..], xs)[j - |head|];
        }
      }
    }
  }

  /** Filtering twice is filtering once by the union. */
  lemma {:induction false} WithoutWithout<T(!new)>(s: seq<T>, a: set<T>, b: set<T>)
    ensures Without(Without(s, a), b) == Without(s, a + b)
  {
    if s != [] {
      WithoutWithout(s[1..], a, b);
      var w := Without(s, a);
      if s[0] in a {
        assert w == Without(s[1..], a);
      } else {
        assert w == [s[0]] + Without(s[1..], a);
        assert w != [] && w[0] == s[0] && w[1..] == Without(s[1..], a);
        assert Without(w, b) == (if s[0] in b then [] else [s[0]]) + Without(w[1..], b);
      }
    }
  }

  /** `AddAll` keeps the original list as a prefix and appends only new
      elements, each at most once. */
  lemma {:induction false} AddAllShape<T(!new)>(s: seq<T>, xs: seq<T>)
    ensures |AddAll(s, xs)| >= |s| && AddAll(s, xs)[..|s|] == s
    ensures forall i :: |s| <= i < |AddAll(s, xs)| ==> AddAll(s, xs)[i] in xs && AddAll(s, xs)[i] !in s
    ensures NoDup(s) ==> NoDup(AddAll(s, xs))
  {
    if xs != [] {
      var init := xs[..|xs| - 1];
      var x := xs[|xs| - 1];
      AddAllShape(s, init);
      var prev := AddAll(s, init);
      assert xs == init + [x];
      if x !in prev {
        var r := prev + [x];
        assert r[..|s|] == prev[..|s|];
        assert forall i :: |s| <= i < |prev| ==> r[i] == prev[i];
      }
    }
  }

  /** On a duplicate-free list the removal loop is a filter by the removed
      elements, so it keeps the order and the list duplicate-free. */
  lemma {:induction false} RemoveAllNoDup<T(!new)>(s: seq<T>, xs: seq<T>)
    requires NoDup(s)
    ensures RemoveAll(s, xs) == Without(s, Elems(xs))
    ensures NoDup(RemoveAll(s, xs))
  {
    if xs == [] {
      WithoutAbsent(s, {});
      assert Elems(xs) == {};
    } else {
      var init := xs[..|xs| - 1];
      var x := xs[|xs| - 1];
      var prev := RemoveAll(s, init);
      RemoveAllNoDup(s, init);
      assert RemoveAll(s, xs) == RemoveFirst(prev, x);
      RemoveFirstNoDup(prev, x);
      WithoutWithout(s, Elems(init), {x});
      ElemsLast(xs);
      WithoutNoDup(s, Elems(xs));
    }
  }

  lemma ElemsLast<T>(s: seq<T>)
    requires s != []
    ensures Elems(s) == Elems(s[..|s| - 1]) + {s[|s| - 1]}
  {
    assert s == s[..|s| - 1] + [s[|s| - 1]];
    assert forall y :: y in s <==> y in s[..|s| - 1] || y == s[|s| - 1];
  }
}
