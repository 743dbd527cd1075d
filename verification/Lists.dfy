/** Filters, sums and stable sorting of sequences, and grouping by a key: what the
    aggregators share. */
module Lists {

  // ------------------------------------------------------------ filter and sum

  function Keep<T>(s: seq<T>, p: T -> bool): (r: seq<T>)
    ensures |r| <= |s|
  {
    if |s| == 0 then []
    else
      var rest := Keep(s[..|s| - 1], p);
      if p(s[|s| - 1]) then rest + [s[|s| - 1]] else rest
  }

  function Sum<T>(s: seq<T>, f: T -> real): real {
    if |s| == 0 then 0.0 else Sum(s[..|s| - 1], f) + f(s[|s| - 1])
  }

  function Mapped<T, U>(s: seq<T>, f: T -> U): (r: seq<U>)
    ensures |r| == |s| && forall i :: 0 <= i < |s| ==> r[i] == f(s[i])
  {
    if |s| == 0 then [] else Mapped(s[..|s| - 1], f) + [f(s[|s| - 1])]
  }

  lemma SameImages<T, U>(s: seq<T>, f: T -> U, g: T -> U)
    requires forall i :: 0 <= i < |s| ==> f(s[i]) == g(s[i])
    ensures Mapped(s, f) == Mapped(s, g)
  {
    assert forall i :: 0 <= i < |s| ==> Mapped(s, f)[i] == Mapped(s, g)[i];
  }

  lemma SnocOf<T>(s: seq<T>, x: T)
    ensures (s + [x])[..|s|] == s && (s + [x])[|s|] == x
  {
  }

  lemma {:induction false} KeepIn<T>(s: seq<T>, p: T -> bool, x: T)
    ensures x in Keep(s, p) <==> x in s && p(x)
  {
    if |s| > 0 {
      KeepIn(s[..|s| - 1], p, x);
      assert s == s[..|s| - 1] + [s[|s| - 1]];
    }
  }

  lemma {:induction false} KeepAll<T>(s: seq<T>, p: T -> bool)
    requires forall i :: 0 <= i < |s| ==> p(s[i])
    ensures Keep(s, p) == s
  {
    if |s| > 0 {
      KeepAll(s[..|s| - 1], p);
      assert s == s[..|s| - 1] + [s[|s| - 1]];
    }
  }

  lemma {:induction false} KeepNone<T>(s: seq<T>, p: T -> bool)
    requires forall i :: 0 <= i < |s| ==> !p(s[i])
    ensures Keep(s, p) == []
  {
    if |s| > 0 { KeepNone(s[..|s| - 1], p); }
  }

  lemma {:induction false} KeepAppend<T>(a: seq<T>, b: seq<T>, p: T -> bool)
    ensures Keep(a + b, p) == Keep(a, p) + Keep(b, p)
  {
    if |b| == 0 {
      assert a + b == a;
    } else {
      KeepAppend(a, b[..|b| - 1], p);
      assert (a + b)[..|a + b| - 1] == a + b[..|b| - 1];
    }
  }

  lemma {:induction false} SumAppend<T>(a: seq<T>, b: seq<T>, f: T -> real)
    ensures Sum(a + b, f) == Sum(a, f) + Sum(b, f)
  {
    if |b| == 0 {
      assert a + b == a;
    } else {
      SumAppend(a, b[..|b| - 1], f);
      assert (a + b)[..|a + b| - 1] == a + b[..|b| - 1];
    }
  }

  lemma {:induction false} SumOfMapped<T, U>(s: seq<T>, g: T -> U, f: U -> real, h: T -> real)
    requires forall i :: 0 <= i < |s| ==> f(g(s[i])) == h(s[i])
    ensures Sum(Mapped(s, g), f) == Sum(s, h)
  {
    if |s| > 0 {
      SumOfMapped(s[..|s| - 1], g, f, h);
      assert Mapped(s, g)[..|s| - 1] == Mapped(s[..|s| - 1], g);
    }
  }

  lemma {:induction false} KeepOfMapped<T, U>(s: seq<T>, g: T -> U, p: U -> bool, q: T -> bool)
    requires forall i :: 0 <= i < |s| ==> p(g(s[i])) == q(s[i])
    ensures Keep(Mapped(s, g), p) == Mapped(Keep(s, q), g)
  {
    if |s| > 0 {
      var front, last := s[..|s| - 1], s[|s| - 1];
      KeepOfMapped(front, g, p, q);
      assert Mapped(s, g)[..|s| - 1] == Mapped(front, g);
      if q(last) { SnocOf(Keep(front, q), last); }
    }
  }

  /** Counting two kinds that no element is both of, and every element one of. */
  lemma {:induction false} KeepSplit<T>(s: seq<T>, p: T -> bool, q: T -> bool)
    requires forall i :: 0 <= i < |s| ==> p(s[i]) != q(s[i])
    ensures |Keep(s, p)| + |Keep(s, q)| == |s|
  {
    if |s| > 0 { KeepSplit(s[..|s| - 1], p, q); }
  }

  // -------------------------------------------- the same, as a loop goes along

  function CountTo<T>(s: seq<T>, n: nat, p: T -> bool): nat
    requires n <= |s|
  {
    if n == 0 then 0 else CountTo(s, n - 1, p) + if p(s[n - 1]) then 1 else 0
  }

  function SumTo<T>(s: seq<T>, n: nat, f: T -> real): real
    requires n <= |s|
  {
    if n == 0 then 0.0 else SumTo(s, n - 1, f) + f(s[n - 1])
  }

  /** The images of the elements that pass. */
  function PickTo<T, U>(s: seq<T>, n: nat, p: T -> bool, f: T -> U): seq<U>
    requires n <= |s|
  {
    if n == 0 then []
    else if p(s[n - 1]) then PickTo(s, n - 1, p, f) + [f(s[n - 1])]
    else PickTo(s, n - 1, p, f)
  }

  function Count<T>(s: seq<T>, p: T -> bool): nat {
    CountTo(s, |s|, p)
  }

  function Total<T>(s: seq<T>, f: T -> real): real {
    SumTo(s, |s|, f)
  }

  function Pick<T, U>(s: seq<T>, p: T -> bool, f: T -> U): seq<U> {
    PickTo(s, |s|, p, f)
  }

  function KeepTo<T>(s: seq<T>, n: nat, p: T -> bool): seq<T>
    requires n <= |s|
  {
    if n == 0 then []
    else if p(s[n - 1]) then KeepTo(s, n - 1, p) + [s[n - 1]]
    else KeepTo(s, n - 1, p)
  }

  lemma {:induction false} KeepToPrefix<T>(s: seq<T>, n: nat, p: T -> bool)
    requires n <= |s|
    ensures KeepTo(s, n, p) == Keep(s[..n], p)
  {
    if n > 0 {
      KeepToPrefix(s, n - 1, p);
      assert s[..n][..n - 1] == s[..n - 1];
    }
  }

  lemma KeepToIs<T>(s: seq<T>, p: T -> bool)
    ensures KeepTo(s, |s|, p) == Keep(s, p)
  {
    KeepToPrefix(s, |s|, p);
    assert s[..|s|] == s;
  }

  lemma {:induction false} CountToIs<T>(s: seq<T>, n: nat, p: T -> bool)
    requires n <= |s|
    ensures CountTo(s, n, p) == |Keep(s[..n], p)|
  {
    if n > 0 {
      CountToIs(s, n - 1, p);
      assert s[..n][..n - 1] == s[..n - 1];
    }
  }

  lemma CountIs<T>(s: seq<T>, p: T -> bool)
    ensures Count(s, p) == |Keep(s, p)|
  {
    CountToIs(s, |s|, p);
    assert s[..|s|] == s;
  }

  lemma {:induction false} PickToIs<T, U>(s: seq<T>, n: nat, p: T -> bool, f: T -> U)
    requires n <= |s|
    ensures PickTo(s, n, p, f) == Mapped(Keep(s[..n], p), f)
  {
    if n > 0 {
      PickToIs(s, n - 1, p, f);
      assert s[..n][..n - 1] == s[..n - 1];
    }
  }

  /** What was picked, in the order and number of what passed. */
  lemma PickIs<T, U>(s: seq<T>, p: T -> bool, f: T -> U)
    ensures Pick(s, p, f) == Mapped(Keep(s, p), f)
  {
    PickToIs(s, |s|, p, f);
    assert s[..|s|] == s;
  }

  /** Counting among the picked is counting among the given. */
  lemma {:induction false} CountPicked<T, U>(s: seq<T>, n: nat, p: T -> bool, f: T -> U, q: U -> bool, r: T -> bool)
    requires n <= |s|
    requires forall i :: 0 <= i < n ==> (r(s[i]) <==> p(s[i]) && q(f(s[i])))
    ensures |Keep(PickTo(s, n, p, f), q)| == CountTo(s, n, r)
  {
    if n > 0 {
      CountPicked(s, n - 1, p, f, q, r);
      SnocOf(PickTo(s, n - 1, p, f), f(s[n - 1]));
    }
  }

  lemma {:induction false} PickedSize<T, U>(s: seq<T>, n: nat, p: T -> bool, f: T -> U)
    requires n <= |s|
    ensures |PickTo(s, n, p, f)| == CountTo(s, n, p)
  {
    if n > 0 { PickedSize(s, n - 1, p, f); }
  }

  lemma {:induction false} CountUnion<T>(s: seq<T>, n: nat, p: T -> bool, q: T -> bool, r: T -> bool)
    requires n <= |s|
    requires forall i :: 0 <= i < n ==> (r(s[i]) <==> p(s[i]) || q(s[i])) && !(p(s[i]) && q(s[i]))
    ensures CountTo(s, n, r) == CountTo(s, n, p) + CountTo(s, n, q)
  {
    if n > 0 { CountUnion(s, n - 1, p, q, r); }
  }

  lemma {:induction false} CountEvery<T>(s: seq<T>, n: nat, p: T -> bool)
    requires n <= |s| && forall i :: 0 <= i < n ==> p(s[i])
    ensures CountTo(s, n, p) == n
  {
    if n > 0 { CountEvery(s, n - 1, p); }
  }

  lemma {:induction false} SumSplit<T>(s: seq<T>, n: nat, f: T -> real, g: T -> real, h: T -> real)
    requires n <= |s| && forall i :: 0 <= i < n ==> h(s[i]) == f(s[i]) + g(s[i])
    ensures SumTo(s, n, h) == SumTo(s, n, f) + SumTo(s, n, g)
  {
    if n > 0 { SumSplit(s, n - 1, f, g, h); }
  }

  function AddTo<T>(s: seq<T>, n: nat, f: T -> nat): nat
    requires n <= |s|
  {
    if n == 0 then 0 else AddTo(s, n - 1, f) + f(s[n - 1])
  }

  function Add<T>(s: seq<T>, f: T -> nat): nat {
    AddTo(s, |s|, f)
  }

  lemma {:induction false} AddThree<T>(s: seq<T>, n: nat, f: T -> nat, g: T -> nat, h: T -> nat, all: T -> nat)
    requires n <= |s| && forall i :: 0 <= i < n ==> all(s[i]) == f(s[i]) + g(s[i]) + h(s[i])
    ensures AddTo(s, n, all) == AddTo(s, n, f) + AddTo(s, n, g) + AddTo(s, n, h)
  {
    if n > 0 { AddThree(s, n - 1, f, g, h, all); }
  }

  lemma {:induction false} AddMonotone<T>(s: seq<T>, n: nat, f: T -> nat, g: T -> nat)
    requires n <= |s| && forall i :: 0 <= i < n ==> f(s[i]) <= g(s[i])
    ensures AddTo(s, n, f) <= AddTo(s, n, g)
  {
    if n > 0 { AddMonotone(s, n - 1, f, g); }
  }

  lemma {:induction false} CountMonotone<T>(s: seq<T>, n: nat, p: T -> bool, q: T -> bool)
    requires n <= |s| && forall i :: 0 <= i < n && p(s[i]) ==> q(s[i])
    ensures CountTo(s, n, p) <= CountTo(s, n, q)
  {
    if n > 0 { CountMonotone(s, n - 1, p, q); }
  }

  lemma {:induction false} CountPositive<T>(s: seq<T>, n: nat, p: T -> bool)
    requires n <= |s|
    ensures CountTo(s, n, p) > 0 <==> exists i :: 0 <= i < n && p(s[i])
  {
    if n > 0 { CountPositive(s, n - 1, p); }
  }

  lemma {:induction false} AddPositive<T>(s: seq<T>, n: nat, f: T -> nat)
    requires n <= |s|
    ensures AddTo(s, n, f) > 0 <==> exists i :: 0 <= i < n && f(s[i]) > 0
  {
    if n > 0 { AddPositive(s, n - 1, f); }
  }

  // ------------------------------------------------------------------ sorting

  ghost predicate TotalPreorder<T(!new)>(le: (T, T) -> bool) {
    && (forall a, b :: le(a, b) || le(b, a))
    && (forall a, b, c :: le(a, b) && le(b, c) ==> le(a, c))
  }

  predicate SortedBy<T>(s: seq<T>, le: (T, T) -> bool) {
    forall i, j :: 0 <= i < j < |s| ==> le(s[i], s[j])
  }

  /** `x` goes behind every element that may stand before it. */
  function Insert<T>(s: seq<T>, x: T, le: (T, T) -> bool): seq<T> {
    if |s| == 0 then [x]
    else if le(s[|s| - 1], x) then s + [x]
    else Insert(s[..|s| - 1], x, le) + [s[|s| - 1]]
  }

  /** A stable sort. */
  function Sorted<T>(s: seq<T>, le: (T, T) -> bool): seq<T> {
    if |s| == 0 then [] else Insert(Sorted(s[..|s| - 1], le), s[|s| - 1], le)
  }

  lemma {:induction false} InsertMultiset<T>(s: seq<T>, x: T, le: (T, T) -> bool)
    ensures multiset(Insert(s, x, le)) == multiset(s) + multiset{x}
  {
    if |s| > 0 {
      assert s == s[..|s| - 1] + [s[|s| - 1]];
      if !le(s[|s| - 1], x) { InsertMultiset(s[..|s| - 1], x, le); }
    }
  }

  lemma {:induction false} InsertBounded<T(!new)>(s: seq<T>, x: T, le: (T, T) -> bool, top: T)
    requires le(x, top) && forall i :: 0 <= i < |s| ==> le(s[i], top)
    ensures forall i :: 0 <= i < |Insert(s, x, le)| ==> le(Insert(s, x, le)[i], top)
  {
    if |s| > 0 && !le(s[|s| - 1], x) { InsertBounded(s[..|s| - 1], x, le, top); }
  }

  lemma {:induction false} InsertSorted<T(!new)>(s: seq<T>, x: T, le: (T, T) -> bool)
    requires TotalPreorder(le) && SortedBy(s, le)
    ensures SortedBy(Insert(s, x, le), le)
  {
    if |s| > 0 {
      var front, last := s[..|s| - 1], s[|s| - 1];
      if le(last, x) {
        forall i | 0 <= i < |s| ensures le(s[i], x) { assert i < |s| - 1 ==> le(s[i], last); }
      } else {
        InsertSorted(front, x, le);
        InsertBounded(front, x, le, last);
      }
    }
  }

  lemma {:induction false} SortedIsSorted<T(!new)>(s: seq<T>, le: (T, T) -> bool)
    requires TotalPreorder(le)
    ensures SortedBy(Sorted(s, le), le)
    ensures multiset(Sorted(s, le)) == multiset(s)
  {
    if |s| > 0 {
      assert s == s[..|s| - 1] + [s[|s| - 1]];
      SortedIsSorted(s[..|s| - 1], le);
      InsertSorted(Sorted(s[..|s| - 1], le), s[|s| - 1], le);
      InsertMultiset(Sorted(s[..|s| - 1], le), s[|s| - 1], le);
    }
  }

  lemma SortedMembers<T(!new)>(s: seq<T>, le: (T, T) -> bool, x: T)
    requires TotalPreorder(le)
    ensures x in Sorted(s, le) <==> x in s
    ensures |Sorted(s, le)| == |s|
  {
    SortedIsSorted(s, le);
    assert x in multiset(Sorted(s, le)) <==> x in multiset(s);
    assert |multiset(s)| == |s| && |multiset(Sorted(s, le))| == |Sorted(s, le)|;
  }

  /** The elements that tie with `x`. */
  function Ties<T>(x: T, le: (T, T) -> bool): T -> bool {
    y => le(x, y) && le(y, x)
  }

  lemma {:induction false} InsertTies<T(!new)>(s: seq<T>, x: T, z: T, le: (T, T) -> bool)
    requires TotalPreorder(le) && SortedBy(s, le)
    ensures Keep(Insert(s, x, le), Ties(z, le)) == Keep(s + [x], Ties(z, le))
  {
    SnocOf(s, x);
    if |s| > 0 && !le(s[|s| - 1], x) {
      var front, last := s[..|s| - 1], s[|s| - 1];
      InsertTies(front, x, z, le);
      SnocOf(front, x);
      SnocOf(Insert(front, x, le), last);
      assert !(Ties(z, le)(x) && Ties(z, le)(last));
    }
  }

  /** Elements that tie keep their order. */
  lemma {:induction false} SortedIsStable<T(!new)>(s: seq<T>, z: T, le: (T, T) -> bool)
    requires TotalPreorder(le)
    ensures Keep(Sorted(s, le), Ties(z, le)) == Keep(s, Ties(z, le))
  {
    if |s| > 0 {
      var front, last := s[..|s| - 1], s[|s| - 1];
      SortedIsStable(front, z, le);
      SortedIsSorted(front, le);
      InsertTies(Sorted(front, le), last, z, le);
      SnocOf(Sorted(front, le), last);
    }
  }

  lemma LastTies<T(!new)>(t: seq<T>, le: (T, T) -> bool)
    requires TotalPreorder(le) && |t| > 0
    ensures |Keep(t, Ties(t[|t| - 1], le))| > 0
  {
    assert Ties(t[|t| - 1], le)(t[|t| - 1]);
  }

  /** Order and stability leave no choice: there is one such arrangement. */
  lemma {:induction false} StableSortIsUnique<T(!new)>(s: seq<T>, t: seq<T>, le: (T, T) -> bool)
    requires TotalPreorder(le) && SortedBy(s, le) && SortedBy(t, le)
    requires forall z :: Keep(s, Ties(z, le)) == Keep(t, Ties(z, le))
    ensures s == t
  {
    if |t| > 0 { LastTies(t, le); }
    if |s| > 0 {
      var x := s[|s| - 1];
      assert Keep(s, Ties(x, le))[|Keep(s, Ties(x, le))| - 1] == x;
      LastIsLargest(t, x, le);
      LastIsLargest(s, t[|t| - 1], le);
      assert t[|t| - 1] == x;
      forall z ensures Keep(s[..|s| - 1], Ties(z, le)) == Keep(t[..|t| - 1], Ties(z, le)) {
        SameFront(Keep(s[..|s| - 1], Ties(z, le)), Keep(t[..|t| - 1], Ties(z, le)), x);
      }
      StableSortIsUnique(s[..|s| - 1], t[..|t| - 1], le);
      assert s == s[..|s| - 1] + [x] && t == t[..|t| - 1] + [x];
    }
  }

  lemma SameFront<T>(a: seq<T>, b: seq<T>, x: T)
    ensures a + [x] == b + [x] ==> a == b
  {
    SnocOf(a, x);
    SnocOf(b, x);
  }

  lemma {:induction false} InsertSame<T(!new)>(s: seq<T>, x: T, le: (T, T) -> bool, ge: (T, T) -> bool)
    requires forall i :: 0 <= i < |s| ==> le(s[i], x) == ge(s[i], x)
    ensures Insert(s, x, le) == Insert(s, x, ge)
  {
    if |s| > 0 { InsertSame(s[..|s| - 1], x, le, ge); }
  }

  /** Two orders that agree on the elements sort them alike. */
  lemma {:induction false} SortedSame<T(!new)>(s: seq<T>, le: (T, T) -> bool, ge: (T, T) -> bool)
    requires TotalPreorder(le)
    requires forall a, b :: a in s && b in s ==> le(a, b) == ge(a, b)
    ensures Sorted(s, le) == Sorted(s, ge)
  {
    if |s| > 0 {
      var front, last := s[..|s| - 1], s[|s| - 1];
      SortedSame(front, le, ge);
      forall i | 0 <= i < |Sorted(front, le)| ensures le(Sorted(front, le)[i], last) == ge(Sorted(front, le)[i], last) {
        SortedMembers(front, le, Sorted(front, le)[i]);
      }
      InsertSame(Sorted(front, le), last, le, ge);
    }
  }

  lemma LastIsLargest<T(!new)>(s: seq<T>, x: T, le: (T, T) -> bool)
    requires TotalPreorder(le) && SortedBy(s, le) && Keep(s, Ties(x, le)) != []
    ensures |s| > 0 && le(x, s[|s| - 1])
  {
    var y := Keep(s, Ties(x, le))[0];
    KeepIn(s, Ties(x, le), y);
    assert y in s;
    var i :| 0 <= i < |s| && s[i] == y;
    assert le(y, s[|s| - 1]);
  }

  lemma {:induction false} InsertSum<T>(s: seq<T>, x: T, le: (T, T) -> bool, f: T -> real)
    ensures Sum(Insert(s, x, le), f) == Sum(s, f) + f(x)
  {
    SnocOf(s, x);
    if |s| > 0 && !le(s[|s| - 1], x) {
      InsertSum(s[..|s| - 1], x, le, f);
      SnocOf(Insert(s[..|s| - 1], x, le), s[|s| - 1]);
    }
  }

  lemma {:induction false} SortedSum<T>(s: seq<T>, le: (T, T) -> bool, f: T -> real)
    ensures Sum(Sorted(s, le), f) == Sum(s, f)
  {
    if |s| > 0 {
      SortedSum(s[..|s| - 1], le, f);
      InsertSum(Sorted(s[..|s| - 1], le), s[|s| - 1], le, f);
    }
  }

  // ----------------------------------------------------------------- grouping

  predicate Distinct<K(==)>(s: seq<K>) {
    forall i, j :: 0 <= i < j < |s| ==> s[i] != s[j]
  }

  function Has<T, K(==)>(key: T -> K, k: K): T -> bool {
    t => key(t) == k
  }

  /** The groups of the listed keys, one after the other. */
  function Grouped<T, K(==)>(items: seq<T>, key: T -> K, keys: seq<K>): seq<T> {
    if |keys| == 0 then []
    else Grouped(items, key, keys[..|keys| - 1]) + Keep(items, Has(key, keys[|keys| - 1]))
  }

  lemma {:induction false} GroupedSnoc<T, K>(items: seq<T>, x: T, key: T -> K, keys: seq<K>)
    requires Distinct(keys)
    ensures multiset(Grouped(items + [x], key, keys)) ==
            multiset(Grouped(items, key, keys)) + (if key(x) in keys then multiset{x} else multiset{})
  {
    if |keys| > 0 {
      var front, k := keys[..|keys| - 1], keys[|keys| - 1];
      assert keys == front + [k];
      assert key(x) == k ==> k !in front;
      GroupedSnoc(items, x, key, front);
    }
  }

  /** Grouping loses nothing and repeats nothing. */
  lemma {:induction false} GroupedIsPermutation<T, K>(items: seq<T>, key: T -> K, keys: seq<K>)
    requires Distinct(keys) && forall i :: 0 <= i < |items| ==> key(items[i]) in keys
    ensures multiset(Grouped(items, key, keys)) == multiset(items)
  {
    if |items| == 0 {
      GroupedEmpty(items, key, keys);
    } else {
      var front, x := items[..|items| - 1], items[|items| - 1];
      assert items == front + [x];
      GroupedIsPermutation(front, key, keys);
      GroupedSnoc(front, x, key, keys);
    }
  }

  lemma {:induction false} GroupedEmpty<T, K>(items: seq<T>, key: T -> K, keys: seq<K>)
    requires |items| == 0
    ensures Grouped(items, key, keys) == []
  {
    if |keys| > 0 { GroupedEmpty(items, key, keys[..|keys| - 1]); }
  }

  function Without<T>(s: seq<T>, i: nat): seq<T>
    requires i < |s|
  {
    s[..i] + s[i + 1..]
  }

  lemma SplitAt<T>(s: seq<T>, i: nat)
    requires i < |s|
    ensures s == s[..i] + [s[i]] + s[i + 1..]
  {
  }

  lemma SumWithout<T>(s: seq<T>, i: nat, f: T -> real)
    requires i < |s|
    ensures Sum(s, f) == Sum(Without(s, i), f) + f(s[i])
  {
    SplitAt(s, i);
    SumAppend(s[..i] + [s[i]], s[i + 1..], f);
    SnocOf(s[..i], s[i]);
    SumAppend(s[..i], s[i + 1..], f);
  }

  lemma MultisetWithout<T>(s: seq<T>, i: nat)
    requires i < |s|
    ensures multiset(Without(s, i)) == multiset(s) - multiset{s[i]}
  {
    SplitAt(s, i);
  }

  lemma {:induction false} SumOfPermutation<T>(a: seq<T>, b: seq<T>, f: T -> real)
    requires multiset(a) == multiset(b)
    ensures Sum(a, f) == Sum(b, f)
  {
    if |a| == 0 {
      assert |multiset(b)| == 0;
    } else {
      var front, x := a[..|a| - 1], a[|a| - 1];
      assert a == front + [x];
      assert x in multiset(b);
      var i :| 0 <= i < |b| && b[i] == x;
      SumWithout(b, i, f);
      MultisetWithout(b, i);
      MultisetWithout(a, |a| - 1);
      assert Without(a, |a| - 1) == front;
      SumOfPermutation(front, Without(b, i), f);
    }
  }

  lemma {:induction false} SumAtLeast<T>(s: seq<T>, f: T -> real, bound: real)
    requires forall i :: 0 <= i < |s| ==> f(s[i]) >= bound
    ensures Sum(s, f) >= bound * |s| as real
  {
    if |s| > 0 { SumAtLeast(s[..|s| - 1], f, bound); }
  }

  lemma {:induction false} SumPositive<T>(s: seq<T>, f: T -> real)
    requires |s| > 0 && forall i :: 0 <= i < |s| ==> f(s[i]) > 0.0
    ensures Sum(s, f) > 0.0
  {
    if |s| > 1 { SumPositive(s[..|s| - 1], f); } else { assert |s[..0]| == 0; }
  }

  lemma {:induction false} SumNotPositive<T>(s: seq<T>, f: T -> real)
    requires forall i :: 0 <= i < |s| ==> f(s[i]) <= 0.0
    ensures Sum(s, f) <= 0.0
  {
    if |s| > 0 { SumNotPositive(s[..|s| - 1], f); }
  }

  /** The sum over the picked is a sum over the given, with nothing for the rest. */
  lemma {:induction false} SumPicked<T, U>(s: seq<T>, n: nat, p: T -> bool, f: T -> U, g: U -> real, h: T -> real)
    requires n <= |s| && forall i :: 0 <= i < n ==> h(s[i]) == if p(s[i]) then g(f(s[i])) else 0.0
    ensures Sum(PickTo(s, n, p, f), g) == SumTo(s, n, h)
  {
    if n > 0 {
      SumPicked(s, n - 1, p, f, g, h);
      if p(s[n - 1]) { SnocOf(PickTo(s, n - 1, p, f), f(s[n - 1])); }
    }
  }

  /** What was picked is the image of something that passed. */
  lemma {:induction false} PickedFrom<T, U>(s: seq<T>, n: nat, p: T -> bool, f: T -> U, y: U) returns (x: T)
    requires n <= |s| && y in PickTo(s, n, p, f)
    ensures x in s && p(x) && y == f(x)
  {
    x := s[n - 1];
    if !(p(x) && y == f(x)) { x := PickedFrom(s, n - 1, p, f, y); }
  }

  /** The sum over what was kept is the sum over all, with nothing for the rest. */
  lemma {:induction false} SumKept<T>(s: seq<T>, p: T -> bool, f: T -> real, h: T -> real)
    requires forall i :: 0 <= i < |s| ==> h(s[i]) == if p(s[i]) then f(s[i]) else 0.0
    ensures Sum(Keep(s, p), f) == Sum(s, h)
  {
    if |s| > 0 {
      SumKept(s[..|s| - 1], p, f, h);
      if p(s[|s| - 1]) { SnocOf(Keep(s[..|s| - 1], p), s[|s| - 1]); }
    }
  }

  /** Sums taken group by group add up to the sum over the groups' members. */
  lemma {:induction false} SumOfGroups<T, K, G>(
      items: seq<T>, key: T -> K, keys: seq<K>, make: K -> G, f: G -> real, h: T -> real)
    requires forall i :: 0 <= i < |keys| ==> f(make(keys[i])) == Sum(Keep(items, Has(key, keys[i])), h)
    ensures Sum(Mapped(keys, make), f) == Sum(Grouped(items, key, keys), h)
  {
    if |keys| > 0 {
      var front := keys[..|keys| - 1];
      SumOfGroups(items, key, front, make, f, h);
      assert Mapped(keys, make)[..|keys| - 1] == Mapped(front, make);
      SumAppend(Grouped(items, key, front), Keep(items, Has(key, keys[|keys| - 1])), h);
    }
  }
}
