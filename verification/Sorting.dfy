/** Python's `sorted`: a stable sort by a total preorder, as insertion from the right. */
module Sorting {
  ghost predicate TotalPreorder<T(!new)>(le: (T, T) -> bool) {
    && (forall x, y :: le(x, y) || le(y, x))
    && (forall x, y, z :: le(x, y) && le(y, z) ==> le(x, z))
  }

  ghost predicate SortedBy<T>(xs: seq<T>, le: (T, T) -> bool) {
    forall i, j :: 0 <= i < j < |xs| ==> le(xs[i], xs[j])
  }

  function Insert<T>(x: T, xs: seq<T>, le: (T, T) -> bool): (r: seq<T>)
    ensures |r| == |xs| + 1
  {
    if xs == [] then [x]
    else if le(x, xs[0]) then [x] + xs
    else [xs[0]] + Insert(x, xs[1..], le)
  }

  function Sort<T>(xs: seq<T>, le: (T, T) -> bool): (r: seq<T>)
    ensures |r| == |xs|
  {
    if xs == [] then [] else Insert(xs[0], Sort(xs[1..], le), le)
  }

  lemma {:induction false} InsertPermutes<T>(x: T, xs: seq<T>, le: (T, T) -> bool)
    ensures multiset(Insert(x, xs, le)) == multiset(xs) + multiset{x}
  {
    if xs != [] {
      assert xs == [xs[0]] + xs[1..];
      if !le(x, xs[0]) {
        InsertPermutes(x, xs[1..], le);
      }
    }
  }

  lemma {:induction false} SortPermutes<T>(xs: seq<T>, le: (T, T) -> bool)
    ensures multiset(Sort(xs, le)) == multiset(xs)
  {
    if xs != [] {
      SortPermutes(xs[1..], le);
      InsertPermutes(xs[0], Sort(xs[1..], le), le);
      assert xs == [xs[0]] + xs[1..];
    }
  }

  function Map<T, U>(xs: seq<T>, f: T -> U): seq<U> {
    seq(|xs|, i requires 0 <= i < |xs| => f(xs[i]))
  }

  lemma MapCons<T, U>(x: T, xs: seq<T>, f: T -> U)
    ensures Map([x] + xs, f) == [f(x)] + Map(xs, f)
  {
  }

  lemma SplitFirst<T>(xs: seq<T>)
    requires xs != []
    ensures xs == [xs[0]] + xs[1..]
  {
  }

  lemma MapConsCounts<T, U>(x: T, xs: seq<T>, f: T -> U)
    ensures multiset(Map([x] + xs, f)) == multiset{f(x)} + multiset(Map(xs, f))
  {
    MapCons(x, xs, f);
  }

  lemma {:induction false} InsertMaps<T, U>(x: T, xs: seq<T>, le: (T, T) -> bool, f: T -> U)
    ensures multiset(Map(Insert(x, xs, le), f)) == multiset{f(x)} + multiset(Map(xs, f))
  {
    if xs == [] || le(x, xs[0]) {
      assert [x] + xs == Insert(x, xs, le);
      MapConsCounts(x, xs, f);
    } else {
      SplitFirst(xs);
      InsertMaps(x, xs[1..], le, f);
      MapConsCounts(xs[0], Insert(x, xs[1..], le), f);
      MapConsCounts(xs[0], xs[1..], f);
    }
  }

  /** Sorting permutes what the elements turn into. */
  lemma {:induction false} SortMaps<T, U>(xs: seq<T>, le: (T, T) -> bool, f: T -> U)
    ensures multiset(Map(Sort(xs, le), f)) == multiset(Map(xs, f))
  {
    if xs != [] {
      SortMaps(xs[1..], le, f);
      InsertMaps(xs[0], Sort(xs[1..], le), le, f);
      MapConsCounts(xs[0], xs[1..], f);
      SplitFirst(xs);
    }
  }

  lemma InsertMembers<T>(x: T, xs: seq<T>, le: (T, T) -> bool, y: T)
    ensures y in Insert(x, xs, le) <==> y == x || y in xs
  {
  }

  lemma SortMembers<T>(xs: seq<T>, le: (T, T) -> bool, y: T)
    ensures y in Sort(xs, le) <==> y in xs
  {
    SortPermutes(xs, le);
    assert y in Sort(xs, le) <==> y in multiset(Sort(xs, le));
  }

  lemma {:induction false} InsertSorts<T(!new)>(x: T, xs: seq<T>, le: (T, T) -> bool)
    requires TotalPreorder(le) && SortedBy(xs, le)
    ensures SortedBy(Insert(x, xs, le), le)
  {
    if xs != [] && !le(x, xs[0]) {
      var rest := Insert(x, xs[1..], le);
      InsertSorts(x, xs[1..], le);
      forall j | 0 <= j < |rest| ensures le(xs[0], rest[j]) {
        InsertMembers(x, xs[1..], le, rest[j]);
      }
    } else if xs != [] {
      forall j | 0 <= j < |xs| ensures le(x, xs[j]) {
        assert j == 0 || le(xs[0], xs[j]);
      }
    }
  }

  lemma {:induction false} SortSorts<T(!new)>(xs: seq<T>, le: (T, T) -> bool)
    requires TotalPreorder(le)
    ensures SortedBy(Sort(xs, le), le)
  {
    if xs != [] {
      SortSorts(xs[1..], le);
      InsertSorts(xs[0], Sort(xs[1..], le), le);
    }
  }

  /** Sorting a sequence that is already in order changes nothing. */
  lemma {:induction false} SortKeepsSorted<T>(xs: seq<T>, le: (T, T) -> bool)
    requires SortedBy(xs, le)
    ensures Sort(xs, le) == xs
  {
    if xs != [] {
      SortKeepsSorted(xs[1..], le);
      assert xs == [xs[0]] + xs[1..];
      if |xs| > 1 {
        assert le(xs[0], xs[1]);
      }
    }
  }

  /** No two positions tie: then the order is the only sorted arrangement. */
  ghost predicate NoTies<T>(xs: seq<T>, le: (T, T) -> bool) {
    forall i, j :: 0 <= i < |xs| && 0 <= j < |xs| && le(xs[i], xs[j]) && le(xs[j], xs[i]) ==> xs[i] == xs[j]
  }

  lemma SortedArrangementsStartAlike<T(!new)>(xs: seq<T>, ys: seq<T>, le: (T, T) -> bool)
    requires TotalPreorder(le) && SortedBy(xs, le) && SortedBy(ys, le)
    requires multiset(xs) == multiset(ys) && NoTies(xs, le) && xs != []
    ensures ys != [] && xs[0] == ys[0]
  {
    assert xs[0] in multiset(ys);
    var i :| 0 <= i < |ys| && ys[i] == xs[0];
    assert ys[0] in multiset(xs);
    var j :| 0 <= j < |xs| && xs[j] == ys[0];
    assert le(ys[0], ys[0]) && le(xs[0], xs[0]);
    assert le(ys[0], ys[i]) && le(xs[0], xs[j]);
    assert le(xs[j], xs[0]) && le(xs[0], xs[j]);
  }

  lemma TailMultisets<T>(xs: seq<T>, ys: seq<T>)
    requires xs != [] && ys != [] && xs[0] == ys[0] && multiset(xs) == multiset(ys)
    ensures multiset(xs[1..]) == multiset(ys[1..])
  {
    assert xs == [xs[0]] + xs[1..] && ys == [ys[0]] + ys[1..];
    assert multiset(xs[1..]) == multiset(xs) - multiset{xs[0]};
    assert multiset(ys[1..]) == multiset(ys) - multiset{ys[0]};
  }

  lemma {:induction false} SortedArrangementUnique<T(!new)>(xs: seq<T>, ys: seq<T>, le: (T, T) -> bool)
    requires TotalPreorder(le) && SortedBy(xs, le) && SortedBy(ys, le)
    requires multiset(xs) == multiset(ys) && NoTies(xs, le)
    ensures xs == ys
  {
    if xs == [] {
      assert |multiset(ys)| == 0;
    } else {
      SortedArrangementsStartAlike(xs, ys, le);
      TailMultisets(xs, ys);
      SortedArrangementUnique(xs[1..], ys[1..], le);
      assert xs == [xs[0]] + xs[1..] && ys == [ys[0]] + ys[1..];
    }
  }

  /** Without ties the sorted sequence does not depend on the order of the input. */
  lemma SortIgnoresOrder<T(!new)>(xs: seq<T>, ys: seq<T>, le: (T, T) -> bool)
    requires TotalPreorder(le) && multiset(xs) == multiset(ys) && NoTies(xs, le)
    ensures Sort(xs, le) == Sort(ys, le)
  {
    SortSorts(xs, le);
    SortSorts(ys, le);
    SortPermutes(xs, le);
    SortPermutes(ys, le);
    var s := Sort(xs, le);
    forall i, j | 0 <= i < |s| && 0 <= j < |s| && le(s[i], s[j]) && le(s[j], s[i])
      ensures s[i] == s[j]
    {
      SortMembers(xs, le, s[i]);
      SortMembers(xs, le, s[j]);
    }
    SortedArrangementUnique(s, Sort(ys, le), le);
  }

  // ----- Sequences without repetitions -----

  predicate NoRepeats<T(==)>(xs: seq<T>) {
    forall i, j :: 0 <= i < j < |xs| ==> xs[i] != xs[j]
  }

  lemma TwiceInMultiset<T>(xs: seq<T>, i: nat, j: nat)
    requires i < j < |xs| && xs[i] == xs[j]
    ensures multiset(xs)[xs[i]] >= 2
  {
    assert xs == xs[..j] + [xs[j]] + xs[j + 1..];
    assert xs[..j][i] == xs[i];
    assert xs[i] in multiset(xs[..j]);
  }

  lemma {:induction false} OnceInMultiset<T>(xs: seq<T>, x: T)
    requires NoRepeats(xs)
    ensures multiset(xs)[x] <= 1
  {
    if xs != [] {
      var n := |xs| - 1;
      OnceInMultiset(xs[..n], x);
      assert xs == xs[..n] + [xs[n]];
      assert forall i :: 0 <= i < n ==> xs[..n][i] != xs[n];
    }
  }

  lemma RearrangedNoRepeats<T>(xs: seq<T>, ys: seq<T>)
    requires multiset(xs) == multiset(ys) && NoRepeats(xs)
    ensures NoRepeats(ys)
  {
    forall i, j | 0 <= i < j < |ys| ensures ys[i] != ys[j] {
      if ys[i] == ys[j] {
        TwiceInMultiset(ys, i, j);
        OnceInMultiset(xs, ys[i]);
      }
    }
  }

  // ----- Strings, compared by code point -----

  predicate TextLe(a: string, b: string) {
    a == [] || (b != [] && (a[0] < b[0] || (a[0] == b[0] && TextLe(a[1..], b[1..]))))
  }

  lemma {:induction false} TextLeTotal(a: string, b: string)
    ensures TextLe(a, b) || TextLe(b, a)
  {
    if a != [] && b != [] && a[0] == b[0] {
      TextLeTotal(a[1..], b[1..]);
    }
  }

  lemma {:induction false} TextLeTransitive(a: string, b: string, c: string)
    requires TextLe(a, b) && TextLe(b, c)
    ensures TextLe(a, c)
  {
    if a != [] && a[0] == b[0] && b[0] == c[0] {
      TextLeTransitive(a[1..], b[1..], c[1..]);
    }
  }

  lemma {:induction false} TextLeAntisymmetric(a: string, b: string)
    requires TextLe(a, b) && TextLe(b, a)
    ensures a == b
  {
    if a != [] && b != [] {
      TextLeAntisymmetric(a[1..], b[1..]);
      assert a == [a[0]] + a[1..] && b == [b[0]] + b[1..];
    }
  }

  /** The order is the lexicographic one: a prefix comes first, and else the first difference decides. */
  lemma {:induction false} TextLeExactly(a: string, b: string)
    ensures TextLe(a, b) <==>
              a <= b || exists k :: 0 <= k < |a| && k < |b| && a[..k] == b[..k] && a[k] < b[k]
  {
    if a != [] && b != [] {
      if a[0] == b[0] {
        TextLeExactly(a[1..], b[1..]);
        TailDiffers(a, b);
      } else {
        assert a[..0] == b[..0];
      }
    }
  }

  lemma TailDiffers(a: string, b: string)
    requires a != [] && b != [] && a[0] == b[0]
    ensures a <= b <==> a[1..] <= b[1..]
    ensures (exists k :: 0 <= k < |a| && k < |b| && a[..k] == b[..k] && a[k] < b[k])
        <==> (exists k :: 0 <= k < |a| - 1 && k < |b| - 1 && a[1..][..k] == b[1..][..k] && a[1..][k] < b[1..][k])
  {
    assert a == [a[0]] + a[1..] && b == [b[0]] + b[1..];
    if k :| 0 <= k < |a| && k < |b| && a[..k] == b[..k] && a[k] < b[k] {
      assert k > 0 && a[1..][..k - 1] == a[..k][1..] && b[1..][..k - 1] == b[..k][1..];
      assert a[1..][k - 1] < b[1..][k - 1];
    }
    if k :| 0 <= k < |a| - 1 && k < |b| - 1 && a[1..][..k] == b[1..][..k] && a[1..][k] < b[1..][k] {
      assert a[..k + 1] == [a[0]] + a[1..][..k] && b[..k + 1] == [b[0]] + b[1..][..k];
      assert a[k + 1] < b[k + 1];
    }
  }
}
