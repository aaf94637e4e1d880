/** Small building blocks shared by the other modules. */
module Common {
  datatype Option<+T> = None | Some(value: T)

  function Filter<T>(keep: T -> bool, xs: seq<T>): (ys: seq<T>) {
    if xs == [] then [] else
    (if keep(xs[0]) then [xs[0]] else []) + Filter(keep, xs[1..])
  }

  function Map<T, U>(f: T -> U, xs: seq<T>): (ys: seq<U>)
    ensures |ys| == |xs|
    ensures forall i :: 0 <= i < |xs| ==> ys[i] == f(xs[i])
  {
    if xs == [] then [] else [f(xs[0])] + Map(f, xs[1..])
  }

  lemma {:induction false} FilterMember<T>(keep: T -> bool, xs: seq<T>, x: T)
    ensures x in Filter(keep, xs) <==> x in xs && keep(x)
  {
    if xs != [] {
      FilterMember(keep, xs[1..], x);
      assert x in xs <==> x == xs[0] || x in xs[1..];
    }
  }

  /** Filtering keeps every copy of what it keeps. */
  lemma {:induction false} FilterCount<T>(keep: T -> bool, xs: seq<T>, x: T)
    ensures multiset(Filter(keep, xs))[x] == if keep(x) then multiset(xs)[x] else 0
  {
    if xs != [] {
      FilterCount(keep, xs[1..], x);
      assert xs == [xs[0]] + xs[1..];
    }
  }

  /** What `all` keeps, exactly one of the three keeps. */
  predicate OneOf<T>(f: T -> bool, g: T -> bool, h: T -> bool, all: T -> bool, x: T) {
    (all(x) <==> f(x) || g(x) || h(x)) && !(f(x) && g(x)) && !(f(x) && h(x)) && !(g(x) && h(x))
  }

  lemma CountJoined<T>(a: seq<T>, b: seq<T>, c: seq<T>, x: T)
    ensures multiset(a + b + c)[x] == multiset(a)[x] + multiset(b)[x] + multiset(c)[x]
  {
  }

  lemma FilterPartition<T(!new)>(f: T -> bool, g: T -> bool, h: T -> bool, all: T -> bool, xs: seq<T>)
    requires forall x :: x in xs ==> OneOf(f, g, h, all, x)
    ensures multiset(Filter(f, xs) + Filter(g, xs) + Filter(h, xs)) == multiset(Filter(all, xs))
  {
    var (a, b, c, d) := (Filter(f, xs), Filter(g, xs), Filter(h, xs), Filter(all, xs));
    forall x ensures multiset(a + b + c)[x] == multiset(d)[x] {
      CountJoined(a, b, c, x);
      CountPartition(f, g, h, all, xs, x);
    }
  }

  lemma CountPartition<T>(f: T -> bool, g: T -> bool, h: T -> bool, all: T -> bool, xs: seq<T>, x: T)
    requires x in xs ==> OneOf(f, g, h, all, x)
    ensures multiset(Filter(f, xs))[x] + multiset(Filter(g, xs))[x] + multiset(Filter(h, xs))[x]
      == multiset(Filter(all, xs))[x]
  {
    FilterCount(f, xs, x);
    FilterCount(g, xs, x);
    FilterCount(h, xs, x);
    FilterCount(all, xs, x);
    assert x !in xs ==> multiset(xs)[x] == 0;
  }

  lemma FilterMembers<T(!new)>(keep: T -> bool, xs: seq<T>)
    ensures forall x :: x in Filter(keep, xs) <==> x in xs && keep(x)
  {
    forall x ensures x in Filter(keep, xs) <==> x in xs && keep(x) {
      FilterMember(keep, xs, x);
    }
  }

  lemma {:induction false} FilterCong<T>(f: T -> bool, g: T -> bool, xs: seq<T>)
    requires forall x :: x in xs ==> f(x) == g(x)
    ensures Filter(f, xs) == Filter(g, xs)
  {
    if xs != [] {
      FilterCong(f, g, xs[1..]);
    }
  }

  lemma FilterPrepend<T>(f: T -> bool, x: T, xs: seq<T>)
    ensures Filter(f, [x] + xs) == (if f(x) then [x] else []) + Filter(f, xs)
  {
    assert ([x] + xs)[1..] == xs;
  }

  /** Filtering by a narrower test first or last makes no difference. */
  lemma {:induction false} FilterNarrow<T>(narrow: T -> bool, wide: T -> bool, xs: seq<T>)
    requires forall x :: x in xs && narrow(x) ==> wide(x)
    ensures Filter(narrow, Filter(wide, xs)) == Filter(narrow, xs)
  {
    if xs != [] {
      FilterNarrow(narrow, wide, xs[1..]);
      FilterPrepend(narrow, xs[0], Filter(wide, xs[1..]));
      assert !wide(xs[0]) ==> Filter(wide, xs) == Filter(wide, xs[1..]);
    }
  }

  lemma {:induction false} FilterCommute<T>(f: T -> bool, g: T -> bool, xs: seq<T>)
    ensures Filter(f, Filter(g, xs)) == Filter(g, Filter(f, xs))
  {
    if xs != [] {
      FilterCommute(f, g, xs[1..]);
      FilterPrepend(f, xs[0], Filter(g, xs[1..]));
      FilterPrepend(g, xs[0], Filter(f, xs[1..]));
      assert !g(xs[0]) ==> Filter(g, xs) == Filter(g, xs[1..]);
      assert !f(xs[0]) ==> Filter(f, xs) == Filter(f, xs[1..]);
    }
  }

  lemma {:induction false} FilterAppend<T>(f: T -> bool, xs: seq<T>, ys: seq<T>)
    ensures Filter(f, xs + ys) == Filter(f, xs) + Filter(f, ys)
  {
    if xs == [] {
      assert xs + ys == ys;
    } else {
      var rest := xs[1..];
      FilterAppend(f, rest, ys);
      FilterPrepend(f, xs[0], rest + ys);
      FilterPrepend(f, xs[0], rest);
      assert xs + ys == [xs[0]] + (rest + ys) && xs == [xs[0]] + rest;
    }
  }

  lemma {:induction false} FilterAll<T>(f: T -> bool, xs: seq<T>)
    requires forall x :: x in xs ==> f(x)
    ensures Filter(f, xs) == xs
  {
    if xs != [] {
      FilterAll(f, xs[1..]);
    }
  }

  lemma {:induction false} FilterNone<T>(f: T -> bool, xs: seq<T>)
    requires forall x :: x in xs ==> !f(x)
    ensures Filter(f, xs) == []
  {
    if xs != [] {
      FilterNone(f, xs[1..]);
    }
  }

  /** A map that never moves an element across the filter commutes with it. */
  lemma {:induction false} FilterMap<T>(f: T -> bool, g: T -> T, xs: seq<T>)
    requires forall x :: x in xs ==> f(g(x)) == f(x)
    ensures Filter(f, Map(g, xs)) == Map(g, Filter(f, xs))
  {
    if xs != [] {
      FilterMap(f, g, xs[1..]);
      FilterPrepend(f, g(xs[0]), Map(g, xs[1..]));
      if f(xs[0]) {
        assert Filter(f, xs)[1..] == Filter(f, xs[1..]);
      }
    }
  }

  lemma {:induction false} MapCong<T, U>(f: T -> U, g: T -> U, xs: seq<T>)
    requires forall x :: x in xs ==> f(x) == g(x)
    ensures Map(f, xs) == Map(g, xs)
  {
  }

  lemma {:induction false} MapId<T>(f: T -> T, xs: seq<T>)
    requires forall x :: x in xs ==> f(x) == x
    ensures Map(f, xs) == xs
  {
    if xs != [] {
      MapId(f, xs[1..]);
    }
  }
}
