/**
  The cuisine filter's buttons: the distinct cuisines of the whole catalog,
  in order of first appearance. The source builds a JavaScript Set from the
  catalog's cuisines and spreads it back into an array; a Set keeps its
  elements in insertion order and ignores an element it already holds.
 */
module Cuisines {
  import opened Catalog

  ghost predicate NoDuplicates<T>(s: seq<T>)
  {
    forall i, j :: 0 <= i < j < |s| ==> s[i] != s[j]
  }

  /** The position of the first occurrence of `x` in `s`. */
  function FirstIndex<T(==)>(s: seq<T>, x: T): (i: nat)
    requires x in s
    ensures i < |s| && s[i] == x
    ensures forall j :: 0 <= j < i ==> s[j] != x
  {
    if s[0] == x then 0 else 1 + FirstIndex(s[1..], x)
  }

  /**
    The insertion-ordered set `acc` after the first `n` elements of `s` have
    been inserted one by one: an element is appended only if it is not yet
    present.
   */
  function InsertAll<T(==)>(acc: seq<T>, s: seq<T>, n: nat): (r: seq<T>)
    requires n <= |s|
  {
    if n == 0 then acc
    else
      var d := InsertAll(acc, s, n - 1);
      if s[n - 1] in d then d else d + [s[n - 1]]
  }

  /** The elements of `s` without repeats, in the order a JavaScript Set of `s` lists them. */
  function Distinct<T(==)>(s: seq<T>): (r: seq<T>)
  {
    InsertAll([], s, |s|)
  }

  /** A position holding `x` with no `x` before it is the first index of `x`. */
  lemma FirstIndexUnique<T>(s: seq<T>, x: T, k: nat)
    requires k < |s| && s[k] == x
    requires forall j :: 0 <= j < k ==> s[j] != x
    ensures FirstIndex(s, x) == k
  {
    var i := FirstIndex(s, x);
    assert !(i < k) && !(k < i);
  }

  lemma FirstIndexInPrefix<T>(s: seq<T>, n: nat, x: T)
    requires n <= |s| && x in s[..n]
    ensures FirstIndex(s, x) == FirstIndex(s[..n], x)
  {
    var k := FirstIndex(s[..n], x);
    forall j | 0 <= j < k
      ensures s[j] != x
    {
      assert s[j] == s[..n][j];
    }
    assert s[k] == s[..n][k];
    FirstIndexUnique(s, x, k);
  }

  /**
    Starting from the empty set, after `n` insertions the set holds each of
    the first `n` elements exactly once, in the order of their first
    occurrence in `s`.
   */
  lemma {:induction false} InsertAllSpec<T(!new)>(s: seq<T>, n: nat)
    requires n <= |s|
    ensures NoDuplicates(InsertAll([], s, n))
    ensures forall x :: x in InsertAll([], s, n) <==> x in s[..n]
    ensures forall x :: x in InsertAll([], s, n) ==> x in s
    ensures forall i, j :: 0 <= i < j < |InsertAll([], s, n)| ==>
              FirstIndex(s, InsertAll([], s, n)[i]) < FirstIndex(s, InsertAll([], s, n)[j])
  {
    if n > 0 {
      var d := InsertAll([], s, n - 1);
      InsertAllSpec(s, n - 1);
      var x := s[n - 1];
      assert s[..n] == s[..n - 1] + [x];
      if x !in d {
        var r := d + [x];
        forall j | 0 <= j < n - 1
          ensures s[j] != x
        {
          assert s[j] == s[..n - 1][j];
        }
        FirstIndexUnique(s, x, n - 1);
        forall i | 0 <= i < |d|
          ensures FirstIndex(s, d[i]) < n - 1
        {
          assert d[i] in s[..n - 1];
          FirstIndexInPrefix(s, n - 1, d[i]);
        }
        forall i, j | 0 <= i < j < |r|
          ensures FirstIndex(s, r[i]) < FirstIndex(s, r[j])
        {
          assert r[i] == d[i];
          if j < |d| {
            assert r[j] == d[j];
          }
        }
      }
    }
  }

  /**
    Distinct lists every element of `s` exactly once, in the order of its
    first occurrence in `s`.
   */
  lemma DistinctSpec<T(!new)>(s: seq<T>)
    ensures NoDuplicates(Distinct(s))
    ensures forall x :: x in Distinct(s) <==> x in s
    ensures forall i, j :: 0 <= i < j < |Distinct(s)| ==>
              FirstIndex(s, Distinct(s)[i]) < FirstIndex(s, Distinct(s)[j])
  {
    InsertAllSpec(s, |s|);
    assert s[..|s|] == s;
  }

  /** Insertions read only the part of the input they have reached. */
  lemma {:induction false} InsertAllPrefix<T>(acc: seq<T>, s: seq<T>, t: seq<T>, n: nat)
    requires n <= |s|
    ensures InsertAll(acc, s + t, n) == InsertAll(acc, s, n)
  {
    if n > 0 {
      InsertAllPrefix(acc, s, t, n - 1);
      assert (s + t)[n - 1] == s[n - 1];
    }
  }

  /** Inserting the first `m` elements of `a + b` is inserting `a`, then the first `n` of `b`. */
  lemma {:induction false} InsertAllConcat<T>(acc: seq<T>, a: seq<T>, b: seq<T>, n: nat, m: nat)
    requires n <= |b| && m == |a| + n
    ensures InsertAll(acc, a + b, m) == InsertAll(InsertAll(acc, a, |a|), b, n)
  {
    if n == 0 {
      InsertAllPrefix(acc, a, b, |a|);
    } else {
      InsertAllConcat(acc, a, b, n - 1, m - 1);
      assert (a + b)[m - 1] == b[n - 1];
    }
  }

  /** Inserting all of `a + b` is inserting all of `a`, then all of `b`. */
  lemma InsertAllAppend<T>(acc: seq<T>, a: seq<T>, b: seq<T>)
    ensures InsertAll(acc, a + b, |a + b|) == InsertAll(InsertAll(acc, a, |a|), b, |b|)
  {
    InsertAllConcat(acc, a, b, |b|, |a + b|);
  }

  /** The cuisine of every item, in order. */
  function CuisinesOf(items: seq<MenuItem>): (r: seq<string>)
    ensures |r| == |items|
    ensures forall i :: 0 <= i < |items| ==> r[i] == items[i].cuisine
  {
    seq(|items|, i requires 0 <= i < |items| => items[i].cuisine)
  }

  lemma CuisinesOfConcat(a: seq<MenuItem>, b: seq<MenuItem>)
    ensures CuisinesOf(a + b) == CuisinesOf(a) + CuisinesOf(b)
  {
  }

  /** The cuisine list offered by the filter panel. */
  function CuisineList(): (r: seq<string>)
  {
    Distinct(CuisinesOf(AllItems()))
  }

  /**
    The list has no repeats, offers exactly the cuisines some catalog item
    has, and lists them in the order they first occur in the catalog.
   */
  lemma CuisineListSpec()
    ensures NoDuplicates(CuisineList())
    ensures forall c :: c in CuisineList() ==> c in CuisinesOf(AllItems())
    ensures forall c :: c in CuisineList() <==> exists x :: x in AllItems() && x.cuisine == c
    ensures forall i, j :: 0 <= i < j < |CuisineList()| ==>
              FirstIndex(CuisinesOf(AllItems()), CuisineList()[i]) <
              FirstIndex(CuisinesOf(AllItems()), CuisineList()[j])
  {
    var all := AllItems();
    var cs := CuisinesOf(all);
    forall c ensures c in cs <==> exists x :: x in all && x.cuisine == c {
      if c in cs {
        var i :| 0 <= i < |cs| && cs[i] == c;
        assert all[i] in all && all[i].cuisine == c;
      }
    }
    DistinctSpec(cs);
  }

  /** The cuisine column of each (diet, food type) list. */
  lemma MenuCuisineColumns()
    ensures CuisinesOf(Menu(Veg, Healthy)) == ["Mediterranean", "International", "International", "Mediterranean", "Asian"]
    ensures CuisinesOf(Menu(Veg, Comfort)) == ["Italian", "American", "Indian", "Italian", "Indian"]
    ensures CuisinesOf(Menu(NonVeg, Healthy)) == ["International", "International", "Asian", "International", "Japanese"]
    ensures CuisinesOf(Menu(NonVeg, Comfort)) == ["American", "Indian", "American", "Italian", "British"]
    ensures CuisinesOf(Menu(Vegan, Healthy)) == ["International", "International", "International", "Japanese", "Mediterranean"]
    ensures CuisinesOf(Menu(Vegan, Comfort)) == ["American", "American", "Indian", "Italian", "Mexican"]
  {
  }

  /** The set after each catalog list in turn, from the empty set. */
  lemma VegHealthyInsertions()
    ensures InsertAll([], ["Mediterranean", "International", "International", "Mediterranean", "Asian"], 5) ==
            ["Mediterranean", "International", "Asian"]
  {
  }

  lemma VegComfortInsertions()
    ensures InsertAll(["Mediterranean", "International", "Asian"], ["Italian", "American", "Indian", "Italian", "Indian"], 5) ==
            ["Mediterranean", "International", "Asian", "Italian", "American", "Indian"]
  {
  }

  lemma NonVegHealthyInsertions()
    ensures InsertAll(["Mediterranean", "International", "Asian", "Italian", "American", "Indian"], ["International", "International", "Asian", "International", "Japanese"], 5) ==
            ["Mediterranean", "International", "Asian", "Italian", "American", "Indian", "Japanese"]
  {
  }

  lemma NonVegComfortInsertions()
    ensures InsertAll(["Mediterranean", "International", "Asian", "Italian", "American", "Indian", "Japanese"], ["American", "Indian", "American", "Italian", "British"], 5) ==
            ["Mediterranean", "International", "Asian", "Italian", "American", "Indian", "Japanese", "British"]
  {
  }

  lemma VeganHealthyInsertions()
    ensures InsertAll(["Mediterranean", "International", "Asian", "Italian", "American", "Indian", "Japanese", "British"], ["International", "International", "International", "Japanese", "Mediterranean"], 5) ==
            ["Mediterranean", "International", "Asian", "Italian", "American", "Indian", "Japanese", "British"]
  {
  }

  lemma VeganComfortInsertions()
    ensures InsertAll(["Mediterranean", "International", "Asian", "Italian", "American", "Indian", "Japanese", "British"], ["American", "American", "Indian", "Italian", "Mexican"], 5) ==
            ["Mediterranean", "International", "Asian", "Italian", "American", "Indian", "Japanese", "British", "Mexican"]
  {
  }

  /** Inserting a diet's cuisines is inserting its healthy, then its comfort column. */
  lemma DietInsertions(acc: seq<string>, d: Diet)
    ensures InsertAll(acc, CuisinesOf(ItemsOf(d)), 10) ==
            InsertAll(InsertAll(acc, CuisinesOf(Menu(d, Healthy)), 5), CuisinesOf(Menu(d, Comfort)), 5)
  {
    MenuSizes(d, Healthy);
    MenuSizes(d, Comfort);
    CuisinesOfConcat(Menu(d, Healthy), Menu(d, Comfort));
    InsertAllAppend(acc, CuisinesOf(Menu(d, Healthy)), CuisinesOf(Menu(d, Comfort)));
  }

  lemma VegSet()
    ensures InsertAll([], CuisinesOf(ItemsOf(Veg)), 10) ==
            ["Mediterranean", "International", "Asian", "Italian", "American", "Indian"]
  {
    DietInsertions([], Veg);
    MenuCuisineColumns();
    VegHealthyInsertions();
    VegComfortInsertions();
  }

  lemma NonVegSet()
    ensures InsertAll(["Mediterranean", "International", "Asian", "Italian", "American", "Indian"], CuisinesOf(ItemsOf(NonVeg)), 10) ==
            ["Mediterranean", "International", "Asian", "Italian", "American", "Indian", "Japanese", "British"]
  {
    DietInsertions(["Mediterranean", "International", "Asian", "Italian", "American", "Indian"], NonVeg);
    MenuCuisineColumns();
    NonVegHealthyInsertions();
    NonVegComfortInsertions();
  }

  lemma VeganSet()
    ensures InsertAll(["Mediterranean", "International", "Asian", "Italian", "American", "Indian", "Japanese", "British"], CuisinesOf(ItemsOf(Vegan)), 10) ==
            ["Mediterranean", "International", "Asian", "Italian", "American", "Indian", "Japanese", "British", "Mexican"]
  {
    DietInsertions(["Mediterranean", "International", "Asian", "Italian", "American", "Indian", "Japanese", "British"], Vegan);
    MenuCuisineColumns();
    VeganHealthyInsertions();
    VeganComfortInsertions();
  }

  /** The concrete cuisine list of this catalog. */
  lemma CuisineListValue()
    ensures CuisineList() ==
      ["Mediterranean", "International", "Asian", "Italian", "American",
       "Indian", "Japanese", "British", "Mexican"]
  {
    var cv := CuisinesOf(ItemsOf(Veg));
    var cn := CuisinesOf(ItemsOf(NonVeg));
    var cg := CuisinesOf(ItemsOf(Vegan));
    CatalogSizes(Veg);
    CatalogSizes(NonVeg);
    CatalogSizes(Vegan);
    CuisinesOfConcat(ItemsOf(Veg), ItemsOf(NonVeg));
    CuisinesOfConcat(ItemsOf(Veg) + ItemsOf(NonVeg), ItemsOf(Vegan));
    InsertAllAppend([], cv + cn, cg);
    InsertAllAppend([], cv, cn);
    VegSet();
    NonVegSet();
    VeganSet();
  }
}
