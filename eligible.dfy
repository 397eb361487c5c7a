/**
  The list a decision draws from. The saved criteria pick a base list from
  the catalog: the exact (diet, food type) list when both are set, the
  diet's healthy then comfort items when only the diet is set, and the whole
  catalog when no diet is set (a food type without a diet is ignored). A
  selected cuisine then keeps only the base items of that cuisine, in order.
 */
module Eligible {
  import opened Wrappers
  import opened Catalog

  /** The base list for the saved diet and food type. */
  function BaseOptions(diet: Option<Diet>, food: Option<FoodType>): (r: seq<MenuItem>)
  {
    if diet.Some? && food.Some? then Menu(diet.value, food.value)
    else if diet.Some? then ItemsOf(diet.value)
    else AllItems()
  }

  /**
    The item is offered under the saved criteria: some catalog list holds
    it whose diet is the saved one, if any, and whose food type is the saved
    one when a diet and a food type are both saved.
   */
  ghost predicate Offered(x: MenuItem, diet: Option<Diet>, food: Option<FoodType>)
  {
    exists d: Diet, f: FoodType ::
      x in Menu(d, f) &&
      (diet.Some? ==> d == diet.value) &&
      (diet.Some? && food.Some? ==> f == food.value)
  }

  /** The base list holds exactly the items the criteria offer. */
  lemma BaseOptionsMembers(diet: Option<Diet>, food: Option<FoodType>, x: MenuItem)
    ensures x in BaseOptions(diet, food) <==> Offered(x, diet, food)
  {
    if diet.Some? && food.Some? {
      if Offered(x, diet, food) {
        var d: Diet, f: FoodType :| x in Menu(d, f) && d == diet.value && f == food.value;
      }
    } else if diet.Some? {
      var d := diet.value;
      if x in Menu(d, Healthy) {
        assert x in Menu(d, Healthy) && d == diet.value;
      } else if x in Menu(d, Comfort) {
        assert x in Menu(d, Comfort) && d == diet.value;
      }
    } else {
      AllItemsCoversCatalog(x);
    }
  }

  /**
    How the base lists fit together: a diet alone gives its healthy list
    followed by its comfort list, and no diet gives the three diets in
    catalog order, whatever food type is saved. The sizes follow: 5, 10, 30.
   */
  lemma BaseOptionsComposition(diet: Diet, food: Option<FoodType>)
    ensures BaseOptions(Some(diet), None) ==
            BaseOptions(Some(diet), Some(Healthy)) + BaseOptions(Some(diet), Some(Comfort))
    ensures BaseOptions(None, food) ==
            BaseOptions(Some(Veg), None) + BaseOptions(Some(NonVeg), None) + BaseOptions(Some(Vegan), None)
    ensures food.Some? ==> |BaseOptions(Some(diet), food)| == 5
    ensures |BaseOptions(Some(diet), None)| == 10
    ensures |BaseOptions(None, food)| == 30
  {
    if food.Some? {
      MenuSizes(diet, food.value);
    }
    CatalogSizes(diet);
  }

  /** `a` can be obtained from `b` by deleting elements: `a` is a subsequence of `b`. */
  ghost predicate IsSubsequence<T>(a: seq<T>, b: seq<T>)
    decreases |b|
  {
    if a == [] then true
    else if b == [] then false
    else (a[0] == b[0] && IsSubsequence(a[1..], b[1..])) || IsSubsequence(a, b[1..])
  }

  /** The items of `s` whose cuisine is `c`, in order (`Array.prototype.filter`). */
  function WithCuisine(s: seq<MenuItem>, c: string): (r: seq<MenuItem>)
  {
    if s == [] then []
    else if s[0].cuisine == c then [s[0]] + WithCuisine(s[1..], c)
    else WithCuisine(s[1..], c)
  }

  /**
    The filter keeps the order of its input, keeps exactly the items of
    cuisine `c`, and keeps every copy of each of them.
   */
  lemma {:induction false} WithCuisineSpec(s: seq<MenuItem>, c: string)
    ensures IsSubsequence(WithCuisine(s, c), s)
    ensures forall x :: x in WithCuisine(s, c) <==> x in s && x.cuisine == c
    ensures forall x :: multiset(WithCuisine(s, c))[x] == if x.cuisine == c then multiset(s)[x] else 0
  {
    if s != [] {
      var r := WithCuisine(s[1..], c);
      WithCuisineSpec(s[1..], c);
      assert s == [s[0]] + s[1..];
      if s[0].cuisine == c {
        assert WithCuisine(s, c) == [s[0]] + r;
        assert ([s[0]] + r)[1..] == r;
      } else {
        assert WithCuisine(s, c) == r;
        if r != [] {
          assert IsSubsequence(r, s[1..]);
        }
      }
    }
  }

  /** Filtering a concatenation filters each part. */
  lemma {:induction false} WithCuisineConcat(a: seq<MenuItem>, b: seq<MenuItem>, c: string)
    ensures WithCuisine(a + b, c) == WithCuisine(a, c) + WithCuisine(b, c)
  {
    if a != [] {
      WithCuisineConcat(a[1..], b, c);
      assert (a + b)[1..] == a[1..] + b;
      assert (a + b)[0] == a[0];
    } else {
      assert a + b == b;
    }
  }

  /**
    JavaScript truthiness of the saved cuisine: the filter applies only to a
    non-empty string; `null` and `""` both leave the base list unfiltered.
   */
  predicate Filtering(cuisine: Option<string>)
  {
    cuisine.Some? && cuisine.value != ""
  }

  /** The list a decision draws from (`filteredOptions`). */
  function FilteredOptions(diet: Option<Diet>, food: Option<FoodType>, cuisine: Option<string>): (r: seq<MenuItem>)
  {
    if Filtering(cuisine) then WithCuisine(BaseOptions(diet, food), cuisine.value)
    else BaseOptions(diet, food)
  }

  /**
    The draw list is the base list in order, minus the items of other
    cuisines when a cuisine is selected; without one it is the base list.
   */
  lemma FilteredOptionsSpec(diet: Option<Diet>, food: Option<FoodType>, cuisine: Option<string>)
    ensures IsSubsequence(FilteredOptions(diet, food, cuisine), BaseOptions(diet, food))
    ensures forall x :: x in FilteredOptions(diet, food, cuisine) <==>
              x in BaseOptions(diet, food) && (Filtering(cuisine) ==> x.cuisine == cuisine.value)
    ensures !Filtering(cuisine) ==> FilteredOptions(diet, food, cuisine) == BaseOptions(diet, food)
  {
    var base := BaseOptions(diet, food);
    if Filtering(cuisine) {
      WithCuisineSpec(base, cuisine.value);
    } else {
      IsSubsequenceReflexive(base);
    }
  }

  /** An offered item is a catalog item. */
  lemma OfferedInCatalog(x: MenuItem, diet: Option<Diet>, food: Option<FoodType>)
    requires Offered(x, diet, food)
    ensures x in AllItems()
  {
    var d: Diet, f: FoodType :| x in Menu(d, f);
    AllItemsCoversCatalog(x);
  }

  /**
    An item can be drawn exactly when the diet and food type offer it and it
    has the selected cuisine, if one is selected; every such item is a
    catalog item.
   */
  lemma FilteredOptionsMembers(diet: Option<Diet>, food: Option<FoodType>, cuisine: Option<string>, x: MenuItem)
    ensures x in FilteredOptions(diet, food, cuisine) <==>
            Offered(x, diet, food) && (Filtering(cuisine) ==> x.cuisine == cuisine.value)
    ensures x in FilteredOptions(diet, food, cuisine) ==> x in AllItems()
  {
    FilteredOptionsSpec(diet, food, cuisine);
    BaseOptionsMembers(diet, food, x);
    if Offered(x, diet, food) {
      OfferedInCatalog(x, diet, food);
    }
  }

  /** With a diet saved, everything drawn belongs to that diet. */
  lemma FilteredWithinDiet(diet: Diet, food: Option<FoodType>, cuisine: Option<string>)
    ensures forall x :: x in FilteredOptions(Some(diet), food, cuisine) ==> x in ItemsOf(diet)
  {
    forall x | x in FilteredOptions(Some(diet), food, cuisine)
      ensures x in ItemsOf(diet)
    {
      FilteredOptionsMembers(Some(diet), food, cuisine, x);
      var d: Diet, f: FoodType :| x in Menu(d, f) && d == diet;
      if f == Healthy {
        assert x in Menu(diet, Healthy);
      } else {
        assert x in Menu(diet, Comfort);
      }
    }
  }

  /**
    With no diet saved, every catalog item of the selected cuisine (of any
    cuisine when none is selected) can be drawn, whatever food type is saved.
   */
  lemma FilteredWithoutDiet(food: Option<FoodType>, cuisine: Option<string>)
    ensures forall x :: x in AllItems() && (Filtering(cuisine) ==> x.cuisine == cuisine.value) ==>
              x in FilteredOptions(None, food, cuisine)
  {
    forall x | x in AllItems() && (Filtering(cuisine) ==> x.cuisine == cuisine.value)
      ensures x in FilteredOptions(None, food, cuisine)
    {
      AllItemsCoversCatalog(x);
      FilteredOptionsMembers(None, food, cuisine, x);
    }
  }

  lemma {:induction false} IsSubsequenceReflexive<T>(s: seq<T>)
    ensures IsSubsequence(s, s)
  {
    if s != [] {
      IsSubsequenceReflexive(s[1..]);
    }
  }

  /** What each catalog list holds of the Japanese cuisine. */
  lemma JapaneseInVeg()
    ensures WithCuisine(Menu(Veg, Healthy), "Japanese") == []
    ensures WithCuisine(Menu(Veg, Comfort), "Japanese") == []
  {
  }

  lemma JapaneseInNonVeg()
    ensures WithCuisine(Menu(NonVeg, Healthy), "Japanese") == [MenuItem("Tuna Poke Bowl", "Japanese")]
    ensures WithCuisine(Menu(NonVeg, Comfort), "Japanese") == []
  {
  }

  lemma JapaneseInVegan()
    ensures WithCuisine(Menu(Vegan, Healthy), "Japanese") == [MenuItem("Raw Veggie Sushi Rolls", "Japanese")]
    ensures WithCuisine(Menu(Vegan, Comfort), "Japanese") == []
  {
  }

  /** With no diet, the Japanese filter leaves exactly the two Japanese dishes of the catalog. */
  lemma JapaneseExample()
    ensures FilteredOptions(None, None, Some("Japanese")) ==
            [MenuItem("Tuna Poke Bowl", "Japanese"), MenuItem("Raw Veggie Sushi Rolls", "Japanese")]
  {
    JapaneseInVeg();
    JapaneseInNonVeg();
    JapaneseInVegan();
    WithCuisineConcat(Menu(Veg, Healthy), Menu(Veg, Comfort), "Japanese");
    WithCuisineConcat(Menu(NonVeg, Healthy), Menu(NonVeg, Comfort), "Japanese");
    WithCuisineConcat(Menu(Vegan, Healthy), Menu(Vegan, Comfort), "Japanese");
    WithCuisineConcat(ItemsOf(Veg), ItemsOf(NonVeg), "Japanese");
    WithCuisineConcat(ItemsOf(Veg) + ItemsOf(NonVeg), ItemsOf(Vegan), "Japanese");
  }

  /** Criteria can leave nothing to draw from: vegan comfort food has no Japanese dish. */
  lemma EmptyPoolExample()
    ensures FilteredOptions(Some(Vegan), Some(Comfort), Some("Japanese")) == []
  {
    JapaneseInVegan();
  }
}
