/**
  The lunch decider's state and its event handlers: the animated reveal
  started by the decide button, the two-step customize dialog (diet, then
  food type) and the buttons that clear a saved criterion.

  A reveal captures the draw list once, when it starts, and then fires a
  tick at a fixed interval; each tick shows the name of a randomly drawn
  item and counts, and the eleventh tick stops the interval. The random
  draws are supplied by the caller, and the interval's `count` and the list
  it captured are fields of the state.
 */
module Decider {
  import opened Wrappers
  import opened Catalog
  import opened Eligible

  /** The wizard has two steps: 1 chooses the diet, 2 the food type. */
  type Step = s: int | s == 1 || s == 2 witness 1

  /** The number of ticks of one reveal: the interval stops once `count > 10`. */
  const Ticks: nat := 11

  /** The outcome of a decision: the names shown tick by tick, or nothing to draw from. */
  datatype Decision = Decided(shown: seq<string>) | EmptySelectionPool

  class LunchDecider {
    var selectedOption: Option<string>
    var isDeciding: bool
    var selectedCuisine: Option<string>
    var showCustomize: bool
    var customizeStep: Step
    var dietaryPreference: Option<Diet>
    var foodType: Option<FoodType>
    /** The draw list the running reveal captured when it started. */
    var pool: seq<MenuItem>
    /** The running reveal's tick counter. */
    var count: nat

    /**
      A reveal is running exactly while `isDeciding` holds; it then has a
      non-empty list to draw from and has not yet fired its last tick.
     */
    ghost predicate Valid()
      reads this
    {
      isDeciding ==> pool != [] && count < Ticks
    }

    /** The list a decision started now would draw from. */
    function Pool(): (r: seq<MenuItem>)
      reads this`dietaryPreference, this`foodType, this`selectedCuisine
    {
      FilteredOptions(dietaryPreference, foodType, selectedCuisine)
    }

    /** The initial state: nothing chosen, nothing shown, dialog closed at step 1. */
    constructor()
      ensures Valid()
      ensures selectedOption == None && !isDeciding && selectedCuisine == None
      ensures !showCustomize && customizeStep == 1
      ensures dietaryPreference == None && foodType == None
      ensures pool == [] && count == 0
    {
      selectedOption := None;
      isDeciding := false;
      selectedCuisine := None;
      showCustomize := false;
      customizeStep := 1;
      dietaryPreference := None;
      foodType := None;
      pool := [];
      count := 0;
    }

    /**
      The decide button, which is disabled while a reveal runs. The draw list
      is computed from the saved criteria once; if it has items the reveal
      starts with that list captured and the counter at zero, and if it is
      empty nothing changes.
     */
    method StartDeciding() returns (started: bool)
      requires Valid() && !isDeciding
      modifies this`isDeciding, this`pool, this`count
      ensures Valid()
      ensures started <==> Pool() != []
      ensures started ==> isDeciding && pool == Pool() && count == 0
      ensures !started ==> !isDeciding && pool == old(pool) && count == old(count)
    {
      var p := Pool();
      if p == [] {
        return false;
      }
      isDeciding := true;
      pool := p;
      count := 0;
      started := true;
    }

    /**
      One tick of the running reveal: show the drawn item's name and count;
      the eleventh tick stops the reveal. On its non-empty list this is one
      firing of the interval as written (`SourceTick`).
     */
    method Tick(draw: nat)
      requires Valid() && isDeciding && draw < |pool|
      modifies this`selectedOption, this`count, this`isDeciding
      ensures Valid()
      ensures selectedOption == Some(pool[draw].name)
      ensures count == old(count) + 1
      ensures isDeciding <==> count < Ticks
      ensures Interval(count, !isDeciding, selectedOption) ==
              SourceTick(pool, draw, Interval(old(count), false, old(selectedOption)))
    {
      selectedOption := Some(pool[draw].name);
      count := count + 1;
      if count > 10 {
        isDeciding := false;
      }
    }

    /**
      The running reveal fired to the end, one draw per tick: it shows
      exactly the names of the items at the draws, in draw order, leaves the
      last of them selected and stops after its eleventh tick.
     */
    method Reveal(draws: seq<nat>) returns (shown: seq<string>)
      requires Valid() && isDeciding && count == 0
      requires |draws| == Ticks && forall k :: 0 <= k < |draws| ==> draws[k] < |pool|
      modifies this`selectedOption, this`count, this`isDeciding
      ensures Valid() && !isDeciding && count == Ticks
      ensures |shown| == Ticks
      ensures forall k :: 0 <= k < Ticks ==> shown[k] == pool[draws[k]].name
      ensures selectedOption == Some(shown[Ticks - 1])
    {
      shown := [];
      while isDeciding
        invariant Valid()
        invariant count == |shown| <= Ticks
        invariant isDeciding <==> count < Ticks
        invariant forall k :: 0 <= k < |shown| ==> shown[k] == pool[draws[k]].name
        invariant shown != [] ==> selectedOption == Some(shown[|shown| - 1])
        decreases Ticks - count
      {
        var name := pool[draws[count]].name;
        Tick(draws[count]);
        shown := shown + [name];
      }
    }

    /**
      A whole decision with one draw per tick. With an empty draw list it
      reports so and changes nothing. Otherwise it shows exactly eleven
      names, the k-th being the name of the item at the k-th draw, leaves the
      last of them selected and ends with the reveal stopped.
     */
    method DecideLunch(draws: seq<nat>) returns (d: Decision)
      requires Valid() && !isDeciding
      requires |draws| == Ticks
      requires Pool() != [] ==> forall k :: 0 <= k < |draws| ==> draws[k] < |Pool()|
      modifies this`isDeciding, this`pool, this`count, this`selectedOption
      ensures Valid() && !isDeciding
      ensures d == EmptySelectionPool <==> Pool() == []
      ensures d == EmptySelectionPool ==>
                selectedOption == old(selectedOption) && pool == old(pool) && count == old(count)
      ensures d.Decided? ==>
                |d.shown| == Ticks &&
                (forall k :: 0 <= k < Ticks ==> d.shown[k] == Pool()[draws[k]].name) &&
                selectedOption == Some(d.shown[Ticks - 1]) &&
                pool == Pool() && count == Ticks
    {
      var started := StartDeciding();
      if !started {
        return EmptySelectionPool;
      }
      var shown := Reveal(draws);
      d := Decided(shown);
    }

    /** The customize button opens the dialog. */
    method OpenCustomize()
      requires Valid()
      modifies this`showCustomize
      ensures Valid() && showCustomize
    {
      showCustomize := true;
    }

    /**
      Choosing a diet saves it and keeps the saved food type; from then on
      every item a decision can draw belongs to that diet.
     */
    method ChooseDiet(diet: Diet)
      requires Valid()
      modifies this`dietaryPreference
      ensures Valid() && dietaryPreference == Some(diet)
      ensures forall x :: x in Pool() ==> x in ItemsOf(diet)
    {
      dietaryPreference := Some(diet);
      FilteredWithinDiet(diet, foodType, selectedCuisine);
    }

    /** "Next" moves to the food-type step only when a diet is saved. */
    method Next()
      requires Valid()
      modifies this`customizeStep
      ensures Valid()
      ensures dietaryPreference.Some? ==> customizeStep == 2
      ensures dietaryPreference.None? ==> customizeStep == old(customizeStep)
    {
      if dietaryPreference.Some? {
        customizeStep := 2;
      }
    }

    /** Choosing a food type saves it. */
    method ChooseFoodType(food: FoodType)
      requires Valid()
      modifies this`foodType
      ensures Valid() && foodType == Some(food)
    {
      foodType := Some(food);
    }

    /** "Back" returns to the diet step. */
    method Back()
      requires Valid()
      modifies this`customizeStep
      ensures Valid() && customizeStep == 1
    {
      customizeStep := 1;
    }

    /** "Save & Return" closes the dialog and resets it to the diet step. */
    method SaveAndReturn()
      requires Valid()
      modifies this`showCustomize, this`customizeStep
      ensures Valid() && !showCustomize && customizeStep == 1
    {
      showCustomize := false;
      customizeStep := 1;
    }

    /** A cuisine button saves that cuisine as the filter. */
    method ChooseCuisine(cuisine: string)
      requires Valid()
      modifies this`selectedCuisine
      ensures Valid() && selectedCuisine == Some(cuisine)
    {
      selectedCuisine := Some(cuisine);
    }

    /**
      Clearing the cuisine filter touches nothing else; a decision then
      draws from the whole base list of the saved diet and food type.
     */
    method ClearCuisine()
      requires Valid()
      modifies this`selectedCuisine
      ensures Valid() && selectedCuisine == None
      ensures Pool() == BaseOptions(dietaryPreference, foodType)
    {
      selectedCuisine := None;
      FilteredOptionsSpec(dietaryPreference, foodType, selectedCuisine);
    }

    /**
      Clearing the diet clears the food type with it; a decision then draws
      from the whole catalog.
     */
    method ClearDiet()
      requires Valid()
      modifies this`dietaryPreference, this`foodType
      ensures Valid() && dietaryPreference == None && foodType == None
      ensures forall x :: x in AllItems() && (Filtering(selectedCuisine) ==> x.cuisine == selectedCuisine.value) ==>
                x in Pool()
    {
      dietaryPreference := None;
      foodType := None;
      FilteredWithoutDiet(None, selectedCuisine);
    }

    /** Clearing the food type leaves the diet alone. */
    method ClearFoodType()
      requires Valid()
      modifies this`foodType
      ensures Valid() && foodType == None
    {
      foodType := None;
    }
  }

  /**
    The reveal's interval as the code is written, one value per tick: the
    counter, whether the interval has been cleared (`isDeciding` is false
    once it is) and the option shown.
   */
  datatype Interval = Interval(count: nat, cleared: bool, shown: Option<string>)

  /**
    One firing of the interval as written. On an empty list the index is 0
    and the element there is missing, so reading its name throws before the
    counter moves: the firing changes nothing and the interval stays set.
   */
  function SourceTick(pool: seq<MenuItem>, draw: nat, s: Interval): (r: Interval)
    requires pool != [] ==> draw < |pool|
  {
    if pool == [] then s
    else
      var c := s.count + 1;
      Interval(c, c > 10, Some(pool[draw].name))
  }

  /** Successive firings, until the interval is cleared or the draws run out. */
  function SourceRun(pool: seq<MenuItem>, draws: seq<nat>, s: Interval): (r: Interval)
    requires pool != [] ==> forall k :: 0 <= k < |draws| ==> draws[k] < |pool|
    decreases |draws|
  {
    if draws == [] || s.cleared then s
    else SourceRun(pool, draws[1..], SourceTick(pool, draws[0], s))
  }

  /** On an empty list the interval never clears, however often it fires. */
  lemma {:induction false} EmptyPoolNeverClears(draws: seq<nat>, s: Interval)
    requires !s.cleared
    ensures SourceRun([], draws, s) == s
  {
    if draws != [] {
      EmptyPoolNeverClears(draws[1..], s);
    }
  }

  /**
    On a non-empty list the interval as written clears after its eleventh
    firing, with the eleventh drawn name shown, as the corrected
    `LunchDecider.DecideLunch` ends.
   */
  lemma {:induction false} SourceRunClearsAfterEleven(pool: seq<MenuItem>, draws: seq<nat>, s: Interval)
    requires pool != [] && forall k :: 0 <= k < |draws| ==> draws[k] < |pool|
    requires !s.cleared && s.count < Ticks && |draws| >= Ticks - s.count
    ensures SourceRun(pool, draws, s).cleared
    ensures SourceRun(pool, draws, s).count == Ticks
    ensures SourceRun(pool, draws, s).shown == Some(pool[draws[Ticks - 1 - s.count]].name)
  {
    var t := SourceTick(pool, draws[0], s);
    if s.count < Ticks - 1 {
      SourceRunClearsAfterEleven(pool, draws[1..], t);
      assert draws[1..][Ticks - 1 - t.count] == draws[Ticks - 1 - s.count];
    } else {
      assert t.cleared;
    }
  }

  /**
    The input that shows it: vegan comfort food filtered to Japanese leaves
    nothing to draw, and from the start of a decision the spinner then never
    stops.
   */
  lemma StuckForVeganComfortJapanese(draws: seq<nat>, shown: Option<string>)
    ensures FilteredOptions(Some(Vegan), Some(Comfort), Some("Japanese")) == []
    ensures !SourceRun(FilteredOptions(Some(Vegan), Some(Comfort), Some("Japanese")), draws, Interval(0, false, shown)).cleared
  {
    EmptyPoolExample();
    EmptyPoolNeverClears(draws, Interval(0, false, shown));
  }
}
