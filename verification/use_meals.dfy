/** The meals hook of hooks/useMeals.ts: per-meal calorie totals, the day's
    calorie and macro totals, removal of a food from a meal, and the
    module-wide cache of API answers keyed by `YYYY-MM-DD` with a five-minute
    lifetime. The clock and the API answers are given to each operation. */
module Meals {
  import opened Wrappers
  import opened ApiTypes

  /** `CACHE_DURATION`: five minutes, in milliseconds. */
  const CacheDuration := 5 * 60 * 1000

  // ---------------------------------------------------------------------------
  // Calories of one meal

  /** An item enters the calorie sum when it has its food and the food's
      calories and serving size are numbers. */
  predicate Counted(item: MealItem) {
    item.food.Some? && item.food.value.calories.Some? && item.food.value.servingSize.Some?
  }

  /** What an item adds to the calorie sum: `quantity * calories / servingSize`,
      which is an infinity or NaN for a serving size of 0, and 0 when the item
      is not counted. */
  function ItemCalories(item: MealItem): (c: Num)
    ensures c.Finite? <==> !(Counted(item) && item.food.value.servingSize.value == 0.0)
    ensures !Counted(item) ==> c == Finite(0.0)
    ensures c.Finite? && Counted(item) ==> c.value * item.food.value.servingSize.value == item.quantity * item.food.value.calories.value
    ensures c == NaN <==> Counted(item) && item.food.value.servingSize.value == 0.0 && item.quantity * item.food.value.calories.value == 0.0
  {
    if Counted(item) then Divide(item.quantity * item.food.value.calories.value, item.food.value.servingSize.value)
    else Finite(0.0)
  }

  /** The `reduce` over a meal's items, from the first item to the last. */
  function CaloriesSum(items: seq<MealItem>): Num {
    if items == [] then Finite(0.0)
    else Add(CaloriesSum(items[..|items| - 1]), ItemCalories(items[|items| - 1]))
  }

  /** Some counted item has a serving size of 0. */
  predicate HasZeroServing(items: seq<MealItem>) {
    exists i :: 0 <= i < |items| && !ItemCalories(items[i]).Finite?
  }

  lemma {:induction false} CaloriesSumFinite(items: seq<MealItem>)
    ensures CaloriesSum(items).Finite? <==> !HasZeroServing(items)
  {
    if items != [] {
      var init := items[..|items| - 1];
      CaloriesSumFinite(init);
      assert forall i :: 0 <= i < |init| ==> items[i] == init[i];
    }
  }

  /** The calorie sum of a list is the sum over its parts. */
  lemma {:induction false} CaloriesSumSplit(a: seq<MealItem>, b: seq<MealItem>)
    ensures CaloriesSum(a + b) == Add(CaloriesSum(a), CaloriesSum(b))
  {
    if b == [] {
      assert a + b == a;
      AddZero(CaloriesSum(a));
    } else {
      var b' := b[..|b| - 1];
      assert (a + b)[..|a + b| - 1] == a + b';
      assert (a + b)[|a + b| - 1] == b[|b| - 1];
      CaloriesSumSplit(a, b');
      AddAssociative(CaloriesSum(a), CaloriesSum(b'), ItemCalories(b[|b| - 1]));
    }
  }

  /** Items without a food or without numeric calories and serving size do not
      change the sum, wherever they stand. */
  lemma UncountedItemAddsNothing(a: seq<MealItem>, item: MealItem, b: seq<MealItem>)
    requires !Counted(item)
    ensures CaloriesSum(a + [item] + b) == CaloriesSum(a + b)
  {
    CaloriesSumSplit(a + [item], b);
    CaloriesSumSplit(a, b);
    assert CaloriesSum([item]) == Add(CaloriesSum([]), ItemCalories(item));
    CaloriesSumSplit(a, [item]);
    AddZero(CaloriesSum(a));
  }

  /** `calculateMealCalories`: the sum rounded by `Math.round`, an integer
      within half of it; an infinite or NaN sum comes back as it is. */
  function MealCalories(meal: Meal): (c: Num)
    ensures c.Finite? <==> !HasZeroServing(meal.items)
    ensures c.Finite? ==>
      && CaloriesSum(meal.items).Finite? && c.value == c.value.Floor as real
      && c.value - 0.5 <= CaloriesSum(meal.items).value < c.value + 0.5
    ensures !c.Finite? ==> c == CaloriesSum(meal.items)
  {
    CaloriesSumFinite(meal.items);
    RoundNum(CaloriesSum(meal.items))
  }

  /** `processMealsData`: the same meals in the same order, each with its own
      calorie total and nothing else changed. */
  function ProcessMeals(ms: seq<Meal>): (r: seq<Meal>)
    ensures |r| == |ms|
    ensures forall i :: 0 <= i < |ms| ==> r[i] == ms[i].(totalCalories := Some(MealCalories(ms[i])))
  {
    seq(|ms|, i requires 0 <= i < |ms| => ms[i].(totalCalories := Some(MealCalories(ms[i]))))
  }

  /** Processing twice is processing once: the total depends on the items only. */
  lemma ProcessMealsIdempotent(ms: seq<Meal>)
    ensures ProcessMeals(ProcessMeals(ms)) == ProcessMeals(ms)
  {
    var once := ProcessMeals(ms);
    forall i | 0 <= i < |ms| ensures MealCalories(once[i]) == MealCalories(ms[i]) {
      assert once[i].items == ms[i].items;
    }
  }

  // ---------------------------------------------------------------------------
  // Removing a food from a meal

  /** `items.filter(item => item.foodId !== foodId)` */
  function WithoutFoodItems(items: seq<MealItem>, foodId: string): (r: seq<MealItem>)
    ensures forall it :: it in r <==> it in items && it.foodId != foodId
    ensures |r| <= |items|
  {
    if items == [] then []
    else
      var rest := WithoutFoodItems(items[1..], foodId);
      assert items == [items[0]] + items[1..];
      if items[0].foodId == foodId then rest else [items[0]] + rest
  }

  /** The kept items stay in their order. */
  lemma {:induction false} WithoutFoodItemsSplit(a: seq<MealItem>, b: seq<MealItem>, foodId: string)
    ensures WithoutFoodItems(a + b, foodId) == WithoutFoodItems(a, foodId) + WithoutFoodItems(b, foodId)
  {
    if a == [] {
      assert a + b == b;
    } else {
      assert (a + b)[1..] == a[1..] + b;
      WithoutFoodItemsSplit(a[1..], b, foodId);
    }
  }

  /** The meal with id `mealId` loses the items of that food; other meals are kept. */
  function WithoutFood(ms: seq<Meal>, mealId: string, foodId: string): (r: seq<Meal>)
    ensures |r| == |ms|
    ensures forall i :: 0 <= i < |ms| ==>
      r[i] == if ms[i].id == mealId then ms[i].(items := WithoutFoodItems(ms[i].items, foodId)) else ms[i]
  {
    seq(|ms|, i requires 0 <= i < |ms| =>
      if ms[i].id == mealId then ms[i].(items := WithoutFoodItems(ms[i].items, foodId)) else ms[i])
  }

  /** After a removal no item of that food is left in the meal, every other item
      is still there, and the other meals keep all their items. */
  lemma RemovalEffect(ms: seq<Meal>, mealId: string, foodId: string, i: int)
    requires 0 <= i < |ms|
    ensures var r := ProcessMeals(WithoutFood(ms, mealId, foodId))[i];
      && r.id == ms[i].id
      && (ms[i].id == mealId ==> forall it :: it in r.items <==> it in ms[i].items && it.foodId != foodId)
      && (ms[i].id != mealId ==> r.items == ms[i].items)
  {
  }

  // ---------------------------------------------------------------------------
  // Day totals

  /** `meal.totalCalories || 0`: an absent, zero or NaN total counts as 0. */
  function TotalOrZero(t: Option<Num>): (r: Num)
    ensures t.Some? && NumTruthy(t.value) ==> r == t.value
    ensures !(t.Some? && NumTruthy(t.value)) ==> r == Finite(0.0)
  {
    if t.Some? && NumTruthy(t.value) then t.value else Finite(0.0)
  }

  /** `totalCalories`: the meals' totals added up from the first to the last. */
  function DayCalories(ms: seq<Meal>): Num {
    if ms == [] then Finite(0.0)
    else Add(DayCalories(ms[..|ms| - 1]), TotalOrZero(ms[|ms| - 1].totalCalories))
  }

  lemma {:induction false} DayCaloriesSplit(a: seq<Meal>, b: seq<Meal>)
    ensures DayCalories(a + b) == Add(DayCalories(a), DayCalories(b))
  {
    if b == [] {
      assert a + b == a;
      AddZero(DayCalories(a));
    } else {
      var b' := b[..|b| - 1];
      assert (a + b)[..|a + b| - 1] == a + b';
      assert (a + b)[|a + b| - 1] == b[|b| - 1];
      DayCaloriesSplit(a, b');
      AddAssociative(DayCalories(a), DayCalories(b'), TotalOrZero(b[|b| - 1].totalCalories));
    }
  }

  /** The rounded totals of the meals whose total is finite, added up. */
  function DayRounded(ms: seq<Meal>): real {
    if ms == [] then 0.0
    else DayRounded(ms[..|ms| - 1]) + (if MealCalories(ms[|ms| - 1]).Finite? then MealCalories(ms[|ms| - 1]).value else 0.0)
  }

  /** Some meal's total is an infinity. */
  predicate HasInfiniteMeal(ms: seq<Meal>) {
    exists i :: 0 <= i < |ms| && MealCalories(ms[i]).Infinite?
  }

  /** The day total of processed meals is finite exactly when no meal's total
      is an infinity; then it adds the rounded finite totals, a NaN total
      counting 0 as `NaN || 0` does. */
  lemma {:induction false} ProcessedDayCalories(ms: seq<Meal>)
    ensures DayCalories(ProcessMeals(ms)).Finite? <==> !HasInfiniteMeal(ms)
    ensures DayCalories(ProcessMeals(ms)).Finite? ==> DayCalories(ProcessMeals(ms)).value == DayRounded(ms)
  {
    if ms != [] {
      var init, last := ms[..|ms| - 1], ms[|ms| - 1];
      var processed := ProcessMeals(ms);
      assert processed[..|ms| - 1] == ProcessMeals(init);
      assert processed[|ms| - 1].totalCalories == Some(MealCalories(last));
      assert DayCalories(processed) == Add(DayCalories(ProcessMeals(init)), TotalOrZero(Some(MealCalories(last))));
      ProcessedDayCalories(init);
      InfiniteMealStep(ms);
      DayStep(DayCalories(ProcessMeals(init)), HasInfiniteMeal(init), DayRounded(init), MealCalories(last));
    }
  }

  lemma InfiniteMealStep(ms: seq<Meal>)
    requires ms != []
    ensures HasInfiniteMeal(ms) <==> HasInfiniteMeal(ms[..|ms| - 1]) || MealCalories(ms[|ms| - 1]).Infinite?
  {
    var init := ms[..|ms| - 1];
    assert forall i :: 0 <= i < |init| ==> ms[i] == init[i];
  }

  /** One more meal total added to a day total: an infinity makes the day
      non-finite, NaN adds 0. */
  lemma DayStep(total: Num, infinite: bool, rounded: real, m: Num)
    requires total.Finite? <==> !infinite
    requires total.Finite? ==> total.value == rounded
    ensures var next := Add(total, TotalOrZero(Some(m)));
      && (next.Finite? <==> !infinite && !m.Infinite?)
      && (next.Finite? ==> next.value == rounded + (if m.Finite? then m.value else 0.0))
  {
  }

  /** What one item adds to a macro total: `(value || 0) * quantity / servingSize`
      when it has its food and a non-zero serving size. */
  function ItemMacro(item: MealItem, n: Nutrient): real {
    if item.food.Some? && item.food.value.servingSize.Some? && item.food.value.servingSize.value != 0.0 then
      NutrientOf(item.food.value, n).GetOr(0.0) * (item.quantity / item.food.value.servingSize.value)
    else 0.0
  }

  function ItemsMacro(items: seq<MealItem>, n: Nutrient): real {
    if items == [] then 0.0
    else ItemsMacro(items[..|items| - 1], n) + ItemMacro(items[|items| - 1], n)
  }

  /** A macro summed over every item of every meal, meal by meal. */
  function MealsMacro(ms: seq<Meal>, n: Nutrient): real {
    if ms == [] then 0.0
    else MealsMacro(ms[..|ms| - 1], n) + ItemsMacro(ms[|ms| - 1].items, n)
  }

  lemma {:induction false} MealsMacroSplit(a: seq<Meal>, b: seq<Meal>, n: Nutrient)
    ensures MealsMacro(a + b, n) == MealsMacro(a, n) + MealsMacro(b, n)
  {
    if b == [] {
      assert a + b == a;
    } else {
      var b' := b[..|b| - 1];
      assert (a + b)[..|a + b| - 1] == a + b';
      assert (a + b)[|a + b| - 1] == b[|b| - 1];
      MealsMacroSplit(a, b', n);
    }
  }

  /** The macros do not depend on the calorie totals, so processing keeps them. */
  lemma {:induction false} MacrosIgnoreTotals(ms: seq<Meal>, n: Nutrient)
    ensures MealsMacro(ProcessMeals(ms), n) == MealsMacro(ms, n)
  {
    if ms != [] {
      assert ProcessMeals(ms)[..|ms| - 1] == ProcessMeals(ms[..|ms| - 1]);
      MacrosIgnoreTotals(ms[..|ms| - 1], n);
    }
  }

  /** `totalMacros`: the accumulator is updated item by item. */
  method TotalMacros(ms: seq<Meal>) returns (protein: real, carbs: real, fat: real)
    ensures protein == MealsMacro(ms, Protein)
    ensures carbs == MealsMacro(ms, Carbs)
    ensures fat == MealsMacro(ms, Fat)
  {
    protein, carbs, fat := 0.0, 0.0, 0.0;
    var i := 0;
    while i < |ms|
      invariant 0 <= i <= |ms|
      invariant protein == MealsMacro(ms[..i], Protein)
      invariant carbs == MealsMacro(ms[..i], Carbs)
      invariant fat == MealsMacro(ms[..i], Fat)
    {
      var items := ms[i].items;
      var p0, c0, f0 := protein, carbs, fat;
      var j := 0;
      while j < |items|
        invariant 0 <= j <= |items|
        invariant protein == p0 + ItemsMacro(items[..j], Protein)
        invariant carbs == c0 + ItemsMacro(items[..j], Carbs)
        invariant fat == f0 + ItemsMacro(items[..j], Fat)
      {
        var item := items[j];
        if item.food.Some? && item.food.value.servingSize.Some? && item.food.value.servingSize.value != 0.0 {
          var ratio := item.quantity / item.food.value.servingSize.value;
          protein := protein + item.food.value.protein.GetOr(0.0) * ratio;
          carbs := carbs + item.food.value.carbs.GetOr(0.0) * ratio;
          fat := fat + item.food.value.fat.GetOr(0.0) * ratio;
        }
        assert items[..j + 1][..j] == items[..j];
        j := j + 1;
      }
      assert items[..j] == items;
      assert ms[..i + 1][..i] == ms[..i];
      i := i + 1;
    }
    assert ms[..i] == ms;
  }

  // ---------------------------------------------------------------------------
  // The cache and the hook

  /** What the cache keeps per date: the API's meals as received, and when. */
  datatype CacheEntry = CacheEntry(data: seq<Meal>, timestamp: int)

  /** An entry younger than the lifetime is served. */
  predicate Fresh(e: CacheEntry, now: int) {
    now - e.timestamp < CacheDuration
  }

  /** The lifetime is exactly 300000 ms: an entry of that age is refetched, one a
      millisecond younger is not. */
  lemma FreshnessBoundary(data: seq<Meal>, t: int)
    ensures Fresh(CacheEntry(data, t), t + 299999)
    ensures !Fresh(CacheEntry(data, t), t + 300000)
  {
  }

  /** `mealsCache`: one map shared by every use of the hook. */
  class MealsCache {
    var entries: map<string, CacheEntry>

    constructor ()
      ensures entries == map[]
    {
      entries := map[];
    }
  }

  /** Why a load failed: an `Error` with its message, or some other thrown value. */
  datatype LoadFailure = Thrown(message: string) | NotAnError

  /** The answer of `deleteFoodFromMeal`. */
  datatype DeleteResult = DeleteResult(success: bool, message: Option<string>)

  /** The state of one use of the hook. */
  class MealsHook {
    /** The ISO timestamp of the hook's `date`. */
    const dateIso: string
    const enableCache: bool
    const cache: MealsCache
    var meals: seq<Meal>
    var loading: bool
    var refreshing: bool
    var error: Option<string>
    /** The date keys asked of the API, in order. */
    var fetched: seq<string>

    /** The `cacheKey` memo: the date part of the hook's date. */
    function CacheKey(): string
      reads this
    {
      DateKey(dateIso)
    }

    constructor (iso: string, useCache: bool, shared: MealsCache)
      ensures dateIso == iso && enableCache == useCache && cache == shared
      ensures meals == [] && loading && !refreshing && error == None && fetched == []
    {
      dateIso := iso;
      enableCache := useCache;
      cache := shared;
      meals := [];
      loading := true;
      refreshing := false;
      error := None;
      fetched := [];
    }

    /** `loadMeals(target)`. `now` is the clock when the cache is consulted and
        `later` when the answer arrives; `answer` is the API's result (`None`
        for a null body). A fresh entry is served without asking the API; with
        the cache off it is neither read nor written. */
    method LoadMeals(target: Option<string>, now: int, later: int, answer: Result<Option<seq<Meal>>, LoadFailure>)
      returns (asked: bool)
      modifies this`meals, this`loading, this`error, this`fetched, cache
      ensures var key := DateKey(target.GetOr(dateIso));
        asked <==> !(enableCache && key in old(cache.entries) && Fresh(old(cache.entries)[key], now))
      ensures !loading
      ensures var key := DateKey(target.GetOr(dateIso));
        if !asked then
          && meals == ProcessMeals(old(cache.entries)[key].data)
          && error == None && fetched == old(fetched) && cache.entries == old(cache.entries)
        else
          && fetched == old(fetched) + [key]
          && match answer
             case Ok(data) =>
               && meals == ProcessMeals(data.GetOr([]))
               && error == None
               && cache.entries == if enableCache then old(cache.entries)[key := CacheEntry(data.GetOr([]), later)] else old(cache.entries)
             case Err(failure) =>
               && meals == old(meals)
               && error == Some(if failure.Thrown? then failure.message else "Failed to load meals")
               && cache.entries == old(cache.entries)
    {
      var key := DateKey(target.GetOr(dateIso));
      error := None;
      if enableCache && key in cache.entries {
        var cached := cache.entries[key];
        if now - cached.timestamp < CacheDuration {
          meals := ProcessMeals(cached.data);
          loading := false;
          return false;
        }
      }
      asked := true;
      fetched := fetched + [key];
      match answer {
        case Ok(data) =>
          var mealsData := data.GetOr([]);
          meals := ProcessMeals(mealsData);
          if enableCache {
            cache.entries := cache.entries[key := CacheEntry(mealsData, later)];
          }
        case Err(failure) =>
          error := Some(if failure.Thrown? then failure.message else "Failed to load meals");
      }
      loading := false;
    }

    /** `refreshMeals`: a load of the hook's own date, with `refreshing` raised
        around it; since the load catches every failure, `refreshing` always
        comes down again. The API is asked only when the entry is missing or
        stale, or the cache is off. */
    method RefreshMeals(now: int, later: int, answer: Result<Option<seq<Meal>>, LoadFailure>)
      returns (asked: bool)
      modifies this`meals, this`loading, this`error, this`fetched, this`refreshing, cache
      ensures !refreshing && !loading
      ensures asked <==> !(enableCache && CacheKey() in old(cache.entries) && Fresh(old(cache.entries)[CacheKey()], now))
      ensures var key := CacheKey();
        if !asked then
          && meals == ProcessMeals(old(cache.entries)[key].data)
          && error == None && fetched == old(fetched) && cache.entries == old(cache.entries)
        else
          && fetched == old(fetched) + [key]
          && match answer
             case Ok(data) =>
               && meals == ProcessMeals(data.GetOr([]))
               && error == None
               && cache.entries == if enableCache then old(cache.entries)[key := CacheEntry(data.GetOr([]), later)] else old(cache.entries)
             case Err(failure) =>
               && meals == old(meals)
               && error == Some(if failure.Thrown? then failure.message else "Failed to load meals")
               && cache.entries == old(cache.entries)
    {
      refreshing := true;
      asked := LoadMeals(None, now, later, answer);
      refreshing := false;
    }

    /** `removeMealItem`. On a successful delete the food's items leave the meal,
        every meal's total is recomputed, and the cache entry of the hook's own
        date (not necessarily the date last loaded) is dropped. Otherwise the
        meals and the cache are unchanged. */
    method RemoveMealItem(mealId: string, foodId: string, answer: Result<DeleteResult, LoadFailure>)
      returns (removed: bool)
      modifies this`meals, this`loading, cache
      ensures removed <==> answer.Ok? && answer.value.success
      ensures !loading
      ensures removed ==> meals == ProcessMeals(WithoutFood(old(meals), mealId, foodId))
      ensures removed ==> cache.entries == old(cache.entries) - {CacheKey()}
      ensures !removed ==> meals == old(meals) && cache.entries == old(cache.entries)
    {
      loading := true;
      removed := answer.Ok? && answer.value.success;
      if removed {
        meals := ProcessMeals(WithoutFood(meals, mealId, foodId));
        cache.entries := cache.entries - {CacheKey()};
      }
      loading := false;
    }
  }
}
