/** The helpers of the meal card in components/MealCard.tsx: the nutrient a
    food item contributes, the per-item segments and their conditions, the
    arguments of the add button, and the stats line under the title. */
module MealCard {
  import opened Wrappers
  import opened Text
  import opened ApiTypes
  import I18n
  import Meals

  /** `calculateNutrient(key, quantity, food)`: 0 when there is no food, or the
      nutrient or the serving size is not a number; otherwise
      `quantity * value / servingSize`, with no guard for a serving size of 0
      (an infinity, or NaN when `quantity * value` is 0 too). */
  function CalculateNutrient(n: Nutrient, quantity: real, food: Option<Food>): (v: Num)
    ensures food.None? || NutrientOf(food.value, n).None? || food.value.servingSize.None? ==> v == Finite(0.0)
    ensures food.Some? && NutrientOf(food.value, n).Some? && food.value.servingSize.Some? ==>
      && (v.Finite? <==> food.value.servingSize.value != 0.0)
      && (v.Finite? ==> v.value * food.value.servingSize.value == quantity * NutrientOf(food.value, n).value)
      && (v == NaN <==> food.value.servingSize.value == 0.0 && quantity * NutrientOf(food.value, n).value == 0.0)
  {
    if food.None? || NutrientOf(food.value, n).None? || food.value.servingSize.None? then Finite(0.0)
    else Divide(quantity * NutrientOf(food.value, n).value, food.value.servingSize.value)
  }

  /** The nutrient is linear in the quantity: whether it is finite does not
      depend on the quantity, and the amounts for two quantities add up. */
  lemma NutrientLinear(n: Nutrient, q1: real, q2: real, food: Option<Food>)
    ensures CalculateNutrient(n, q1, food).Finite? <==> CalculateNutrient(n, q2, food).Finite?
    ensures CalculateNutrient(n, q1, food).Finite? ==>
      CalculateNutrient(n, q1 + q2, food).value == CalculateNutrient(n, q1, food).value + CalculateNutrient(n, q2, food).value
  {
    var c1, c2, c12 := CalculateNutrient(n, q1, food), CalculateNutrient(n, q2, food), CalculateNutrient(n, q1 + q2, food);
    if food.None? || NutrientOf(food.value, n).None? || food.value.servingSize.None? {
      assert c1 == c2 == c12 == Finite(0.0);
    } else if food.value.servingSize.value == 0.0 {
      assert !c1.Finite? && !c2.Finite?;
    } else {
      var v, s := NutrientOf(food.value, n).value, food.value.servingSize.value;
      ProductsAdd(c1.value, c2.value, c12.value, q1, q2, v, s);
    }
  }

  /** Amounts fixed by `amount * s == q * v` add up as their quantities do. */
  lemma ProductsAdd(c1: real, c2: real, c12: real, q1: real, q2: real, v: real, s: real)
    requires s != 0.0
    requires c1 * s == q1 * v && c2 * s == q2 * v && c12 * s == (q1 + q2) * v
    ensures c12 == c1 + c2
  {
    assert (q1 + q2) * v == q1 * v + q2 * v;
    assert (c1 + c2) * s == c1 * s + c2 * s;
    assert c12 * s == (c1 + c2) * s;
    assert (c12 - (c1 + c2)) * s == 0.0;
  }

  /** An amount fixed by `amount * s == q * v` scales with its quantity. */
  lemma ProductsScale(c: real, ck: real, k: real, q: real, v: real, s: real)
    requires s != 0.0
    requires c * s == q * v && ck * s == (k * q) * v
    ensures ck == k * c
  {
    assert (k * q) * v == k * (q * v);
    assert (k * c) * s == k * (c * s);
    assert (ck - k * c) * s == 0.0;
  }

  /** Scaling the quantity by `k` scales the nutrient by `k`. */
  lemma NutrientScales(n: Nutrient, k: real, q: real, food: Option<Food>)
    requires CalculateNutrient(n, q, food).Finite?
    ensures CalculateNutrient(n, k * q, food).Finite?
    ensures CalculateNutrient(n, k * q, food).value == k * CalculateNutrient(n, q, food).value
  {
    var c, ck := CalculateNutrient(n, q, food), CalculateNutrient(n, k * q, food);
    if food.None? || NutrientOf(food.value, n).None? || food.value.servingSize.None? {
      assert c == ck == Finite(0.0);
    } else {
      var v, s := NutrientOf(food.value, n).value, food.value.servingSize.value;
      ProductsScale(c.value, ck.value, k, q, v, s);
    }
  }

  /** The card's calories for an item are the ones the meals hook adds up. */
  lemma CardCaloriesMatchHook(item: MealItem)
    ensures CalculateNutrient(Calories, item.quantity, item.food) == Meals.ItemCalories(item)
  {
    if item.food.Some? {
      assert NutrientOf(item.food.value, Calories) == item.food.value.calories;
    }
  }

  /** `x.toFixed(0)` for a number below 10^21: the sign when `x` is negative,
      then the integer nearest to `|x|`, halves rounded up. */
  function ToFixed0(x: real): (r: string)
    ensures r != [] && (r[0] == '-' <==> x < 0.0)
    ensures var digits := if x < 0.0 then r[1..] else r;
      && AllDigits(digits)
      && DigitsValue(digits) as real - 0.5 <= (if x < 0.0 then -x else x) < DigitsValue(digits) as real + 0.5
  {
    if x < 0.0 then "-" + NatToString(Round(-x)) else NatToString(Round(x))
  }

  /** Truthiness of a number: present and not 0. */
  predicate Truthy(v: Option<real>) {
    v.Some? && v.value != 0.0
  }

  /** The number in the item's segment for nutrient `n`: shown only when both
      the nutrient and the serving size are truthy, as the rounded amount. */
  function Segment(item: MealItem, n: Nutrient): (shown: Option<string>)
    ensures shown.Some? <==>
      item.food.Some? && Truthy(NutrientOf(item.food.value, n)) && Truthy(item.food.value.servingSize)
    ensures shown.Some? ==>
      && CalculateNutrient(n, item.quantity, item.food).Finite?
      && shown.value == ToFixed0(CalculateNutrient(n, item.quantity, item.food).value)
  {
    match item.food
    case None => None
    case Some(f) =>
      if Truthy(NutrientOf(f, n)) && Truthy(f.servingSize) then
        var amount := item.quantity * NutrientOf(f, n).value / f.servingSize.value;
        assert CalculateNutrient(n, item.quantity, item.food).value == amount;
        Some(ToFixed0(amount))
      else None
  }

  /** A nutrient recorded as 0 is computed as 0 but never shown. */
  lemma ZeroNutrientHidden(item: MealItem, n: Nutrient)
    requires item.food.Some? && NutrientOf(item.food.value, n) == Some(0.0)
    requires Truthy(item.food.value.servingSize)
    ensures CalculateNutrient(n, item.quantity, item.food) == Finite(0.0)
    ensures Segment(item, n).None?
  {
  }

  /** `handleAddMeal`: the meal's id, or `''` when the slot has no meal yet,
      with the slot's type and the selected date. */
  function AddMealArgs(meal: Option<Meal>, slot: MealType, selectedDate: string): (args: (string, MealType, string))
    ensures meal.None? ==> args.0 == ""
    ensures meal.Some? ==> args.0 == meal.value.id
    ensures args.1 == slot && args.2 == selectedDate
  {
    (if meal.Some? then meal.value.id else "", slot, selectedDate)
  }

  /** `x.toFixed(0)` for any number: NaN and the infinities print their names. */
  function NumToFixed0(x: Num): (r: string)
    ensures x.Finite? ==> r == ToFixed0(x.value)
    ensures x == NaN ==> r == "NaN"
    ensures x.Infinite? ==> r == if x.positive then "Infinity" else "-Infinity"
  {
    match x
    case Finite(v) => ToFixed0(v)
    case NaN => "NaN"
    case Infinite(positive) => if positive then "Infinity" else "-Infinity"
  }

  /** Only a finite number prints as an optional sign and digits. */
  lemma FixedDigitsOnlyWhenFinite(x: Num)
    ensures (NumToFixed0(x) != [] && IsDigit(NumToFixed0(x)[|NumToFixed0(x)| - 1])) <==> x.Finite?
  {
    if x.Finite? {
      var r := NumToFixed0(x);
      var digits := if x.value < 0.0 then r[1..] else r;
      assert digits != [] by {
        if x.value < 0.0 { assert ToFixed0(x.value) == "-" + NatToString(Round(-x.value)); }
      }
      assert r[|r| - 1] == digits[|digits| - 1];
    }
  }

  /** A translation request: the key and the parameters passed to `t`. */
  datatype Message = Message(key: string, params: Option<seq<(string, I18n.ParamValue)>>)

  /** `mealStats`: the "no items" message without a meal; otherwise the item
      count and `totalCalories?.toFixed(0) ?? 0`: the total printed, which is
      `NaN` or an infinity for a meal with a serving size of 0, or the number 0
      when the meal has no total. */
  function MealStats(meal: Option<Meal>): (m: Message)
    ensures meal.None? <==> m == Message("home.no_items_added", None)
    ensures meal.Some? ==>
      && m.key == "home.items_calories" && m.params.Some? && |m.params.value| == 2
      && m.params.value[0] == ("count", I18n.Num(|meal.value.items|))
      && m.params.value[1].0 == "calories"
      && (meal.value.totalCalories.None? ==> m.params.value[1].1 == I18n.Num(0))
      && (meal.value.totalCalories.Some? ==> m.params.value[1].1 == I18n.Str(NumToFixed0(meal.value.totalCalories.value)))
  {
    match meal
    case None => Message("home.no_items_added", None)
    case Some(ml) =>
      var calories := if ml.totalCalories.Some? then I18n.Str(NumToFixed0(ml.totalCalories.value)) else I18n.Num(0);
      Message("home.items_calories", Some([("count", I18n.Num(|ml.items|)), ("calories", calories)]))
  }

  /** A meal without a total shows the same calories text as a total of 0. */
  lemma MissingTotalShowsZero(ml: Meal)
    requires ml.totalCalories.None?
    ensures var p := MealStats(Some(ml)).params.value[1].1;
      I18n.Stringify(p) == I18n.Stringify(MealStats(Some(ml.(totalCalories := Some(Finite(0.0))))).params.value[1].1)
  {
    assert Round(0.0) == 0;
    assert ToFixed0(0.0) == "0";
    assert I18n.Stringify(I18n.Num(0)) == "0";
  }
}
