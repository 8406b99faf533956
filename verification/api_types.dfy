/** The records the nutrition API exchanges (types/api.ts), with finite
    JavaScript numbers as mathematical reals, `Num` where a computed value may
    be an infinity or NaN, and optional fields as `Option`. */
module ApiTypes {
  import opened Wrappers
  import opened Text

  /** A food. The code tests each nutrient with `typeof … === 'number'`, so the
      nutrient fields are optional here even where the declared type is not. */
  datatype Food = Food(
    id: string,
    barcode: Option<string>,
    name: string,
    calories: Option<real>,
    carbs: Option<real>,
    fat: Option<real>,
    protein: Option<real>,
    servingSize: Option<real>,
    servingUnit: Option<string>,
    quantity: Option<real>,
    createdAt: string,
    updatedAt: string)

  /** One food logged in a meal; `food` is absent when the API did not join it. */
  datatype MealItem = MealItem(
    id: string,
    mealId: string,
    foodId: string,
    quantity: real,
    unit: string,
    createdAt: string,
    updatedAt: string,
    food: Option<Food>)

  datatype MealType = BREAKFAST | LUNCH | DINNER | SNACK

  datatype Meal = Meal(
    id: string,
    userId: string,
    mealType: MealType,
    date: string,
    createdAt: string,
    updatedAt: string,
    items: seq<MealItem>,
    totalCalories: Option<Num>)

  /** A user profile; the optional `goals` list is not read by the modelled code. */
  datatype User = User(id: string, email: string, name: string)

  datatype AuthResponse = AuthResponse(accessToken: string, user: User)

  datatype Nutrient = Calories | Carbs | Protein | Fat

  function NutrientOf(f: Food, n: Nutrient): Option<real> {
    match n
    case Calories => f.calories
    case Carbs => f.carbs
    case Protein => f.protein
    case Fat => f.fat
  }

  /** A JavaScript number: a finite value, an infinity of either sign, or NaN. */
  datatype Num = Finite(value: real) | Infinite(positive: bool) | NaN

  /** `n / d` on finite numbers: the quotient when `d` is not 0; otherwise an
      infinity with the sign of `n`, or NaN for `0 / 0`. */
  function Divide(n: real, d: real): (q: Num)
    ensures q.Finite? <==> d != 0.0
    ensures q.Finite? ==> q.value * d == n
    ensures q == NaN <==> d == 0.0 && n == 0.0
    ensures q.Infinite? ==> (q.positive <==> n > 0.0)
  {
    if d != 0.0 then Finite(n / d)
    else if n > 0.0 then Infinite(true)
    else if n < 0.0 then Infinite(false)
    else NaN
  }

  /** `a + b`: finite values add; NaN absorbs everything, an infinity absorbs
      finite values, and infinities of opposite signs give NaN. */
  function Add(a: Num, b: Num): (r: Num)
    ensures r.Finite? <==> a.Finite? && b.Finite?
    ensures r.Finite? ==> r.value == a.value + b.value
    ensures r == NaN <==> a == NaN || b == NaN || (a.Infinite? && b.Infinite? && a.positive != b.positive)
    ensures r.Infinite? ==> r == a || r == b
  {
    match (a, b)
    case (Finite(x), Finite(y)) => Finite(x + y)
    case (NaN, _) => NaN
    case (_, NaN) => NaN
    case (Infinite(p), Infinite(q)) => if p == q then a else NaN
    case (Infinite(_), Finite(_)) => a
    case (Finite(_), Infinite(_)) => b
  }

  /** The order of additions does not matter to the outcome. */
  lemma AddAssociative(a: Num, b: Num, c: Num)
    ensures Add(Add(a, b), c) == Add(a, Add(b, c))
  {
    if a.Finite? && b.Finite? && c.Finite? {
      assert (a.value + b.value) + c.value == a.value + (b.value + c.value);
    }
  }

  /** 0 is neutral on both sides. */
  lemma AddZero(a: Num)
    ensures Add(Finite(0.0), a) == a && Add(a, Finite(0.0)) == a
  {
  }

  /** JavaScript truthiness of a number: neither 0 nor NaN. */
  predicate NumTruthy(x: Num) {
    match x
    case Finite(v) => v != 0.0
    case Infinite(_) => true
    case NaN => false
  }

  /** `Math.round(x)`: the nearest integer, halves rounded up. */
  function Round(x: real): (r: int)
    ensures r as real - 0.5 <= x < r as real + 0.5
  {
    (x + 0.5).Floor
  }

  /** `Math.round` of a number: a finite value is rounded, an infinity and NaN
      come back unchanged. */
  function RoundNum(x: Num): (r: Num)
    ensures r.Finite? <==> x.Finite?
    ensures r.Finite? ==> r.value == r.value.Floor as real && r.value - 0.5 <= x.value < r.value + 0.5
    ensures !x.Finite? ==> r == x
  {
    if x.Finite? then Finite(Round(x.value) as real) else x
  }

  /** `date.toISOString().split('T')[0]`, given the ISO timestamp of the date:
      the `YYYY-MM-DD` part before the time. */
  function DateKey(iso: string): (key: string)
    ensures 'T' !in key
    ensures |key| <= |iso| && key == iso[..|key|]
    ensures |key| < |iso| ==> iso[|key|] == 'T'
  {
    PrefixBefore(iso, 'T')
  }

  /** The key of a timestamp is its date part. */
  lemma DateKeyOfTimestamp(day: string, time: string)
    requires 'T' !in day
    ensures DateKey(day + "T" + time) == day
  {
    PrefixBeforeRoundTrip(day, 'T', time);
  }
}
