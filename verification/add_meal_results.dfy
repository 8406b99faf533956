/** The review screen of app/add-meal/results.tsx: the detected foods with
    their nutrition totals, removal of one food, editing of a quantity, the
    titles shown, and when the confirm button is enabled. */
module AddMealResults {
  import opened Wrappers
  import opened Text
  import opened ApiTypes

  /** The four totals shown in the summary. */
  datatype Totals = Totals(calories: real, protein: real, carbs: real, fat: real)

  function Plus(a: Totals, b: Totals): Totals {
    Totals(a.calories + b.calories, a.protein + b.protein, a.carbs + b.carbs, a.fat + b.fat)
  }

  const Zero := Totals(0.0, 0.0, 0.0, 0.0)

  /** What one food adds: each value, or 0 where it is missing (`?? 0`). */
  function Contribution(f: Food): Totals {
    Totals(f.calories.GetOr(0.0), f.protein.GetOr(0.0), f.carbs.GetOr(0.0), f.fat.GetOr(0.0))
  }

  /** `getTotalNutrition`: the `reduce` from the first food to the last. */
  function TotalNutrition(items: seq<Food>): Totals {
    if items == [] then Zero else Plus(TotalNutrition(items[..|items| - 1]), Contribution(items[|items| - 1]))
  }

  /** The totals of a list are the totals of its parts added up. */
  lemma {:induction false} TotalNutritionSplit(a: seq<Food>, b: seq<Food>)
    ensures TotalNutrition(a + b) == Plus(TotalNutrition(a), TotalNutrition(b))
  {
    if b == [] {
      assert a + b == a;
    } else {
      var b', last := b[..|b| - 1], b[|b| - 1];
      assert (a + b)[..|a + b| - 1] == a + b';
      assert (a + b)[|a + b| - 1] == last;
      TotalNutritionSplit(a, b');
      PlusAssociative(TotalNutrition(a), TotalNutrition(b'), Contribution(last));
    }
  }

  lemma PlusAssociative(x: Totals, y: Totals, z: Totals)
    ensures Plus(Plus(x, y), z) == Plus(x, Plus(y, z))
  {
  }

  /** A list of foods with no values at all totals to zero. */
  lemma {:induction false} NoValuesTotalZero(items: seq<Food>)
    requires forall i :: 0 <= i < |items| ==>
      items[i].calories.None? && items[i].protein.None? && items[i].carbs.None? && items[i].fat.None?
    ensures TotalNutrition(items) == Zero
  {
    if items != [] {
      NoValuesTotalZero(items[..|items| - 1]);
    }
  }

  /** `mealItems.filter((_, i) => i !== index)` */
  function RemoveAt<T>(s: seq<T>, index: int): (r: seq<T>)
    ensures 0 <= index < |s| ==> |r| == |s| - 1
    ensures !(0 <= index < |s|) ==> r == s
    ensures forall j :: 0 <= j < |r| && j < index ==> r[j] == s[j]
    ensures 0 <= index < |s| ==> forall j :: index <= j < |r| ==> r[j] == s[j + 1]
  {
    if 0 <= index < |s| then s[..index] + s[index + 1..] else s
  }

  /** Removing a food takes exactly that food's values off the totals. */
  lemma RemoveAtTotals(items: seq<Food>, index: int)
    requires 0 <= index < |items|
    ensures Plus(TotalNutrition(RemoveAt(items, index)), Contribution(items[index])) == TotalNutrition(items)
  {
    var before, item, after := items[..index], items[index], items[index + 1..];
    assert RemoveAt(items, index) == before + after;
    assert items == (before + [item]) + after;
    TotalNutritionSplit(before + [item], after);
    TotalNutritionSplit(before, [item]);
    TotalNutritionSplit(before, after);
    assert [item][..0] == [];
    assert TotalNutrition([item]) == Plus(Zero, Contribution(item));
    SwapLast(TotalNutrition(before), TotalNutrition(after), Contribution(item));
  }

  lemma SwapLast(x: Totals, y: Totals, z: Totals)
    ensures Plus(Plus(x, y), z) == Plus(Plus(x, Plus(Zero, z)), y)
  {
  }

  /** The quantity an edit stores: the first `,` read as a decimal point, then
      `parseFloat`, with NaN (and 0) giving 0. */
  function QuantityFromText(text: string): real {
    match ParseFloat(ReplaceFirstChar(text, ',', '.'))
    case Some(v) => v
    case None => 0.0
  }

  /** A decimal comma is accepted: `12,5` is 12.5. */
  lemma DecimalCommaAccepted(whole: string, frac: string)
    requires whole != [] && AllDigits(whole) && AllDigits(frac)
    ensures QuantityFromText(whole + "," + frac) == DecimalValue(whole, frac)
  {
    var s := whole + "," + frac;
    assert s[|whole|] == ',';
    assert ',' !in whole by {
      forall k | 0 <= k < |whole| ensures whole[k] != ',' {
        assert IsDigit(whole[k]);
      }
    }
    var r := ReplaceFirstChar(s, ',', '.');
    var i :| 0 <= i < |s| && s[i] == ',' && ',' !in s[..i] && r == s[i := '.'];
    assert i == |whole|;
    assert r == whole + "." + frac;
    DecimalParses(whole, frac);
  }

  /** Text that is not a number stores 0. */
  lemma LettersGiveZero()
    ensures QuantityFromText("abc") == 0.0
  {
    var s := "abc";
    assert ',' !in s;
    assert ReplaceFirstChar(s, ',', '.') == s;
    assert !IsWhitespace(s[0]) && SpaceEnd(s, 0) == 0;
    assert TrimStart(s) == s;
    assert !IsDigit(s[0]) && s[0] != '.' && s[0] != '-' && s[0] != '+';
    assert ParseFloat(s) == None;
  }

  /** `getMethodTitle` */
  function MethodTitle(via: string): (title: string)
    ensures via == "barcode" <==> title == "Scanned Product"
    ensures via == "camera" <==> title == "Photo Analysis"
    ensures via == "description" <==> title == "Text Analysis"
    ensures via != "barcode" && via != "camera" && via != "description" <==> title == "Analysis Results"
  {
    match via
    case "barcode" => "Scanned Product"
    case "camera" => "Photo Analysis"
    case "description" => "Text Analysis"
    case _ => "Analysis Results"
  }

  /** `getMealLabel`: the type with its first letter in upper case; a missing
      or empty type gives `Meal`. */
  function MealLabel(mealType: Option<string>): (shown: string)
    ensures mealType.None? || mealType.value == "" ==> shown == "Meal"
    ensures mealType.Some? && mealType.value != "" ==>
      |shown| == |mealType.value| && shown[0] == ToUpper(mealType.value[0]) && shown[1..] == mealType.value[1..]
  {
    if mealType.None? || mealType.value == "" then "Meal"
    else [ToUpper(mealType.value[0])] + mealType.value[1..]
  }

  /** The route's types are already upper case and come back unchanged. */
  lemma UpperCaseTypeUnchanged(t: string)
    requires t != [] && !('a' <= t[0] <= 'z')
    ensures MealLabel(Some(t)) == t
  {
  }

  /** The confirm button: disabled while loading or when nothing is left. */
  function ConfirmEnabled(loading: bool, items: seq<Food>): (enabled: bool)
    ensures enabled <==> !loading && |items| > 0
  {
    !(loading || |items| == 0)
  }

  /** The screen's food list and loading flag. */
  class ResultsScreen {
    var items: seq<Food>
    var loading: bool

    constructor (parsed: seq<Food>)
      ensures items == parsed && !loading
    {
      items := parsed;
      loading := false;
    }

    /** `handleRemoveItem`; `emptied` is when the "no items" prompt appears. */
    method RemoveItem(index: int) returns (emptied: bool)
      modifies this`items
      ensures items == RemoveAt(old(items), index)
      ensures emptied <==> items == []
    {
      items := RemoveAt(items, index);
      emptied := |items| == 0;
    }

    /** The quantity field's change handler: only the edited food's quantity
        changes. */
    method EditQuantity(index: int, text: string)
      requires 0 <= index < |items|
      modifies this`items
      ensures |items| == |old(items)|
      ensures items[index] == old(items)[index].(quantity := Some(QuantityFromText(text)))
      ensures forall j :: 0 <= j < |items| && j != index ==> items[j] == old(items)[j]
    {
      var edited := items[index].(quantity := Some(QuantityFromText(text)));
      items := items[index := edited];
    }

    /** `handleConfirm` with the API's answer: `Some(b)` when the call settles,
        `b` being whether its value is truthy, and `None` when it rejects. The
        foods go to the meal `mealId || ''`. A settled call ends loading and
        continues to the home screen only when accepted; a rejection escapes the
        handler, which has no `finally`, so loading stays on. */
    method Confirm(mealId: Option<string>, answer: Option<bool>) returns (target: string, sent: seq<Food>, added: bool)
      modifies this`loading
      ensures target == mealId.GetOr("") && sent == items
      ensures added <==> answer == Some(true)
      ensures loading <==> answer.None?
    {
      loading := true;
      target := mealId.GetOr("");
      sent := items;
      if answer.None? {
        added := false;
        return;
      }
      added := answer.value;
      loading := false;
    }
  }
}
