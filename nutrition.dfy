/** Nutrition arithmetic over foods and meals (src/utils/nutrition.ts). */
module Nutrition {
  import opened Types
  import opened Text

  /** The four macro fields of a food. */
  datatype Macro = Calories | Proteins | Carbs | Fats

  function MacroOf(f: Food, m: Macro): Num {
    match m
    case Calories => f.calories
    case Proteins => f.proteins
    case Carbs => f.carbs
    case Fats => f.fats
  }

  /** `x || 0`: the number itself, or 0 when it is falsy. */
  function OrZero(x: Num): (r: int)
    ensures r == 0 <==> Falsy(x)
    ensures x.Finite? ==> r == x.n
  {
    if Falsy(x) then 0 else x.n
  }

  /**
   * The sum of one macro over `foods`, falsy values counted as 0, added
   * from the first food to the last as the source's reduce does.
   */
  function Sum(foods: seq<Food>, m: Macro): int {
    if foods == [] then 0 else Sum(foods[..|foods| - 1], m) + OrZero(MacroOf(foods[|foods| - 1], m))
  }

  datatype Totals = Totals(calories: int, proteins: int, carbs: int, fats: int)

  function Field(t: Totals, m: Macro): int {
    match m
    case Calories => t.calories
    case Proteins => t.proteins
    case Carbs => t.carbs
    case Fats => t.fats
  }

  function Add(a: Totals, b: Totals): Totals {
    Totals(a.calories + b.calories, a.proteins + b.proteins, a.carbs + b.carbs, a.fats + b.fats)
  }

  /** The per-macro totals of a food sequence: the specification of `CalculateMealTotals`. */
  function TotalsOf(foods: seq<Food>): (t: Totals)
    ensures forall m: Macro :: Field(t, m) == Sum(foods, m)
    ensures foods == [] ==> t == Totals(0, 0, 0, 0)
  {
    Totals(Sum(foods, Calories), Sum(foods, Proteins), Sum(foods, Carbs), Sum(foods, Fats))
  }

  /** `calculateMealTotals`: a fresh accumulator updated field by field, food by food. */
  method CalculateMealTotals(foods: seq<Food>) returns (acc: Totals)
    ensures acc == TotalsOf(foods)
  {
    var calories, proteins, carbs, fats := 0, 0, 0, 0;
    var i := 0;
    while i < |foods|
      invariant 0 <= i <= |foods|
      invariant calories == Sum(foods[..i], Calories)
      invariant proteins == Sum(foods[..i], Proteins)
      invariant carbs == Sum(foods[..i], Carbs)
      invariant fats == Sum(foods[..i], Fats)
    {
      var food := foods[i];
      assert foods[..i + 1][..i] == foods[..i];
      calories := calories + OrZero(food.calories);
      proteins := proteins + OrZero(food.proteins);
      carbs := carbs + OrZero(food.carbs);
      fats := fats + OrZero(food.fats);
      i := i + 1;
    }
    assert foods[..i] == foods;
    acc := Totals(calories, proteins, carbs, fats);
  }

  /** Sums are additive over concatenation. */
  lemma {:induction false} SumAppend(a: seq<Food>, b: seq<Food>, m: Macro)
    ensures Sum(a + b, m) == Sum(a, m) + Sum(b, m)
  {
    if b != [] {
      var b' := b[..|b| - 1];
      assert (a + b)[..|a + b| - 1] == a + b';
      SumAppend(a, b', m);
    } else {
      assert a + b == a;
    }
  }

  /** The totals of `a + b` are the field-wise sum of the totals of `a` and of `b`. */
  lemma TotalsAppend(a: seq<Food>, b: seq<Food>)
    ensures TotalsOf(a + b) == Add(TotalsOf(a), TotalsOf(b))
  {
    SumAppend(a, b, Calories);
    SumAppend(a, b, Proteins);
    SumAppend(a, b, Carbs);
    SumAppend(a, b, Fats);
  }

  /** `getFoodCalories`: the food's calories, or 0 when they are falsy. */
  function FoodCalories(food: Food): (r: int)
    ensures r == 0 <==> Falsy(food.calories)
    ensures food.calories.Finite? ==> r == food.calories.n
  {
    OrZero(food.calories)
  }

  /** The `getFoodCalories` reduce; it agrees with the calories field of the totals. */
  function SumCalories(foods: seq<Food>): (r: int)
    ensures r == Sum(foods, Calories)
  {
    if foods == [] then 0 else SumCalories(foods[..|foods| - 1]) + FoodCalories(foods[|foods| - 1])
  }

  /**
   * `calculateMealCalories`: the meal's foods reduced with `getFoodCalories`,
   * which is the calories field of `calculateMealTotals` on the same foods.
   */
  function MealCalories(meal: Meal): (r: int)
    ensures r == TotalsOf(meal.foods).calories
  {
    SumCalories(meal.foods)
  }

  /** A numeral left-padded with '0' to width 2 (`String(n).padStart(2, '0')`). */
  function Pad2(n: int): string {
    PadStart(IntString(n), 2, '0')
  }

  /**
   * `getTodayDateString` for the local date it reads: `year`, the zero-based
   * month `month0` and the day of the month `day`.
   */
  function TodayDateString(year: int, month0: int, day: int): string {
    IntString(year) + "-" + Pad2(month0 + 1) + "-" + Pad2(day)
  }

  /** Padding a number from 1 to 99 gives two digits that read back as the number. */
  lemma Pad2Digits(n: int)
    requires 1 <= n <= 99
    ensures |Pad2(n)| == 2 && IsDigits(Pad2(n)) && ParseDecimal(Pad2(n)) == n
  {
    var d := DecimalString(n);
    ParseDecimalString(n);
    PadStartShape(d, 2, '0');
    if n < 10 {
      assert Pad2(n) == "0" + d;
      ParseLeadingZero(d);
    } else {
      TwoDigits(n);
    }
  }

  /**
   * For a four-digit year and an in-range month and day the date string has
   * the `YYYY-MM-DD` shape, and its three fields read back as year, month and day.
   */
  lemma TodayDateStringShape(year: int, month0: int, day: int)
    requires 1000 <= year <= 9999 && 0 <= month0 <= 11 && 1 <= day <= 31
    ensures var r := TodayDateString(year, month0, day);
      && |r| == 10 && r[4] == '-' && r[7] == '-'
      && IsDigits(r[..4]) && IsDigits(r[5..7]) && IsDigits(r[8..])
      && ParseDecimal(r[..4]) == year
      && ParseDecimal(r[5..7]) == month0 + 1
      && ParseDecimal(r[8..]) == day
  {
    var y, mm, dd := IntString(year), Pad2(month0 + 1), Pad2(day);
    assert y == DecimalString(year);
    FourDigits(year);
    ParseDecimalString(year);
    Pad2Digits(month0 + 1);
    Pad2Digits(day);
    JoinDateFields(y, mm, dd);
    var r := y + "-" + mm + "-" + dd;
    assert r == TodayDateString(year, month0, day);
    assert r[..4] == y && ParseDecimal(y) == year && IsDigits(y);
  }

  /** Where the three fields sit in `y-mm-dd` when they are 4, 2 and 2 characters long. */
  lemma JoinDateFields(y: string, mm: string, dd: string)
    requires |y| == 4 && |mm| == 2 && |dd| == 2
    ensures var r := y + "-" + mm + "-" + dd;
      && |r| == 10 && r[4] == '-' && r[7] == '-'
      && r[..4] == y && r[5..7] == mm && r[8..] == dd
  {
  }
}
