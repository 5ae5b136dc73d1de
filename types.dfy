/** Optional values: JavaScript's `null`/`undefined` on one side, a present value on the other. */
module Wrappers {

  datatype Option<+T> = None | Some(value: T) {

    /** The value, or `default` when absent (JavaScript `x ?? default`). */
    function GetOr(default: T): T {
      match this
      case Some(v) => v
      case None => default
    }
  }

  /** A value, or the message of the error the source throws. */
  datatype Outcome<+T> = Done(value: T) | Failed(message: string)
}

/** The shared value shapes of the meal tracker (src/types.ts). */
module Types {
  import opened Wrappers

  /** The closed set of meal-type labels. */
  datatype MealType = PetitDejeuner | Dejeuner | Diner | Snack

  /**
   * A JavaScript number as the model sees it: an integer, or NaN.
   * Fractions and infinities are not modelled.
   */
  datatype Num = Finite(n: int) | NaN

  /** JavaScript truthiness of a number: 0 and NaN are falsy. */
  predicate Falsy(x: Num) {
    x == Finite(0) || x == NaN
  }

  datatype Food = Food(
    id: string,
    name: string,
    brand: string,
    imageUrl: string,
    nutriscore: string,
    calories: Num,
    proteins: Num,
    carbs: Num,
    fats: Num)

  datatype Meal = Meal(id: string, name: MealType, date: string, foods: seq<Food>)

  /** The meal under construction; its name is unset until the user picks a type. */
  datatype DraftMeal = DraftMeal(name: Option<MealType>, foods: seq<Food>)

  function FoodId(f: Food): string { f.id }

  function MealId(m: Meal): string { m.id }
}
