/**
 * The meal state manager (`MealsProvider` in src/context/MealsContext.tsx):
 * the meal list, the daily goal, the draft meal and the `hydrated` flag, the
 * one-time load from on-device storage and the write-back that follows every
 * change once the load has completed.
 *
 * Each operation is one atomic step on the current state. The key-value store
 * is a ghost map holding decoded records; the clock is a parameter.
 */
module MealsContext {
  import opened Wrappers
  import opened Types
  import opened Text
  import Nutrition

  /** Storage keys (src/storage/storage.ts). */
  const MealsKey := "meals"
  const GoalKey := "dailyCalorieGoal"

  /** A record of the key-value store, in decoded form. */
  datatype Stored = MealsRecord(meals: seq<Meal>) | GoalRecord(goal: int)

  type Store = map<string, Stored>

  /** `setMeals`: the whole list replaces whatever the meals key held. */
  function SaveMeals(store: Store, meals: seq<Meal>): (s: Store)
    ensures MealsKey in s && s[MealsKey] == MealsRecord(meals)
    ensures forall k :: k != MealsKey ==> (k in s <==> k in store) && (k in s ==> s[k] == store[k])
  {
    store[MealsKey := MealsRecord(meals)]
  }

  /** `setDailyGoal`: a goal is written under its key; a null goal removes the key. */
  function SaveGoal(store: Store, goal: Option<int>): (s: Store)
    ensures goal.None? ==> GoalKey !in s
    ensures goal.Some? ==> GoalKey in s && s[GoalKey] == GoalRecord(goal.value)
    ensures forall k :: k != GoalKey ==> (k in s <==> k in store) && (k in s ==> s[k] == store[k])
  {
    if goal.None? then store - {GoalKey} else store[GoalKey := GoalRecord(goal.value)]
  }

  /** What one reading of the clock gives: `Date.now()` and the local calendar date. */
  datatype Instant = Instant(millis: int, year: int, month0: int, day: int)

  /** The outcome of reading both records at start-up. */
  datatype LoadResult = Loaded(meals: seq<Meal>, goal: Option<int>) | LoadFailed

  const EmptyDraft := DraftMeal(None, [])

  /**
   * `s.filter(x => idOf(x) !== id)`: every element with that id is dropped,
   * the others keep their order.
   */
  function WithoutId<T(!new)>(s: seq<T>, idOf: T -> string, id: string): (r: seq<T>)
    ensures |r| <= |s|
    ensures forall x :: x in r <==> x in s && idOf(x) != id
    ensures (forall i :: 0 <= i < |s| ==> idOf(s[i]) != id) ==> r == s
  {
    if s == [] then [] else (if idOf(s[0]) != id then [s[0]] else []) + WithoutId(s[1..], idOf, id)
  }

  /** Filtering a concatenation filters each part: the kept elements stay in their order. */
  lemma {:induction false} WithoutIdAppend<T(!new)>(a: seq<T>, b: seq<T>, idOf: T -> string, id: string)
    ensures WithoutId(a + b, idOf, id) == WithoutId(a, idOf, id) + WithoutId(b, idOf, id)
  {
    if a != [] {
      assert (a + b)[1..] == a[1..] + b;
      WithoutIdAppend(a[1..], b, idOf, id);
    } else {
      assert a + b == b;
    }
  }

  /** Removing an id a second time changes nothing. */
  lemma WithoutIdIdempotent<T(!new)>(s: seq<T>, idOf: T -> string, id: string)
    ensures WithoutId(WithoutId(s, idOf, id), idOf, id) == WithoutId(s, idOf, id)
  {
    var r := WithoutId(s, idOf, id);
    assert forall i :: 0 <= i < |r| ==> r[i] in r;
  }

  /**
   * `s.filter((_, i) => i !== index)`: exactly the element at `index` is
   * dropped, whatever the other elements hold; an index outside the
   * sequence drops nothing.
   */
  function RemoveAt<T>(s: seq<T>, index: int): (r: seq<T>)
    ensures 0 <= index < |s| ==> r == s[..index] + s[index + 1..]
    ensures !(0 <= index < |s|) ==> r == s
  {
    if s == [] then [] else (if index == 0 then [] else [s[0]]) + RemoveAt(s[1..], index - 1)
  }

  /** The new food list of `removeFoodFromDraft(foodId, index)`. */
  function RemoveFood(foods: seq<Food>, foodId: string, index: Option<int>): (r: seq<Food>)
    ensures index.Some? && 0 <= index.value < |foods| ==>
      |r| == |foods| - 1 && r == foods[..index.value] + foods[index.value + 1..]
    ensures index.Some? && !(0 <= index.value < |foods|) ==> r == foods
    ensures index.None? ==> r == WithoutId(foods, FoodId, foodId)
    ensures index.None? ==> forall f :: f in r <==> f in foods && f.id != foodId
  {
    if index.Some? then RemoveAt(foods, index.value) else WithoutId(foods, FoodId, foodId)
  }

  /**
   * The meal `addMealFromDraft` creates: none unless the draft has a name and
   * at least one food; otherwise one stamped with the clock's milliseconds as
   * its id and today's date, carrying the draft's name and foods.
   */
  function PromoteDraft(draft: DraftMeal, now: Instant): (r: Option<Meal>)
    ensures r.None? <==> draft.name.None? || draft.foods == []
    ensures r.Some? ==>
      && r.value.id == IntString(now.millis)
      && r.value.name == draft.name.value
      && r.value.date == Nutrition.TodayDateString(now.year, now.month0, now.day)
      && r.value.foods == draft.foods
  {
    if draft.name.None? || |draft.foods| == 0 then None
    else Some(Meal(IntString(now.millis), draft.name.value,
                   Nutrition.TodayDateString(now.year, now.month0, now.day), draft.foods))
  }

  /** The state container the app shares between its screens. */
  class MealsProvider {
    var meals: seq<Meal>
    var goal: Option<int>
    var hydrated: bool
    var draftMeal: DraftMeal
    /** False once the provider is torn down; a load completing after that is ignored. */
    var mounted: bool
    /** The on-device key-value store. */
    ghost var store: Store
    /**
     * Whether the one start-up load has settled, by success or failure. The
     * load starts once per mount, so a failed load is never retried.
     */
    ghost var loadSettled: bool

    /** The store holds exactly the in-memory meal list and goal. */
    ghost predicate Synced()
      reads this
    {
      && MealsKey in store && store[MealsKey] == MealsRecord(meals)
      && (goal.None? ==> GoalKey !in store)
      && (goal.Some? ==> GoalKey in store && store[GoalKey] == GoalRecord(goal.value))
    }

    /** Hydration follows the load; once hydrated, every change has been written back. */
    ghost predicate Valid()
      reads this
    {
      && (hydrated ==> loadSettled)
      && (hydrated ==> Synced())
    }

    /** The provider as it is first rendered, over whatever the store already holds. */
    constructor (ghost persisted: Store)
      ensures Valid()
      ensures meals == [] && goal == None && !hydrated && draftMeal == EmptyDraft && mounted
      ensures store == persisted && !loadSettled
    {
      meals := [];
      goal := None;
      hydrated := false;
      draftMeal := EmptyDraft;
      mounted := true;
      store := persisted;
      loadSettled := false;
    }

    /**
     * The completion of the start-up load. When the provider is still
     * mounted and both records were read, meals and goal take the loaded
     * values, `hydrated` turns true, and the two write-back effects that
     * this enables store both values. A read that failed, or a provider torn
     * down meanwhile, leaves everything as it was. Either way the load has
     * settled and does not complete again.
     */
    method Hydrate(loaded: LoadResult)
      requires Valid() && !loadSettled
      modifies this
      ensures Valid() && loadSettled
      ensures draftMeal == old(draftMeal) && mounted == old(mounted)
      ensures old(mounted) && loaded.Loaded? ==>
        && meals == loaded.meals && goal == loaded.goal && hydrated
        && store == SaveGoal(SaveMeals(old(store), loaded.meals), loaded.goal)
      ensures !(old(mounted) && loaded.Loaded?) ==>
        meals == old(meals) && goal == old(goal) && !hydrated && store == old(store)
    {
      if mounted && loaded.Loaded? {
        meals := loaded.meals;
        goal := loaded.goal;
        hydrated := true;
        store := SaveGoal(SaveMeals(store, meals), goal);
      }
      loadSettled := true;
    }

    /**
     * The provider is torn down (the effect's cleanup). Only a pending load
     * can still complete afterwards; every other operation requires `mounted`.
     */
    method Unmount()
      requires Valid()
      modifies this
      ensures Valid()
      ensures !mounted
      ensures meals == old(meals) && goal == old(goal) && hydrated == old(hydrated)
      ensures draftMeal == old(draftMeal) && store == old(store) && loadSettled == old(loadSettled)
    {
      mounted := false;
    }

    /** `setGoal`: any value, null included, replaces the goal. */
    method SetGoal(value: Option<int>)
      requires Valid() && mounted
      modifies this
      ensures Valid() && loadSettled == old(loadSettled)
      ensures goal == value
      ensures meals == old(meals) && hydrated == old(hydrated)
      ensures draftMeal == old(draftMeal) && mounted == old(mounted)
      ensures store == if old(hydrated) then SaveGoal(old(store), value) else old(store)
    {
      goal := value;
      if hydrated {
        store := SaveGoal(store, goal);
      }
    }

    /** `removeMeal`: every meal with that id goes; the rest keep their order. */
    method RemoveMeal(mealId: string)
      requires Valid() && mounted
      modifies this
      ensures Valid() && loadSettled == old(loadSettled)
      ensures meals == WithoutId(old(meals), MealId, mealId)
      ensures forall m :: m in meals <==> m in old(meals) && m.id != mealId
      ensures goal == old(goal) && hydrated == old(hydrated)
      ensures draftMeal == old(draftMeal) && mounted == old(mounted)
      ensures store == if old(hydrated) then SaveMeals(old(store), meals) else old(store)
    {
      meals := WithoutId(meals, MealId, mealId);
      if hydrated {
        store := SaveMeals(store, meals);
      }
    }

    /** `setDraftMealName`: only the draft's name changes. */
    method SetDraftMealName(name: MealType)
      requires Valid() && mounted
      modifies this
      ensures Valid() && loadSettled == old(loadSettled)
      ensures draftMeal == DraftMeal(Some(name), old(draftMeal).foods)
      ensures meals == old(meals) && goal == old(goal) && hydrated == old(hydrated)
      ensures mounted == old(mounted) && store == old(store)
    {
      draftMeal := draftMeal.(name := Some(name));
    }

    /** `addFoodToDraft`: the food is appended, duplicates included; the name stays. */
    method AddFoodToDraft(food: Food)
      requires Valid() && mounted
      modifies this
      ensures Valid() && loadSettled == old(loadSettled)
      ensures draftMeal.name == old(draftMeal).name
      ensures draftMeal.foods == old(draftMeal).foods + [food]
      ensures meals == old(meals) && goal == old(goal) && hydrated == old(hydrated)
      ensures mounted == old(mounted) && store == old(store)
    {
      draftMeal := draftMeal.(foods := draftMeal.foods + [food]);
    }

    /**
     * `removeFoodFromDraft`: with an index, the food at that position (none
     * when out of range); without one, every food with that id. The name stays.
     */
    method RemoveFoodFromDraft(foodId: string, index: Option<int>)
      requires Valid() && mounted
      modifies this
      ensures Valid() && loadSettled == old(loadSettled)
      ensures draftMeal.name == old(draftMeal).name
      ensures draftMeal.foods == RemoveFood(old(draftMeal).foods, foodId, index)
      ensures meals == old(meals) && goal == old(goal) && hydrated == old(hydrated)
      ensures mounted == old(mounted) && store == old(store)
    {
      draftMeal := draftMeal.(foods := RemoveFood(draftMeal.foods, foodId, index));
    }

    /** `resetDraftMeal`: the draft becomes empty and unnamed. */
    method ResetDraftMeal()
      requires Valid() && mounted
      modifies this
      ensures Valid() && loadSettled == old(loadSettled)
      ensures draftMeal == EmptyDraft
      ensures meals == old(meals) && goal == old(goal) && hydrated == old(hydrated)
      ensures mounted == old(mounted) && store == old(store)
    {
      draftMeal := EmptyDraft;
    }

    /**
     * `addMealFromDraft`: an incomplete draft gives null and changes nothing;
     * otherwise the new meal heads the list, the draft is reset, and the meal
     * is returned.
     */
    method AddMealFromDraft(now: Instant) returns (meal: Option<Meal>)
      requires Valid() && mounted
      modifies this
      ensures Valid() && loadSettled == old(loadSettled)
      ensures meal == PromoteDraft(old(draftMeal), now)
      ensures meal.None? ==>
        && meals == old(meals) && draftMeal == old(draftMeal) && store == old(store)
      ensures meal.Some? ==>
        && meals == [meal.value] + old(meals)
        && draftMeal == EmptyDraft
        && store == if old(hydrated) then SaveMeals(old(store), meals) else old(store)
      ensures goal == old(goal) && hydrated == old(hydrated) && mounted == old(mounted)
    {
      meal := PromoteDraft(draftMeal, now);
      if meal.Some? {
        meals := [meal.value] + meals;
        draftMeal := EmptyDraft;
        if hydrated {
          store := SaveMeals(store, meals);
        }
      }
    }
  }
}

/** A client of the provider: a two-food lunch is recorded and its calories add up. */
module MealsScenario {
  import opened Wrappers
  import opened Types
  import opened MealsContext
  import Nutrition

  method RecordLunch(ghost persisted: Store, now: Instant)
  {
    var p := new MealsProvider(persisted);
    p.Hydrate(Loaded([], Some(2000)));
    assert p.hydrated && p.goal == Some(2000);
    var a := Food("a", "Pomme", "Marque", "", "a", Finite(200), Finite(1), Finite(25), Finite(0));
    var b := Food("b", "Pain", "Marque", "", "b", Finite(150), Finite(5), Finite(30), Finite(2));
    var early := p.AddMealFromDraft(now);
    assert early.None?;
    p.SetDraftMealName(Dejeuner);
    p.AddFoodToDraft(a);
    p.AddFoodToDraft(b);
    var meal := p.AddMealFromDraft(now);
    assert meal.Some? && meal.value.foods == [a, b];
    assert p.meals == [meal.value] && p.draftMeal == EmptyDraft;
    assert p.store[MealsKey] == MealsRecord([meal.value]);
    var totals := Nutrition.CalculateMealTotals(meal.value.foods);
    assert [a, b][..1] == [a] && [a][..0] == [];
    assert Nutrition.Sum([a], Nutrition.Calories) == 200;
    assert totals.calories == 350;
  }

  /** A failed start-up load leaves the provider un-hydrated: later changes are never written back. */
  method FailedLoad(ghost persisted: Store)
  {
    var p := new MealsProvider(persisted);
    p.Hydrate(LoadFailed);
    p.SetGoal(Some(1800));
    p.SetDraftMealName(Diner);
    assert p.goal == Some(1800) && !p.hydrated && p.store == persisted;
  }
}
