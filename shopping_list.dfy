/** The shopping list of the `/shopping-list` route: every planned meal's
    ingredient string is split on commas and trimmed, the tokens are collected
    day by day and slot by slot, and the collection is reduced to its distinct
    values in order of first occurrence, as `[...new Set(tokens)]` does. */
module ShoppingList {
  import opened MealModel
  import opened JsStrings
  import opened WeeklyPlan
  import opened SeqFacts

  /** `meal && meal.ingredients`: the slot holds a meal whose ingredient string is
      present and non-empty. */
  predicate HasIngredients(o: Option<Meal>)
  {
    o.Some? && o.value.ingredients.Some? && o.value.ingredients.value != ""
  }

  /** What one slot adds to the running list:
      `meal.ingredients.split(",").map(i => i.trim())`, or nothing. A slot adds no
      token exactly when its meal is missing or has no ingredient text. */
  function MealTokens(o: Option<Meal>): (r: seq<string>)
    ensures r == [] <==> !HasIngredients(o)
  {
    if HasIngredients(o) then IngredientTokens(o.value.ingredients.value) else []
  }

  /** `text.split(",").map(i => i.trim())`: at least one token, even for text
      without a comma. */
  function IngredientTokens(text: string): (r: seq<string>)
    ensures |r| >= 1
  {
    TrimAll(Split(text, ','))
  }

  /** Every token a slot adds is trimmed. */
  lemma MealTokensTrimmed(o: Option<Meal>)
    ensures forall k :: 0 <= k < |MealTokens(o)| ==> IsTrimmed(MealTokens(o)[k])
  {
    if HasIngredients(o) {
      var tokens := Split(o.value.ingredients.value, ',');
      assert MealTokens(o) == TrimAll(tokens);
      forall k | 0 <= k < |tokens| ensures IsTrimmed(TrimAll(tokens)[k]) {
        TrimAllAt(tokens, k);
      }
    }
  }

  /** `[day.breakfast, day.lunch, day.dinner]`. */
  function SlotMeals(e: Entry): seq<Option<Meal>>
  {
    [e.breakfast, e.lunch, e.dinner]
  }

  /** The tokens the slots add, in slot order. */
  function SlotsTokens(slots: seq<Option<Meal>>): seq<string>
  {
    if slots == [] then [] else SlotsTokens(slots[..|slots| - 1]) + MealTokens(slots[|slots| - 1])
  }

  /** The tokens one day adds: breakfast's, then lunch's, then dinner's. */
  function EntryTokens(e: Entry): seq<string>
  {
    MealTokens(e.breakfast) + MealTokens(e.lunch) + MealTokens(e.dinner)
  }

  /** The final value of `allIngredients`: the days' tokens in day order. */
  function AllTokens(plan: seq<Entry>): seq<string>
  {
    if plan == [] then [] else AllTokens(plan[..|plan| - 1]) + EntryTokens(plan[|plan| - 1])
  }

  /** Pushing the three slots' tokens one after the other adds the day's tokens. */
  lemma SlotsTokensOfDay(e: Entry)
    ensures SlotsTokens(SlotMeals(e)) == EntryTokens(e)
  {
    var slots := SlotMeals(e);
    assert slots[..2] == [e.breakfast, e.lunch];
    assert slots[..2][..1] == [e.breakfast];
    assert slots[..2][..1][..0] == [];
    assert SlotsTokens([e.breakfast]) == MealTokens(e.breakfast);
  }

  /** The running list of a plan is the running list of its first days followed by
      that of the rest. */
  lemma {:induction false} AllTokensAppend(plan: seq<Entry>, more: seq<Entry>)
    ensures AllTokens(plan + more) == AllTokens(plan) + AllTokens(more)
    decreases |more|
  {
    if more == [] {
      assert plan + more == plan;
    } else {
      var init := more[..|more| - 1];
      assert (plan + more)[..|plan + more| - 1] == plan + init;
      AllTokensAppend(plan, init);
      ConcatAssoc(AllTokens(plan), AllTokens(init), EntryTokens(more[|more| - 1]));
    }
  }

  /** `x` is a token of the meal in some slot of day `e`. */
  ghost predicate TokenOfDay(e: Entry, x: string)
  {
    exists s :: x in MealTokens(e.At(s))
  }

  /** `x` is among the tokens of some day of the plan. */
  ghost predicate TokenOfPlan(plan: seq<Entry>, x: string)
  {
    exists d :: 0 <= d < |plan| && x in EntryTokens(plan[d])
  }

  /** A day's tokens are the tokens of its three slots. */
  lemma EntryTokensMembership(e: Entry, x: string)
    ensures x in EntryTokens(e) <==> TokenOfDay(e, x)
  {
    assert e.At(Breakfast) == e.breakfast;
    assert e.At(Lunch) == e.lunch;
    assert e.At(Dinner) == e.dinner;
  }

  /** A token of a plan is a token of the meal in some slot of one of its days,
      and every such token is a token of the plan. */
  lemma TokenOfPlanSlots(plan: seq<Entry>, x: string)
    ensures TokenOfPlan(plan, x) <==> exists d :: 0 <= d < |plan| && TokenOfDay(plan[d], x)
  {
    if TokenOfPlan(plan, x) {
      var d :| 0 <= d < |plan| && x in EntryTokens(plan[d]);
      EntryTokensMembership(plan[d], x);
    }
    if exists d :: 0 <= d < |plan| && TokenOfDay(plan[d], x) {
      var d :| 0 <= d < |plan| && TokenOfDay(plan[d], x);
      EntryTokensMembership(plan[d], x);
    }
  }

  /** A token of a non-empty plan is a token of its earlier days or of its last day. */
  lemma TokenOfPlanLastDay(plan: seq<Entry>, x: string)
    requires plan != []
    ensures TokenOfPlan(plan, x) <==>
      TokenOfPlan(plan[..|plan| - 1], x) || x in EntryTokens(plan[|plan| - 1])
  {
    SomeOfLast(plan, EntryTokens, x);
    assert TokenOfPlan(plan, x) <==> SomeOf(plan, EntryTokens, x);
    assert TokenOfPlan(plan[..|plan| - 1], x) <==> SomeOf(plan[..|plan| - 1], EntryTokens, x);
  }

  /** The running list holds exactly the tokens of the planned days. */
  lemma {:induction false} AllTokensMembership(plan: seq<Entry>, x: string)
    ensures x in AllTokens(plan) <==> TokenOfPlan(plan, x)
    decreases |plan|
  {
    if plan != [] {
      var init := plan[..|plan| - 1];
      AllTokensMembership(init, x);
      TokenOfPlanLastDay(plan, x);
    }
  }

  /** Every token in the running list is trimmed. */
  lemma {:induction false} AllTokensTrimmed(plan: seq<Entry>)
    ensures forall k :: 0 <= k < |AllTokens(plan)| ==> IsTrimmed(AllTokens(plan)[k])
    decreases |plan|
  {
    if plan != [] {
      AllTokensTrimmed(plan[..|plan| - 1]);
      var e := plan[|plan| - 1];
      MealTokensTrimmed(e.breakfast);
      MealTokensTrimmed(e.lunch);
      MealTokensTrimmed(e.dinner);
    }
  }

  /** The consolidation loops of the route: `allIngredients` starts empty and each
      day, then each of its slots, pushes that slot's trimmed tokens. */
  method Consolidate(plan: seq<Entry>) returns (all: seq<string>)
    ensures all == AllTokens(plan)
  {
    all := [];
    var d := 0;
    while d < |plan|
      invariant 0 <= d <= |plan|
      invariant all == AllTokens(plan[..d])
    {
      assert plan[..d + 1][..d] == plan[..d];
      all := PushDayTokens(all, plan[d]);
      d := d + 1;
    }
    assert plan[..d] == plan;
  }

  /** The inner loop: push the tokens of one day's breakfast, lunch and dinner. */
  method PushDayTokens(all: seq<string>, e: Entry) returns (all': seq<string>)
    ensures all' == all + EntryTokens(e)
  {
    all' := all;
    var slots := SlotMeals(e);
    var k := 0;
    while k < |slots|
      invariant 0 <= k <= |slots|
      invariant all' == all + SlotsTokens(slots[..k])
    {
      assert slots[..k + 1][..k] == slots[..k];
      ConcatAssoc(all, SlotsTokens(slots[..k]), MealTokens(slots[k]));
      if HasIngredients(slots[k]) {
        all' := all' + IngredientTokens(slots[k].value.ingredients.value);
      }
      k := k + 1;
    }
    assert slots[..k] == slots;
    SlotsTokensOfDay(e);
  }

  /** No value occurs twice in `s`. */
  predicate NoDuplicates<T(==)>(s: seq<T>)
  {
    forall i, j :: 0 <= i < j < |s| ==> s[i] != s[j]
  }

  /** `[...new Set(xs)]`: the distinct values of `xs`, each kept where it first
      occurs. No value occurs twice, and the values are exactly those of `xs`. */
  function Dedup(xs: seq<string>): (r: seq<string>)
    ensures NoDuplicates(r)
    ensures forall x :: x in r <==> x in xs
  {
    if xs == [] then []
    else
      var init := xs[..|xs| - 1];
      var last := xs[|xs| - 1];
      assert xs == init + [last];
      var d := Dedup(init);
      if last in d then d else d + [last]
  }

  /** The index of the first occurrence of `x` in `xs`. */
  function FirstIndex<T(==)>(xs: seq<T>, x: T): (i: nat)
    requires x in xs
    ensures i < |xs| && xs[i] == x && x !in xs[..i]
  {
    if xs[0] == x then 0
    else
      var i := FirstIndex(xs[1..], x);
      assert xs[..i + 1] == [xs[0]] + xs[1..][..i];
      i + 1
  }

  /** An index holding `x` with no `x` before it is the first index of `x`. */
  lemma FirstIndexUnique<T>(xs: seq<T>, x: T, i: nat)
    requires i < |xs| && xs[i] == x && x !in xs[..i]
    ensures FirstIndex(xs, x) == i
  {
  }

  /** Appending to a sequence moves no first occurrence of a value already there. */
  lemma FirstIndexAppend<T>(xs: seq<T>, last: T, x: T)
    requires x in xs
    ensures FirstIndex(xs + [last], x) == FirstIndex(xs, x)
  {
    var i := FirstIndex(xs, x);
    assert (xs + [last])[..i] == xs[..i];
    FirstIndexUnique(xs + [last], x, i);
  }

  /** `Dedup` keeps values in order of their first occurrence in the input. */
  lemma {:induction false} DedupFirstOccurrenceOrder(xs: seq<string>)
    ensures forall i, j :: 0 <= i < j < |Dedup(xs)| ==>
      FirstIndex(xs, Dedup(xs)[i]) < FirstIndex(xs, Dedup(xs)[j])
    decreases |xs|
  {
    if xs != [] {
      var init := xs[..|xs| - 1];
      var last := xs[|xs| - 1];
      assert xs == init + [last];
      var d := Dedup(init);
      DedupFirstOccurrenceOrder(init);
      forall y | y in d
        ensures FirstIndex(xs, y) == FirstIndex(init, y)
      {
        FirstIndexAppend(init, last, y);
      }
      if last !in d {
        assert last !in init;
        assert xs[..|init|] == init;
        FirstIndexUnique(xs, last, |init|);
        var r := Dedup(xs);
        assert r == d + [last];
        forall i, j | 0 <= i < j < |r|
          ensures FirstIndex(xs, r[i]) < FirstIndex(xs, r[j])
        {
          assert r[i] == d[i];
          if j < |d| {
            assert r[j] == d[j];
          }
        }
      }
    }
  }

  /** Values already seen add nothing: appending values that occur in `xs` leaves
      the distinct values unchanged. */
  lemma {:induction false} DedupAbsorbsSeen(xs: seq<string>, ys: seq<string>)
    requires forall y :: y in ys ==> y in xs
    ensures Dedup(xs + ys) == Dedup(xs)
    decreases |ys|
  {
    if ys != [] {
      var init := ys[..|ys| - 1];
      assert (xs + ys)[..|xs + ys| - 1] == xs + init;
      DedupAbsorbsSeen(xs, init);
    } else {
      assert xs + ys == xs;
    }
  }

  /** `[...new Set(xs)]` computed the way a `Set` is filled: walk the input once,
      remembering what has been seen, and keep each value the first time. */
  method DedupInOrder(xs: seq<string>) returns (r: seq<string>)
    ensures r == Dedup(xs)
  {
    var seen: set<string> := {};
    r := [];
    var i := 0;
    while i < |xs|
      invariant 0 <= i <= |xs|
      invariant r == Dedup(xs[..i])
      invariant forall x :: x in seen <==> x in r
    {
      assert xs[..i + 1][..i] == xs[..i];
      if xs[i] !in seen {
        seen := seen + {xs[i]};
        r := r + [xs[i]];
      }
      i := i + 1;
    }
    assert xs[..i] == xs;
  }

  /** The shopping list of a plan: the distinct tokens of the running list. */
  function ShoppingListOf(plan: seq<Entry>): seq<string>
  {
    Dedup(AllTokens(plan))
  }

  /** The consolidation and the `Set` step of the route, run on a plan. */
  method BuildShoppingList(plan: seq<Entry>) returns (list: seq<string>)
    ensures list == ShoppingListOf(plan)
  {
    var all := Consolidate(plan);
    list := DedupInOrder(all);
  }

  /** What the shopping list is: no entry twice, every entry trimmed, and an entry
      for exactly the tokens of the planned meals' ingredient strings. */
  lemma ShoppingListContents(plan: seq<Entry>)
    ensures NoDuplicates(ShoppingListOf(plan))
    ensures forall x :: x in ShoppingListOf(plan) <==> TokenOfPlan(plan, x)
    ensures forall x :: x in ShoppingListOf(plan) <==>
      exists d :: 0 <= d < |plan| && TokenOfDay(plan[d], x)
    ensures forall k :: 0 <= k < |ShoppingListOf(plan)| ==> IsTrimmed(ShoppingListOf(plan)[k])
  {
    forall x ensures x in ShoppingListOf(plan) <==> TokenOfPlan(plan, x) {
      AllTokensMembership(plan, x);
    }
    forall x ensures TokenOfPlan(plan, x) <==> exists d :: 0 <= d < |plan| && TokenOfDay(plan[d], x) {
      TokenOfPlanSlots(plan, x);
    }
    AllTokensTrimmed(plan);
    var all := AllTokens(plan);
    forall k | 0 <= k < |ShoppingListOf(plan)|
      ensures IsTrimmed(ShoppingListOf(plan)[k])
    {
      var x := ShoppingListOf(plan)[k];
      assert x in all;
      var i :| 0 <= i < |all| && all[i] == x;
    }
  }

  /** The last day's tokens are among the plan's tokens. */
  lemma LastDayTokensListed(plan: seq<Entry>)
    requires plan != []
    ensures forall y :: y in EntryTokens(plan[|plan| - 1]) ==> y in AllTokens(plan)
  {
  }

  /** When every day of a non-empty plan contributes the same tokens, the
      shopping list is those tokens without repeats: the later days add nothing. */
  lemma {:induction false} SameTokensEveryDay(plan: seq<Entry>, t: seq<string>)
    requires plan != []
    requires forall d :: 0 <= d < |plan| ==> EntryTokens(plan[d]) == t
    ensures ShoppingListOf(plan) == Dedup(t)
    decreases |plan|
  {
    var init := plan[..|plan| - 1];
    assert EntryTokens(plan[|plan| - 1]) == t;
    assert AllTokens(plan) == AllTokens(init) + t;
    if init == [] {
      assert AllTokens(plan) == t;
    } else {
      SameTokensEveryDay(init, t);
      LastDayTokensListed(init);
      assert init[|init| - 1] == plan[|init| - 1];
      assert EntryTokens(init[|init| - 1]) == t;
      DedupAbsorbsSeen(AllTokens(init), t);
      assert Dedup(AllTokens(init) + t) == Dedup(AllTokens(init));
    }
  }

  /** The shopping list is ordered by first occurrence in the running list, which
      goes day by day, breakfast before lunch before dinner, and token by token. */
  lemma ShoppingListOrder(plan: seq<Entry>)
    ensures forall i, j :: 0 <= i < j < |ShoppingListOf(plan)| ==>
      FirstIndex(AllTokens(plan), ShoppingListOf(plan)[i]) < FirstIndex(AllTokens(plan), ShoppingListOf(plan)[j])
  {
    DedupFirstOccurrenceOrder(AllTokens(plan));
  }

  /** Every token of a generated plan is a token of one of the user's meals whose
      `time` names a slot. */
  lemma PlanTokensComeFromMeals(meals: seq<Meal>, rand: Draws, x: string)
    requires ValidDraws(rand)
    requires TokenOfPlan(GenerateWeeklyPlan(meals, rand), x)
    ensures exists m :: m in meals && HasRecognisedTime(m) && x in MealTokens(Some(m))
  {
    var plan := GenerateWeeklyPlan(meals, rand);
    var d :| 0 <= d < |plan| && x in EntryTokens(plan[d]);
    EntryTokensMembership(plan[d], x);
    var s :| x in MealTokens(plan[d].At(s));
    PlanSlotSpec(meals, rand, d, s);
    var m := plan[d].At(s).value;
    assert m in meals && HasRecognisedTime(m) && x in MealTokens(Some(m));
  }

  /** The `/shopping-list` route from the fetched meals: generate the week plan
      with the shared generator, then build its shopping list. The list has no
      entry twice, and every entry is a token of one of the user's meals whose
      `time` names a slot. */
  method ShoppingListRoute(meals: seq<Meal>, rand: Draws) returns (list: seq<string>)
    requires ValidDraws(rand)
    ensures list == ShoppingListOf(GenerateWeeklyPlan(meals, rand))
    ensures NoDuplicates(list)
    ensures forall x :: x in list ==>
      exists m :: m in meals && HasRecognisedTime(m) && x in MealTokens(Some(m))
  {
    var plan := GenerateWeeklyPlan(meals, rand);
    list := BuildShoppingList(plan);
    ShoppingListContents(plan);
    forall x | x in list
      ensures exists m :: m in meals && HasRecognisedTime(m) && x in MealTokens(Some(m))
    {
      PlanTokensComeFromMeals(meals, rand, x);
    }
  }
}
