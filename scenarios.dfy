/** Worked examples of the plan generator and the shopping list on concrete
    meals: the empty week, a week with a single breakfast, ingredients shared
    between meals, and the text edge cases of the ingredient field. */
module Scenarios {
  import opened MealModel
  import opened JsStrings
  import opened WeeklyPlan
  import opened ShoppingList

  /** With no meals every day is still there, with all three slots empty, and
      the shopping list is empty. */
  lemma EmptyWeek(rand: Draws)
    requires ValidDraws(rand)
    ensures forall d, s :: 0 <= d < 7 ==> GenerateWeeklyPlan([], rand)[d].At(s) == None
    ensures ShoppingListOf(GenerateWeeklyPlan([], rand)) == []
  {
    var plan := GenerateWeeklyPlan([], rand);
    forall d, s | 0 <= d < 7
      ensures plan[d].At(s) == None
    {
      PlanSlotSpec([], rand, d, s);
    }
    forall d | 0 <= d < |plan|
      ensures EntryTokens(plan[d]) == []
    {
      assert plan[d].breakfast == plan[d].At(Breakfast);
      assert plan[d].lunch == plan[d].At(Lunch);
      assert plan[d].dinner == plan[d].At(Dinner);
    }
    SameTokensEveryDay(plan, []);
  }

  /** Text with exactly one comma gives the two trimmed pieces around it. */
  lemma TwoIngredients(text: string, p: string, q: string)
    requires text == p + [','] + q && ',' !in p && ',' !in q
    ensures IngredientTokens(text) == [Trim(p), Trim(q)]
  {
    SplitJoin([p, q], ',');
    assert Join([p, q], ',') == text;
    TrimAllAt([p, q], 0);
    TrimAllAt([p, q], 1);
  }

  /** A leading space is trimmed away. */
  lemma TrimLeadingSpace()
    ensures Trim(" milk") == "milk"
  {
    assert " milk"[1..] == "milk";
    assert LeadingWhiteSpace(" milk") == 1;
  }

  /** Spaces on both sides are trimmed away. */
  lemma TrimBothSides()
    ensures Trim(" eggs ") == "eggs"
  {
    assert " eggs "[1..] == "eggs ";
    assert LeadingWhiteSpace(" eggs ") == 1;
    assert "eggs "[..4] == "eggs";
    assert TrailingWhiteSpace("eggs ") == 1;
  }

  /** Words with no white space at either end are left as they are. */
  lemma TrimOats()
    ensures Trim("oats") == "oats"
  {
    TrimOfTrimmed("oats");
  }

  lemma TrimEggs()
    ensures Trim("eggs") == "eggs"
  {
    TrimOfTrimmed("eggs");
  }

  lemma TrimBread()
    ensures Trim("bread") == "bread"
  {
    TrimOfTrimmed("bread");
  }

  /** "oats, milk" has one comma, between "oats" and " milk". */
  lemma OatsMilkSplit()
    ensures IngredientTokens("oats, milk") == [Trim("oats"), Trim(" milk")]
  {
    TwoIngredients("oats, milk", "oats", " milk");
  }

  /** The ingredient text "oats, milk" gives "oats" then "milk". */
  lemma OatsMilkText()
    ensures IngredientTokens("oats, milk") == ["oats", "milk"]
  {
    OatsMilkSplit();
    TrimOats();
    TrimLeadingSpace();
  }

  /** "eggs, milk" has one comma, between "eggs" and " milk". */
  lemma EggsMilkSplit()
    ensures IngredientTokens("eggs, milk") == [Trim("eggs"), Trim(" milk")]
  {
    TwoIngredients("eggs, milk", "eggs", " milk");
  }

  /** The ingredient text "eggs, milk" gives "eggs" then "milk". */
  lemma EggsMilkText()
    ensures IngredientTokens("eggs, milk") == ["eggs", "milk"]
  {
    EggsMilkSplit();
    TrimEggs();
    TrimLeadingSpace();
  }

  /** " eggs ,bread" has one comma, between " eggs " and "bread". */
  lemma EggsBreadSplit()
    ensures IngredientTokens(" eggs ,bread") == [Trim(" eggs "), Trim("bread")]
  {
    TwoIngredients(" eggs ,bread", " eggs ", "bread");
  }

  /** The ingredient text " eggs ,bread" gives "eggs" then "bread". */
  lemma EggsBreadText()
    ensures IngredientTokens(" eggs ,bread") == ["eggs", "bread"]
  {
    EggsBreadSplit();
    TrimBothSides();
    TrimBread();
  }

  /** "a," has one comma, between "a" and the empty string. */
  lemma TrailingCommaSplit()
    ensures IngredientTokens("a,") == [Trim("a"), Trim("")]
  {
    TwoIngredients("a,", "a", "");
  }

  /** The ingredient text "a," gives "a" then the empty token. */
  lemma TrailingCommaText()
    ensures IngredientTokens("a,") == ["a", ""]
  {
    TrailingCommaSplit();
    TrimOfTrimmed("a");
    TrimOfTrimmed("");
  }

  /** The oats breakfast, used by the scenarios below. */
  const Oats: Meal := Meal("Oats", Some("oats, milk"), Some("Breakfast"), "user-1", 0)

  /** "oats, milk" splits into "oats" and " milk", which trim to "oats" and "milk". */
  lemma OatsTokens()
    ensures MealTokens(Some(Oats)) == ["oats", "milk"]
  {
    OatsMilkText();
    assert HasIngredients(Some(Oats));
  }

  /** With only the oats breakfast, every day has oats for breakfast and no lunch
      or dinner. */
  lemma OnlyOatsPlan(rand: Draws)
    requires ValidDraws(rand)
    ensures forall d :: 0 <= d < 7 ==>
      GenerateWeeklyPlan([Oats], rand)[d] == Entry(Days[d], Some(Oats), None, None)
  {
    var plan := GenerateWeeklyPlan([Oats], rand);
    forall d | 0 <= d < 7
      ensures plan[d] == Entry(Days[d], Some(Oats), None, None)
    {
      PlanSlotSpec([Oats], rand, d, Breakfast);
      PlanSlotSpec([Oats], rand, d, Lunch);
      PlanSlotSpec([Oats], rand, d, Dinner);
    }
  }

  /** Two breakfasts make a breakfast bucket of both, in input order. */
  lemma TwoBreakfastBucket(a: Meal, b: Meal)
    requires a.time == Some("Breakfast") && b.time == Some("Breakfast")
    ensures Bucket([a, b], Breakfast) == [a, b]
  {
    assert [a, b][1..] == [b];
  }

  /** Over two meals, `Math.floor(r * 2)` is 0 for a draw below one half and 1
      otherwise. */
  lemma IndexOfTwo(r: real)
    requires 0.0 <= r < 1.0
    ensures r < 0.5 ==> ChooseIndex(r, 2) == 0
    ensures r >= 0.5 ==> ChooseIndex(r, 2) == 1
  {
  }

  /** With two breakfasts and nothing else, a day's breakfast is the first one
      for a draw below one half and the second one otherwise. */
  lemma TwoBreakfastsSplitTheDraw(a: Meal, b: Meal, rand: Draws, d: nat)
    requires a.time == Some("Breakfast") && b.time == Some("Breakfast")
    requires ValidDraws(rand) && d < 7
    ensures rand(d, Breakfast) < 0.5 ==> GenerateWeeklyPlan([a, b], rand)[d].breakfast == Some(a)
    ensures rand(d, Breakfast) >= 0.5 ==> GenerateWeeklyPlan([a, b], rand)[d].breakfast == Some(b)
  {
    PlanSlot([a, b], rand, d, Breakfast);
    TwoBreakfastBucket(a, b);
    IndexOfTwo(rand(d, Breakfast));
  }

  /** A draw of one half on Monday over two breakfasts gives the second. */
  lemma SecondOfTwoBreakfasts(a: Meal, b: Meal, rand: Draws)
    requires a.time == Some("Breakfast") && b.time == Some("Breakfast")
    requires ValidDraws(rand) && rand(0, Breakfast) == 0.5
    ensures GenerateWeeklyPlan([a, b], rand)[0].breakfast == Some(b)
  {
    TwoBreakfastsSplitTheDraw(a, b, rand, 0);
  }

  /** Two different tokens are already free of repeats. */
  lemma DedupPair(a: string, b: string)
    requires a != b
    ensures Dedup([a, b]) == [a, b]
  {
    assert [a][..0] == [];
    assert Dedup([a]) == [a];
    assert [a, b][..1] == [a];
  }

  /** A day with the oats breakfast and nothing else contributes "oats", "milk". */
  lemma OatsDayTokens(e: Entry)
    requires e.breakfast == Some(Oats) && e.lunch == None && e.dinner == None
    ensures EntryTokens(e) == ["oats", "milk"]
  {
    OatsTokens();
  }

  /** With only the oats breakfast, the shopping list is "oats" then "milk". */
  lemma OnlyOatsWeek(rand: Draws)
    requires ValidDraws(rand)
    ensures ShoppingListOf(GenerateWeeklyPlan([Oats], rand)) == ["oats", "milk"]
  {
    var plan := GenerateWeeklyPlan([Oats], rand);
    OnlyOatsPlan(rand);
    forall d | 0 <= d < |plan|
      ensures EntryTokens(plan[d]) == ["oats", "milk"]
    {
      OatsDayTokens(plan[d]);
    }
    SameTokensEveryDay(plan, ["oats", "milk"]);
    DedupPair("oats", "milk");
  }

  /** A meal tagged "breakfast" in lower case is never planned. */
  lemma LowerCaseTimeNeverPlanned(rand: Draws, d: nat, s: Slot)
    requires ValidDraws(rand) && d < 7
    ensures var porridge := Meal("Porridge", Some("oats"), Some("breakfast"), "user-1", 0);
      GenerateWeeklyPlan([Oats, porridge], rand)[d].At(s) != Some(porridge)
  {
    var porridge := Meal("Porridge", Some("oats"), Some("breakfast"), "user-1", 0);
    assert !HasRecognisedTime(porridge) by {
      forall s' ensures porridge.time != Some(SlotName(s')) {
        assert "breakfast"[0] != "Breakfast"[0];
      }
    }
    UnrecognisedTimeNeverPlanned([Oats, porridge], rand, porridge, d, s);
  }

  /** A trailing comma contributes an empty token. */
  lemma TrailingCommaGivesEmptyToken(m: Meal)
    requires m.ingredients == Some("a,")
    ensures MealTokens(Some(m)) == ["a", ""]
  {
    TrailingCommaText();
    assert HasIngredients(Some(m));
  }

  /** "eggs, milk" gives "eggs" and "milk". */
  lemma EggsMilkTokens(m: Meal)
    requires m.ingredients == Some("eggs, milk")
    ensures MealTokens(Some(m)) == ["eggs", "milk"]
  {
    EggsMilkText();
    assert HasIngredients(Some(m));
  }

  /** " eggs ,bread" gives "eggs" and "bread". */
  lemma EggsBreadTokens(m: Meal)
    requires m.ingredients == Some(" eggs ,bread")
    ensures MealTokens(Some(m)) == ["eggs", "bread"]
  {
    EggsBreadText();
    assert HasIngredients(Some(m));
  }

  /** A one-day plan contributes that day's tokens. */
  lemma OneDayTokens(e: Entry)
    ensures AllTokens([e]) == EntryTokens(e)
  {
    assert [e][..0] == [];
  }

  /** A repeat of the first token is dropped; the rest keep their first-seen order. */
  lemma DedupRepeatOfFirst(a: string, b: string, c: string)
    requires a != b && a != c && b != c
    ensures Dedup([a, b, a, c]) == [a, b, c]
  {
    var xs := [a, b, a, c];
    assert xs[..3] == [a, b] + [a];
    DedupAbsorbsSeen([a, b], [a]);
    DedupPair(a, b);
    assert Dedup(xs[..3]) == [a, b];
  }

  /** Two meals of one day that both list eggs, with different spacing, put
      "eggs" on the list once, ahead of the ingredients first seen after it. */
  lemma SharedEggs(b: Meal, l: Meal)
    requires b.ingredients == Some("eggs, milk") && l.ingredients == Some(" eggs ,bread")
    ensures ShoppingListOf([Entry("Monday", Some(b), Some(l), None)]) == ["eggs", "milk", "bread"]
  {
    var e := Entry("Monday", Some(b), Some(l), None);
    EggsMilkTokens(b);
    EggsBreadTokens(l);
    OneDayTokens(e);
    assert EntryTokens(e) == ["eggs", "milk", "eggs", "bread"];
    DedupRepeatOfFirst("eggs", "milk", "bread");
  }
}
