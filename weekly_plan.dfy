/** The weekly plan generator shared by the `/weekly-plan` and `/shopping-list`
    routes: split the user's meals into one bucket per slot, then for each of the
    seven days draw one meal per slot from its bucket, or leave the slot empty
    when the bucket is empty. */
module WeeklyPlan {
  import opened MealModel
  import opened SeqFacts

  /** One day of the plan: the day's name and the meal drawn for each slot. */
  datatype Entry = Entry(day: string, breakfast: Option<Meal>, lunch: Option<Meal>, dinner: Option<Meal>)
  {
    /** The meal in slot `s`. */
    function At(s: Slot): Option<Meal>
    {
      match s
      case Breakfast => breakfast
      case Lunch => lunch
      case Dinner => dinner
    }
  }

  /** `meals.filter(m => m.time === name)` for a slot's name: the meals whose
      `time` is exactly that name, in their original order, each as often as in
      `meals`. */
  function Bucket(meals: seq<Meal>, s: Slot): (b: seq<Meal>)
    ensures forall m :: m in b <==> m in meals && m.time == Some(SlotName(s))
    ensures forall m :: multiset(b)[m] == if m.time == Some(SlotName(s)) then multiset(meals)[m] else 0
  {
    if meals == [] then []
    else
      assert meals == [meals[0]] + meals[1..];
      (if meals[0].time == Some(SlotName(s)) then [meals[0]] else []) + Bucket(meals[1..], s)
  }

  /** Filtering distributes over concatenation, so the bucket keeps the input's order. */
  lemma {:induction false} BucketAppend(a: seq<Meal>, b: seq<Meal>, s: Slot)
    ensures Bucket(a + b, s) == Bucket(a, s) + Bucket(b, s)
    decreases |a|
  {
    if a == [] {
      assert a + b == b;
    } else {
      var head := if a[0].time == Some(SlotName(s)) then [a[0]] else [];
      assert (a + b)[0] == a[0];
      assert (a + b)[1..] == a[1..] + b;
      assert Bucket(a + b, s) == head + Bucket(a[1..] + b, s);
      BucketAppend(a[1..], b, s);
      ConcatAssoc(head, Bucket(a[1..], s), Bucket(b, s));
    }
  }

  /** A source of `Math.random()` draws: the draw used for slot `s` on day `d`. */
  type Draws = (nat, Slot) -> real

  /** Every draw lies in [0, 1), as `Math.random()` promises. */
  ghost predicate ValidDraws(rand: Draws)
  {
    forall d: nat, s: Slot :: 0.0 <= rand(d, s) < 1.0
  }

  /** `Math.floor(r * n)` for a draw `r` in [0, 1): always an index into an array
      of length `n`. */
  function ChooseIndex(r: real, n: nat): (i: nat)
    requires 0.0 <= r < 1.0 && n > 0
    ensures i < n
  {
    assert 0.0 <= r * n as real < n as real;
    (r * n as real).Floor
  }

  /** `bucket.length ? pickRandom(bucket) : null`: empty exactly when the bucket
      is, and otherwise one of the bucket's meals. */
  function Pick(bucket: seq<Meal>, r: real): (o: Option<Meal>)
    requires 0.0 <= r < 1.0
    ensures o == None <==> bucket == []
    ensures o.Some? ==> o.value in bucket
  {
    if |bucket| > 0 then Some(bucket[ChooseIndex(r, |bucket|)]) else None
  }

  /** The day `d` entry of the plan, given the three buckets: each slot is empty
      exactly when its bucket is, and otherwise holds a meal of that bucket. */
  function PlanEntry(d: nat, breakfasts: seq<Meal>, lunches: seq<Meal>, dinners: seq<Meal>, rand: Draws): (e: Entry)
    requires d < |Days| && ValidDraws(rand)
    ensures e.day == Days[d]
    ensures e.breakfast == None <==> breakfasts == []
    ensures e.lunch == None <==> lunches == []
    ensures e.dinner == None <==> dinners == []
    ensures e.breakfast.Some? ==> e.breakfast.value in breakfasts
    ensures e.lunch.Some? ==> e.lunch.value in lunches
    ensures e.dinner.Some? ==> e.dinner.value in dinners
  {
    Entry(Days[d],
          Pick(breakfasts, rand(d, Breakfast)),
          Pick(lunches, rand(d, Lunch)),
          Pick(dinners, rand(d, Dinner)))
  }

  /** `days.map(day => ({ day, breakfast, lunch, dinner }))`: seven entries,
      Monday to Sunday, whatever the meals, including none. */
  function GenerateWeeklyPlan(meals: seq<Meal>, rand: Draws): (plan: seq<Entry>)
    requires ValidDraws(rand)
    ensures |plan| == 7
    ensures forall d :: 0 <= d < 7 ==> plan[d].day == Days[d]
  {
    var breakfasts := Bucket(meals, Breakfast);
    var lunches := Bucket(meals, Lunch);
    var dinners := Bucket(meals, Dinner);
    seq(|Days|, d requires 0 <= d < |Days| => PlanEntry(d, breakfasts, lunches, dinners, rand))
  }

  /** Slot `s` of day `d` is drawn from slot `s`'s bucket with that day's draw. */
  lemma PlanSlot(meals: seq<Meal>, rand: Draws, d: nat, s: Slot)
    requires ValidDraws(rand) && d < 7
    ensures GenerateWeeklyPlan(meals, rand)[d].At(s) == Pick(Bucket(meals, s), rand(d, s))
  {
  }

  /** A slot of an entry is empty exactly when no meal has that slot's `time`;
      otherwise it holds one of the user's meals whose `time` is exactly the
      slot's name. */
  lemma PlanSlotSpec(meals: seq<Meal>, rand: Draws, d: nat, s: Slot)
    requires ValidDraws(rand) && d < 7
    ensures var o := GenerateWeeklyPlan(meals, rand)[d].At(s);
      o == None <==> forall m :: m in meals ==> m.time != Some(SlotName(s))
    ensures var o := GenerateWeeklyPlan(meals, rand)[d].At(s);
      o.Some? ==> o.value in meals && o.value.time == Some(SlotName(s))
  {
    PlanSlot(meals, rand, d, s);
    var b := Bucket(meals, s);
    if b != [] {
      assert b[0] in b;
    }
  }

  /** A meal whose `time` is not exactly "Breakfast", "Lunch" or "Dinner" is never
      planned, on any day, in any slot. */
  lemma UnrecognisedTimeNeverPlanned(meals: seq<Meal>, rand: Draws, m: Meal, d: nat, s: Slot)
    requires ValidDraws(rand) && d < 7
    requires !HasRecognisedTime(m)
    ensures GenerateWeeklyPlan(meals, rand)[d].At(s) != Some(m)
  {
    PlanSlotSpec(meals, rand, d, s);
  }

  /** The plan is a function of the meals and the draws: the same draws give the
      same selection for every day and slot, and a slot's meal depends only on the
      draw for that day and slot. */
  lemma PlanSlotDependsOnOwnDraw(meals: seq<Meal>, rand1: Draws, rand2: Draws, d: nat, s: Slot)
    requires ValidDraws(rand1) && ValidDraws(rand2)
    requires d < 7 && rand1(d, s) == rand2(d, s)
    ensures GenerateWeeklyPlan(meals, rand1)[d].At(s) == GenerateWeeklyPlan(meals, rand2)[d].At(s)
  {
  }
}
