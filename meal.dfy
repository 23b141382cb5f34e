/** The records the meal planner works on: a stored meal document and the three
    time-of-day slots a weekly plan fills. */
module MealModel {

  /** A value that may be absent: JavaScript's `null` / `undefined`. */
  datatype Option<T> = None | Some(value: T)

  /** One document of the `meals` collection (server.js:104-110), as the handlers
      read it back with `doc.data()`. `ingredients` and `time` are free form
      strings typed into a form, so either may be missing; `createdAt` is the
      `seconds` part of the server timestamp. */
  datatype Meal = Meal(
    mealName: string,
    ingredients: Option<string>,
    time: Option<string>,
    userId: string,
    createdAt: int)

  /** The three slots of a plan entry. */
  datatype Slot = Breakfast | Lunch | Dinner

  /** The exact, case-sensitive `time` value that puts a meal into a slot's bucket. */
  function SlotName(s: Slot): string
  {
    match s
    case Breakfast => "Breakfast"
    case Lunch => "Lunch"
    case Dinner => "Dinner"
  }

  /** A meal whose `time` is exactly "Breakfast", "Lunch" or "Dinner". */
  ghost predicate HasRecognisedTime(m: Meal)
  {
    exists s :: m.time == Some(SlotName(s))
  }

  /** The fixed day names of the week plan, Monday first. */
  const Days: seq<string> :=
    ["Monday", "Tuesday", "Wednesday", "Thursday", "Friday", "Saturday", "Sunday"]
}
