/** The `/meals` listing: the user's meals sorted newest first by the seconds of
    their creation timestamp, with the comparator `b.createdAt.seconds -
    a.createdAt.seconds` and JavaScript's stable `Array.prototype.sort`. */
module MealListing {
  import opened MealModel
  import opened SeqFacts

  /** Every meal is at least as new as each one after it. */
  ghost predicate NewestFirstOrdered(s: seq<Meal>)
  {
    forall i, j :: 0 <= i < j < |s| ==> s[i].createdAt >= s[j].createdAt
  }

  /** The meals of `s` created at second `t`, in their order in `s`. */
  function CreatedAt(s: seq<Meal>, t: int): seq<Meal>
  {
    if s == [] then [] else (if s[0].createdAt == t then [s[0]] else []) + CreatedAt(s[1..], t)
  }

  /** Selecting by creation second distributes over concatenation. */
  lemma {:induction false} CreatedAtAppend(a: seq<Meal>, b: seq<Meal>, t: int)
    ensures CreatedAt(a + b, t) == CreatedAt(a, t) + CreatedAt(b, t)
    decreases |a|
  {
    if a == [] {
      assert a + b == b;
    } else {
      var head := if a[0].createdAt == t then [a[0]] else [];
      assert (a + b)[0] == a[0];
      assert (a + b)[1..] == a[1..] + b;
      assert CreatedAt(a + b, t) == head + CreatedAt(a[1..] + b, t);
      CreatedAtAppend(a[1..], b, t);
      ConcatAssoc(head, CreatedAt(a[1..], t), CreatedAt(b, t));
    }
  }

  /** Every meal of `s` was created at second `t` or later. */
  ghost predicate NoOlderThan(s: seq<Meal>, t: int)
  {
    forall k :: 0 <= k < |s| ==> s[k].createdAt >= t
  }

  /** One insertion step of a stable sort: `x` goes after every meal of `s` that
      is at least as new, so it stays behind meals of its own second that came
      before it. */
  function Insert(s: seq<Meal>, x: Meal): seq<Meal>
    decreases |s|
  {
    if s == [] || s[|s| - 1].createdAt >= x.createdAt then s + [x]
    else Insert(s[..|s| - 1], x) + [s[|s| - 1]]
  }

  /** Inserting adds `x` and keeps every meal of `s`. */
  lemma {:induction false} InsertPermutes(s: seq<Meal>, x: Meal)
    ensures multiset(Insert(s, x)) == multiset(s) + multiset{x}
    decreases |s|
  {
    if !(s == [] || s[|s| - 1].createdAt >= x.createdAt) {
      assert s == s[..|s| - 1] + [s[|s| - 1]];
      InsertPermutes(s[..|s| - 1], x);
    }
  }

  /** Inserting a meal no older than `t` into meals no older than `t` gives meals
      no older than `t`. */
  lemma {:induction false} InsertNoOlderThan(s: seq<Meal>, x: Meal, t: int)
    requires NoOlderThan(s, t) && x.createdAt >= t
    ensures NoOlderThan(Insert(s, x), t)
    decreases |s|
  {
    if !(s == [] || s[|s| - 1].createdAt >= x.createdAt) {
      InsertNoOlderThan(s[..|s| - 1], x, t);
    }
  }

  /** Inserting into a newest-first sequence keeps it newest first. */
  lemma {:induction false} InsertOrdered(s: seq<Meal>, x: Meal)
    requires NewestFirstOrdered(s)
    ensures NewestFirstOrdered(Insert(s, x))
    decreases |s|
  {
    if !(s == [] || s[|s| - 1].createdAt >= x.createdAt) {
      var init, last := s[..|s| - 1], s[|s| - 1];
      InsertOrdered(init, x);
      InsertNoOlderThan(init, x, last.createdAt);
    }
  }

  /** The listing order: a stable sort of `s` by creation second, newest first. */
  function NewestFirst(s: seq<Meal>): seq<Meal>
  {
    if s == [] then [] else Insert(NewestFirst(s[..|s| - 1]), s[|s| - 1])
  }

  /** The listing holds exactly the fetched meals, newest first. */
  lemma {:induction false} NewestFirstSorts(s: seq<Meal>)
    ensures multiset(NewestFirst(s)) == multiset(s)
    ensures NewestFirstOrdered(NewestFirst(s))
    decreases |s|
  {
    if s != [] {
      var init, last := s[..|s| - 1], s[|s| - 1];
      assert s == init + [last];
      NewestFirstSorts(init);
      InsertPermutes(NewestFirst(init), last);
      InsertOrdered(NewestFirst(init), last);
    }
  }

  /** Inserting keeps the meals of each creation second in their order, with `x`
      after the ones already there. */
  lemma {:induction false} InsertCreatedAt(s: seq<Meal>, x: Meal, t: int)
    ensures CreatedAt(Insert(s, x), t) == CreatedAt(s, t) + CreatedAt([x], t)
    decreases |s|
  {
    if s == [] || s[|s| - 1].createdAt >= x.createdAt {
      CreatedAtAppend(s, [x], t);
    } else {
      var init, last := s[..|s| - 1], s[|s| - 1];
      assert s == init + [last];
      InsertCreatedAt(init, x, t);
      CreatedAtAppend(Insert(init, x), [last], t);
      CreatedAtAppend(init, [last], t);
      assert CreatedAt([last], t) == [] || CreatedAt([x], t) == [];
    }
  }

  /** The sort is stable: the meals of each creation second keep their order. */
  lemma {:induction false} NewestFirstStable(s: seq<Meal>, t: int)
    ensures CreatedAt(NewestFirst(s), t) == CreatedAt(s, t)
    decreases |s|
  {
    if s != [] {
      var init, last := s[..|s| - 1], s[|s| - 1];
      assert s == init + [last];
      NewestFirstStable(init, t);
      InsertCreatedAt(NewestFirst(init), last, t);
      CreatedAtAppend(init, [last], t);
    }
  }

  /** A meal that occurs in `s` occurs among the meals of its own second. */
  lemma {:induction false} InCreatedAt(s: seq<Meal>, i: nat)
    requires i < |s|
    ensures s[i] in CreatedAt(s, s[i].createdAt)
    decreases i
  {
    if i > 0 {
      InCreatedAt(s[1..], i - 1);
    }
  }

  /** Ordered newest first and stable per second determine the result: any stable
      sort with the route's comparator returns exactly `NewestFirst`. */
  lemma {:induction false} NewestFirstUnique(a: seq<Meal>, b: seq<Meal>)
    requires NewestFirstOrdered(a) && NewestFirstOrdered(b)
    requires forall t :: CreatedAt(a, t) == CreatedAt(b, t)
    ensures a == b
    decreases |a| + |b|
  {
    if a != [] && b != [] {
      SameFront(a, b);
      SameRest(a, b);
      NewestFirstUnique(a[1..], b[1..]);
      assert a == [a[0]] + a[1..] && b == [b[0]] + b[1..];
    } else if a != [] {
      InCreatedAt(a, 0);
    } else if b != [] {
      InCreatedAt(b, 0);
    }
  }

  /** Two newest-first sequences with the same meals per second start with the
      same meal: the first meal of the newest second present. */
  lemma SameFront(a: seq<Meal>, b: seq<Meal>)
    requires a != [] && b != []
    requires NewestFirstOrdered(a) && NewestFirstOrdered(b)
    requires forall t :: CreatedAt(a, t) == CreatedAt(b, t)
    ensures a[0] == b[0]
  {
    var ka, kb := a[0].createdAt, b[0].createdAt;
    InCreatedAt(b, 0);
    assert b[0] in CreatedAt(a, kb);
    NewestAtFront(a, kb);
    InCreatedAt(a, 0);
    assert a[0] in CreatedAt(b, ka);
    NewestAtFront(b, ka);
    assert ka == kb;
    assert CreatedAt(a, ka)[0] == a[0];
    assert CreatedAt(b, ka)[0] == b[0];
  }

  /** Removing the same first meal from both keeps the meals per second equal. */
  lemma SameRest(a: seq<Meal>, b: seq<Meal>)
    requires a != [] && b != [] && a[0] == b[0]
    requires forall t :: CreatedAt(a, t) == CreatedAt(b, t)
    ensures forall t :: CreatedAt(a[1..], t) == CreatedAt(b[1..], t)
  {
    forall t ensures CreatedAt(a[1..], t) == CreatedAt(b[1..], t) {
      var p := if a[0].createdAt == t then [a[0]] else [];
      assert CreatedAt(a, t) == p + CreatedAt(a[1..], t);
      assert CreatedAt(b, t) == p + CreatedAt(b[1..], t);
      assert (p + CreatedAt(a[1..], t))[|p|..] == CreatedAt(a[1..], t);
      assert (p + CreatedAt(b[1..], t))[|p|..] == CreatedAt(b[1..], t);
    }
  }

  /** No meal of an ordered sequence is newer than its first. */
  lemma {:induction false} NewestAtFront(s: seq<Meal>, t: int)
    requires s != [] && NewestFirstOrdered(s)
    requires exists m :: m in CreatedAt(s, t)
    ensures s[0].createdAt >= t
  {
    var m :| m in CreatedAt(s, t);
    CreatedAtMembers(s, t, m);
    var i :| 0 <= i < |s| && s[i] == m;
  }

  /** The meals selected for second `t` come from `s` and were created at `t`. */
  lemma {:induction false} CreatedAtMembers(s: seq<Meal>, t: int, m: Meal)
    requires m in CreatedAt(s, t)
    ensures m in s && m.createdAt == t
    decreases |s|
  {
    if s[0] != m || s[0].createdAt != t {
      CreatedAtMembers(s[1..], t, m);
    }
  }

  /** Where an insertion lands: after the meals at least as new as `x` and before
      the run of strictly older meals that ends `sorted`. */
  lemma {:induction false} InsertLandsAt(sorted: seq<Meal>, j: nat, x: Meal)
    requires j <= |sorted|
    requires j == 0 || sorted[j - 1].createdAt >= x.createdAt
    requires forall k :: j <= k < |sorted| ==> sorted[k].createdAt < x.createdAt
    ensures Insert(sorted, x) == sorted[..j] + [x] + sorted[j..]
    decreases |sorted|
  {
    if j < |sorted| {
      var init, last := sorted[..|sorted| - 1], sorted[|sorted| - 1];
      InsertLandsAt(init, j, x);
      assert init[..j] == sorted[..j];
      assert sorted[j..] == init[j..] + [last];
    } else {
      assert sorted[..j] == sorted;
    }
  }

  /** The `.sort((a, b) => b.createdAt.seconds - a.createdAt.seconds)` call, in
      place: an insertion sort, which leaves equal seconds in their original
      order as JavaScript's stable sort does. */
  method SortNewestFirst(a: array<Meal>)
    modifies a
    ensures a[..] == NewestFirst(old(a[..]))
  {
    ghost var input := a[..];
    var i := 0;
    while i < a.Length
      invariant 0 <= i <= a.Length
      invariant a[..i] == NewestFirst(input[..i])
      invariant a[i..] == input[i..]
    {
      ghost var before := a[..];
      InsertNext(a, i);
      SortStep(input, i, before, a[..]);
      i := i + 1;
    }
    assert input[..a.Length] == input;
  }

  /** One pass of the outer loop of `SortNewestFirst`: inserting the next meal
      into the sorted prefix extends the prefix by one. */
  lemma SortStep(input: seq<Meal>, i: nat, before: seq<Meal>, after: seq<Meal>)
    requires i < |input| == |before| == |after|
    requires before[..i] == NewestFirst(input[..i]) && before[i..] == input[i..]
    requires after[..i + 1] == Insert(before[..i], before[i])
    requires after[i + 1..] == before[i + 1..]
    ensures after[..i + 1] == NewestFirst(input[..i + 1])
    ensures after[i + 1..] == input[i + 1..]
  {
    assert before[i..][0] == before[i] && before[i..][1..] == before[i + 1..];
    assert input[..i + 1][..i] == input[..i];
  }

  /** One step of the insertion sort: shift `a[i]` left past the meals of the
      sorted prefix `a[..i]` that are strictly older than it. */
  method InsertNext(a: array<Meal>, i: nat)
    requires i < a.Length
    modifies a
    ensures a[..i + 1] == Insert(old(a[..i]), old(a[i]))
    ensures a[i + 1..] == old(a[i + 1..])
  {
    var x := a[i];
    ghost var sorted := a[..i];
    var j := i;
    while j > 0 && a[j - 1].createdAt < x.createdAt
      invariant 0 <= j <= i
      invariant forall k :: 0 <= k < j ==> a[k] == sorted[k]
      invariant forall k :: j < k <= i ==> a[k] == sorted[k - 1]
      invariant forall k :: i < k < a.Length ==> a[k] == old(a[k])
      invariant forall k :: j <= k < i ==> sorted[k].createdAt < x.createdAt
    {
      a[j] := a[j - 1];
      j := j - 1;
    }
    a[j] := x;
    InsertedAt(sorted, j, x, a[..i + 1]);
  }

  /** The shape the shifting loop leaves: `x` at `j`, the older meals one place to
      its right, once `j` reached the front or a meal at least as new as `x`. */
  lemma InsertedAt(sorted: seq<Meal>, j: nat, x: Meal, result: seq<Meal>)
    requires j <= |sorted| && |result| == |sorted| + 1
    requires forall k :: 0 <= k < j ==> result[k] == sorted[k]
    requires result[j] == x
    requires forall k :: j < k <= |sorted| ==> result[k] == sorted[k - 1]
    requires j == 0 || sorted[j - 1].createdAt >= x.createdAt
    requires forall k :: j <= k < |sorted| ==> sorted[k].createdAt < x.createdAt
    ensures result == Insert(sorted, x)
  {
    InsertLandsAt(sorted, j, x);
    assert result == sorted[..j] + [x] + sorted[j..];
  }

  /** The `/meals` route on the fetched meals: the listing is newest first, holds
      exactly the fetched meals, and keeps the fetched order among meals created
      in the same second. */
  method ListMeals(fetched: seq<Meal>) returns (meals: seq<Meal>)
    ensures NewestFirstOrdered(meals)
    ensures multiset(meals) == multiset(fetched)
    ensures forall t :: CreatedAt(meals, t) == CreatedAt(fetched, t)
  {
    var a := new Meal[|fetched|](i requires 0 <= i < |fetched| => fetched[i]);
    assert a[..] == fetched;
    SortNewestFirst(a);
    meals := a[..];
    NewestFirstSorts(fetched);
    forall t ensures CreatedAt(meals, t) == CreatedAt(fetched, t) {
      NewestFirstStable(fetched, t);
    }
  }
}
