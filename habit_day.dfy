/**
 The day cell of the summary grid: its completion percentage, the colour bucket
 of its trigger button, and the count it receives from the day's checklist.
 */
module HabitDay {
  import opened Wrappers
  import HabitsList

  /** `amount > 0 ? Math.round(completed / amount * 100) : 0`, in exact integer
      arithmetic. For a positive divisor Dafny's `/` rounds down, and
      Math.round(v) is floor(v + 1/2), so the percentage is the floor of
      (200 * completed + amount) / (2 * amount). */
  function CompletedPercentage(completed: int, amount: int): (p: int)
    ensures amount <= 0 ==> p == 0
    // p is 100 * completed / amount rounded to the nearest integer, halves up
    ensures amount > 0 ==> 2 * amount * p - amount <= 200 * completed < 2 * amount * p + amount
  {
    if amount > 0 then
      var q := (200 * completed + amount) / (2 * amount);
      DivBounds(200 * completed + amount, 2 * amount);
      q
    else 0
  }

  /** The Euclidean quotient by a positive divisor brackets the dividend. */
  lemma DivBounds(n: int, d: int)
    requires d > 0
    ensures d * (n / d) <= n < d * (n / d) + d
  {
  }

  /** A count between zero and the number of habits gives a percentage
      between 0 and 100. */
  lemma PercentageInRange(completed: int, amount: int)
    requires 0 <= completed <= amount
    ensures 0 <= CompletedPercentage(completed, amount) <= 100
  {
    if amount > 0 {
      var p := CompletedPercentage(completed, amount);
      assert 2 * amount * p - amount <= 200 * amount;
      if p > 100 {
        assert 2 * amount * p >= 2 * amount * 101 by { MulMonotone(2 * amount, 101, p); }
      }
    }
  }

  lemma MulMonotone(a: int, b: int, c: int)
    requires a > 0 && b <= c
    ensures a * b <= a * c
  {
  }

  /** The percentage is monotone in the completed count. */
  lemma PercentageMonotone(c1: int, c2: int, amount: int)
    requires c1 <= c2
    ensures CompletedPercentage(c1, amount) <= CompletedPercentage(c2, amount)
  {
    if amount > 0 {
      var p1, p2 := CompletedPercentage(c1, amount), CompletedPercentage(c2, amount);
      if p1 > p2 {
        MulMonotone(2 * amount, p2 + 1, p1);
      }
    }
  }

  /** No habit done is 0%; every habit done is 100%. */
  lemma PercentageEnds(amount: int)
    requires amount > 0
    ensures CompletedPercentage(0, amount) == 0
    ensures CompletedPercentage(amount, amount) == 100
  {
    var p0, p1 := CompletedPercentage(0, amount), CompletedPercentage(amount, amount);
    PercentageInRange(0, amount);
    PercentageInRange(amount, amount);
    if p0 > 0 { MulMonotone(2 * amount, 1, p0); }
    if p1 < 100 { MulMonotone(2 * amount, p1, 99); }
  }

  /** The six colour classes of the trigger button, from no completion to
      80% and above. */
  datatype Bucket = Empty | Below20 | From20 | From40 | From60 | From80

  /** The condition the view attaches to each colour class, one per bucket.
      Every condition needs a non-negative percentage; the empty bucket is
      exactly 0, and bucket k of the four middle ones covers [20(k-1), 20k). */
  predicate Matches(p: int, b: Bucket): (m: bool)
    ensures m ==> 0 <= p
    ensures m ==> (b == Empty <==> p == 0)
    ensures m && b != Empty ==> 20 * (Rank(b) - 1) <= p
    ensures m && 1 <= Rank(b) <= 4 ==> p < 20 * Rank(b)
  {
    match b
    case Empty => p == 0
    case Below20 => p > 0 && p < 20
    case From20 => p >= 20 && p < 40
    case From40 => p >= 40 && p < 60
    case From60 => p >= 60 && p < 80
    case From80 => p >= 80
  }

  /** The colour class the trigger receives: for a non-negative percentage
      exactly one condition holds; for a negative one none does and the button
      keeps only its base classes. */
  function BucketOf(p: int): (b: Option<Bucket>)
    ensures b.Some? <==> p >= 0
    ensures forall k :: Matches(p, k) <==> b == Some(k)
  {
    if p < 0 then None
    else if p == 0 then Some(Empty)
    else if p < 20 then Some(Below20)
    else if p < 40 then Some(From20)
    else if p < 60 then Some(From40)
    else if p < 80 then Some(From60)
    else Some(From80)
  }

  /** Intensity of a bucket, 0 for the empty one up to 5. */
  function Rank(b: Bucket): nat {
    match b
    case Empty => 0
    case Below20 => 1
    case From20 => 2
    case From40 => 3
    case From60 => 4
    case From80 => 5
  }

  /** The intensity never decreases as the percentage grows. */
  lemma BucketMonotone(p: int, q: int)
    requires 0 <= p <= q
    ensures BucketOf(p).Some? && BucketOf(q).Some?
    ensures Rank(BucketOf(p).value) <= Rank(BucketOf(q).value)
  {
  }

  /** Lower edges are inclusive, 0 is its own bucket and 1..19 share one. */
  lemma BucketEdges()
    ensures BucketOf(0) == Some(Empty)
    ensures forall p :: 1 <= p < 20 ==> BucketOf(p) == Some(Below20)
    ensures BucketOf(20) == Some(From20) && BucketOf(19) != BucketOf(20)
    ensures BucketOf(40) == Some(From40) && BucketOf(39) != BucketOf(40)
    ensures BucketOf(60) == Some(From60) && BucketOf(59) != BucketOf(60)
    ensures BucketOf(80) == Some(From80) && BucketOf(79) != BucketOf(80)
  {
  }

  /** A cell of the grid. `amount` is the number of habits of the day and
      `completed` the number done; only the latter changes. */
  class DayCell {
    const date: int
    const amount: int
    var completed: int

    constructor (date: int, amount: int := 0, defaultCompleted: int := 0)
      ensures this.date == date && this.amount == amount
      ensures completed == defaultCompleted
    {
      this.date := date;
      this.amount := amount;
      completed := defaultCompleted;
    }

    /** `completedPercentage`, recomputed from the current count. */
    function Percentage(): (p: int)
      reads this
      ensures amount <= 0 ==> p == 0
      ensures 0 <= completed <= amount ==> 0 <= p <= 100
      ensures amount > 0 && completed == amount ==> p == 100
    {
      if 0 <= completed <= amount then
        PercentageInRange(completed, amount);
        if amount > 0 then PercentageEnds(amount); CompletedPercentage(completed, amount)
        else CompletedPercentage(completed, amount)
      else CompletedPercentage(completed, amount)
    }

    /** The colour class of the trigger button. */
    function Colour(): (b: Option<Bucket>)
      reads this
      ensures 0 <= completed <= amount ==> b.Some?
      ensures completed == 0 ==> b == Some(Empty)
      ensures amount > 0 && completed == amount ==> b == Some(From80)
    {
      if completed == 0 && amount > 0 then
        PercentageEnds(amount);
        BucketOf(Percentage())
      else BucketOf(Percentage())
    }

    /** The callback the checklist reports its count through. */
    method HandleCompletedChange(n: int)
      modifies this
      ensures completed == n
      ensures Percentage() == CompletedPercentage(n, amount)
      ensures Colour() == BucketOf(CompletedPercentage(n, amount))
    {
      completed := n;
    }
  }

  /** A checkbox click inside the cell's popover: the checklist toggles the
      habit and the count it reports, if any, becomes the cell's `completed`.
      A cell that agreed with its checklist's count still agrees afterwards. */
  method ClickInPopover(cell: DayCell, list: HabitsList.Checklist, i: nat, now: int, requestOk: bool)
    returns (reported: Option<nat>)
    modifies cell, list
    ensures reported == None ==> cell.completed == old(cell.completed)
    ensures reported.Some? ==> cell.completed == reported.value == list.CompletedCount()
    ensures old(cell.completed) == old(list.CompletedCount()) ==> cell.completed == list.CompletedCount()
    ensures old(list.Consistent()) ==> list.Consistent()
    ensures old(list.habitsInfo.Some? && i < |list.habitsInfo.value.possibleHabits| && !list.Disabled(now)) && requestOk ==>
      && list.habitsInfo == Some(HabitsList.AfterToggle(old(list.habitsInfo.value), old(list.habitsInfo.value.possibleHabits[i].id)))
      && reported.Some?
    ensures old(list.habitsInfo.None? || i >= |list.habitsInfo.value.possibleHabits| || list.Disabled(now)) || !requestOk ==>
      list.habitsInfo == old(list.habitsInfo) && reported == None && cell.completed == old(cell.completed)
  {
    reported := list.ClickCheckbox(i, now, requestOk);
    if reported.Some? {
      cell.HandleCompletedChange(reported.value);
    }
  }
}
