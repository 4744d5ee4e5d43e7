/**
 The checklist of one day: the habits possible on that date, the ids already
 completed, and the toggle that flips one habit and reports the new count to
 the day cell. The PATCH request is an outcome parameter.
 */
module HabitsList {
  import opened Wrappers
  import opened ListToggle

  /** Milliseconds in a day. */
  const DayMs: int := 86_400_000

  /** Number of the local calendar day a timestamp (milliseconds since the
      epoch, UTC) falls on, for a local time `utcOffset` ms ahead of UTC. */
  function LocalDay(t: int, utcOffset: int): int {
    (t + utcOffset) / DayMs
  }

  /** `dayjs(date).endOf('day')`: the last millisecond of the local day. */
  function EndOfDay(t: int, utcOffset: int): (r: int)
    ensures t <= r < t + DayMs
    ensures LocalDay(r, utcOffset) == LocalDay(t, utcOffset)
    ensures LocalDay(r + 1, utcOffset) == LocalDay(t, utcOffset) + 1
  {
    var local := t + utcOffset;
    var start := local - local % DayMs;
    assert start == DayMs * LocalDay(t, utcOffset);
    start + DayMs - 1 - utcOffset
  }

  /** `dayjs(date).endOf('day').isBefore(now)`: a date is in the past exactly
      when its local calendar day is earlier than the local day of `now`. */
  predicate IsDateInPast(date: int, utcOffset: int, now: int): (past: bool)
    ensures past <==> LocalDay(date, utcOffset) < LocalDay(now, utcOffset)
  {
    EndOfDay(date, utcOffset) < now
  }

  /** `Habit` as the day endpoint returns it; `createdAt` in milliseconds. */
  datatype Habit = Habit(id: string, title: string, createdAt: int)

  /** `HabitsInfo`: the habits possible on the date and the ids completed. */
  datatype HabitsInfo = HabitsInfo(possibleHabits: seq<Habit>, completedHabits: seq<string>)

  function Ids(habits: seq<Habit>): set<string> {
    set h | h in habits :: h.id
  }

  /** The completed ids are distinct and all belong to possible habits. */
  predicate ConsistentInfo(info: HabitsInfo) {
    && NoDup(info.completedHabits)
    && forall id :: id in info.completedHabits ==> id in Ids(info.possibleHabits)
  }

  /** The checked state of one habit's checkbox, `completedHabits.includes(id)`.
      In consistent data only a possible habit can be checked. */
  predicate Checked(info: HabitsInfo, id: string): (c: bool)
    ensures c <==> exists k :: 0 <= k < |info.completedHabits| && info.completedHabits[k] == id
    ensures c && ConsistentInfo(info) ==> id in Ids(info.possibleHabits)
  {
    id in info.completedHabits
  }

  /** The info after a successful toggle of `habitId`: the completed list is
      toggled and the possible habits are kept. */
  function AfterToggle(info: HabitsInfo, habitId: string): (r: HabitsInfo)
    ensures r.possibleHabits == info.possibleHabits
    ensures Checked(r, habitId) <==> !Checked(info, habitId)
    ensures forall id :: id != habitId ==> (Checked(r, id) <==> Checked(info, id))
    ensures ConsistentInfo(info) && habitId in Ids(info.possibleHabits) ==> ConsistentInfo(r)
    ensures NoDup(info.completedHabits) ==>
      |r.completedHabits| == if Checked(info, habitId) then |info.completedHabits| - 1 else |info.completedHabits| + 1
  {
    var r := HabitsInfo(info.possibleHabits, Toggled(info.completedHabits, habitId));
    if NoDup(info.completedHabits) then
      ToggledNoDup(info.completedHabits, habitId);
      ToggledLength(info.completedHabits, habitId);
      r
    else r
  }

  /** Two successful toggles of the same habit give back the same completed ids. */
  lemma AfterToggleTwice(info: HabitsInfo, habitId: string)
    ensures AfterToggle(AfterToggle(info, habitId), habitId).possibleHabits == info.possibleHabits
    ensures forall id :: Checked(AfterToggle(AfterToggle(info, habitId), habitId), id) <==> Checked(info, id)
  {
  }

  /** The checklist component of one date. Before the day's data arrives
      `habitsInfo` is absent and no checkbox is rendered. */
  class Checklist {
    const date: int
    const utcOffset: int
    var habitsInfo: Option<HabitsInfo>

    constructor (date: int, utcOffset: int)
      ensures this.date == date && this.utcOffset == utcOffset
      ensures habitsInfo == None
    {
      this.date := date;
      this.utcOffset := utcOffset;
      habitsInfo := None;
    }

    /** The response of the day endpoint is stored as it arrives. */
    method Load(info: HabitsInfo)
      modifies this
      ensures habitsInfo == Some(info)
    {
      habitsInfo := Some(info);
    }

    /** Every checkbox is disabled once the date's day has ended: from the
        first millisecond of the next local day on, and never before. */
    predicate Disabled(now: int): (d: bool)
      ensures d <==> LocalDay(date, utcOffset) < LocalDay(now, utcOffset)
      ensures now <= date ==> !d
      ensures now >= date + DayMs ==> d
    {
      IsDateInPast(date, utcOffset, now)
    }

    function CompletedCount(): nat
      reads this
    {
      if habitsInfo.Some? then |habitsInfo.value.completedHabits| else 0
    }

    predicate Consistent()
      reads this
    {
      habitsInfo.Some? ==> ConsistentInfo(habitsInfo.value)
    }

    /** `handleToggleHabit`: the request comes first; if it fails the
        awaited call throws and nothing changes and nothing is reported.
        Otherwise the completed list is toggled and its new length reported. */
    method HandleToggleHabit(habitId: string, requestOk: bool) returns (reported: Option<nat>)
      requires habitsInfo.Some?
      modifies this
      ensures !requestOk ==> habitsInfo == old(habitsInfo) && reported == None
      ensures requestOk ==> habitsInfo == Some(AfterToggle(old(habitsInfo.value), habitId))
      ensures requestOk ==> reported == Some(CompletedCount())
      ensures habitsInfo.Some? && habitsInfo.value.possibleHabits == old(habitsInfo.value.possibleHabits)
      ensures old(Consistent()) && habitId in Ids(habitsInfo.value.possibleHabits) ==> Consistent()
    {
      if !requestOk {
        return None;
      }
      var newCompletedHabits := Toggled(habitsInfo.value.completedHabits, habitId);
      habitsInfo := Some(HabitsInfo(habitsInfo.value.possibleHabits, newCompletedHabits));
      reported := Some(|newCompletedHabits|);
    }

    /** A click on the `i`-th rendered checkbox at time `now`. Nothing is
        rendered before the data is loaded, there is one checkbox per possible
        habit, and a disabled checkbox ignores clicks. */
    method ClickCheckbox(i: nat, now: int, requestOk: bool) returns (reported: Option<nat>)
      modifies this
      ensures old(habitsInfo.None? || i >= |habitsInfo.value.possibleHabits| || Disabled(now)) ==>
        habitsInfo == old(habitsInfo) && reported == None
      ensures old(habitsInfo.Some? && i < |habitsInfo.value.possibleHabits| && !Disabled(now)) && requestOk ==>
        habitsInfo == Some(AfterToggle(old(habitsInfo.value), old(habitsInfo.value.possibleHabits[i].id)))
        && reported == Some(CompletedCount())
      ensures !requestOk ==> habitsInfo == old(habitsInfo) && reported == None
      ensures reported.Some? ==> reported.value == CompletedCount()
      ensures old(Consistent()) ==> Consistent()
    {
      if habitsInfo.None? || i >= |habitsInfo.value.possibleHabits| || Disabled(now) {
        return None;
      }
      var id := habitsInfo.value.possibleHabits[i].id;
      assert id in Ids(habitsInfo.value.possibleHabits);
      reported := HandleToggleHabit(id, requestOk);
    }
  }
}
