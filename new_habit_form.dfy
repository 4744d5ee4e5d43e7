/**
 The form that creates a new habit: a title, a selection of weekdays (indices
 into the seven listed days) and the notice shown after a submission. The POST
 request is an outcome parameter.
 */
module NewHabitForm {
  import opened Wrappers
  import opened ListToggle

  /** Number of entries of `availableWeekDays`; checkbox `i` toggles index `i`. */
  const WeekDayCount: int := 7

  /** `feedbackResponse.type`: no notice, success notice or failure notice. */
  datatype Feedback = NoFeedback | Success | Fail

  /** The body of the POST request. */
  datatype NewHabit = NewHabit(title: string, weekDays: seq<int>)

  /** The selection as the checkboxes keep it: distinct indices of listed days. */
  predicate ValidWeekDays(weekDays: seq<int>) {
    && NoDup(weekDays)
    && forall d :: d in weekDays ==> 0 <= d < WeekDayCount
  }

  /** `!title || weekDays.length === 0`: only the empty title is rejected,
      a title of blanks is accepted. */
  predicate Blocked(title: string, weekDays: seq<int>): (b: bool)
    ensures b <==> |title| == 0 || |weekDays| == 0
    // a title made only of blanks is not empty, so it passes the guard
    ensures |weekDays| > 0 && |title| > 0 && (forall k :: 0 <= k < |title| ==> title[k] == ' ') ==> !b
  {
    title == "" || |weekDays| == 0
  }

  /** Toggling one of the listed days keeps a valid selection valid. */
  lemma ToggleKeepsValid(weekDays: seq<int>, weekDay: int)
    requires ValidWeekDays(weekDays)
    requires 0 <= weekDay < WeekDayCount
    ensures ValidWeekDays(Toggled(weekDays, weekDay))
  {
    ToggledNoDup(weekDays, weekDay);
  }

  /** A valid selection never holds more than the seven listed days. */
  lemma {:induction false} ValidWeekDaysBound(weekDays: seq<int>)
    requires ValidWeekDays(weekDays)
    ensures |weekDays| <= WeekDayCount
  {
    var days: set<int> := {0, 1, 2, 3, 4, 5, 6};
    DistinctWithin(weekDays, days);
  }

  /** A duplicate-free list drawn from a set is no longer than the set. */
  lemma {:induction false} DistinctWithin(xs: seq<int>, s: set<int>)
    requires NoDup(xs)
    requires forall x :: x in xs ==> x in s
    ensures |xs| <= |s|
  {
    if xs != [] {
      var t := xs[1..];
      assert NoDup(t) by {
        forall i, j | 0 <= i < j < |t| ensures t[i] != t[j] {
          assert t[i] == xs[i + 1] && t[j] == xs[j + 1];
        }
      }
      assert xs[0] !in t by {
        forall k | 0 <= k < |t| ensures t[k] != xs[0] {
          assert t[k] == xs[k + 1];
        }
      }
      forall x | x in t ensures x in s - {xs[0]} {
        assert x in xs;
      }
      DistinctWithin(t, s - {xs[0]});
      var h := xs[0];
      assert h in xs;
      assert h in s;
      assert s == (s - {xs[0]}) + {xs[0]};
    }
  }

  /** The form component's state. */
  class Form {
    var title: string
    var weekDays: seq<int>
    var feedback: Feedback

    constructor ()
      ensures title == "" && weekDays == [] && feedback == NoFeedback
      ensures ValidWeekDays(weekDays)
    {
      title := "";
      weekDays := [];
      feedback := NoFeedback;
    }

    /** The title input's change handler. */
    method SetTitle(value: string)
      modifies this
      ensures title == value
      ensures weekDays == old(weekDays) && feedback == old(feedback)
    {
      title := value;
    }

    /** `handleToggleWeekDay`: remove every occurrence of a selected day,
        otherwise append it. Title and notice are untouched. */
    method ToggleWeekDay(weekDay: int)
      modifies this
      ensures weekDays == Toggled(old(weekDays), weekDay)
      ensures weekDay in old(weekDays) ==> weekDays == Remove(old(weekDays), weekDay)
      ensures weekDay !in old(weekDays) ==> weekDays == old(weekDays) + [weekDay]
      ensures title == old(title) && feedback == old(feedback)
      ensures old(ValidWeekDays(weekDays)) && 0 <= weekDay < WeekDayCount ==> ValidWeekDays(weekDays)
    {
      if ValidWeekDays(weekDays) && 0 <= weekDay < WeekDayCount {
        ToggleKeepsValid(weekDays, weekDay);
      }
      if weekDay in weekDays {
        weekDays := Remove(weekDays, weekDay);
        return;
      }
      weekDays := weekDays + [weekDay];
    }

    /** `createNewHabit`: the guard sends nothing and changes nothing; otherwise
        the draft is sent, and it is cleared on success and kept on failure. */
    method CreateNewHabit(requestOk: bool) returns (sent: Option<NewHabit>)
      modifies this
      ensures sent == None <==> old(Blocked(title, weekDays))
      ensures sent.Some? ==> sent.value == NewHabit(old(title), old(weekDays))
      ensures sent == None ==>
        title == old(title) && weekDays == old(weekDays) && feedback == old(feedback)
      ensures sent.Some? && requestOk ==>
        title == "" && weekDays == [] && feedback == Success
      ensures sent.Some? && !requestOk ==>
        title == old(title) && weekDays == old(weekDays) && feedback == Fail
      ensures old(ValidWeekDays(weekDays)) ==> ValidWeekDays(weekDays)
    {
      if Blocked(title, weekDays) {
        return None;
      }
      sent := Some(NewHabit(title, weekDays));
      if requestOk {
        feedback := Success;
        weekDays := [];
        title := "";
      } else {
        feedback := Fail;
      }
    }

    /** The close button of the notice. */
    method DismissFeedback()
      modifies this
      ensures feedback == NoFeedback
      ensures title == old(title) && weekDays == old(weekDays)
    {
      feedback := NoFeedback;
    }

    /** A click on the `i`-th weekday checkbox; only the seven listed days
        have a checkbox. */
    method ClickWeekDay(i: nat)
      modifies this
      ensures i < WeekDayCount ==> weekDays == Toggled(old(weekDays), i)
      ensures i >= WeekDayCount ==> weekDays == old(weekDays)
      ensures title == old(title) && feedback == old(feedback)
      ensures old(ValidWeekDays(weekDays)) ==> ValidWeekDays(weekDays)
    {
      if i < WeekDayCount {
        ToggleWeekDay(i);
      }
    }
  }
}
