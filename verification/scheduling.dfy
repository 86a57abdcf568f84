/**
  The strip-streaming task and the synchronous drain loop. The strip driver's
  `bc_led_strip_write` is not modelled; its boolean result is an input: true
  when a write was started, false when the driver was still busy.
*/
module Scheduling {
  import opened Wrappers

  /** How the scheduler will next run a task. */
  datatype Plan =
    | Unplanned          // the task did not re-plan itself and will not run again
    | Now                // `bc_scheduler_plan_current_now`
    | After(delay: nat)  // `bc_scheduler_plan_current_relative(delay)`

  /** The pause the task takes after a write was started. */
  const WriteInterval: nat := 50

  /**
    `application_task`: after a started write it runs again in 50 ticks,
    after a busy driver it runs again at once. It always re-plans itself.
  */
  function ApplicationTask(writeStarted: bool): (p: Plan)
    ensures p != Unplanned
    ensures p.After? <==> writeStarted
    ensures p.After? ==> p.delay == WriteInterval
  {
    if writeStarted then After(WriteInterval) else Now
  }

  /** The plans a run of consecutive task invocations produces, one per write result. */
  function TaskPlans(writes: seq<bool>): (plans: seq<Plan>)
    ensures |plans| == |writes|
    ensures forall i :: 0 <= i < |plans| ==> plans[i] != Unplanned
    ensures forall i :: 0 <= i < |plans| ==> (plans[i] == Now <==> !writes[i])
    ensures forall i :: 0 <= i < |plans| ==> (plans[i] == After(WriteInterval) <==> writes[i])
  {
    if |writes| == 0 then []
    else [ApplicationTask(writes[0])] + TaskPlans(writes[1..])
  }

  /** Number of positions of `xs` holding `x`. */
  function Occurrences<T(==)>(xs: seq<T>, x: T): nat
  {
    if |xs| == 0 then 0
    else (if xs[0] == x then 1 else 0) + Occurrences(xs[1..], x)
  }

  /**
    Over any run of task invocations, the immediate re-plans are exactly as
    many as the busy writes and the delayed ones as many as the started writes.
  */
  lemma {:induction false} TaskPlanCounts(writes: seq<bool>)
    ensures Occurrences(TaskPlans(writes), Now) == Occurrences(writes, false)
    ensures Occurrences(TaskPlans(writes), After(WriteInterval)) == Occurrences(writes, true)
    ensures Occurrences(TaskPlans(writes), Now) + Occurrences(TaskPlans(writes), After(WriteInterval)) == |writes|
  {
    if |writes| > 0 {
      TaskPlanCounts(writes[1..]);
      assert TaskPlans(writes)[1..] == TaskPlans(writes[1..]);
    }
  }

  /**
    The drain loop `while (!bc_led_strip_write(...)) { }` over a finite run of
    driver answers: returns the index of the write that ended the loop, or
    `None` when the driver stayed busy for the whole run.
  */
  method DrainWrites(answers: seq<bool>) returns (last: Option<nat>)
    ensures last.Some? ==> last.value < |answers| && answers[last.value]
    ensures last.Some? ==> forall j :: 0 <= j < last.value ==> !answers[j]
    ensures last.None? ==> forall j :: 0 <= j < |answers| ==> !answers[j]
  {
    var i := 0;
    while i < |answers|
      invariant i <= |answers|
      invariant forall j :: 0 <= j < i ==> !answers[j]
    {
      if answers[i] {
        return Some(i);
      }
      i := i + 1;
    }
    return None;
  }
}
