/** The daily progress bar: the share of completed tasks as a whole percentage, the
    "completed / total" counter and the encouragement under the bar. */
module ProgressBar {
  import opened Tasks
  import opened TimeUtils

  /** `tasks.filter((t) => t.completed).length`. */
  function CompletedCount(tasks: seq<Task>): (c: nat)
    ensures c <= |tasks|
  {
    if tasks == [] then 0
    else CompletedCount(tasks[..|tasks| - 1]) + (if tasks[|tasks| - 1].completed then 1 else 0)
  }

  /** `Math.round(100 * part / whole)` for a positive whole, in exact arithmetic:
      the nearest integer, halves rounded up. */
  function RoundedPercent(part: nat, whole: nat): int
    requires whole > 0
  {
    (200 * part + whole) / (2 * whole)
  }

  /** The percentage: 0 for an empty list, otherwise the rounded share of completed
      tasks. */
  function Progress(tasks: seq<Task>): int
  {
    if |tasks| == 0 then 0 else RoundedPercent(CompletedCount(tasks), |tasks|)
  }

  lemma DivBounds(a: int, b: int, q: int)
    requires b > 0 && q == a / b
    ensures q * b <= a < q * b + b
  {
  }

  lemma MulMono(x: int, y: int, b: int)
    requires b > 0
    ensures x <= y ==> x * b <= y * b
  {
    assert (y - x) * b == y * b - x * b;
    MulSign(y - x, b);
  }

  /** The rounded percentage is the integer nearest to `100 * part / whole`, ties
      going up: `p - 1/2 <= 100 * part / whole < p + 1/2`. */
  lemma RoundedPercentNearest(part: nat, whole: nat)
    requires whole > 0
    ensures (2 * RoundedPercent(part, whole) - 1) * whole <= 200 * part
    ensures 200 * part < (2 * RoundedPercent(part, whole) + 1) * whole
  {
    var p := RoundedPercent(part, whole);
    DivBounds(200 * part + whole, 2 * whole, p);
    assert p * (2 * whole) == 2 * p * whole;
    assert (2 * p - 1) * whole == 2 * p * whole - whole;
    assert (2 * p + 1) * whole == 2 * p * whole + whole;
  }

  /** A share of at most the whole rounds to a percentage in 0..100. */
  lemma RoundedPercentRange(part: nat, whole: nat)
    requires whole > 0 && part <= whole
    ensures 0 <= RoundedPercent(part, whole) <= 100
  {
    var p := RoundedPercent(part, whole);
    RoundedPercentNearest(part, whole);
    MulMono(2 * p + 1, 0, whole);
    MulMono(201, 2 * p - 1, whole);
    MulMono(part, whole, 200);
  }

  /** The percentage lies in 0..100, is 0 with no tasks, and is otherwise the nearest
      whole percent of the completed share. */
  lemma ProgressBounds(tasks: seq<Task>)
    ensures 0 <= Progress(tasks) <= 100
    ensures |tasks| == 0 ==> Progress(tasks) == 0
    ensures |tasks| > 0 ==> (2 * Progress(tasks) - 1) * |tasks| <= 200 * CompletedCount(tasks)
    ensures |tasks| > 0 ==> 200 * CompletedCount(tasks) < (2 * Progress(tasks) + 1) * |tasks|
  {
    if |tasks| > 0 {
      RoundedPercentNearest(CompletedCount(tasks), |tasks|);
      RoundedPercentRange(CompletedCount(tasks), |tasks|);
    }
  }

  /** Completing one more task never lowers the rounded percentage. */
  lemma RoundedPercentMonotone(part: nat, whole: nat)
    requires whole > 0
    ensures RoundedPercent(part, whole) <= RoundedPercent(part + 1, whole)
  {
    var a, b := 200 * part + whole, 2 * whole;
    var q1, q2 := a / b, (a + 200) / b;
    DivBounds(a, b, q1);
    DivBounds(a + 200, b, q2);
    MulMono(q2 + 1, q1, b);
    assert (q2 + 1) * b == q2 * b + b;
    assert 200 * (part + 1) + whole == a + 200;
  }

  /** Every task completed gives 100, none completed gives 0, and one of two gives 50. */
  lemma ProgressExtremes(n: nat)
    requires n > 0
    ensures RoundedPercent(n, n) == 100
    ensures RoundedPercent(0, n) == 0
    ensures RoundedPercent(1, 2) == 50
  {
    DivisionUnique(200 * n + n, 2 * n, 100, n);
    DivisionUnique(n, 2 * n, 0, n);
    DivisionUnique(202, 4, 50, 2);
  }

  /** The counter's completed figure never exceeds its total. */
  lemma CounterConsistent(tasks: seq<Task>)
    ensures CompletedCount(tasks) <= |tasks|
    ensures CompletedCount(tasks) == |tasks| <==> forall i :: 0 <= i < |tasks| ==> tasks[i].completed
  {
    CompletedAll(tasks);
  }

  lemma {:induction false} CompletedAll(tasks: seq<Task>)
    ensures CompletedCount(tasks) == |tasks| <==> forall i :: 0 <= i < |tasks| ==> tasks[i].completed
  {
    if tasks != [] {
      var init := tasks[..|tasks| - 1];
      CompletedAll(init);
      assert forall i :: 0 <= i < |init| ==> init[i] == tasks[i];
    }
  }

  // ---------------------------------------------------------------------------
  // The message under the bar

  const ALL_DONE: string := "🎉 All done! Great job!"
  const DOING_GREAT: string := "🌟 You're doing great! Keep going!"
  const NICE_START: string := "💪 Nice start! You've got this!"
  const GET_STARTED: string := "✨ Let's get started!"

  /** The message for a percentage. */
  function ProgressMessage(progress: int): string
  {
    if progress == 100 then ALL_DONE
    else if progress >= 50 then DOING_GREAT
    else if progress > 0 then NICE_START
    else GET_STARTED
  }

  /** On the percentages the bar can show, exactly one message applies: 100 is
      "All done", 50..99 "doing great", 1..49 "Nice start" and 0 "Let's get started". */
  lemma MessageBands(progress: int)
    requires 0 <= progress <= 100
    ensures ProgressMessage(progress) == ALL_DONE <==> progress == 100
    ensures ProgressMessage(progress) == DOING_GREAT <==> 50 <= progress < 100
    ensures ProgressMessage(progress) == NICE_START <==> 0 < progress < 50
    ensures ProgressMessage(progress) == GET_STARTED <==> progress == 0
  {
  }

  /** Because the percentage is rounded, "All done" appears as soon as at least
      99.5% of the tasks are completed, not only when all of them are. */
  lemma AllDoneThreshold(tasks: seq<Task>)
    requires |tasks| > 0
    ensures ProgressMessage(Progress(tasks)) == ALL_DONE <==> 200 * CompletedCount(tasks) >= 199 * |tasks|
  {
    RoundsToHundred(CompletedCount(tasks), |tasks|);
    RoundedPercentRange(CompletedCount(tasks), |tasks|);
    MessageBands(Progress(tasks));
  }

  lemma RoundsToHundred(part: nat, whole: nat)
    requires whole > 0 && part <= whole
    ensures RoundedPercent(part, whole) == 100 <==> 200 * part >= 199 * whole
  {
    var p := RoundedPercent(part, whole);
    RoundedPercentNearest(part, whole);
    RoundedPercentRange(part, whole);
    MulMono(2 * p + 1, 199, whole);
    assert p == 100 ==> (2 * p - 1) * whole == 199 * whole;
  }

  /** 199 completed tasks out of 200 already read "All done". */
  lemma AllDoneBeforeAll()
    ensures RoundedPercent(199, 200) == 100
    ensures ProgressMessage(RoundedPercent(199, 200)) == ALL_DONE
  {
    DivisionUnique(200 * 199 + 200, 400, 100, 0);
  }
}
