/**
 * The simulated assessment of the extracted-information page: four progress bars,
 * each advanced by its own repeating timer by a random step of 10 to 29 and clamped
 * at 100, and the move to the test-result page once every bar is complete.
 * Timers are not modelled: a tick of bar `idx` with step `inc` is one call of `Tick`.
 */
module Assessment {
  import opened Wrappers

  const BarCount := 4
  const MinIncrement := 10
  const MaxIncrement := 29
  const Complete := 100
  const TestResultRoute := "/ifc-test-result"

  /** `Math.floor(Math.random() * 20) + 10` lies in this range. */
  predicate ValidIncrement(inc: int)
  {
    MinIncrement <= inc <= MaxIncrement
  }

  predicate ValidIncrements(incs: seq<int>)
  {
    forall k :: 0 <= k < |incs| ==> ValidIncrement(incs[k])
  }

  /** A bar's value after one tick: the step added, clamped at 100. */
  function NextValue(value: int, inc: int): int
  {
    if value + inc >= Complete then Complete else value + inc
  }

  /** A tick never lowers a bar, never takes it past 100, and strictly raises an incomplete one. */
  lemma NextValueBounds(value: int, inc: int)
    requires 0 <= value <= Complete && ValidIncrement(inc)
    ensures value <= NextValue(value, inc) <= Complete
    ensures value < Complete ==> value < NextValue(value, inc)
    ensures NextValue(value, inc) == Complete <==> value + inc >= Complete
  {
  }

  /** The value a bar's timer holds after ticks with these steps, starting from 0. */
  function ValueAfter(incs: seq<int>): int
  {
    if incs == [] then 0 else NextValue(ValueAfter(incs[..|incs| - 1]), incs[|incs| - 1])
  }

  /** After n ticks a bar is at least 10n (until it reaches 100) and at most 29n, and never past 100. */
  lemma {:induction false} ValueAfterBounds(incs: seq<int>)
    requires ValidIncrements(incs)
    ensures 0 <= ValueAfter(incs) <= Complete
    ensures ValueAfter(incs) >= if MinIncrement * |incs| < Complete then MinIncrement * |incs| else Complete
    ensures ValueAfter(incs) <= MaxIncrement * |incs|
  {
    if incs != [] {
      ValueAfterBounds(incs[..|incs| - 1]);
    }
  }

  /** Every bar is complete after at most ten ticks. */
  lemma CompleteWithinTenTicks(incs: seq<int>)
    requires ValidIncrements(incs) && |incs| >= 10
    ensures ValueAfter(incs) == Complete
  {
    ValueAfterBounds(incs);
  }

  /** No bar is complete before its fourth tick. */
  lemma IncompleteBeforeFourTicks(incs: seq<int>)
    requires ValidIncrements(incs) && |incs| <= 3
    ensures ValueAfter(incs) < Complete
  {
    ValueAfterBounds(incs);
  }

  class ExtractedInfoPage {
    /** The displayed bar values. */
    var progressBars: seq<int>
    /** Whether the assessment has begun. */
    var running: bool
    /** The `value` each bar's timer closure holds. */
    var values: seq<int>
    /** Whether each bar's timer is still set. */
    var scheduled: seq<bool>
    /** The steps each bar has been advanced by so far. */
    ghost var increments: seq<seq<int>>

    ghost predicate Valid()
      reads this
    {
      && |progressBars| == BarCount && |values| == BarCount
      && |scheduled| == BarCount && |increments| == BarCount
      && forall i :: 0 <= i < BarCount ==>
           && ValidIncrements(increments[i])
           && |increments[i]| <= 10
           && values[i] == ValueAfter(increments[i])
           && progressBars[i] == values[i]
           && (scheduled[i] <==> running && values[i] < Complete)
           && (!running ==> increments[i] == [])
    }

    constructor ()
      ensures Valid()
      ensures progressBars == [0, 0, 0, 0] && !running
    {
      progressBars := [0, 0, 0, 0];
      running := false;
      values := [0, 0, 0, 0];
      scheduled := [false, false, false, false];
      increments := [[], [], [], []];
    }

    /** "Begin IFC Assessment" (disabled while running): one timer per bar, each counting from 0. */
    method BeginAssessment()
      requires Valid() && !running
      modifies this
      ensures Valid()
      ensures running && progressBars == old(progressBars) == [0, 0, 0, 0]
      ensures values == [0, 0, 0, 0] && scheduled == [true, true, true, true]
    {
      running := true;
      values := [0, 0, 0, 0];
      scheduled := [true, true, true, true];
      increments := [[], [], [], []];
      assert progressBars == [0, 0, 0, 0];
    }

    /**
     * One firing of bar `idx`'s timer with step `inc`: the closure's value grows by the
     * step, is clamped at 100 (clearing the timer when it gets there), and the bar
     * array is copied with only slot `idx` rewritten.
     */
    method Tick(idx: nat, inc: int)
      requires Valid() && idx < BarCount && scheduled[idx] && ValidIncrement(inc)
      modifies this
      ensures Valid() && running == old(running)
      ensures increments == old(increments)[idx := old(increments[idx]) + [inc]]
      ensures values == old(values)[idx := NextValue(old(values[idx]), inc)]
      ensures progressBars == old(progressBars)[idx := NextValue(old(progressBars[idx]), inc)]
      ensures scheduled == old(scheduled)[idx := progressBars[idx] < Complete]
      ensures old(progressBars[idx]) < progressBars[idx] <= Complete
    {
      ValueAfterBounds(increments[idx]);
      var value := values[idx];
      value := value + inc;
      if value >= Complete {
        value := Complete;
        scheduled := scheduled[idx := false];
      }
      values := values[idx := value];
      var updated := progressBars;
      updated := updated[idx := value];
      progressBars := updated;
      ghost var incs := increments[idx] + [inc];
      assert incs[..|incs| - 1] == increments[idx];
      increments := increments[idx := incs];
      NextValueBounds(old(values[idx]), inc);
    }

    /** Where the completion watcher navigates: the result page once running with every bar at 100. */
    function NavigationTarget(): (r: Option<string>)
      reads this
      requires Valid()
      ensures r.Some? <==> running && forall i :: 0 <= i < BarCount ==> !scheduled[i]
      ensures r.Some? ==> r.value == TestResultRoute
    {
      if running && forall i :: 0 <= i < |progressBars| ==> progressBars[i] == Complete
      then Some(TestResultRoute)
      else None
    }
  }
}
