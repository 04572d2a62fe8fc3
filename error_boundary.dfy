/** The application's error boundary: it counts the errors it catches,
    remembers when the last one came, logs a "critical loop" message for a
    fourth or later error within ten seconds of the previous one, and offers
    a retry that resets it, disabled once more than three errors were
    caught. */
module ErrorBoundary {
  import opened Text

  const RECURRING_AFTER := 3
  const LOOP_WINDOW_MS := 10000
  const UNKNOWN_ERROR := "Erro desconhecido"

  /** `this.state`, with the caught error kept as its message. */
  datatype State = State(hasError: bool, error: Option<string>, errorCount: nat, lastErrorTime: Option<int>)

  const INITIAL := State(false, None, 0, None)

  /** Whether the previous time is truthy: recorded and not 0. */
  predicate HasPreviousTime(s: State) {
    s.lastErrorTime.Some? && s.lastErrorTime.value != 0
  }

  /** The branch `componentDidCatch` takes for an error at `now`. */
  predicate IsCritical(s: State, now: int) {
    s.errorCount + 1 > RECURRING_AFTER && HasPreviousTime(s) && now - s.lastErrorTime.value < LOOP_WINDOW_MS
  }

  /** The state after `getDerivedStateFromError` and `componentDidCatch`
      for one error at `now`. */
  function AfterCatch(s: State, message: string, now: int): State {
    State(true, Some(message), s.errorCount + 1, Some(now))
  }

  /** `isRecurringError`, which also disables the retry button. */
  predicate IsRecurring(s: State) {
    s.errorCount > RECURRING_AFTER
  }

  /** `this.state.error?.message || 'Erro desconhecido'`. */
  function ShownMessage(s: State): string {
    if s.error.Some? && s.error.value != "" then s.error.value else UNKNOWN_ERROR
  }

  class Boundary {
    var hasError: bool
    var error: Option<string>
    var errorCount: nat
    var lastErrorTime: Option<int>

    function Snapshot(): State
      reads this
    {
      State(hasError, error, errorCount, lastErrorTime)
    }

    constructor()
      ensures Snapshot() == INITIAL
    {
      hasError := false;
      error := None;
      errorCount := 0;
      lastErrorTime := None;
    }

    /** One caught error at instant `now`; `critical` tells which message
        is logged. */
    method Catch(message: string, now: int) returns (critical: bool)
      modifies this
      ensures critical == IsCritical(old(Snapshot()), now)
      ensures Snapshot() == AfterCatch(old(Snapshot()), message, now)
    {
      hasError := true;
      error := Some(message);
      var count := errorCount + 1;
      var previous := lastErrorTime;
      critical := count > RECURRING_AFTER && previous.Some? && previous.value != 0 && now - previous.value < LOOP_WINDOW_MS;
      errorCount := count;
      lastErrorTime := Some(now);
    }

    /** `handleRetry`. */
    method HandleRetry()
      modifies this
      ensures Snapshot() == INITIAL
    {
      hasError := false;
      error := None;
      errorCount := 0;
      lastErrorTime := None;
    }
  }

  // ------------------------------------------------------------ properties

  /** The states after catching errors at the instants `times`, in order. */
  function Run(s: State, times: seq<int>): State
    decreases |times|
  {
    if times == [] then s else Run(AfterCatch(s, "", times[0]), times[1..])
  }

  /** After errors at `times` from the initial state the boundary shows an
      error, has counted each of them, and remembers the last instant. */
  lemma {:induction false} RunCounts(s: State, times: seq<int>)
    requires times != []
    ensures Run(s, times).hasError
    ensures Run(s, times).errorCount == s.errorCount + |times|
    ensures Run(s, times).lastErrorTime == Some(times[|times| - 1])
    decreases |times|
  {
    if |times| > 1 {
      RunCounts(AfterCatch(s, "", times[0]), times[1..]);
    }
  }

  /** From a fresh boundary, with instants that are not 0, the `i`-th error
      (from 0) takes the critical branch exactly when it is the fourth or a
      later one and came less than ten seconds after the one before. */
  lemma CriticalExactly(times: seq<int>, i: nat)
    requires i < |times|
    requires forall k :: 0 <= k < |times| ==> times[k] != 0
    ensures IsCritical(Run(INITIAL, times[..i]), times[i])
      <==> i >= 3 && times[i] - times[i - 1] < LOOP_WINDOW_MS
  {
    if i > 0 {
      RunCounts(INITIAL, times[..i]);
    }
  }

  /** Once recurring, the boundary stays so with each new error, and only a
      retry (disabled in that state) or a reload clears it; a retry that
      is allowed restores the initial state. */
  lemma RecurringIsSticky(s: State, message: string, now: int)
    ensures IsRecurring(s) ==> IsRecurring(AfterCatch(s, message, now))
    ensures IsRecurring(AfterCatch(s, message, now)) <==> s.errorCount >= RECURRING_AFTER
    ensures !IsRecurring(INITIAL)
  {
  }

  /** The shown text is the caught message, or the fallback for an empty one. */
  lemma ShownMessageOfCatch(s: State, message: string, now: int)
    ensures ShownMessage(AfterCatch(s, message, now)) == if message == "" then UNKNOWN_ERROR else message
    ensures ShownMessage(INITIAL) == UNKNOWN_ERROR
  {
  }
}
