/** The retry loop of the administration client under one deadline. Durations are seconds. */
module AdminRetry {
  import opened JsonValue
  import opened Sequences

  // ----- Policy -----

  datatype RetryPolicy = RetryPolicy(maxRetries: nat, retryReplayable: bool, maxServerDelay: real) {
    function WithMaxRetries(n: nat): RetryPolicy { this.(maxRetries := n) }

    function WithMaxServerDelay(d: real): RetryPolicy { this.(maxServerDelay := d) }
  }

  const OPENAI_COMPATIBLE := RetryPolicy(2, true, 120.0)
  const CONSERVATIVE := RetryPolicy(2, false, 60.0)
  const DISABLED := RetryPolicy(0, false, 0.0)

  datatype RetryClass = Safe | Replayable

  function RetryClassOf(verb: string): RetryClass { if verb == "GET" || verb == "DELETE" then Safe else Replayable }

  predicate RetryableOperation(c: RetryClass, policy: RetryPolicy) { c.Safe? || policy.retryReplayable }

  // ----- Replies and the delays they ask for -----

  datatype ParsedFloat = Finite(value: real) | NotFinite

  /** A delay header: its text as a number, and as a date so many seconds ahead of now. */
  datatype DelayHeader = DelayHeader(number: Option<ParsedFloat>, date: Option<real>)

  datatype Response = Response(status: nat, shouldRetry: Option<string>, retryAfterMs: Option<DelayHeader>,
                               retryAfter: Option<DelayHeader>)

  datatype Reply = Answered(response: Response) | Failed(connect: bool, timeout: bool)

  datatype ServerDelay = Absent | Valid(delay: real) | TooLong

  function BoundedDelay(seconds: ParsedFloat, maximum: real): ServerDelay {
    if seconds.NotFinite? || seconds.value <= 0.0 then Absent
    else if seconds.value > maximum then TooLong
    else Valid(seconds.value)
  }

  function DateDelay(ahead: real, maximum: real): ServerDelay {
    if ahead <= 0.0 then Absent else if ahead <= maximum then Valid(ahead) else TooLong
  }

  function ServerRetryDelay(r: Response, maximum: real): ServerDelay {
    if r.retryAfterMs.Some? && r.retryAfterMs.value.number.Some? then
      var ms := r.retryAfterMs.value.number.value;
      BoundedDelay(if ms.Finite? then Finite(ms.value / 1000.0) else NotFinite, maximum)
    else if r.retryAfter.None? then Absent
    else
      var header := r.retryAfter.value;
      if header.number.Some? && header.number.value.Finite? && header.number.value.value >= 0.0
      then BoundedDelay(header.number.value, maximum)
      else if header.date.Some? then DateDelay(header.date.value, maximum)
      else Absent
  }

  predicate ShouldRetryResponse(r: Response) {
    if r.shouldRetry == Some("true") then true
    else if r.shouldRetry == Some("false") then false
    else r.status in {408, 409, 429} || r.status >= 500
  }

  // ----- Local backoff -----

  function Pow2(k: nat): nat { if k == 0 then 1 else 2 * Pow2(k - 1) }

  function Min(a: nat, b: nat): nat { if a <= b then a else b }

  function BaseSeconds(retries: nat): real {
    var base := 0.5 * Pow2(Min(retries, 4)) as real;
    if base <= 8.0 then base else 8.0
  }

  /** `fraction` is the part of a second that the wall clock shows. */
  function LocalRetryDelay(retries: nat, fraction: real): real {
    BaseSeconds(retries) * (0.75 + fraction * 0.25)
  }

  predicate CanWait(elapsed: real, delay: real, timeout: real) { elapsed + delay < timeout }

  // ----- One operation -----

  datatype Operation = Operation(verb: string, successStatuses: set<nat>, policy: RetryPolicy, timeout: real)

  /** What the outside shows in one turn of the loop: the time at its top, the reply, and the
      time and the wall-clock fraction when a wait is considered. */
  datatype Turn = Turn(top: real, reply: Reply, settled: real, fraction: real)

  datatype Outcome =
    | Success(response: Response)
    | StatusError(response: Response)
    | TransportError(connect: bool, timeout: bool)
    | DeadlineExceeded

  /** An attempt: when it starts and the time it is given. */
  datatype Attempt = Attempt(start: real, budget: real)

  datatype Run = Run(attempts: seq<Attempt>, sleeps: seq<real>, outcome: Outcome)

  /** The retry loop. */
  method Send(op: Operation, turns: nat -> Turn) returns (run: Run)
    ensures IsRun(op, turns, run)
  {
    var class_ := RetryClassOf(op.verb);
    var attempts, sleeps := [], [];
    var retries := 0;
    while true
      invariant retries == |sleeps| == |attempts| <= op.policy.maxRetries
      invariant Begun(op, turns, attempts, sleeps)
      decreases op.policy.maxRetries - retries
    {
      var turn := turns(retries);
      OneMoreTurn(op, turns, attempts, sleeps);
      if op.timeout - turn.top <= 0.0 {
        return Run(attempts, sleeps, DeadlineExceeded);
      }
      attempts := attempts + [Attempt(turn.top, op.timeout - turn.top)];
      match turn.reply {
        case Failed(connect, timeout) =>
          if RetryableOperation(class_, op.policy) && retries < op.policy.maxRetries && (connect || timeout) {
            var delay := LocalRetryDelay(retries, turn.fraction);
            if !CanWait(turn.settled, delay, op.timeout) {
              return Run(attempts, sleeps, TransportError(connect, timeout));
            }
            retries, sleeps := retries + 1, sleeps + [delay];
            continue;
          }
          return Run(attempts, sleeps, TransportError(connect, timeout));
        case Answered(response) =>
          if response.status in op.successStatuses {
            return Run(attempts, sleeps, Success(response));
          }
          if RetryableOperation(class_, op.policy) && retries < op.policy.maxRetries && ShouldRetryResponse(response) {
            var delay := match ServerRetryDelay(response, op.policy.maxServerDelay)
              case Valid(d) => Some(d)
              case Absent => Some(LocalRetryDelay(retries, turn.fraction))
              case TooLong => None;
            if delay.Some? && CanWait(turn.settled, delay.value, op.timeout) {
              retries, sleeps := retries + 1, sleeps + [delay.value];
              continue;
            }
          }
          return Run(attempts, sleeps, StatusError(response));
      }
    }
  }

  // ----- What a run is -----

  /** Whether a reply is worth another attempt, leaving time and the attempt count aside. */
  predicate Transient(op: Operation, reply: Reply) {
    match reply
    case Failed(connect, timeout) => connect || timeout
    case Answered(r) => r.status !in op.successStatuses && ShouldRetryResponse(r)
  }

  /** The wait after the `k`-th reply, if one is allowed. */
  function Wait(op: Operation, k: nat, turn: Turn): Option<real> {
    if turn.reply.Failed? then Some(LocalRetryDelay(k, turn.fraction))
    else match ServerRetryDelay(turn.reply.response, op.policy.maxServerDelay)
      case Valid(d) => Some(d)
      case Absent => Some(LocalRetryDelay(k, turn.fraction))
      case TooLong => None
  }

  /** The exact condition for going on after the `k`-th reply. */
  predicate GoesOn(op: Operation, k: nat, turn: Turn) {
    && RetryableOperation(RetryClassOf(op.verb), op.policy) && k < op.policy.maxRetries && Transient(op, turn.reply)
    && Wait(op, k, turn).Some? && CanWait(turn.settled, Wait(op, k, turn).value, op.timeout)
  }

  function Ending(op: Operation, reply: Reply): Outcome {
    match reply
    case Failed(connect, timeout) => TransportError(connect, timeout)
    case Answered(r) => if r.status in op.successStatuses then Success(r) else StatusError(r)
  }

  /** Each attempt started in time, and each sleep followed a reply worth going on. */
  ghost predicate Begun(op: Operation, turns: nat -> Turn, attempts: seq<Attempt>, sleeps: seq<real>) {
    && (forall k :: 0 <= k < |attempts| ==>
          turns(k).top < op.timeout && attempts[k] == Attempt(turns(k).top, op.timeout - turns(k).top))
    && (forall k :: 0 <= k < |sleeps| ==> GoesOn(op, k, turns(k)) && sleeps[k] == Wait(op, k, turns(k)).value)
  }

  /** The run ends at the first turn that starts too late or does not go on. */
  ghost predicate IsRun(op: Operation, turns: nat -> Turn, run: Run) {
    var n := |run.sleeps|;
    && Begun(op, turns, run.attempts, run.sleeps)
    && if turns(n).top >= op.timeout then |run.attempts| == n && run.outcome == DeadlineExceeded
       else |run.attempts| == n + 1 && !GoesOn(op, n, turns(n)) && run.outcome == Ending(op, turns(n).reply)
  }

  /** One more turn of the loop ends the run, or begins the next. */
  lemma {:induction false} OneMoreTurn(op: Operation, turns: nat -> Turn, attempts: seq<Attempt>, sleeps: seq<real>)
    requires |attempts| == |sleeps| && Begun(op, turns, attempts, sleeps)
    ensures var n := |sleeps|; var turn := turns(n); var tried := attempts + [Attempt(turn.top, op.timeout - turn.top)];
            && (turn.top >= op.timeout ==> IsRun(op, turns, Run(attempts, sleeps, DeadlineExceeded)))
            && (turn.top < op.timeout && !GoesOn(op, n, turn) ==> IsRun(op, turns, Run(tried, sleeps, Ending(op, turn.reply))))
            && (turn.top < op.timeout && GoesOn(op, n, turn) ==> Begun(op, turns, tried, sleeps + [Wait(op, n, turn).value]))
  {
  }

  /** The script of replies and times decides the run. */
  lemma {:induction false} RunIsUnique(op: Operation, turns: nat -> Turn, r: Run, s: Run)
    requires IsRun(op, turns, r) && IsRun(op, turns, s)
    ensures r == s
  {
    LengthsAgree(op, turns, r, s);
    LengthsAgree(op, turns, s, r);
    assert r.attempts == s.attempts;
    assert r.sleeps == s.sleeps;
  }

  lemma {:induction false} LengthsAgree(op: Operation, turns: nat -> Turn, r: Run, s: Run)
    requires IsRun(op, turns, r) && IsRun(op, turns, s)
    ensures |r.sleeps| >= |s.sleeps|
  {
  }

  /** Attempt `k` is made if and only if every turn up to it starts in time and every earlier
      turn goes on. */
  lemma {:induction false} AttemptMade(op: Operation, turns: nat -> Turn, run: Run, k: nat)
    requires IsRun(op, turns, run)
    ensures k < |run.attempts| <==>
            (forall j :: 0 <= j <= k ==> turns(j).top < op.timeout) && forall j :: 0 <= j < k ==> GoesOn(op, j, turns(j))
  {
    var n := |run.sleeps|;
    if k < |run.attempts| {
      assert k <= n;
      assert forall j :: 0 <= j < k ==> GoesOn(op, j, turns(j));
    } else if turns(n).top >= op.timeout {
      assert n <= k;
    } else {
      assert n < k && !GoesOn(op, n, turns(n));
    }
  }

  // ----- Safety of every run -----

  /** At most `1 + maxRetries` attempts, none at or after the deadline and none given time
      beyond it; every sleep is planned to end before it and is no shorter than the server
      validly asked; and an operation that may not be retried is attempted at most once. */
  lemma {:induction false} RunIsSafe(op: Operation, turns: nat -> Turn, run: Run)
    requires IsRun(op, turns, run)
    ensures |run.attempts| <= 1 + op.policy.maxRetries
    ensures |run.sleeps| <= |run.attempts| <= |run.sleeps| + 1
    ensures forall k :: 0 <= k < |run.attempts| ==>
      var a := run.attempts[k]; a.start < op.timeout && a.budget > 0.0 && a.start + a.budget == op.timeout
    ensures forall k :: 0 <= k < |run.sleeps| ==> turns(k).settled + run.sleeps[k] < op.timeout
    ensures !RetryableOperation(RetryClassOf(op.verb), op.policy) ==> |run.attempts| <= 1 && run.sleeps == []
  {
    var n := |run.sleeps|;
    if n > 0 {
      assert GoesOn(op, n - 1, turns(n - 1));
    }
  }

  /** A delay the server validly asks for is slept as it is; one that is too long ends the run
      with that reply. */
  lemma {:induction false} ServerDelayIsObeyed(op: Operation, turns: nat -> Turn, run: Run, k: nat)
    requires IsRun(op, turns, run) && k < |run.attempts| && turns(k).reply.Answered?
    ensures var asked := ServerRetryDelay(turns(k).reply.response, op.policy.maxServerDelay);
            && (asked.Valid? && k < |run.sleeps| ==> run.sleeps[k] == asked.delay)
            && (asked.TooLong? ==> |run.attempts| == k + 1 && |run.sleeps| == k && run.outcome == Ending(op, turns(k).reply))
  {
    if ServerRetryDelay(turns(k).reply.response, op.policy.maxServerDelay).TooLong? {
      assert !GoesOn(op, k, turns(k));
    }
  }

  /** A valid delay is positive and within the policy's bound. */
  lemma {:induction false} ValidDelayIsBounded(r: Response, maximum: real)
    ensures var d := ServerRetryDelay(r, maximum); d.Valid? ==> 0.0 < d.delay <= maximum
  {
  }

  /** A success status ends the run at once, and only a success status is reported as success. */
  lemma {:induction false} SuccessMeans(op: Operation, turns: nat -> Turn, run: Run)
    requires IsRun(op, turns, run)
    ensures run.outcome.Success? <==>
            exists k :: 0 <= k < |run.attempts| &&
                        turns(k).reply.Answered? && turns(k).reply.response.status in op.successStatuses
    ensures run.outcome.Success? ==>
            |run.attempts| == |run.sleeps| + 1 && turns(|run.sleeps|).reply == Answered(run.outcome.response)
  {
    var n := |run.sleeps|;
    if k :| 0 <= k < |run.attempts| && turns(k).reply.Answered? && turns(k).reply.response.status in op.successStatuses {
      assert !GoesOn(op, k, turns(k));
      assert k == n;
    }
    if run.outcome.Success? {
      assert turns(n).reply.Answered? && n < |run.attempts|;
    }
  }

  // ----- The clock -----

  /** Time starts at zero and does not run backwards, and a sleep takes at least its length. */
  ghost predicate ClockRuns(turns: nat -> Turn, sleeps: seq<real>) {
    && 0.0 <= turns(0).top && (forall k :: 0 <= k <= |sleeps| ==> turns(k).top <= turns(k).settled)
    && forall k :: 0 <= k < |sleeps| ==> turns(k).settled + sleeps[k] <= turns(k + 1).top
  }

  lemma {:induction false} SleptBefore(turns: nat -> Turn, sleeps: seq<real>, k: nat)
    requires ClockRuns(turns, sleeps) && k <= |sleeps|
    ensures Total(sleeps[..k]) <= turns(k).top
  {
    if k > 0 {
      SleptBefore(turns, sleeps, k - 1);
      assert sleeps[..k][..k - 1] == sleeps[..k - 1];
      assert turns(k - 1).settled + sleeps[k - 1] <= turns(k - 1 + 1).top;
    }
  }

  /** On any clock that runs forward, all sleeps together end strictly before the deadline. */
  lemma {:induction false} SleepsFitTheDeadline(op: Operation, turns: nat -> Turn, run: Run)
    requires IsRun(op, turns, run) && ClockRuns(turns, run.sleeps)
    ensures run.sleeps != [] ==> Total(run.sleeps) < op.timeout
  {
    var n := |run.sleeps|;
    if n > 0 {
      SleptBefore(turns, run.sleeps, n - 1);
      assert GoesOn(op, n - 1, turns(n - 1));
      assert turns(n - 1).top <= turns(n - 1).settled;
    }
  }

  // ----- Backoff -----

  predicate IsFraction(f: real) { 0.0 <= f < 1.0 }

  lemma {:induction false} BaseTable()
    ensures BaseSeconds(0) == 0.5 && BaseSeconds(1) == 1.0 && BaseSeconds(2) == 2.0 && BaseSeconds(3) == 4.0
    ensures forall k: nat :: k >= 4 ==> BaseSeconds(k) == 8.0
  {
    assert Pow2(0) == 1 && Pow2(1) == 2 && Pow2(2) == 4 && Pow2(3) == 8 && Pow2(4) == 16;
  }

  lemma {:induction false} JitterRange(base: real, fraction: real)
    requires base > 0.0 && IsFraction(fraction)
    ensures 0.75 * base <= base * (0.75 + fraction * 0.25) < base
  {
    assert base * (0.75 + fraction * 0.25) - 0.75 * base == base * fraction * 0.25;
    assert 0.0 <= base * fraction < base by { Scale(base, fraction); }
  }

  lemma {:induction false} Scale(base: real, fraction: real)
    requires base > 0.0 && IsFraction(fraction)
    ensures 0.0 <= base * fraction < base
  {
    assert base * (1.0 - fraction) > 0.0;
  }

  /** The local waits of the first five retries strictly increase whatever the jitter, and
      later ones stay between six and eight seconds. */
  lemma {:induction false} BackoffIncreases(j: nat, k: nat, f: real, g: real)
    requires j < k && IsFraction(f) && IsFraction(g)
    ensures k <= 4 ==> LocalRetryDelay(j, f) < LocalRetryDelay(k, g)
    ensures k >= 4 ==> 6.0 <= LocalRetryDelay(k, g) < 8.0
  {
    BaseTable();
    JitterRange(BaseSeconds(j), f);
    JitterRange(BaseSeconds(k), g);
  }

  function LocalWaits(fractions: seq<real>): seq<real> {
    seq(|fractions|, k requires 0 <= k < |fractions| => LocalRetryDelay(k, fractions[k]))
  }

  /** The most that the first `n` local waits can add up to. */
  function MostWaiting(n: nat): real {
    if n <= 5 then 0.5 * (Pow2(n) - 1) as real else 15.5 + 8.0 * (n - 5) as real
  }

  lemma {:induction false} MostWaitingStep(n: nat)
    ensures MostWaiting(n + 1) == MostWaiting(n) + BaseSeconds(n)
  {
    BaseTable();
    assert Pow2(0) == 1 && Pow2(1) == 2 && Pow2(2) == 4 && Pow2(3) == 8 && Pow2(4) == 16 && Pow2(5) == 32;
  }

  /** The first `n` local waits add up to at least three quarters of the bound and never to
      more than it: for up to five waits, half of `2^n - 1` seconds. */
  lemma {:induction false} BackoffTotal(fractions: seq<real>)
    requires forall k :: 0 <= k < |fractions| ==> IsFraction(fractions[k])
    ensures 0.75 * MostWaiting(|fractions|) <= Total(LocalWaits(fractions)) <= MostWaiting(|fractions|)
  {
    var waits := LocalWaits(fractions);
    if fractions == [] {
      assert Pow2(0) == 1;
    } else {
      var n := |fractions| - 1;
      BackoffTotal(fractions[..n]);
      assert waits[..n] == LocalWaits(fractions[..n]);
      MostWaitingStep(n);
      BaseTable();
      JitterRange(BaseSeconds(n), fractions[n]);
    }
  }

  /** A run in which no reply asks for a delay sleeps the local waits and nothing else. */
  lemma {:induction false} LocalRunTotal(op: Operation, turns: nat -> Turn, run: Run)
    requires IsRun(op, turns, run) && forall k :: 0 <= k < |run.sleeps| ==> IsFraction(turns(k).fraction)
    requires forall k :: 0 <= k < |run.sleeps| && turns(k).reply.Answered? ==>
      ServerRetryDelay(turns(k).reply.response, op.policy.maxServerDelay).Absent?
    ensures Total(run.sleeps) <= MostWaiting(|run.sleeps|) <= MostWaiting(op.policy.maxRetries)
  {
    var fractions := seq(|run.sleeps|, k requires 0 <= k < |run.sleeps| => turns(k).fraction);
    assert run.sleeps == LocalWaits(fractions);
    BackoffTotal(fractions);
    RunIsSafe(op, turns, run);
    MostWaitingGrows(|run.sleeps|, op.policy.maxRetries);
  }

  lemma {:induction false} MostWaitingGrows(m: nat, n: nat)
    requires m <= n
    ensures MostWaiting(m) <= MostWaiting(n)
    decreases n - m
  {
    if m < n {
      MostWaitingGrows(m, n - 1);
      MostWaitingStep(n - 1);
      BaseTable();
    }
  }

  // ----- Presets -----

  /** The presets: three attempts for every operation; three for reads and deletions and one for
      the rest; one. */
  lemma {:induction false} PresetAttempts(op: Operation, turns: nat -> Turn, run: Run)
    requires IsRun(op, turns, run)
    ensures op.policy == OPENAI_COMPATIBLE ==> |run.attempts| <= 3
    ensures op.policy == CONSERVATIVE ==> |run.attempts| <= if op.verb == "GET" || op.verb == "DELETE" then 3 else 1
    ensures op.policy == DISABLED ==> |run.attempts| <= 1 && run.sleeps == []
  {
    RunIsSafe(op, turns, run);
    if |run.sleeps| > 0 {
      assert GoesOn(op, 0, turns(0));
    }
  }

  /** Setting the retry count or the longest server delay keeps the rest of the policy, so a
      mutation that may not be replayed is still attempted at most once. */
  lemma {:induction false} MoreRetriesReplayNothing(op: Operation, turns: nat -> Turn, run: Run, policy: RetryPolicy,
                                                    n: nat, d: real)
    requires !policy.retryReplayable && op.policy == policy.WithMaxServerDelay(d).WithMaxRetries(n)
    requires RetryClassOf(op.verb).Replayable?
    requires IsRun(op, turns, run)
    ensures |run.attempts| <= 1 && run.sleeps == []
  {
    RunIsSafe(op, turns, run);
  }
}
