/** What the waits of a retry run are, read off the headers, the statuses and the policy. */
module AdminDelays {
  import opened JsonValue
  import opened AdminRetry

  // ----- The delay a reply asks for -----

  /** The millisecond header is a number: it decides alone. */
  ghost predicate HasMilliseconds(r: Response) { r.retryAfterMs.Some? && r.retryAfterMs.value.number.Some? }

  /** The other header is a number of seconds that is not negative. */
  ghost predicate HasSeconds(r: Response) {
    && r.retryAfter.Some? && r.retryAfter.value.number.Some?
    && r.retryAfter.value.number.value.Finite? && r.retryAfter.value.number.value.value >= 0.0
  }

  /** The reply asks for a wait of `d` seconds. */
  ghost predicate Asks(r: Response, d: real) {
    && d > 0.0
    && if HasMilliseconds(r) then r.retryAfterMs.value.number.value == Finite(1000.0 * d)
       else if HasSeconds(r) then r.retryAfter.value.number.value == Finite(d)
       else r.retryAfter.Some? && r.retryAfter.value.date == Some(d)
  }

  lemma {:induction false} AsksOnce(r: Response, d: real, e: real)
    requires Asks(r, d) && Asks(r, e)
    ensures d == e
  {
  }

  /** What the headers ask for decides the server delay. */
  lemma {:induction false} ServerDelayMeans(r: Response, maximum: real, d: real)
    requires Asks(r, d)
    ensures ServerRetryDelay(r, maximum) == if d <= maximum then Valid(d) else TooLong
  {
  }

  lemma {:induction false} NoServerDelay(r: Response, maximum: real)
    requires forall d :: !Asks(r, d)
    ensures ServerRetryDelay(r, maximum) == Absent
  {
    if HasMilliseconds(r) && r.retryAfterMs.value.number.value.Finite? {
      var d := r.retryAfterMs.value.number.value.value / 1000.0;
      assert !Asks(r, d);
    } else if !HasMilliseconds(r) && HasSeconds(r) {
      assert !Asks(r, r.retryAfter.value.number.value.value);
    } else if !HasMilliseconds(r) && r.retryAfter.Some? && r.retryAfter.value.date.Some? {
      assert !Asks(r, r.retryAfter.value.date.value);
    }
  }

  // ----- Which replies are retried, and after which wait -----

  /** A failed attempt or an unsuccessful reply that may be retried: a connection failure or a
      timeout; a reply that says so; or, unless it says not to, one of the statuses 408, 409 and
      429 and every status from 500. */
  ghost predicate Retriable(op: Operation, reply: Reply) {
    match reply
    case Failed(connect, timeout) => connect || timeout
    case Answered(r) =>
      && r.status !in op.successStatuses
      && (r.shouldRetry == Some("true")
          || (r.shouldRetry != Some("false") && (r.status == 408 || r.status == 409 || r.status == 429 || r.status >= 500)))
  }

  /** The wait of `d` seconds after the `k`-th reply: what it asks for within the bound of the
      policy, or the local wait if it asks for nothing. */
  ghost predicate Waits(op: Operation, k: nat, turn: Turn, d: real) {
    if turn.reply.Answered? && exists asked :: Asks(turn.reply.response, asked)
    then Asks(turn.reply.response, d) && d <= op.policy.maxServerDelay
    else d == LocalRetryDelay(k, turn.fraction)
  }

  lemma {:induction false} WaitMeans(op: Operation, k: nat, turn: Turn, d: real)
    ensures Wait(op, k, turn) == Some(d) <==> Waits(op, k, turn, d)
  {
    if turn.reply.Answered? {
      var r := turn.reply.response;
      if asked :| Asks(r, asked) {
        ServerDelayMeans(r, op.policy.maxServerDelay, asked);
        if Asks(r, d) { AsksOnce(r, asked, d); }
      } else {
        NoServerDelay(r, op.policy.maxServerDelay);
      }
    }
  }

  lemma {:induction false} TransientMeans(op: Operation, reply: Reply)
    ensures Transient(op, reply) <==> Retriable(op, reply)
  {
  }

  /** The operation may be retried at all: it only reads or deletes, or the policy replays. */
  ghost predicate MayRetry(op: Operation) { op.verb == "GET" || op.verb == "DELETE" || op.policy.retryReplayable }

  /** After reply `k` the run sleeps `d` seconds if and only if retries are allowed and left, the
      reply may be retried, `d` is the wait it calls for, and that wait ends before the deadline. */
  lemma {:induction false} SleepsMean(op: Operation, turns: nat -> Turn, run: Run, k: nat, d: real)
    requires IsRun(op, turns, run) && k < |run.attempts|
    ensures k < |run.sleeps| && run.sleeps[k] == d <==>
            && MayRetry(op) && k < op.policy.maxRetries && Retriable(op, turns(k).reply)
            && Waits(op, k, turns(k), d) && turns(k).settled + d < op.timeout
  {
    WaitMeans(op, k, turns(k), d);
    TransientMeans(op, turns(k).reply);
    if k == |run.sleeps| {
      assert !GoesOn(op, k, turns(k));
    } else {
      assert GoesOn(op, k, turns(k)) && run.sleeps[k] == Wait(op, k, turns(k)).value;
    }
  }

  /** How the headers decide a sleep: milliseconds are slept as such whatever the other header
      says, then seconds, then a date; and more than the policy allows ends the run there. */
  lemma {:induction false} MillisecondsObeyed(op: Operation, turns: nat -> Turn, run: Run, k: nat, r: Response, ms: ParsedFloat)
    requires IsRun(op, turns, run) && k < |run.attempts| && turns(k).reply == Answered(r)
    requires r.retryAfterMs.Some? && r.retryAfterMs.value.number == Some(ms)
    ensures ms.Finite? && 0.0 < ms.value <= 1000.0 * op.policy.maxServerDelay && k < |run.sleeps| ==>
              1000.0 * run.sleeps[k] == ms.value
    ensures ms.Finite? && 0.0 < ms.value && ms.value > 1000.0 * op.policy.maxServerDelay ==>
              |run.attempts| == k + 1 && |run.sleeps| == k
    ensures (ms.NotFinite? || ms.value <= 0.0) && k < |run.sleeps| ==> run.sleeps[k] == LocalRetryDelay(k, turns(k).fraction)
  {
    if ms.Finite? && 0.0 < ms.value {
      assert Asks(r, ms.value / 1000.0);
      AskedIsSlept(op, turns, run, k, r, ms.value / 1000.0);
    } else if k < |run.sleeps| {
      assert forall d :: !Asks(r, d);
      SleepsMean(op, turns, run, k, run.sleeps[k]);
    }
  }

  lemma {:induction false} AskedIsSlept(op: Operation, turns: nat -> Turn, run: Run, k: nat, r: Response, d: real)
    requires IsRun(op, turns, run) && k < |run.attempts| && turns(k).reply == Answered(r) && Asks(r, d)
    ensures d <= op.policy.maxServerDelay && k < |run.sleeps| ==> run.sleeps[k] == d
    ensures d > op.policy.maxServerDelay ==> |run.attempts| == k + 1 && |run.sleeps| == k
    ensures d > op.policy.maxServerDelay ==>
              run.outcome == if r.status in op.successStatuses then Success(r) else StatusError(r)
  {
    ServerDelayMeans(r, op.policy.maxServerDelay, d);
    if k < |run.sleeps| {
      SleepsMean(op, turns, run, k, run.sleeps[k]);
      AsksOnce(r, d, run.sleeps[k]);
    }
  }

  lemma {:induction false} SecondsObeyed(op: Operation, turns: nat -> Turn, run: Run, k: nat, r: Response, seconds: real)
    requires IsRun(op, turns, run) && k < |run.attempts| && turns(k).reply == Answered(r) && !HasMilliseconds(r)
    requires r.retryAfter.Some? && r.retryAfter.value.number == Some(Finite(seconds)) && seconds >= 0.0
    ensures 0.0 < seconds <= op.policy.maxServerDelay && k < |run.sleeps| ==> run.sleeps[k] == seconds
    ensures 0.0 < seconds && seconds > op.policy.maxServerDelay ==> |run.attempts| == k + 1 && |run.sleeps| == k
    ensures seconds == 0.0 && k < |run.sleeps| ==> run.sleeps[k] == LocalRetryDelay(k, turns(k).fraction)
  {
    if 0.0 < seconds {
      AskedIsSlept(op, turns, run, k, r, seconds);
    } else if k < |run.sleeps| {
      assert forall d :: !Asks(r, d);
      SleepsMean(op, turns, run, k, run.sleeps[k]);
    }
  }

  lemma {:induction false} DateObeyed(op: Operation, turns: nat -> Turn, run: Run, k: nat, r: Response, ahead: real)
    requires IsRun(op, turns, run) && k < |run.attempts| && turns(k).reply == Answered(r) && !HasMilliseconds(r)
    requires !HasSeconds(r) && r.retryAfter.Some? && r.retryAfter.value.date == Some(ahead)
    ensures 0.0 < ahead <= op.policy.maxServerDelay && k < |run.sleeps| ==> run.sleeps[k] == ahead
    ensures 0.0 < ahead && ahead > op.policy.maxServerDelay ==> |run.attempts| == k + 1 && |run.sleeps| == k
    ensures ahead <= 0.0 && k < |run.sleeps| ==> run.sleeps[k] == LocalRetryDelay(k, turns(k).fraction)
  {
    if 0.0 < ahead {
      AskedIsSlept(op, turns, run, k, r, ahead);
    } else if k < |run.sleeps| {
      assert forall d :: !Asks(r, d);
      SleepsMean(op, turns, run, k, run.sleeps[k]);
    }
  }

  // ----- The local wait -----

  /** The local wait starts at three eighths of a second, doubles with each of the first four
      retries and then stays, and the wall-clock fraction adds up to a third. */
  lemma {:induction false} LocalWaitMeans(k: nat, fraction: real)
    ensures LocalRetryDelay(0, 0.0) == 0.375
    ensures LocalRetryDelay(k + 1, 0.0) == (if k < 4 then 2.0 else 1.0) * LocalRetryDelay(k, 0.0)
    ensures 3.0 * LocalRetryDelay(k, fraction) == (3.0 + fraction) * LocalRetryDelay(k, 0.0)
  {
    BaseTable();
    Jitter(BaseSeconds(k), fraction);
  }

  lemma {:induction false} Jitter(base: real, fraction: real)
    ensures 3.0 * (base * (0.75 + fraction * 0.25)) == (3.0 + fraction) * (base * (0.75 + 0.0 * 0.25))
  {
    assert base * (0.75 + fraction * 0.25) == base * 0.75 + base * fraction * 0.25;
  }

  // ----- Presets -----

  /** The presets as numbers: retries, replay, and the longest delay a server may ask for. A GET
      that is answered 503 without end is attempted once more than its retries. */
  lemma {:induction false} PresetsMean(op: Operation, turns: nat -> Turn, run: Run, k: nat, d: real)
    requires IsRun(op, turns, run) && k < |run.attempts| && turns(k).reply.Answered? && Asks(turns(k).reply.response, d)
    ensures op.policy == OPENAI_COMPATIBLE ==>
              (k < |run.sleeps| <==> k < 2 && Retriable(op, turns(k).reply) && d <= 120.0 && turns(k).settled + d < op.timeout)
    ensures op.policy == CONSERVATIVE ==>
              (k < |run.sleeps| <==> && (op.verb == "GET" || op.verb == "DELETE") && k < 2 && Retriable(op, turns(k).reply)
                                     && d <= 60.0 && turns(k).settled + d < op.timeout)
    ensures op.policy == DISABLED ==> k == |run.sleeps|
  {
    SleepsMean(op, turns, run, k, d);
    if k < |run.sleeps| {
      SleepsMean(op, turns, run, k, run.sleeps[k]);
      AsksOnce(turns(k).reply.response, d, run.sleeps[k]);
    }
  }
}
