/** The initial connection: bounded handshakes with one credential refresh. */
module BetaConnect {
  import opened JsonValue
  import opened Sequences

  const MAX_INITIAL_RECONNECTS: nat := 10
  const MAX_RECONNECT_DELAY: real := 60.0

  datatype ReconnectPolicy = Never | InitialConnect(maxRetries: nat, delay: real)

  datatype Config = Config(maxMessageBytes: nat, maxFrameBytes: nat, writeBufferBytes: nat, maxQueuedWriteBytes: nat,
                           connectTimeout: real, reconnect: ReconnectPolicy)

  datatype ConfigError = ZeroLimit | QueueTooSmall | ZeroTimeout | TooManyReconnects | DelayTooLong

  /** The first complaint about a configuration, if there is one. */
  function Validate(c: Config): Option<ConfigError> {
    if c.maxMessageBytes == 0 || c.maxFrameBytes == 0 then Some(ZeroLimit)
    else if c.maxQueuedWriteBytes <= c.writeBufferBytes then Some(QueueTooSmall)
    else if c.connectTimeout == 0.0 then Some(ZeroTimeout)
    else if c.reconnect.InitialConnect? && c.reconnect.maxRetries > MAX_INITIAL_RECONNECTS then Some(TooManyReconnects)
    else if c.reconnect.InitialConnect? && c.reconnect.delay > MAX_RECONNECT_DELAY then Some(DelayTooLong)
    else None
  }

  datatype HandshakeError = Io | Tls | Http(status: nat) | Other

  predicate Unauthorized(e: HandshakeError) { e == Http(401) }

  predicate RetryableConnectError(e: HandshakeError) {
    match e
    case Io => true
    case Tls => true
    case Http(status) => status in {408, 429} || status >= 500
    case Other => false
  }

  datatype Reply = Accepted | Rejected(error: HandshakeError) | TimedOut

  /** What the outside shows in one turn: whether a credential is had, whether it belongs to a
      generation that can be refreshed, and how the handshake goes. */
  datatype Turn = Turn(authorized: bool, generation: Option<nat>, reply: Reply)

  datatype Outcome =
    | Connected
    | NoAuthorization
    | HandshakeFailed(error: HandshakeError)
    | HandshakeTimedOut
    | InvalidConfiguration(complaint: ConfigError)

  /** What a connection attempt does: handshakes, generations given up, and pauses, in order. */
  datatype Attempt = Attempt(handshakes: nat, invalidated: seq<nat>, pauses: seq<real>, outcome: Outcome)

  function MaxRetries(c: Config): nat { if c.reconnect.Never? then 0 else c.reconnect.maxRetries }

  function Delay(c: Config): real { if c.reconnect.Never? then 0.0 else c.reconnect.delay }

  method Connect(c: Config, turns: nat -> Turn) returns (r: Attempt)
    ensures IsAttempt(c, turns, r)
  {
    var complaint := Validate(c);
    if complaint.Some? {
      return Attempt(0, [], [], InvalidConfiguration(complaint.value));
    }
    var maxRetries, delay := MaxRetries(c), Delay(c);
    var retries: nat, authRefreshed, handshakes, invalidated, pauses := 0, false, 0, [], [];
    while true
      invariant Progressed(c, turns, Progress(handshakes, invalidated, pauses))
      invariant Validate(c).None? && handshakes == |invalidated| + |pauses|
      invariant retries == |pauses| <= maxRetries && authRefreshed == (invalidated != [])
      decreases maxRetries - retries, if authRefreshed then 0 else 1
    {
      var turn := turns(handshakes);
      OneMoreTurn(c, turns, Progress(handshakes, invalidated, pauses));
      if !turn.authorized {
        return Attempt(handshakes, invalidated, pauses, NoAuthorization);
      }
      handshakes := handshakes + 1;
      match turn.reply {
        case Accepted =>
          return Attempt(handshakes, invalidated, pauses, Connected);
        case Rejected(error) =>
          if turn.generation.Some? && !authRefreshed && Unauthorized(error) {
            invalidated := invalidated + [turn.generation.value];
            authRefreshed := true;
          } else if retries < maxRetries && RetryableConnectError(error) {
            retries := retries + 1;
            pauses := pauses + [delay];
          } else {
            return Attempt(handshakes, invalidated, pauses, HandshakeFailed(error));
          }
        case TimedOut =>
          if retries < maxRetries {
            retries := retries + 1;
            pauses := pauses + [delay];
          } else {
            return Attempt(handshakes, invalidated, pauses, HandshakeTimedOut);
          }
      }
    }
  }

  /** One more turn of the loop ends the attempt, or goes on to the next. */
  lemma {:induction false} OneMoreTurn(c: Config, turns: nat -> Turn, p: Progress)
    requires Validate(c).None? && Progressed(c, turns, p) && p.handshakes == |p.invalidated| + |p.pauses|
    ensures var turn := turns(p.handshakes); var next := Next(c, p, turn);
            && (next.Some? ==> Progressed(c, turns, next.value))
            && (next.None? ==> IsAttempt(c, turns, Attempt(p.handshakes + (if turn.authorized then 1 else 0),
                                                           p.invalidated, p.pauses, Ending(turn))))
  {
    if Next(c, p, turns(p.handshakes)).Some? { ProgressNext(c, turns, p); }
  }

  // ----- What an attempt is -----

  datatype Progress = Progress(handshakes: nat, invalidated: seq<nat>, pauses: seq<real>)

  /** The next turn refreshes the credential. */
  predicate Refreshes(p: Progress, turn: Turn) {
    turn.authorized && turn.reply.Rejected? && turn.generation.Some? && p.invalidated == [] && Unauthorized(turn.reply.error)
  }

  /** The next turn pauses before another one. */
  predicate Pauses(c: Config, p: Progress, turn: Turn) {
    && turn.authorized && |p.pauses| < MaxRetries(c)
    && (turn.reply.TimedOut? || (turn.reply.Rejected? && !Refreshes(p, turn) && RetryableConnectError(turn.reply.error)))
  }

  function Next(c: Config, p: Progress, turn: Turn): Option<Progress> {
    if Refreshes(p, turn) then Some(Progress(p.handshakes + 1, p.invalidated + [turn.generation.value], p.pauses))
    else if Pauses(c, p, turn) then Some(Progress(p.handshakes + 1, p.invalidated, p.pauses + [Delay(c)]))
    else None
  }

  /** The progress after `k` turns, if none of them ends the attempt. */
  function After(c: Config, turns: nat -> Turn, k: nat): Option<Progress> {
    if k == 0 then Some(Progress(0, [], []))
    else
      match After(c, turns, k - 1)
      case None => None
      case Some(p) => Next(c, p, turns(k - 1))
  }

  ghost predicate Progressed(c: Config, turns: nat -> Turn, p: Progress) { After(c, turns, p.handshakes) == Some(p) }

  lemma {:induction false} ProgressNext(c: Config, turns: nat -> Turn, p: Progress)
    requires Progressed(c, turns, p) && Next(c, p, turns(p.handshakes)).Some?
    ensures Progressed(c, turns, Next(c, p, turns(p.handshakes)).value)
  {
  }

  function Ending(turn: Turn): Outcome {
    if !turn.authorized then NoAuthorization
    else match turn.reply
      case Accepted => Connected
      case Rejected(error) => HandshakeFailed(error)
      case TimedOut => HandshakeTimedOut
  }

  /** A refused configuration does nothing; otherwise the attempt goes on turn by turn and ends
      with the first turn that neither refreshes nor pauses. */
  ghost predicate IsAttempt(c: Config, turns: nat -> Turn, r: Attempt) {
    if Validate(c).Some? then r == Attempt(0, [], [], InvalidConfiguration(Validate(c).value))
    else
      var n := |r.invalidated| + |r.pauses|;
      var p := Progress(n, r.invalidated, r.pauses);
      && Progressed(c, turns, p) && Next(c, p, turns(n)).None?
      && r.outcome == Ending(turns(n)) && r.handshakes == n + if turns(n).authorized then 1 else 0
  }

  // ----- Bounds -----

  /** Every turn but the last either pauses or is the one refresh. */
  lemma {:induction false} ProgressCounts(c: Config, turns: nat -> Turn, k: nat)
    requires After(c, turns, k).Some?
    ensures var p := After(c, turns, k).value;
            && p.handshakes == k == |p.invalidated| + |p.pauses| && |p.pauses| <= MaxRetries(c) && |p.invalidated| <= 1
            && (forall i :: 0 <= i < |p.pauses| ==> p.pauses[i] == Delay(c))
            && (p.invalidated != [] ==> exists i: nat :: i < k && RefreshedAt(turns, i, p.invalidated[0]))
  {
    if k > 0 {
      ProgressCounts(c, turns, k - 1);
      var p := After(c, turns, k - 1).value;
      if Refreshes(p, turns(k - 1)) {
        var q := After(c, turns, k).value;
        assert q.invalidated == [turns(k - 1).generation.value];
        assert RefreshedAt(turns, k - 1, q.invalidated[0]);
      }
    }
  }

  /** The turn was refused as unauthorized with a credential of that generation. */
  ghost predicate RefreshedAt(turns: nat -> Turn, i: nat, generation: nat) {
    turns(i).generation == Some(generation) && turns(i).reply == Rejected(Http(401))
  }

  /** The handshakes are at most one more than the retries, plus one if a credential of some
      generation was refused; no more than one generation is given up, and only one that was
      refused in this attempt; every pause is the configured one. */
  lemma {:induction false} AttemptIsBounded(c: Config, turns: nat -> Turn, r: Attempt)
    requires IsAttempt(c, turns, r)
    ensures r.handshakes <= 1 + MaxRetries(c) + |r.invalidated| && |r.invalidated| <= 1
    ensures |r.pauses| <= MaxRetries(c) && forall i :: 0 <= i < |r.pauses| ==> r.pauses[i] == Delay(c)
    ensures r.invalidated != [] ==> exists i: nat :: i < r.handshakes && RefreshedAt(turns, i, r.invalidated[0])
    ensures (forall i :: turns(i).generation.None?) ==> r.handshakes <= 1 + MaxRetries(c) && r.invalidated == []
  {
    if Validate(c).None? {
      ProgressCounts(c, turns, |r.invalidated| + |r.pauses|);
    }
  }

  // ----- When a handshake is made, read off the script -----

  /** A turn that costs a retry: a timeout or a retryable rejection. */
  predicate Transient(turn: Turn) {
    turn.authorized && (turn.reply.TimedOut? || (turn.reply.Rejected? && RetryableConnectError(turn.reply.error)))
  }

  /** A turn that refuses a credential which can be refreshed. */
  predicate Refused(turn: Turn) { turn.authorized && turn.generation.Some? && turn.reply == Rejected(Http(401)) }

  ghost predicate AllTransient(turns: nat -> Turn, k: nat) { forall i :: 0 <= i < k ==> Transient(turns(i)) }

  ghost predicate RefusedOnce(turns: nat -> Turn, j: nat, k: nat) {
    j < k && Refused(turns(j)) && forall i :: 0 <= i < k && i != j ==> Transient(turns(i))
  }

  /** Among the first `k` turns exactly one is refused, and the others are transient. */
  ghost predicate OneRefused(turns: nat -> Turn, k: nat) { exists j: nat :: RefusedOnce(turns, j, k) }

  /** The first `k` turns all go on: every one is transient, or one of them is refused and the
      rest are; and the transient ones do not outnumber the retries. */
  ghost predicate Lasts(c: Config, turns: nat -> Turn, k: nat) {
    (AllTransient(turns, k) && k <= MaxRetries(c)) || (OneRefused(turns, k) && k <= 1 + MaxRetries(c))
  }

  lemma {:induction false} AfterMeans(c: Config, turns: nat -> Turn, k: nat)
    ensures After(c, turns, k).Some? && After(c, turns, k).value.invalidated == [] <==>
            AllTransient(turns, k) && k <= MaxRetries(c)
    ensures After(c, turns, k).Some? && After(c, turns, k).value.invalidated != [] <==>
            OneRefused(turns, k) && k <= 1 + MaxRetries(c)
  {
    if k > 0 {
      var last := turns(k - 1);
      AfterMeans(c, turns, k - 1);
      if After(c, turns, k - 1).Some? { ProgressCounts(c, turns, k - 1); }
      assert AllTransient(turns, k) <==> AllTransient(turns, k - 1) && Transient(last);
      RefusedOnceNext(turns, k);
    }
  }

  lemma {:induction false} RefusedOnceNext(turns: nat -> Turn, k: nat)
    requires k > 0
    ensures OneRefused(turns, k) <==>
            (AllTransient(turns, k - 1) && Refused(turns(k - 1))) || (OneRefused(turns, k - 1) && Transient(turns(k - 1)))
  {
    var n := k - 1;
    if OneRefused(turns, k) {
      var j: nat :| RefusedOnce(turns, j, k);
      if j < n { assert RefusedOnce(turns, j, n); }
    }
    if AllTransient(turns, n) && Refused(turns(n)) { assert RefusedOnce(turns, n, k); }
    if OneRefused(turns, n) && Transient(turns(n)) {
      var j: nat :| RefusedOnce(turns, j, n);
      assert RefusedOnce(turns, j, k);
    }
  }

  /** The handshake after `k` others is made if and only if the configuration is accepted, those
      `k` turns all go on, and a credential is had for it. */
  lemma {:induction false} HandshakeMade(c: Config, turns: nat -> Turn, r: Attempt, k: nat)
    requires IsAttempt(c, turns, r)
    ensures r.handshakes > k <==> Validate(c).None? && Lasts(c, turns, k) && turns(k).authorized
  {
    AfterMeans(c, turns, k);
    if Validate(c).None? {
      var n := |r.invalidated| + |r.pauses|;
      if k < n {
        AfterEndsOnce(c, turns, k, n);
      } else if n < k && After(c, turns, k).Some? {
        AfterEndsOnce(c, turns, n, k);
      }
    }
  }

  /** A first handshake is made if and only if every setting is in range and a credential is had. */
  lemma {:induction false} FirstHandshake(c: Config, turns: nat -> Turn, r: Attempt)
    requires IsAttempt(c, turns, r)
    ensures r.handshakes > 0 <==>
            && turns(0).authorized && c.maxMessageBytes > 0 && c.maxFrameBytes > 0 && c.maxQueuedWriteBytes > c.writeBufferBytes
            && c.connectTimeout != 0.0
            && (c.reconnect.InitialConnect? ==> c.reconnect.maxRetries <= 10 && c.reconnect.delay <= 60.0)
  {
    HandshakeMade(c, turns, r, 0);
  }

  /** What the first reply must be for a second handshake: a timeout, a transport failure, or one
      of the statuses 408, 429 and 500 and above if there are retries, or 401 for a credential that
      can be refreshed. */
  lemma {:induction false} SecondHandshake(c: Config, turns: nat -> Turn, r: Attempt)
    requires IsAttempt(c, turns, r) && r.handshakes > 0
    ensures r.handshakes > 1 <==>
            && turns(1).authorized
            && match turns(0).reply
               case Accepted => false
               case TimedOut => c.reconnect.InitialConnect? && c.reconnect.maxRetries > 0
               case Rejected(Other) => false
               case Rejected(Http(status)) =>
                 || (status == 401 && turns(0).generation.Some?)
                 || (c.reconnect.InitialConnect? && c.reconnect.maxRetries > 0
                    && (status == 408 || status == 429 || status >= 500))
               case Rejected(_) => c.reconnect.InitialConnect? && c.reconnect.maxRetries > 0
  {
    HandshakeMade(c, turns, r, 0);
    HandshakeMade(c, turns, r, 1);
    if Refused(turns(0)) { assert RefusedOnce(turns, 0, 1); }
    if OneRefused(turns, 1) {
      var j: nat :| RefusedOnce(turns, j, 1);
      assert j == 0;
    }
  }

  /** An attempt exceeds the documented count of one more than the retries if and only if the
      configuration is accepted and the script begins with one refused credential and as many
      transient turns as there are retries, in any order, before a turn with a credential. */
  lemma {:induction false} ExtraHandshake(c: Config, turns: nat -> Turn, r: Attempt)
    requires IsAttempt(c, turns, r)
    ensures r.handshakes > 1 + MaxRetries(c) <==>
            Validate(c).None? && OneRefused(turns, 1 + MaxRetries(c)) && turns(1 + MaxRetries(c)).authorized
  {
    HandshakeMade(c, turns, r, 1 + MaxRetries(c));
  }

  /** Even without retries, a refused credential that can be refreshed costs a second handshake. */
  lemma {:induction false} RefreshCostsOne(c: Config, turns: nat -> Turn, r: Attempt, generation: nat)
    requires IsAttempt(c, turns, r) && Validate(c).None? && c.reconnect.Never?
    requires turns(0) == Turn(true, Some(generation), Rejected(Http(401))) && turns(1).authorized
    ensures r.handshakes == 2 && r.invalidated == [generation] && r.pauses == []
  {
    var n := |r.invalidated| + |r.pauses|;
    ProgressCounts(c, turns, n);
    var start := Progress(0, [], []);
    assert Progressed(c, turns, start) && Refreshes(start, turns(0));
    ProgressNext(c, turns, start);
    assert Next(c, start, turns(0)).value == Progress(1, [generation], []) by { assert [] + [generation] == [generation]; }
  }

  lemma {:induction false} TotalAtMost(pauses: seq<real>)
    requires forall i :: 0 <= i < |pauses| ==> pauses[i] <= 60.0
    ensures Total(pauses) <= 60.0 * |pauses| as real
  {
    if pauses != [] {
      TotalAtMost(pauses[..|pauses| - 1]);
    }
  }

  /** Whatever the configuration, an attempt makes at most twelve handshakes and pauses at most
      ten times, for at most a minute each and ten minutes together. */
  lemma {:induction false} EveryAttemptEnds(c: Config, turns: nat -> Turn, r: Attempt)
    requires IsAttempt(c, turns, r)
    ensures r.handshakes <= 12 && |r.pauses| <= 10 && (forall i :: 0 <= i < |r.pauses| ==> r.pauses[i] <= 60.0)
    ensures Total(r.pauses) <= 600.0
    ensures r.outcome.InvalidConfiguration? ==> r.handshakes == 0 && r.pauses == [] && r.invalidated == []
  {
    AttemptIsBounded(c, turns, r);
    TotalAtMost(r.pauses);
  }

  /** These bounds are reached: a server that never answers costs an accepted configuration all
      its retries, and one refused credential on top of them the extra handshake. */
  lemma {:induction false} BoundsAreReached(c: Config, turns: nat -> Turn, r: Attempt)
    requires IsAttempt(c, turns, r) && Validate(c).None? && forall i :: turns(i).authorized
    requires forall i: nat :: i > 0 ==> turns(i).reply.TimedOut?
    ensures turns(0).reply.TimedOut? ==> r.handshakes == 1 + MaxRetries(c) && |r.pauses| == MaxRetries(c)
    ensures Refused(turns(0)) ==> r.handshakes == 2 + MaxRetries(c) && |r.pauses| == MaxRetries(c)
  {
    AttemptIsBounded(c, turns, r);
    if Refused(turns(0)) {
      assert RefusedOnce(turns, 0, 1 + MaxRetries(c));
      ExtraHandshake(c, turns, r);
    } else if turns(0).reply.TimedOut? {
      HandshakeMade(c, turns, r, MaxRetries(c));
      HandshakeMade(c, turns, r, 1 + MaxRetries(c));
    }
  }

  /** The script of replies decides the attempt. */
  lemma {:induction false} AttemptIsUnique(c: Config, turns: nat -> Turn, r: Attempt, s: Attempt)
    requires IsAttempt(c, turns, r) && IsAttempt(c, turns, s)
    ensures r == s
  {
    if Validate(c).None? {
      var m, n := |r.invalidated| + |r.pauses|, |s.invalidated| + |s.pauses|;
      if m < n { AfterEndsOnce(c, turns, m, n); }
      if n < m { AfterEndsOnce(c, turns, n, m); }
    }
  }

  lemma {:induction false} AfterEndsOnce(c: Config, turns: nat -> Turn, m: nat, n: nat)
    requires m < n && After(c, turns, n).Some?
    ensures After(c, turns, m + 1).Some?
    decreases n
  {
    if m + 1 < n { AfterEndsOnce(c, turns, m, n - 1); }
  }

  /** The error that is reported: a timeout only with all retries used, and a retryable
      rejection only with all retries used; an unauthorized one only for a credential that
      cannot be refreshed or after the one refresh. */
  lemma {:induction false} FailureIsFinal(c: Config, turns: nat -> Turn, r: Attempt)
    requires IsAttempt(c, turns, r)
    ensures r.outcome.HandshakeTimedOut? ==> |r.pauses| == MaxRetries(c)
    ensures r.outcome.HandshakeFailed? && RetryableConnectError(r.outcome.error) ==> |r.pauses| == MaxRetries(c)
    ensures r.outcome == HandshakeFailed(Http(401)) ==> turns(r.handshakes - 1).generation.None? || |r.invalidated| == 1
  {
    if Validate(c).None? {
      ProgressCounts(c, turns, |r.invalidated| + |r.pauses|);
    }
  }
}
