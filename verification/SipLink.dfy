/** The resident SIP link: one user agent (UA), registered, restarted and re-registered with
    back-off. Times are milliseconds, delays seconds. */
module SipLink {
  import opened Bytes

  const MAX_U32: nat := 0xffff_ffff
  const DRAIN_LIMIT: nat := 32

  datatype CallEvent =
    | IncomingCall(callId: string, fromDevice: string, offerSdp: string)
    | Ringing(callId: string)
    | Answered(callId: string, answerSdp: string)
    | Rejected(callId: string, code: u16, errorCode: Option<string>)
    | PeerHangup(callId: string, reason: Option<string>)
    | EscalatedToSfu(callId: string, viewAor: string)
    | RedirectedTo(callId: string, contact: string)
    | Trickle(callId: string, candidate: string)

  datatype SipEvent =
    | Registered(aor: string, turn: Option<string>)
    | RegisterFailed(code: u16, cause: string)
    | Call(event: CallEvent)
    | EndpointStopped

  datatype Failure = StartFailed(error: string) | RegistrationFailed(code: u16, cause: string) | UaStopped

  datatype Status =
    | Stopped
    | Connecting(attempt: u32)
    | Online(aor: string)
    | Reconnecting(attempt: u32, delay: nat, lastError: Failure)

  /** What starting a UA comes to. */
  datatype Start = Started | CannotStart(error: string)

  /** What the link does to UAs; `Lost` is a UA that ended by itself. */
  datatype Action = Spawned | SpawnFailed | Reregister | Shutdown | Lost

  datatype Link = Link(handle: bool, status: Status, attempt: u32, retryAt: Option<nat>, retryDelay: nat,
                       events: seq<CallEvent>, turn: Option<string>, log: seq<Action>)

  const NEW: Link := Link(false, Stopped, 1, None, 1, [], None, [])

  // ---- delays ----

  function Saturate(n: nat): u32 {
    Min(n, MAX_U32)
  }

  /** Rust's `n as i32 - 1`, wrapping. */
  function AsI32Less1(n: u32): int {
    var i := if n < 0x8000_0000 then n else n - 0x1_0000_0000;
    if i == -0x8000_0000 then 0x7fff_ffff else i - 1
  }

  function Pow2(n: nat): (p: nat)
    ensures p > 0
  {
    if n == 0 then 1 else 2 * Pow2(n - 1)
  }

  /** Delay after the UA could not be started or has stopped. */
  function RestartDelay(attempt: u32): nat {
    var shift := Max(0, Min(AsI32Less1(attempt), 31));
    Max(Min(Pow2(shift), 30), 1)
  }

  /** `backoff`: delay after a failed registration. */
  function Backoff(attempt: u32): nat {
    Pow2(Min(Max(attempt - 1, 0), 5))
  }

  // ---- operations ----

  function ScheduleRetry(l: Link, now: nat, attempt: u32, error: Failure): Link {
    var delay := RestartDelay(attempt);
    l.(attempt := Saturate(attempt + 1), retryDelay := delay, retryAt := Some(now + 1000 * delay),
       status := Reconnecting(attempt, delay, error))
  }

  function SpawnUa(l: Link, now: nat, attempt: u32, start: Start): Link {
    match start
    case CannotStart(e) => ScheduleRetry(l.(log := l.log + [SpawnFailed]), now, attempt, StartFailed(e))
    case Started => l.(handle := true, status := Connecting(attempt), log := l.log + [Spawned])
  }

  function StartLink(l: Link, now: nat, start: Start): Link {
    if l.status.Stopped? then SpawnUa(l.(attempt := 1, retryDelay := 1, retryAt := None, events := []), now, 1, start)
    else l
  }

  function StopLink(l: Link): Link {
    l.(handle := false, status := Stopped, retryAt := None, events := [],
       log := if l.handle then l.log + [Shutdown] else l.log)
  }

  function OnEvent(l: Link, now: nat, e: SipEvent): Link {
    match e
    case Registered(aor, turn) =>
      l.(attempt := 1, retryDelay := 1, retryAt := None, turn := turn, status := Online(aor))
    case RegisterFailed(code, cause) =>
      var delay := Backoff(l.attempt);
      l.(attempt := Saturate(l.attempt + 1), retryDelay := delay, retryAt := Some(now + 1000 * delay),
         status := Reconnecting(l.attempt, delay, RegistrationFailed(code, cause)))
    case Call(event) => l.(events := l.events + [event])
    case EndpointStopped =>
      var lost := l.(handle := false, log := l.log + [Lost]);
      if l.status.Reconnecting? then lost else ScheduleRetry(lost, now, l.attempt, UaStopped)
  }

  /** At most `budget` events are taken, and none once the UA is gone. */
  function Drain(l: Link, now: nat, incoming: seq<SipEvent>, budget: nat): Link
    decreases budget
  {
    if budget == 0 || !l.handle || incoming == [] then l
    else Drain(OnEvent(l, now, incoming[0]), now, incoming[1..], budget - 1)
  }

  function Due(l: Link, now: nat): bool {
    l.status.Reconnecting? && l.retryAt.Some? && now >= l.retryAt.value
  }

  function Retry(l: Link, now: nat, start: Start): Link {
    if !Due(l, now) then l
    else
      var cleared := l.(retryAt := None);
      if l.handle then cleared.(status := Connecting(l.attempt), log := l.log + [Reregister])
      else SpawnUa(cleared, now, l.attempt, start)
  }

  function Poll(l: Link, now: nat, start: Start, incoming: seq<SipEvent>): Link {
    if l.status.Stopped? then l else Drain(Retry(l, now, start), now, incoming, DRAIN_LIMIT)
  }

  datatype Op =
    | OpStart(now: nat, start: Start)
    | OpStop
    | OpPoll(now: nat, start: Start, incoming: seq<SipEvent>)
    | OpTakeEvents

  function Apply(l: Link, op: Op): Link {
    match op
    case OpStart(now, start) => StartLink(l, now, start)
    case OpStop => StopLink(l)
    case OpPoll(now, start, incoming) => Poll(l, now, start, incoming)
    case OpTakeEvents => l.(events := [])
  }

  /** A new link after a run of calls. */
  function After(ops: seq<Op>): Link {
    if ops == [] then NEW else Apply(After(ops[..|ops| - 1]), ops[|ops| - 1])
  }

  // ---- what every call keeps ----

  /** UAs that the log leaves running. */
  function Running(log: seq<Action>): int {
    if log == [] then 0
    else
      var before := Running(log[..|log| - 1]);
      match log[|log| - 1]
      case Spawned => before + 1
      case Shutdown => before - 1
      case Lost => before - 1
      case SpawnFailed => before
      case Reregister => before
  }

  /** Each action comes when it makes sense: a UA is started only when none runs, and only a
      running one is re-registered, shut down or lost. */
  predicate Orderly(log: seq<Action>) {
    log == []
    || (Orderly(log[..|log| - 1])
        && Running(log[..|log| - 1]) == if log[|log| - 1].Spawned? || log[|log| - 1].SpawnFailed? then 0 else 1)
  }

  ghost predicate Inv(l: Link) {
    && (l.status.Reconnecting? <==> l.retryAt.Some?)
    && (l.status.Connecting? || l.status.Online? ==> l.handle)
    && (l.status.Stopped? ==> !l.handle && l.events == [])
    && l.attempt >= 1 && 1 <= l.retryDelay <= 32
    && (l.status.Reconnecting? ==>
          && l.status.delay == l.retryDelay && l.status.attempt >= 1
          && l.attempt == Saturate(l.status.attempt + 1))
    && Orderly(l.log) && Running(l.log) == if l.handle then 1 else 0
  }

  lemma Logged(log: seq<Action>, a: Action)
    ensures Running(log + [a]) ==
      Running(log) + (if a.Spawned? then 1 else if a.Shutdown? || a.Lost? then -1 else 0)
    ensures Orderly(log + [a]) <==> Orderly(log) && Running(log) == if a.Spawned? || a.SpawnFailed? then 0 else 1
  {
    assert (log + [a])[..|log|] == log;
  }

  lemma Pow2Values()
    ensures Pow2(0) == 1 && Pow2(1) == 2 && Pow2(2) == 4 && Pow2(3) == 8 && Pow2(4) == 16 && Pow2(5) == 32
  {
    assert Pow2(1) == 2 * Pow2(0) && Pow2(3) == 2 * Pow2(2) && Pow2(5) == 2 * Pow2(4);
  }

  lemma {:induction false} Pow2Grows(n: nat)
    requires n >= 5
    ensures Pow2(n) >= 32
  {
    if n > 5 {
      Pow2Grows(n - 1);
    } else {
      Pow2Values();
    }
  }

  /** Restart delays double from one second up to 30, for the attempts that a 31-bit number can
      count; beyond that the wrapped shift count gives one second again. */
  lemma RestartDelayIs(attempt: u32)
    ensures RestartDelay(attempt) ==
      if attempt <= 1 then 1
      else if attempt <= 5 then Pow2(attempt - 1)
      else if attempt <= 0x8000_0000 then 30 else 1
    ensures 1 <= RestartDelay(attempt) <= 30
  {
    Pow2Values();
    var shift := Max(0, Min(AsI32Less1(attempt), 31));
    if shift >= 5 {
      Pow2Grows(shift);
    }
  }

  /** The two delay rules agree exactly on the first five attempts. */
  lemma DelaysAgreeIff(attempt: u32)
    requires attempt >= 1
    ensures RestartDelay(attempt) == Backoff(attempt) <==> attempt <= 5
    ensures 1 <= Backoff(attempt) <= 32
  {
    Pow2Values();
    RestartDelayIs(attempt);
  }

  lemma ScheduleKeeps(l: Link, now: nat, attempt: u32, error: Failure)
    requires Orderly(l.log) && Running(l.log) == (if l.handle then 1 else 0) && attempt >= 1
    ensures Inv(ScheduleRetry(l, now, attempt, error))
  {
    hide RestartDelay, Orderly, Running;
    RestartDelayIs(attempt);
  }

  lemma SpawnKeeps(l: Link, now: nat, attempt: u32, start: Start)
    requires Orderly(l.log) && Running(l.log) == 0 && !l.handle && attempt >= 1
    requires l.retryAt.None? && l.attempt >= 1 && 1 <= l.retryDelay <= 32
    ensures Inv(SpawnUa(l, now, attempt, start))
  {
    hide Orderly, Running, ScheduleRetry;
    Logged(l.log, Spawned);
    Logged(l.log, SpawnFailed);
    if start.CannotStart? {
      ScheduleKeeps(l.(log := l.log + [SpawnFailed]), now, attempt, StartFailed(start.error));
    }
  }

  lemma StartKeeps(l: Link, now: nat, start: Start)
    requires Inv(l)
    ensures Inv(StartLink(l, now, start))
  {
    hide Orderly, Running, SpawnUa;
    if l.status.Stopped? {
      SpawnKeeps(l.(attempt := 1, retryDelay := 1, retryAt := None, events := []), now, 1, start);
    }
  }

  lemma StopKeeps(l: Link)
    requires Inv(l)
    ensures Inv(StopLink(l))
  {
    hide Orderly, Running;
    Logged(l.log, Shutdown);
  }

  lemma OnEventKeeps(l: Link, now: nat, e: SipEvent)
    requires Inv(l) && l.handle
    ensures Inv(OnEvent(l, now, e))
  {
    hide Orderly, Running, ScheduleRetry, Backoff;
    Logged(l.log, Lost);
    DelaysAgreeIff(l.attempt);
    if e.EndpointStopped? && !l.status.Reconnecting? {
      ScheduleKeeps(l.(handle := false, log := l.log + [Lost]), now, l.attempt, UaStopped);
    }
  }

  lemma {:induction false} DrainKeeps(l: Link, now: nat, incoming: seq<SipEvent>, budget: nat)
    requires Inv(l)
    ensures Inv(Drain(l, now, incoming, budget))
    decreases budget
  {
    hide Inv, OnEvent;
    if budget > 0 && l.handle && incoming != [] {
      OnEventKeeps(l, now, incoming[0]);
      DrainKeeps(OnEvent(l, now, incoming[0]), now, incoming[1..], budget - 1);
    }
  }

  lemma RetryKeeps(l: Link, now: nat, start: Start)
    requires Inv(l)
    ensures Inv(Retry(l, now, start))
  {
    hide Orderly, Running, SpawnUa;
    Logged(l.log, Reregister);
    if Due(l, now) && !l.handle {
      SpawnKeeps(l.(retryAt := None), now, l.attempt, start);
    }
  }

  lemma ApplyKeeps(l: Link, op: Op)
    requires Inv(l)
    ensures Inv(Apply(l, op))
  {
    hide Retry, Drain, StartLink, StopLink, Orderly, Running;
    match op
    case OpStart(now, start) => StartKeeps(l, now, start);
    case OpStop => StopKeeps(l);
    case OpPoll(now, start, incoming) =>
      RetryKeeps(l, now, start);
      DrainKeeps(Retry(l, now, start), now, incoming, DRAIN_LIMIT);
    case OpTakeEvents =>
  }

  /** After every run of calls: a reconnecting link has its retry scheduled, a connecting or online
      one has a UA, a stopped one has neither UA nor retry nor events, delays are 1 to 32 seconds,
      and at no time was a UA started while one was running. */
  lemma {:induction false} RunKeepsInv(ops: seq<Op>)
    ensures Inv(After(ops))
    decreases |ops|
  {
    hide Apply, Inv;
    if ops == [] {
      NewInv();
    } else {
      RunKeepsInv(ops[..|ops| - 1]);
      ApplyKeeps(After(ops[..|ops| - 1]), ops[|ops| - 1]);
    }
  }

  lemma NewInv()
    ensures Inv(NEW)
  {
  }

  /** In an orderly log there is never more than one UA. */
  lemma {:induction false} AtMostOneRuns(log: seq<Action>)
    requires Orderly(log)
    ensures 0 <= Running(log) <= 1
    decreases |log|
  {
    if log != [] {
      AtMostOneRuns(log[..|log| - 1]);
    }
  }

  // ---- progress ----

  lemma {:induction false} DrainOnlyLoses(l: Link, now: nat, incoming: seq<SipEvent>, budget: nat)
    ensures Drain(l, now, incoming, budget).log == l.log || Drain(l, now, incoming, budget).log == l.log + [Lost]
    decreases budget
  {
    hide ScheduleRetry, Backoff;
    if budget > 0 && l.handle && incoming != [] {
      var next := OnEvent(l, now, incoming[0]);
      DrainOnlyLoses(next, now, incoming[1..], budget - 1);
      OnEventLog(l, now, incoming[0]);
      if !next.handle {
        assert Drain(next, now, incoming[1..], budget - 1) == next;
      }
    }
  }

  lemma OnEventLog(l: Link, now: nat, e: SipEvent)
    requires l.handle
    ensures var next := OnEvent(l, now, e);
            && (next.log == if next.handle then l.log else l.log + [Lost])
            && (next.handle <==> !e.EndpointStopped?)
  {
    hide RestartDelay, Backoff;
  }

  /** A poll retries exactly when the link is reconnecting and its time has come: it re-registers
      the UA if there is one and starts one otherwise. Nothing else ever starts or re-registers. */
  lemma PollRetriesIffDue(l: Link, now: nat, start: Start, incoming: seq<SipEvent>)
    requires Inv(l)
    ensures var log := Poll(l, now, start, incoming).log;
            var retry := if l.handle then Reregister else if start.Started? then Spawned else SpawnFailed;
            var base := if l.status.Reconnecting? && now >= l.retryAt.value then l.log + [retry] else l.log;
            log == base || log == base + [Lost]
  {
    hide Orderly, Running, Drain, ScheduleRetry;
    if !l.status.Stopped? {
      DrainOnlyLoses(Retry(l, now, start), now, incoming, DRAIN_LIMIT);
      RetryLog(l, now, start);
    }
  }

  lemma RetryLog(l: Link, now: nat, start: Start)
    requires Inv(l)
    ensures var retry := if l.handle then Reregister else if start.Started? then Spawned else SpawnFailed;
            Retry(l, now, start).log == if l.status.Reconnecting? && now >= l.retryAt.value then l.log + [retry]
                                        else l.log
  {
    hide Orderly, Running, RestartDelay;
  }

  /** Polls, each made when its retry is due, that never manage to start a UA. */
  ghost predicate FailingPolls(l: Link, ops: seq<Op>)
    decreases |ops|
  {
    ops == []
    || (ops[0].OpPoll? && ops[0].start.CannotStart? && Due(l, ops[0].now) && FailingPolls(Apply(l, ops[0]), ops[1..]))
  }

  function ApplyAll(l: Link, ops: seq<Op>): Link
    decreases |ops|
  {
    if ops == [] then l else ApplyAll(Apply(l, ops[0]), ops[1..])
  }

  lemma FailingPoll(l: Link, op: Op)
    requires op.OpPoll? && op.start.CannotStart? && Due(l, op.now) && !l.handle
    ensures var next := Apply(l, op);
            && !next.handle && next.status.Reconnecting? && next.status.attempt == l.attempt
            && next.attempt == Saturate(l.attempt + 1)
            && next.retryAt == Some(op.now + 1000 * RestartDelay(l.attempt))
            && next.log == l.log + [SpawnFailed]
  {
    hide RestartDelay;
  }

  /** However often the UA cannot be started, the link goes on trying: the attempts are counted up
      to saturation and the retry after attempt `n` comes the delay of that attempt later. */
  lemma {:induction false} KeepsTrying(l: Link, ops: seq<Op>)
    requires !l.handle && l.status.Reconnecting? && l.attempt == Saturate(l.status.attempt + 1)
    requires FailingPolls(l, ops) && ops != []
    ensures var last := ApplyAll(l, ops);
            && !last.handle && last.status.Reconnecting?
            && last.status.attempt == Saturate(l.status.attempt + |ops|)
            && ops[|ops| - 1].OpPoll?
            && last.retryAt == Some(ops[|ops| - 1].now + 1000 * RestartDelay(last.status.attempt))
    decreases |ops|
  {
    hide Apply, RestartDelay;
    FailingPoll(l, ops[0]);
    var next := Apply(l, ops[0]);
    if |ops| == 1 {
      assert ops[1..] == [];
    } else {
      KeepsTrying(next, ops[1..]);
    }
  }

  /** What a retry leaves, before events are drained: a UA that runs is connecting again, one that starts
      is connecting, and one that does not is tried again later. */
  lemma RetryEffect(l: Link, now: nat, start: Start)
    requires Inv(l)
    ensures var l' := Poll(l, now, start, []);
            if !(l.status.Reconnecting? && now >= l.retryAt.value) then l' == l
            else if l.handle then
              l' == l.(status := Connecting(l.attempt), retryAt := None, log := l.log + [Reregister])
            else if start.Started? then
              l' == l.(handle := true, status := Connecting(l.attempt), retryAt := None, log := l.log + [Spawned])
            else
              && !l'.handle && l'.events == l.events && l'.log == l.log + [SpawnFailed]
              && ScheduledAt(l', now) && l'.status.attempt == l.attempt
              && l'.status.lastError == StartFailed(start.error)
  {
    hide Orderly, Running, ScheduleRetry;
    if start.CannotStart? {
      ScheduleIs(l.(retryAt := None, log := l.log + [SpawnFailed]), now, l.attempt, StartFailed(start.error));
      ScheduleRest(l.(retryAt := None, log := l.log + [SpawnFailed]), now, l.attempt, StartFailed(start.error));
    }
  }

  lemma ScheduleRest(l: Link, now: nat, attempt: u32, error: Failure)
    ensures var l' := ScheduleRetry(l, now, attempt, error);
            l'.handle == l.handle && l'.events == l.events && l'.log == l.log
  {
    hide RestartDelay;
  }

  // ---- when the next retry is ----

  /** The delay in seconds of an attempt that failed so: it doubles, up to 32 for a registration, and
      up to 30 for a UA that could not be started or has stopped. */
  function DelayFor(attempt: u32, error: Failure): nat {
    if attempt <= 1 then 1 else if attempt == 2 then 2 else if attempt == 3 then 4 else if attempt == 4 then 8
    else if attempt == 5 then 16
    else if error.RegistrationFailed? then 32
    else if attempt <= 0x8000_0000 then 30 else 1
  }

  /** The retry was scheduled at `t`. */
  ghost predicate ScheduledAt(l: Link, t: nat) {
    && l.status.Reconnecting? && l.status.delay == DelayFor(l.status.attempt, l.status.lastError)
    && l.retryAt == Some(t + 1000 * l.status.delay)
  }

  lemma ScheduleIs(l: Link, now: nat, attempt: u32, error: Failure)
    requires !error.RegistrationFailed?
    ensures var l' := ScheduleRetry(l, now, attempt, error);
            ScheduledAt(l', now) && l'.status == Reconnecting(attempt, DelayFor(attempt, error), error)
  {
    hide RestartDelay;
    RestartDelayIs(attempt);
    Pow2Values();
  }

  /** What each event makes of the link. */
  lemma EventEffect(l: Link, now: nat, e: SipEvent)
    ensures var l' := OnEvent(l, now, e);
            match e
            case Registered(aor, turn) =>
              l' == l.(status := Online(aor), attempt := 1, retryDelay := 1, retryAt := None, turn := turn)
            case RegisterFailed(code, cause) =>
              && ScheduledAt(l', now) && l'.handle == l.handle && l'.events == l.events
              && l'.status.attempt == l.attempt && l'.status.lastError == RegistrationFailed(code, cause)
              && l'.attempt == Min(l.attempt + 1, MAX_U32)
            case Call(event) => l' == l.(events := l.events + [event])
            case EndpointStopped =>
              && !l'.handle && l'.events == l.events
              && (if l.status.Reconnecting? then l'.status == l.status && l'.retryAt == l.retryAt
                  else ScheduledAt(l', now) && l'.status.attempt == l.attempt && l'.status.lastError == UaStopped)
  {
    hide RestartDelay;
    Pow2Values();
    if e.EndpointStopped? && !l.status.Reconnecting? {
      ScheduleIs(l.(handle := false, log := l.log + [Lost]), now, l.attempt, UaStopped);
    }
  }

  ghost predicate SameSchedule(l: Link, l': Link) {
    l'.status == l.status && l'.retryAt == l.retryAt
  }

  lemma {:induction false} DrainSchedules(l: Link, now: nat, incoming: seq<SipEvent>, budget: nat)
    ensures var l' := Drain(l, now, incoming, budget);
            l'.status.Reconnecting? ==> ScheduledAt(l', now) || SameSchedule(l, l')
    decreases budget
  {
    hide OnEvent, DelayFor;
    if budget > 0 && l.handle && incoming != [] {
      EventEffect(l, now, incoming[0]);
      DrainSchedules(OnEvent(l, now, incoming[0]), now, incoming[1..], budget - 1);
    }
  }

  lemma SpawnSchedules(l: Link, now: nat, attempt: u32, start: Start)
    ensures SpawnUa(l, now, attempt, start).status.Reconnecting? ==> ScheduledAt(SpawnUa(l, now, attempt, start), now)
  {
    hide ScheduleRetry;
    if start.CannotStart? {
      ScheduleIs(l.(log := l.log + [SpawnFailed]), now, attempt, StartFailed(start.error));
    }
  }

  ghost function TimeOf(op: Op): nat {
    match op
    case OpStart(now, _) => now
    case OpPoll(now, _, _) => now
    case OpStop => 0
    case OpTakeEvents => 0
  }

  lemma ApplySchedules(l: Link, op: Op)
    ensures var l' := Apply(l, op);
            l'.status.Reconnecting? ==> (!op.OpStop? && ScheduledAt(l', TimeOf(op))) || SameSchedule(l, l')
  {
    hide SpawnUa, Drain, DelayFor;
    match op
    case OpStart(now, start) =>
      SpawnSchedules(l.(attempt := 1, retryDelay := 1, retryAt := None, events := []), now, 1, start);
    case OpPoll(now, start, incoming) =>
      SpawnSchedules(l.(retryAt := None), now, l.attempt, start);
      DrainSchedules(Retry(l, now, start), now, incoming, DRAIN_LIMIT);
    case OpStop =>
    case OpTakeEvents =>
  }

  /** Over every run: while the link is reconnecting, its retry is due the delay of the attempt after
      the call in which that attempt failed. */
  lemma {:induction false} RetryIsScheduled(ops: seq<Op>) returns (j: nat)
    requires After(ops).status.Reconnecting?
    ensures j < |ops| && (ops[j].OpStart? || ops[j].OpPoll?) && ScheduledAt(After(ops), TimeOf(ops[j]))
    ensures forall k :: j < k < |ops| ==> !ops[k].OpStop?
    decreases |ops|
  {
    hide Apply, ScheduledAt;
    var n := |ops| - 1;
    ApplySchedules(After(ops[..n]), ops[n]);
    StopStops(After(ops[..n]), ops[n]);
    if SameSchedule(After(ops[..n]), After(ops)) && (ops[n].OpTakeEvents? || !ScheduledAt(After(ops), TimeOf(ops[n]))) {
      j := RetryIsScheduled(ops[..n]);
      SameIsScheduled(After(ops[..n]), After(ops), TimeOf(ops[j]));
    } else {
      j := n;
    }
  }

  lemma StopStops(l: Link, op: Op)
    ensures op.OpStop? ==> Apply(l, op).status.Stopped?
    ensures op.OpTakeEvents? ==> SameSchedule(l, Apply(l, op))
  {
  }

  lemma SameIsScheduled(l: Link, l': Link, t: nat)
    requires SameSchedule(l, l') && ScheduledAt(l, t)
    ensures ScheduledAt(l', t)
  {
  }

  // ---- events ----

  /** The call events among `incoming` up to the first that ends the UA, at most `budget` in all. */
  function Taken(incoming: seq<SipEvent>, budget: nat): seq<CallEvent> {
    if budget == 0 || incoming == [] || incoming[0].EndpointStopped? then []
    else (if incoming[0].Call? then [incoming[0].event] else []) + Taken(incoming[1..], budget - 1)
  }

  lemma {:induction false} DrainForwards(l: Link, now: nat, incoming: seq<SipEvent>, budget: nat)
    ensures Drain(l, now, incoming, budget).events == l.events + if l.handle then Taken(incoming, budget) else []
    decreases budget
  {
    hide OnEvent;
    if budget > 0 && l.handle && incoming != [] {
      var next := OnEvent(l, now, incoming[0]);
      OnEventLog(l, now, incoming[0]);
      OnEventForwards(l, now, incoming[0]);
      DrainForwards(next, now, incoming[1..], budget - 1);
      Regroup(l.events, if incoming[0].Call? then [incoming[0].event] else [],
              if next.handle then Taken(incoming[1..], budget - 1) else []);
    }
  }

  lemma OnEventForwards(l: Link, now: nat, e: SipEvent)
    ensures OnEvent(l, now, e).events == l.events + if e.Call? then [e.event] else []
  {
    hide RestartDelay, Backoff;
  }

  /** A poll adds to the queue, in order, the call events of the first 32 events it is offered, up
      to the end of the UA; none when there is no UA to poll. */
  lemma PollForwards(l: Link, now: nat, start: Start, incoming: seq<SipEvent>)
    requires Inv(l)
    ensures Poll(l, now, start, incoming).events == l.events +
      if l.handle || (l.status.Reconnecting? && now >= l.retryAt.value && start.Started?)
      then Taken(incoming, 32) else []
  {
    hide Orderly, Running, Drain, RestartDelay, Taken;
    if !l.status.Stopped? {
      DrainForwards(Retry(l, now, start), now, incoming, DRAIN_LIMIT);
    }
  }
}
