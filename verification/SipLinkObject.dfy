/** The SIP link as the object that the source has, proved equal to its value-level form. */
module SipLinkObject {
  import opened Bytes
  import opened SipLink

  class SipCallLink {
    var handle: bool
    var status: Status
    var attempt: u32
    var retryAt: Option<nat>
    var retryDelay: nat
    var events: seq<CallEvent>
    var dispatchedTurn: Option<string>
    ghost var log: seq<Action>

    ghost function View(): Link
      reads this
    {
      Link(handle, status, attempt, retryAt, retryDelay, events, dispatchedTurn, log)
    }

    constructor ()
      ensures View() == NEW
    {
      handle, status, attempt, retryAt, retryDelay := false, Stopped, 1, None, 1;
      events, dispatchedTurn, log := [], None, [];
    }

    method TakeEvents() returns (taken: seq<CallEvent>)
      modifies this
      ensures taken == old(events) && View() == Apply(old(View()), OpTakeEvents)
    {
      taken := events;
      events := [];
    }

    method Start(now: nat, start: SipLink.Start) returns (s: Status)
      modifies this
      ensures View() == StartLink(old(View()), now, start) && s == status
    {
      if status == Stopped {
        attempt := 1;
        retryDelay := 1;
        retryAt := None;
        events := [];
        SpawnUa(now, attempt, start);
      }
      return status;
    }

    method Stop() returns (s: Status)
      modifies this
      ensures View() == StopLink(old(View())) && s == status
    {
      if handle {
        handle := false;
        log := log + [Shutdown];
      }
      status := Stopped;
      retryAt := None;
      events := [];
      return status;
    }

    method Poll(now: nat, start: SipLink.Start, incoming: seq<SipEvent>) returns (s: Status)
      modifies this
      ensures View() == SipLink.Poll(old(View()), now, start, incoming) && s == status
    {
      hide SipLink.ScheduleRetry, Drain;
      if status == Stopped {
        return status;
      }
      if status.Reconnecting? {
        var due := retryAt.Some? && now >= retryAt.value;
        if due {
          retryAt := None;
          if handle {
            log := log + [Reregister];
            status := Connecting(attempt);
          } else {
            SpawnUa(now, attempt, start);
          }
        }
      }
      assert View() == Retry(old(View()), now, start);
      DrainEvents(now, incoming);
      return status;
    }

    method SpawnUa(now: nat, attempt: u32, start: SipLink.Start)
      modifies this
      ensures View() == SipLink.SpawnUa(old(View()), now, attempt, start)
    {
      hide RestartDelay;
      match start
      case CannotStart(e) =>
        log := log + [SpawnFailed];
        ScheduleRetry(now, attempt, StartFailed(e));
      case Started =>
        log := log + [Spawned];
        handle := true;
        status := Connecting(attempt);
    }

    method ScheduleRetry(now: nat, attempt: u32, error: Failure)
      modifies this
      ensures View() == SipLink.ScheduleRetry(old(View()), now, attempt, error)
    {
      hide Pow2, AsI32Less1;
      this.attempt := Saturate(attempt + 1);
      var shift := Max(0, Min(AsI32Less1(attempt), 31));
      var multiplier := Pow2(shift);
      var delay := Max(Min(multiplier, 30), 1);
      retryDelay := delay;
      retryAt := Some(now + 1000 * delay);
      status := Reconnecting(attempt, delay, error);
    }

    method DrainEvents(now: nat, incoming: seq<SipEvent>)
      modifies this
      ensures View() == Drain(old(View()), now, incoming, DRAIN_LIMIT)
    {
      hide SipLink.OnEvent;
      var rest := incoming;
      assert DRAIN_LIMIT - 0 == DRAIN_LIMIT;
      for n := 0 to DRAIN_LIMIT
        invariant Drain(View(), now, rest, DRAIN_LIMIT - n) == Drain(old(View()), now, incoming, DRAIN_LIMIT)
      {
        if !handle || rest == [] {
          break;
        }
        OnEvent(now, rest[0]);
        rest := rest[1..];
      }
    }

    method OnEvent(now: nat, e: SipEvent)
      modifies this
      ensures View() == SipLink.OnEvent(old(View()), now, e)
    {
      hide RestartDelay, Pow2;
      match e
      case Registered(aor, turn) =>
        attempt := 1;
        retryDelay := 1;
        retryAt := None;
        dispatchedTurn := turn;
        status := Online(aor);
      case RegisterFailed(code, cause) =>
        var current := attempt;
        attempt := Saturate(attempt + 1);
        retryDelay := Backoff(current);
        retryAt := Some(now + 1000 * retryDelay);
        status := Reconnecting(current, retryDelay, RegistrationFailed(code, cause));
      case Call(event) =>
        events := events + [event];
      case EndpointStopped =>
        handle := false;
        log := log + [Lost];
        if !status.Reconnecting? {
          ScheduleRetry(now, attempt, UaStopped);
        }
    }
  }
}
