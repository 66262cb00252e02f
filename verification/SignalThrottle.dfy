/** Coalescing a stream of requests into at most one firing per interval. */
module SignalThrottles {
  import opened Wrappers

  /** The throttle at a moment: whether a request waits, when the running timer expires,
      and the times at which the sink has been fired. */
  datatype Throttle = Throttle(pending: bool, deadline: Option<int>, fired: seq<int>)

  const QUIET := Throttle(false, None, [])

  /** A firing, with the timer started for another interval. */
  function Fired(s: Throttle, now: int, interval: nat): Throttle {
    Throttle(false, Some(now + interval), s.fired + [now])
  }

  function Requested(s: Throttle, now: int, interval: nat): Throttle {
    if s.deadline.Some? then s.(pending := true) else Fired(s, now, interval)
  }

  /** The timer is single-shot: it has stopped by the time its handler runs. */
  function Expired(s: Throttle, now: int, interval: nat): Throttle {
    if s.pending then Fired(s, now, interval) else s.(deadline := None)
  }

  function Canceled(s: Throttle): Throttle { s.(pending := false, deadline := None) }

  function Flushed(s: Throttle, now: int): Throttle { Throttle(false, None, s.fired + [now]) }

  class SignalThrottle {
    const interval: nat
    var pending: bool
    var deadline: Option<int>
    var fired: seq<int>

    function View(): Throttle
      reads this
    {
      Throttle(pending, deadline, fired)
    }

    constructor (interval: nat)
      ensures View() == QUIET && this.interval == interval
    {
      this.interval := interval;
      pending, deadline, fired := false, None, [];
    }

    method Sink(now: int)
      modifies `fired
      ensures fired == old(fired) + [now]
    {
      fired := fired + [now];
    }

    method Request(now: int)
      modifies this
      ensures View() == Requested(old(View()), now, interval)
    {
      if deadline.Some? {
        pending := true;
        return;
      }
      Sink(now);
      pending := false;
      deadline := Some(now + interval);
    }

    method Timeout(now: int)
      modifies this
      ensures View() == Expired(old(View()), now, interval)
    {
      deadline := None;
      if !pending {
        return;
      }
      pending := false;
      Sink(now);
      deadline := Some(now + interval);
    }

    method Cancel()
      modifies this
      ensures View() == Canceled(old(View()))
    {
      pending := false;
      deadline := None;
    }

    method Flush(now: int)
      modifies this
      ensures View() == Flushed(old(View()), now)
    {
      deadline := None;
      pending := false;
      Sink(now);
    }
  }

  // ---- Timed runs -----------------------------------------------------------------------

  datatype Event = Request(at: int) | Expire(at: int) | Cancel(at: int) | Flush(at: int)

  function Next(s: Throttle, ev: Event, interval: nat): Throttle {
    match ev
    case Request(at) => Requested(s, at, interval)
    case Expire(at) => Expired(s, at, interval)
    case Cancel(_) => Canceled(s)
    case Flush(at) => Flushed(s, at)
  }

  /** Time does not run backwards, and the timer goes off only when it runs and not
      early. */
  predicate Possible(s: Throttle, since: int, ev: Event) {
    since <= ev.at && (ev.Expire? ==> s.deadline.Some? && s.deadline.value <= ev.at)
  }

  predicate CanRun(s: Throttle, since: int, evs: seq<Event>, interval: nat)
    decreases |evs|
  {
    evs == [] || (Possible(s, since, evs[0]) && CanRun(Next(s, evs[0], interval), evs[0].at, evs[1..], interval))
  }

  function After(s: Throttle, evs: seq<Event>, interval: nat): Throttle
    decreases |evs|
  {
    if evs == [] then s else After(Next(s, evs[0], interval), evs[1..], interval)
  }

  /** A waiting request has a running timer, in every run. */
  lemma {:induction false} PendingHasTimer(s: Throttle, evs: seq<Event>, interval: nat)
    requires s.pending ==> s.deadline.Some?
    ensures After(s, evs, interval).pending ==> After(s, evs, interval).deadline.Some?
    decreases |evs|
  {
    if evs != [] {
      PendingHasTimer(Next(s, evs[0], interval), evs[1..], interval);
    }
  }

  // ---- The rate ---------------------------------------------------------------------------

  predicate Spaced(times: seq<int>, interval: nat) {
    forall i :: 0 <= i < |times| - 1 ==> times[i] + interval <= times[i + 1]
  }

  /** Until an interval has passed since the last firing the timer runs. */
  predicate Paced(s: Throttle, since: int, interval: nat) {
    && Spaced(s.fired, interval)
    && (s.pending ==> s.deadline.Some?)
    && (s.fired != [] ==>
          var last := s.fired[|s.fired| - 1];
          if s.deadline.Some? then s.deadline.value == last + interval else last + interval <= since)
    && (s.fired == [] ==> s.deadline.None?)
  }

  predicate Undisturbed(evs: seq<Event>) { forall i :: 0 <= i < |evs| ==> evs[i].Request? || evs[i].Expire? }

  lemma {:induction false} StaysPaced(s: Throttle, since: int, evs: seq<Event>, interval: nat) returns (end: int)
    requires Paced(s, since, interval) && CanRun(s, since, evs, interval) && Undisturbed(evs)
    ensures Paced(After(s, evs, interval), end, interval)
    decreases |evs|
  {
    if evs == [] {
      end := since;
    } else {
      end := StaysPaced(Next(s, evs[0], interval), evs[0].at, evs[1..], interval);
    }
  }

  lemma {:induction false} SpacedSpan(times: seq<int>, interval: nat, i: nat, j: nat)
    requires Spaced(times, interval) && i <= j < |times|
    ensures times[j] - times[i] >= (j - i) * interval
    decreases j - i
  {
    if i < j {
      SpacedSpan(times, interval, i, j - 1);
      assert (j - i) * interval == (j - 1 - i) * interval + interval;
      assert times[j - 1] + interval <= times[j - 1 + 1];
    }
  }

  // ---- Exactly when firings come too close --------------------------------------------------

  /** A running timer expires an interval after the last firing. */
  predicate Timed(s: Throttle, interval: nat) {
    s.deadline.Some? ==> s.fired != [] && s.deadline.value == s.fired[|s.fired| - 1] + interval
  }

  /** The sink is fired less than an interval after the last time: by a flush, or by a
      request that finds the timer stopped, as a cancel or another flush has left it. */
  predicate FiresEarly(s: Throttle, ev: Event, interval: nat) {
    && s.fired != [] && ev.at < s.fired[|s.fired| - 1] + interval
    && (ev.Flush? || (ev.Request? && s.deadline.None?))
  }

  lemma NextIsTimed(s: Throttle, since: int, ev: Event, interval: nat)
    requires Timed(s, interval) && Possible(s, since, ev)
    ensures Timed(Next(s, ev, interval), interval)
  {
  }

  lemma SpacedIff(s: Throttle, since: int, ev: Event, interval: nat)
    requires Timed(s, interval) && Spaced(s.fired, interval) && Possible(s, since, ev)
    ensures Spaced(Next(s, ev, interval).fired, interval) <==> !FiresEarly(s, ev, interval)
  {
    var t, n := Next(s, ev, interval), |s.fired|;
    if n > 0 && |t.fired| > n {
      assert t.fired == s.fired + [ev.at];
      assert Spaced(t.fired, interval) ==> t.fired[n - 1] + interval <= t.fired[n - 1 + 1];
    }
  }

  /** No event of the run fires early. */
  predicate NeverEarly(s: Throttle, evs: seq<Event>, interval: nat)
    decreases |evs|
  {
    evs == [] || (!FiresEarly(s, evs[0], interval) && NeverEarly(Next(s, evs[0], interval), evs[1..], interval))
  }

  /** What has been fired stays so. */
  lemma {:induction false} FiredGrows(s: Throttle, evs: seq<Event>, interval: nat)
    ensures s.fired <= After(s, evs, interval).fired
    decreases |evs|
  {
    if evs != [] {
      FiredGrows(Next(s, evs[0], interval), evs[1..], interval);
    }
  }

  lemma PrefixIsSpaced(a: seq<int>, b: seq<int>, interval: nat)
    requires a <= b && Spaced(b, interval)
    ensures Spaced(a, interval)
  {
    forall i | 0 <= i < |a| - 1
      ensures a[i] + interval <= a[i + 1]
    {
      assert b[i] + interval <= b[i + 1];
    }
  }

  /** After any run, with flushes and cancels in any place, the firings are an interval
      apart if and only if no event of the run fired early. */
  lemma {:induction false} RunIsSpacedIff(s: Throttle, since: int, evs: seq<Event>, interval: nat)
    requires Timed(s, interval) && Spaced(s.fired, interval) && CanRun(s, since, evs, interval)
    ensures Spaced(After(s, evs, interval).fired, interval) <==> NeverEarly(s, evs, interval)
    decreases |evs|
  {
    if evs != [] {
      var t := Next(s, evs[0], interval);
      NextIsTimed(s, since, evs[0], interval);
      SpacedIff(s, since, evs[0], interval);
      hide Next, Timed, Spaced, FiresEarly;
      if FiresEarly(s, evs[0], interval) {
        FiredGrows(t, evs[1..], interval);
        if Spaced(After(t, evs[1..], interval).fired, interval) {
          PrefixIsSpaced(t.fired, After(t, evs[1..], interval).fired, interval);
        }
      } else {
        RunIsSpacedIff(t, evs[0].at, evs[1..], interval);
      }
    }
  }

  /** A run without flush and cancel never fires early. */
  lemma UndisturbedIsNeverEarly(evs: seq<Event>, since: int, interval: nat)
    requires CanRun(QUIET, since, evs, interval) && Undisturbed(evs)
    ensures NeverEarly(QUIET, evs, interval)
  {
    var end := StaysPaced(QUIET, since, evs, interval);
    RunIsSpacedIff(QUIET, since, evs, interval);
  }

  /** Unless one of them was early, k + 1 firings in a row take at least k intervals. */
  lemma FiringsAreSpaced(evs: seq<Event>, since: int, interval: nat, i: nat, k: nat)
    requires CanRun(QUIET, since, evs, interval) && NeverEarly(QUIET, evs, interval)
    requires i + k < |After(QUIET, evs, interval).fired|
    ensures var fired := After(QUIET, evs, interval).fired; fired[i + k] - fired[i] >= k * interval
  {
    RunIsSpacedIff(QUIET, since, evs, interval);
    SpacedSpan(After(QUIET, evs, interval).fired, interval, i, i + k);
  }

  /** A flush does not start the timer: a request right after it fires again. */
  lemma FlushIsNotSpaced(interval: nat, at: int)
    requires interval > 0
    ensures CanRun(QUIET, at, [Flush(at), Request(at)], interval)
    ensures !Spaced(After(QUIET, [Flush(at), Request(at)], interval).fired, interval)
  {
    var s1 := Next(QUIET, Flush(at), interval);
    var s2 := Next(s1, Request(at), interval);
    assert [Flush(at), Request(at)][1..] == [Request(at)];
    assert After(s1, [Request(at)], interval) == After(s2, [], interval);
    assert s2.fired == [at, at];
    assert s2.fired[0] + interval > s2.fired[0 + 1];
  }

  /** A cancel stops the timer: a request right after a request and a cancel fires again. */
  lemma CancelIsNotSpaced(interval: nat, at: int)
    requires interval > 0
    ensures CanRun(QUIET, at, [Request(at), Cancel(at), Request(at)], interval)
    ensures !Spaced(After(QUIET, [Request(at), Cancel(at), Request(at)], interval).fired, interval)
  {
    var s1 := Next(QUIET, Request(at), interval);
    var s2 := Next(s1, Cancel(at), interval);
    var s3 := Next(s2, Request(at), interval);
    var evs := [Request(at), Cancel(at), Request(at)];
    assert evs[1..] == [Cancel(at), Request(at)] && evs[1..][1..] == [Request(at)] && [Request(at)][1..] == [];
    assert CanRun(s2, at, [Request(at)], interval) && CanRun(s1, at, evs[1..], interval);
    assert After(s1, evs[1..], interval) == After(s2, [Request(at)], interval) == After(s3, [], interval);
    assert s3.fired == [at, at];
    assert s3.fired[0] + interval > s3.fired[0 + 1];
  }

  // ---- One firing for a window ------------------------------------------------------------------

  function Requests(times: seq<int>): (evs: seq<Event>)
    ensures |evs| == |times|
  {
    seq(|times|, i requires 0 <= i < |times| => Request(times[i]))
  }

  lemma {:induction false} RunsJoin(s: Throttle, a: seq<Event>, b: seq<Event>, interval: nat)
    ensures After(s, a + b, interval) == After(After(s, a, interval), b, interval)
    decreases |a|
  {
    if a == [] {
      assert a + b == b;
    } else {
      assert (a + b)[1..] == a[1..] + b;
      RunsJoin(Next(s, a[0], interval), a[1..], b, interval);
    }
  }

  lemma OneEvent(s: Throttle, ev: Event, interval: nat)
    ensures After(s, [ev], interval) == Next(s, ev, interval)
  {
    assert [ev][1..] == [];
  }

  lemma {:induction false} RequestsWait(s: Throttle, times: seq<int>, interval: nat)
    requires s.deadline.Some?
    ensures After(s, Requests(times), interval) == s.(pending := s.pending || times != [])
    decreases |times|
  {
    if times != [] {
      assert Requests(times)[1..] == Requests(times[1..]);
      RequestsWait(s.(pending := true), times[1..], interval);
    }
  }

  /** While the timer runs requests fire nothing. When it expires, all of them together
      are fired once and the timer starts again; without any the timer stays stopped. */
  lemma WindowIsFolded(s: Throttle, times: seq<int>, at: int, interval: nat)
    requires s.deadline.Some? && !s.pending
    ensures After(s, Requests(times), interval).fired == s.fired
    ensures After(s, Requests(times) + [Expire(at)], interval)
         == if times == [] then Throttle(false, None, s.fired)
            else Throttle(false, Some(at + interval), s.fired + [at])
  {
    RequestsWait(s, times, interval);
    RunsJoin(s, Requests(times), [Expire(at)], interval);
    OneEvent(After(s, Requests(times), interval), Expire(at), interval);
  }

  /** The leading edge: after a window without requests the next request fires at once
      and opens a window. */
  lemma QuietThenFires(s: Throttle, expiry: int, at: int, interval: nat)
    requires s.deadline.Some? && !s.pending
    ensures After(s, [Expire(expiry), Request(at)], interval)
         == Throttle(false, Some(at + interval), s.fired + [at])
  {
    WindowIsFolded(s, [], expiry, interval);
    assert Requests([]) + [Expire(expiry)] == [Expire(expiry)];
    RunsJoin(s, [Expire(expiry)], [Request(at)], interval);
    assert [Expire(expiry)] + [Request(at)] == [Expire(expiry), Request(at)];
    OneEvent(Throttle(false, None, s.fired), Request(at), interval);
  }

  /** A cancel drops what waits: nothing is fired for it, and the next request fires at
      once. */
  lemma CancelDrops(s: Throttle, times: seq<int>, cancel: int, at: int, interval: nat)
    requires s.deadline.Some?
    ensures After(s, Requests(times) + [Cancel(cancel), Request(at)], interval)
         == Throttle(false, Some(at + interval), s.fired + [at])
  {
    RequestsWait(s, times, interval);
    RunsJoin(s, Requests(times), [Cancel(cancel), Request(at)], interval);
    assert [Cancel(cancel), Request(at)] == [Cancel(cancel)] + [Request(at)];
    var t := After(s, Requests(times), interval);
    RunsJoin(t, [Cancel(cancel)], [Request(at)], interval);
    OneEvent(t, Cancel(cancel), interval);
    OneEvent(Next(t, Cancel(cancel), interval), Request(at), interval);
  }

  /** A flush fires once for all that waits, and leaves nothing to expire. */
  lemma FlushFiresOnce(s: Throttle, times: seq<int>, at: int, interval: nat)
    requires s.deadline.Some?
    ensures After(s, Requests(times) + [Flush(at)], interval) == Throttle(false, None, s.fired + [at])
  {
    RequestsWait(s, times, interval);
    RunsJoin(s, Requests(times), [Flush(at)], interval);
    OneEvent(After(s, Requests(times), interval), Flush(at), interval);
  }

  // ---- No request is lost --------------------------------------------------------------------

  /** A firing after the first n, at or after this time. */
  predicate FiredSince(s: Throttle, n: nat, at: int) { exists i :: n <= i < |s.fired| && at <= s.fired[i] }

  /** Waiting for the timer, or fired since. */
  predicate Served(s: Throttle, n: nat, at: int) { FiredSince(s, n, at) || (s.pending && s.deadline.Some?) }

  lemma ServedNext(s: Throttle, ev: Event, interval: nat, n: nat, at: int)
    requires Served(s, n, at) && n <= |s.fired| && at <= ev.at && !ev.Cancel?
    ensures Served(Next(s, ev, interval), n, at) && n <= |Next(s, ev, interval).fired|
    ensures ev.Expire? ==> FiredSince(Next(s, ev, interval), n, at)
  {
    var t := Next(s, ev, interval);
    if FiredSince(s, n, at) {
      var i :| n <= i < |s.fired| && at <= s.fired[i];
      assert t.fired[i] == s.fired[i];
    } else if |t.fired| > |s.fired| {
      assert t.fired[|s.fired|] == ev.at;
    }
  }

  lemma {:induction false} ServedAfter(s: Throttle, since: int, evs: seq<Event>, interval: nat, n: nat, at: int)
    requires Served(s, n, at) && n <= |s.fired| && CanRun(s, since, evs, interval) && at <= since
    requires forall i :: 0 <= i < |evs| ==> !evs[i].Cancel?
    ensures Served(After(s, evs, interval), n, at) && n <= |After(s, evs, interval).fired|
    ensures evs != [] && evs[|evs| - 1].Expire? ==> FiredSince(After(s, evs, interval), n, at)
    decreases |evs|
  {
    hide Served, Next;
    if evs != [] {
      ServedNext(s, evs[0], interval, n, at);
      ServedAfter(Next(s, evs[0], interval), evs[0].at, evs[1..], interval, n, at);
      if |evs| == 1 {
        assert evs[1..] == [];
      } else {
        assert evs[1..][|evs| - 2] == evs[|evs| - 1];
      }
    }
  }

  /** Every request is followed by a firing, at once or later, and no later than the
      next time the timer goes off; only a cancel between them can prevent it. */
  lemma NoRequestIsLost(s: Throttle, since: int, at: int, evs: seq<Event>, interval: nat)
    requires CanRun(s, since, [Request(at)] + evs, interval)
    requires forall i :: 0 <= i < |evs| ==> !evs[i].Cancel?
    requires evs != [] && evs[|evs| - 1].Expire?
    ensures FiredSince(After(s, [Request(at)] + evs, interval), |s.fired|, at)
  {
    var t := Next(s, Request(at), interval);
    assert ([Request(at)] + evs)[1..] == evs;
    if s.deadline.None? {
      assert t.fired[|s.fired|] == at;
    }
    ServedAfter(t, at, evs, interval, |s.fired|, at);
  }
}
