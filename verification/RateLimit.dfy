/** The per-indexer rate limiter of the search workflow. */
module RateLimit {
  import opened Wrappers
  import opened Numbers

  const MIN_REQUEST_GAP_MS := 1000

  type Time = t: int | -I64_MAX - 1 <= t <= I64_MAX

  /** When the indexer may be asked again; None before its first request. */
  type Limit = Option<Time>

  datatype Event = Claim(now: Time) | Defer(now: Time, delay: nat)

  function Later(now: Time, delay: nat): Time {
    Minimum(now + delay, I64_MAX)
  }

  predicate Granted(limit: Limit, now: Time) {
    limit == None || limit.value <= now
  }

  function Step(limit: Limit, event: Event): Limit {
    match event
    case Claim(now) => if Granted(limit, now) then Some(Later(now, MIN_REQUEST_GAP_MS)) else limit
    case Defer(now, delay) =>
      var next: Time := Later(now, Maximum(delay, MIN_REQUEST_GAP_MS));
      if limit.Some? && limit.value >= next then limit else Some(next)
  }

  function Run(limit: Limit, events: seq<Event>): Limit
    decreases |events|
  {
    if events == [] then limit else Run(Step(limit, events[0]), events[1..])
  }

  /** The limit is never taken back. */
  predicate AtLeast(limit: Limit, earlier: Limit) {
    earlier == None || (limit.Some? && limit.value >= earlier.value)
  }

  lemma {:induction false} NeverDecreases(limit: Limit, events: seq<Event>)
    ensures AtLeast(Run(limit, events), limit)
    decreases |events|
  {
    if events != [] {
      NeverDecreases(Step(limit, events[0]), events[1..]);
    }
  }

  /** The k-th event of a run is a claim, and it is granted. */
  predicate GrantedAt(limit: Limit, events: seq<Event>, k: nat)
    requires k < |events|
  {
    events[k].Claim? && Granted(Run(limit, events[..k]), events[k].now)
  }

  lemma {:induction false} RunInTwo(limit: Limit, a: seq<Event>, b: seq<Event>)
    ensures Run(limit, a + b) == Run(Run(limit, a), b)
    decreases |a|
  {
    if a == [] {
      assert a + b == b;
    } else {
      assert (a + b)[1..] == a[1..] + b;
      RunInTwo(Step(limit, a[0]), a[1..], b);
    }
  }

  /** Over any sequence of claims and errors, in whatever order the clocks are read, two granted
      claims are at least the gap apart, unless the first was made within the gap of the largest
      time: then the second can only be made at that time itself. */
  lemma ClaimsAreApart(limit: Limit, events: seq<Event>, j: nat, k: nat)
    requires j < k < |events| && GrantedAt(limit, events, j) && GrantedAt(limit, events, k)
    ensures events[j].now + MIN_REQUEST_GAP_MS <= I64_MAX ==> events[j].now + MIN_REQUEST_GAP_MS <= events[k].now
    ensures events[j].now + MIN_REQUEST_GAP_MS > I64_MAX ==> events[k].now == I64_MAX
  {
    var before, after := events[..j], events[j + 1..k];
    var granted := Run(limit, before);
    var next := Step(granted, events[j]);
    assert events[..k] == before + ([events[j]] + after);
    RunInTwo(limit, before, [events[j]] + after);
    assert ([events[j]] + after)[0] == events[j] && ([events[j]] + after)[1..] == after;
    NeverDecreases(next, after);
  }

  // ----- The limit in plain arithmetic -----

  /** What an event asks for, if it moves the limit at all: a granted claim asks for a gap of 1000 ms, an
      error for its delay, and never for less than that gap. */
  function Asked(limit: Limit, event: Event): Option<int> {
    match event
    case Claim(now) => if limit == None || limit.value <= now then Some(now + 1000) else None
    case Defer(now, delay) => Some(now + if delay < 1000 then 1000 else delay)
  }

  ghost predicate AskedAt(limit: Limit, events: seq<Event>, k: nat, time: int)
    requires k < |events|
  {
    Asked(Run(limit, events[..k]), events[k]) == Some(time)
  }

  /** Capped at the largest time. */
  function Capped(time: int): int {
    if time <= 0x7fff_ffff_ffff_ffff then time else 0x7fff_ffff_ffff_ffff
  }

  lemma StepTakesLater(limit: Limit, event: Event)
    ensures Asked(limit, event) == None ==> Step(limit, event) == limit
    ensures Asked(limit, event).Some? ==>
              && Step(limit, event).Some?
              && (limit == None ==> Step(limit, event).value == Capped(Asked(limit, event).value))
              && (limit.Some? ==> Step(limit, event).value == Maximum(limit.value, Capped(Asked(limit, event).value)))
  {
  }

  /** The limit after any run is the greatest of the times it was asked for, capped, and where it
      began: no less, and no more. */
  lemma {:induction false} LimitIsGreatestAsked(limit: Limit, events: seq<Event>)
    ensures forall k: nat, time :: k < |events| && AskedAt(limit, events, k, time) ==>
              Run(limit, events).Some? && Capped(time) <= Run(limit, events).value
    ensures Run(limit, events) != limit ==>
              Run(limit, events).Some? && exists k: nat, time :: k < |events| && AskedAt(limit, events, k, time) && Run(limit, events).value == Capped(time)
  {
    if events == [] {
      return;
    }
    var n := |events| - 1;
    var before := events[..n];
    LimitIsGreatestAsked(limit, before);
    assert events == before + [events[n]];
    RunInTwo(limit, before, [events[n]]);
    var here, after := Run(limit, before), Run(limit, events);
    assert after == Step(here, events[n]);
    hide Run, Step, Asked;
    StepTakesLater(here, events[n]);
    forall k: nat, time | k < |events| && AskedAt(limit, events, k, time) ensures after.Some? && Capped(time) <= after.value {
      if k < n {
        assert events[..k] == before[..k] && AskedAt(limit, before, k, time);
      }
    }
    if after != limit {
      if after == here {
        var k: nat, time :| k < |before| && AskedAt(limit, before, k, time) && here.value == Capped(time);
        assert events[..k] == before[..k] && AskedAt(limit, events, k, time);
      } else {
        assert AskedAt(limit, events, n, Asked(here, events[n]).value);
      }
    }
  }

  /** A run of claims none of which is granted moves nothing. */
  lemma {:induction false} RefusedMoveNothing(limit: Limit, events: seq<Event>)
    requires forall k :: 0 <= k < |events| ==> events[k].Claim? && !Granted(limit, events[k].now)
    ensures Run(limit, events) == limit
    decreases |events|
  {
    if events != [] {
      RefusedMoveNothing(limit, events[1..]);
    }
  }

  /** After a claim granted at a time, and no error since, the next claim is granted exactly when 1000 ms
      have passed. */
  lemma NextClaim(limit: Limit, now: Time, refused: seq<Event>, t: Time)
    requires Granted(limit, now) && now + 1000 <= I64_MAX
    requires forall k :: 0 <= k < |refused| ==> refused[k].Claim? && refused[k].now < now + 1000
    ensures Granted(Run(limit, [Claim(now)] + refused), t) <==> t >= now + 1000
  {
    assert ([Claim(now)] + refused)[1..] == refused;
    RefusedMoveNothing(Step(limit, Claim(now)), refused);
  }

  /** After an error a claim is granted exactly when the time the indexer asked for has come, but not
      before the time that stood already, nor within 1000 ms. */
  lemma ClaimAfterError(limit: Limit, now: Time, delay: nat, t: Time)
    requires now + delay <= I64_MAX && now + 1000 <= I64_MAX
    ensures Granted(Step(limit, Defer(now, delay)), t) <==>
              t >= now + delay && t >= now + 1000 && (limit.Some? ==> t >= limit.value)
  {
  }

  /** At the largest time there is no gap: two claims there are both granted. */
  lemma NoGapAtTheEnd()
    ensures var events := [Claim(I64_MAX), Claim(I64_MAX)];
      GrantedAt(None, events, 0) && GrantedAt(None, events, 1)
  {
    var events := [Claim(I64_MAX), Claim(I64_MAX)];
    assert events[..0] == [] && events[..1] == [Claim(I64_MAX)];
    assert events[..1][1..] == [];
  }

  /** The limiter of one indexer. */
  class Limiter {
    var next: Limit

    constructor ()
      ensures next == None
    {
      next := None;
    }

    /** Grants a request, or answers when to come back. */
    method Claim(now: Time) returns (wait: Option<Time>)
      modifies this
      ensures wait == None <==> old(next) == None || old(next).value <= now
      ensures wait.Some? ==> wait == old(next) == next && wait.value > now
      ensures wait == None ==> next == Some(if now <= I64_MAX - 1000 then now + 1000 else I64_MAX)
      ensures next == Step(old(next), Event.Claim(now))
    {
      if next.Some? && next.value > now {
        return next;
      }
      next := Some(Later(now, MIN_REQUEST_GAP_MS));
      return None;
    }

    /** After an error that will pass: the indexer's own delay counts when it asks for more. */
    method DependencyError(now: Time, retryAfter: Option<nat>, calculated: nat) returns (until: Time)
      modifies this
      ensures var delay := if retryAfter.Some? then Maximum(retryAfter.value, calculated) else calculated;
        next == Step(old(next), Defer(now, delay)) && until == Later(now, Maximum(delay, MIN_REQUEST_GAP_MS))
      ensures var delay := if retryAfter.Some? then Maximum(retryAfter.value, calculated) else calculated;
        until == if now + delay > I64_MAX || now + 1000 > I64_MAX then I64_MAX else Maximum(now + delay, now + 1000)
      ensures next == Some(if old(next).Some? && old(next).value > until then old(next).value else until)
      ensures next.Some? && next.value >= until && AtLeast(next, old(next))
    {
      var delay := calculated;
      if retryAfter.Some? && retryAfter.value > calculated {
        delay := retryAfter.value;
      }
      until := Later(now, Maximum(delay, MIN_REQUEST_GAP_MS));
      if next == None || next.value < until {
        next := Some(until);
      }
    }
  }
}
