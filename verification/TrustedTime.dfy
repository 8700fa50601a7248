/** How far the trusted time is from the server's, and a timer that ignores wall-clock jumps. */
module TrustedTime {
  import opened Prelude

  const MAX_SERVER_TIME_UNCERTAINTY_MS := 30_000
  const MAX_CLOCK_CONTINUITY_DRIFT_MS := 1_000

  predicate Physical(ms: int) {
    1 <= ms <= MAX_SAFE_INTEGER
  }

  predicate Monotonic(ms: int) {
    0 <= ms <= MAX_SAFE_INTEGER
  }

  function Abs(n: int): (r: int)
    ensures r >= 0 && (r == n || r == -n)
  {
    if n < 0 then -n else n
  }

  function Min(a: int, b: int): int {
    if a < b then a else b
  }

  function Max(a: int, b: int): int {
    if a < b then b else a
  }

  // ----- Sampling the server's time -----

  datatype Sample = Sample(offset: int, uncertainty: int, acquiredPhysical: int, acquiredMonotonic: int,
                           acquiredTrusted: int)

  datatype Timing = Timing(requestPhysical: int, receivedPhysical: int, requestMonotonic: int, receivedMonotonic: int)

  /** The sample a response gives, or `None` where it is refused. */
  function SampleFor(server: int, t: Timing): Option<Sample> {
    var roundTrip := t.receivedMonotonic - t.requestMonotonic;
    var physicalRoundTrip := t.receivedPhysical - t.requestPhysical;
    var disagreement := Abs(physicalRoundTrip - roundTrip);
    var elapsed := roundTrip / 2;
    var uncertainty := (roundTrip + 1) / 2 + disagreement;
    var offset := server - (t.requestPhysical + elapsed);
    var trusted := server + roundTrip - elapsed;
    if !Physical(server) || !Physical(t.requestPhysical) || !Physical(t.receivedPhysical) then None
    else if !Monotonic(t.requestMonotonic) || !Monotonic(t.receivedMonotonic) then None
    else if roundTrip < 0 || physicalRoundTrip < 0 || disagreement > MAX_CLOCK_CONTINUITY_DRIFT_MS then None
    else if uncertainty > MAX_SERVER_TIME_UNCERTAINTY_MS then None
    else if !Physical(t.requestPhysical + elapsed) || Abs(offset) > MAX_SAFE_INTEGER || !Physical(trusted) then None
    else Some(Sample(offset, uncertainty, t.receivedPhysical, t.receivedMonotonic, trusted))
  }

  /** Which samples are taken, and what they say: half the round trip before and half after the stamp. */
  lemma WhichSamplesAreTaken(server: int, t: Timing)
    ensures var there, back := t.receivedMonotonic - t.requestMonotonic, t.receivedPhysical - t.requestPhysical;
            var drift := if back < there then there - back else back - there;
            var half := there / 2;
            SampleFor(server, t).Some? <==>
              && 1 <= server <= MAX_SAFE_INTEGER
              && 1 <= t.requestPhysical <= t.receivedPhysical <= MAX_SAFE_INTEGER
              && 0 <= t.requestMonotonic <= t.receivedMonotonic <= MAX_SAFE_INTEGER
              && drift <= 1_000 && there - half + drift <= 30_000
              && t.requestPhysical + half <= MAX_SAFE_INTEGER
              && -MAX_SAFE_INTEGER <= server - t.requestPhysical - half <= MAX_SAFE_INTEGER
              && server + there - half <= MAX_SAFE_INTEGER
    ensures SampleFor(server, t).Some? ==>
              var s := SampleFor(server, t).value;
              && s.acquiredPhysical == t.receivedPhysical && s.acquiredMonotonic == t.receivedMonotonic
              && 2 * s.uncertainty >= t.receivedMonotonic - t.requestMonotonic
              && 0 <= s.uncertainty <= 30_000
  {
  }

  /** The server's clock at a local monotonic reading, given what it stamped at another. */
  function ServerAt(server: int, stampedAt: int, monotonic: int): int {
    server + (monotonic - stampedAt)
  }

  /** Wherever between request and receipt the server stamped, both estimates are within the uncertainty. */
  lemma SampleIsWithinUncertainty(server: int, t: Timing, stampedAt: int)
    requires t.requestMonotonic <= stampedAt <= t.receivedMonotonic
    ensures SampleFor(server, t).Some? ==>
              var s, truth := SampleFor(server, t).value, ServerAt(server, stampedAt, t.receivedMonotonic);
              && Abs(s.acquiredTrusted - truth) <= s.uncertainty
              && Abs(t.receivedPhysical + s.offset - truth) <= s.uncertainty
  {
    var roundTrip := t.receivedMonotonic - t.requestMonotonic;
    assert roundTrip - roundTrip / 2 == (roundTrip + 1) / 2;
  }

  /** With agreeing local clocks no smaller uncertainty would do. */
  lemma UncertaintyIsTight(server: int, t: Timing) returns (stampedAt: int)
    requires SampleFor(server, t).Some?
    requires t.receivedPhysical - t.requestPhysical == t.receivedMonotonic - t.requestMonotonic
    ensures t.requestMonotonic <= stampedAt <= t.receivedMonotonic
    ensures var s := SampleFor(server, t).value;
            Abs(s.acquiredTrusted - ServerAt(server, stampedAt, t.receivedMonotonic)) == s.uncertainty
  {
    stampedAt := t.receivedMonotonic;
    var roundTrip := t.receivedMonotonic - t.requestMonotonic;
    assert roundTrip - roundTrip / 2 == (roundTrip + 1) / 2;
  }

  /** `_projected_trusted_time`: `Some(None)` is a discontinuity, `None` a refused reading. */
  function Projected(s: Sample, physical: int, monotonic: int): Option<Option<int>> {
    if !Physical(physical) || !Monotonic(monotonic) then None
    else if monotonic < s.acquiredMonotonic then Some(None)
    else
      var elapsed := monotonic - s.acquiredMonotonic;
      if Abs(physical - (s.acquiredPhysical + elapsed)) > MAX_CLOCK_CONTINUITY_DRIFT_MS then Some(None)
      else if !Physical(s.acquiredTrusted + elapsed) then None
      else Some(Some(s.acquiredTrusted + elapsed))
  }

  /** A sample is carried on by the monotonic clock as long as the wall clock kept step with it. */
  lemma WhenASampleIsCarriedOn(s: Sample, physical: int, monotonic: int, trusted: int)
    ensures Projected(s, physical, monotonic) == Some(Some(trusted)) <==>
              && 1 <= physical <= MAX_SAFE_INTEGER && s.acquiredMonotonic <= monotonic <= MAX_SAFE_INTEGER
              && 0 <= monotonic && trusted - s.acquiredTrusted == monotonic - s.acquiredMonotonic
              && -1_000 <= (physical - s.acquiredPhysical) - (monotonic - s.acquiredMonotonic) <= 1_000
              && 1 <= trusted <= MAX_SAFE_INTEGER
    ensures Projected(s, physical, monotonic).None? <==>
              || physical < 1 || physical > MAX_SAFE_INTEGER || monotonic < 0 || monotonic > MAX_SAFE_INTEGER
              || (&& monotonic >= s.acquiredMonotonic
                  && -1_000 <= (physical - s.acquiredPhysical) - (monotonic - s.acquiredMonotonic) <= 1_000
                  && !(1 <= s.acquiredTrusted + monotonic - s.acquiredMonotonic <= MAX_SAFE_INTEGER))
  {
  }

  class TrustedClock {
    /** The persisted sample and the one anchored in this process. */
    var sample: Option<Sample>
    var anchor: Option<Sample>

    constructor ()
      ensures sample.None? && anchor.None?
    {
      sample, anchor := None, None;
    }

    /** Takes a response's sample; a refused one changes nothing. */
    method Sampled(server: int, t: Timing) returns (taken: bool)
      modifies this
      ensures taken <==> SampleFor(server, t).Some?
      ensures taken ==> sample == anchor == SampleFor(server, t)
      ensures !taken ==> sample == old(sample) && anchor == old(anchor)
    {
      var s := SampleFor(server, t);
      taken := s.Some?;
      if taken { sample, anchor := s, s; }
    }

    /**
     * The trusted time at a reading; `None` is an integer out of range. Once anchored, the wall
     * clock plays no part: the answer keeps exactly the error the sample was acquired with.
     */
    method Now(physical: int, monotonic: int, useServer: bool, useMonotonic: bool) returns (now: Option<int>)
      modifies this`anchor
      ensures !Physical(physical) ==> now.None?
      ensures Physical(physical) && (!useServer || sample.None?) ==> now == Some(physical)
      ensures Physical(physical) && useServer && sample.Some? && !useMonotonic ==>
                now == InRange(physical + sample.value.offset)
      ensures Physical(physical) && useServer && sample.Some? && useMonotonic ==>
                now == if !Monotonic(monotonic) then None
                       else if old(anchor) == sample then Anchored(sample.value, physical, monotonic)
                       else match Projected(sample.value, physical, monotonic)
                            case None => None
                            case Some(None) => Some(physical)
                            case Some(Some(trusted)) => Some(trusted)
      // The sample is anchored when it is first carried on, and only then.
      ensures anchor == if && Physical(physical) && useServer && sample.Some? && useMonotonic && Monotonic(monotonic)
                           && Projected(sample.value, physical, monotonic).Some?
                           && Projected(sample.value, physical, monotonic).value.Some?
                        then sample else old(anchor)
    {
      if !Physical(physical) { return None; }
      if !useServer || sample.None? { return Some(physical); }
      var s := sample.value;
      if !useMonotonic { return InRange(physical + s.offset); }
      if !Monotonic(monotonic) { return None; }
      if anchor != sample {
        var projected := Projected(s, physical, monotonic);
        if projected.None? { return None; }
        if projected.value.None? { return Some(physical); }
        anchor := sample;
        return projected.value;
      }
      if monotonic < s.acquiredMonotonic { return Some(physical); }
      now := InRange(s.acquiredTrusted + monotonic - s.acquiredMonotonic);
    }
  }

  function InRange(ms: int): (r: Option<int>)
    ensures r == Some(ms) <==> 1 <= ms <= MAX_SAFE_INTEGER
    ensures r.Some? ==> r.value == ms
  {
    if Physical(ms) then Some(ms) else None
  }

  /** The answer by an anchored sample: its own time carried on, or the wall clock before it. */
  function Anchored(s: Sample, physical: int, monotonic: int): Option<int> {
    if monotonic < s.acquiredMonotonic then Some(physical)
    else InRange(s.acquiredTrusted + monotonic - s.acquiredMonotonic)
  }

  /** An anchored answer has the error the sample promised, whatever the wall clock says by then. */
  lemma AnchoredKeepsTheError(server: int, t: Timing, stampedAt: int, physical: int, monotonic: int)
    requires t.requestMonotonic <= stampedAt <= t.receivedMonotonic <= monotonic
    ensures SampleFor(server, t).Some? && Anchored(SampleFor(server, t).value, physical, monotonic).Some? ==>
              var s := SampleFor(server, t).value;
              var now, truth := Anchored(s, physical, monotonic).value, ServerAt(server, stampedAt, monotonic);
              && now - truth == s.acquiredTrusted - ServerAt(server, stampedAt, t.receivedMonotonic)
              && Abs(now - truth) <= s.uncertainty
  {
    SampleIsWithinUncertainty(server, t, stampedAt);
  }

  /** What a sample promised at receipt it promises at every later reading. */
  lemma ProjectionKeepsTheError(server: int, t: Timing, stampedAt: int, physical: int, monotonic: int)
    requires t.requestMonotonic <= stampedAt <= t.receivedMonotonic
    ensures SampleFor(server, t).Some? ==>
              var s := SampleFor(server, t).value;
              forall now: int | Projected(s, physical, monotonic) == Some(Some(now)) ::
                var truth := ServerAt(server, stampedAt, monotonic);
                && now - truth == s.acquiredTrusted - ServerAt(server, stampedAt, t.receivedMonotonic)
                && Abs(now - truth) <= s.uncertainty
  {
    SampleIsWithinUncertainty(server, t, stampedAt);
  }

  // ----- A running timer -----

  /** All of a timer that tells one running stretch from another; not the anchor's time stamp. */
  datatype Identity = Identity(id: string, running: bool, phase: string, planned: int, elapsedAtAnchor: int,
                               taskId: Option<string>, commandId: Option<string>)

  /** `anchorAt` is `None` where the time stamp does not parse. */
  datatype Timer = Timer(identity: Identity, anchorAt: Option<int>)

  function ElapsedMs(timer: Timer, now: int): (elapsed: int)
    ensures 0 <= elapsed <= Max(0, timer.identity.planned)
  {
    var planned := Max(0, timer.identity.planned);
    var base := Min(planned, Max(0, timer.identity.elapsedAtAnchor));
    var running :=
      if timer.identity.running && timer.anchorAt.Some? then base + Max(0, now - timer.anchorAt.value) else base;
    Min(planned, Max(0, running))
  }

  /** A running timer counts from its anchor, any other stays where it was; neither passes the plan. */
  lemma WhatElapsedMeans(timer: Timer, now: int)
    requires 0 <= timer.identity.elapsedAtAnchor <= timer.identity.planned
    ensures var was, planned := timer.identity.elapsedAtAnchor, timer.identity.planned;
            if !timer.identity.running || timer.anchorAt.None? || now <= timer.anchorAt.value
            then ElapsedMs(timer, now) == was
            else if was + now - timer.anchorAt.value <= planned
            then ElapsedMs(timer, now) == was + now - timer.anchorAt.value
            else ElapsedMs(timer, now) == planned
  {
  }

  /** A negative plan counts as none, and an elapsed time beyond the plan as the plan. */
  lemma ElapsedIsClamped(timer: Timer, now: int)
    ensures timer.identity.planned <= 0 ==> ElapsedMs(timer, now) == 0
    ensures timer.identity.elapsedAtAnchor >= timer.identity.planned >= 0 ==>
              ElapsedMs(timer, now) == timer.identity.planned
    ensures timer.identity.elapsedAtAnchor < 0 ==>
              ElapsedMs(timer, now) == ElapsedMs(timer.(identity := timer.identity.(elapsedAtAnchor := 0)), now)
  {
  }

  datatype TimerAnchor = TimerAnchor(identity: Identity, elapsed: int, monotonic: int)

  /** The anchor a reading goes by: the one at hand, unless it is another timer's or later than the reading. */
  function AnchorFor(anchor: Option<TimerAnchor>, timer: Timer, physical: int, monotonic: int): (a: TimerAnchor)
    ensures a.identity == timer.identity && a.monotonic <= monotonic
  {
    if anchor.None? || anchor.value.identity != timer.identity || monotonic < anchor.value.monotonic
    then TimerAnchor(timer.identity, ElapsedMs(timer, physical), monotonic)
    else anchor.value
  }

  /** The effective time of a running timer and the anchor that is kept. */
  function Effective(anchor: Option<TimerAnchor>, timer: Timer, physical: int, monotonic: int): Option<int> {
    var a := AnchorFor(anchor, timer, physical, monotonic);
    var elapsed := Min(timer.identity.planned, a.elapsed + monotonic - a.monotonic);
    if timer.anchorAt.None? then Some(physical)
    else
      var now := timer.anchorAt.value + elapsed - timer.identity.elapsedAtAnchor;
      if Physical(now) then Some(now) else None
  }

  /** An anchor made by this timer holds an elapsed time the timer can have. */
  predicate Sane(anchor: Option<TimerAnchor>, identity: Identity) {
    anchor.Some? && anchor.value.identity == identity ==>
      anchor.value.elapsed >= Min(Max(0, identity.planned), Max(0, identity.elapsedAtAnchor))
  }

  class TimerClock {
    var anchor: Option<TimerAnchor>

    constructor ()
      ensures Valid() && anchor.None?
    {
      anchor := None;
    }

    ghost predicate Valid()
      reads this
    {
      anchor.Some? ==> Sane(anchor, anchor.value.identity)
    }

    /** `None` is an integer outside the safe range. */
    method EffectiveNow(timer: Option<Timer>, physical: int, monotonic: int) returns (now: Option<int>)
      requires Valid()
      modifies this
      ensures Valid()
      ensures !Physical(physical) ==> now.None? && anchor == old(anchor)
      ensures Physical(physical) && (timer.None? || !timer.value.identity.running) ==>
                now == Some(physical) && anchor.None?
      ensures Physical(physical) && timer.Some? && timer.value.identity.running ==>
                if !Monotonic(monotonic) then now.None? && anchor == old(anchor)
                else now == Effective(old(anchor), timer.value, physical, monotonic)
                     && anchor == Some(AnchorFor(old(anchor), timer.value, physical, monotonic))
    {
      if !Physical(physical) { return None; }
      if timer.None? || !timer.value.identity.running {
        anchor := None;
        return Some(physical);
      }
      if !Monotonic(monotonic) { return None; }
      var t := timer.value;
      if anchor.None? || anchor.value.identity != t.identity || monotonic < anchor.value.monotonic {
        anchor := Some(TimerAnchor(t.identity, ElapsedMs(t, physical), monotonic));
      }
      var elapsed := Min(t.identity.planned, anchor.value.elapsed + monotonic - anchor.value.monotonic);
      if t.anchorAt.None? { return Some(physical); }
      var effective := t.anchorAt.value + elapsed - t.identity.elapsedAtAnchor;
      now := if Physical(effective) then Some(effective) else None;
    }
  }

  /** One look at the clocks, with whatever time stamp the timer's anchor then carries. */
  datatype Reading = Reading(anchorAt: int, physical: int, monotonic: int)

  function TimerOf(identity: Identity, r: Reading): Timer {
    Timer(identity, Some(r.anchorAt))
  }

  /** The anchor before the reading at `i`. */
  function AnchorBefore(anchor: Option<TimerAnchor>, identity: Identity, readings: seq<Reading>, i: nat)
    : Option<TimerAnchor>
    requires i <= |readings|
  {
    if i == 0 then anchor
    else
      var r := readings[i - 1];
      Some(AnchorFor(AnchorBefore(anchor, identity, readings, i - 1), TimerOf(identity, r), r.physical, r.monotonic))
  }

  function NowAt(anchor: Option<TimerAnchor>, identity: Identity, readings: seq<Reading>, i: nat): Option<int>
    requires i < |readings|
  {
    var r := readings[i];
    Effective(AnchorBefore(anchor, identity, readings, i), TimerOf(identity, r), r.physical, r.monotonic)
  }

  function ElapsedAt(anchor: Option<TimerAnchor>, identity: Identity, readings: seq<Reading>, i: nat): int
    requires i < |readings| && NowAt(anchor, identity, readings, i).Some?
  {
    ElapsedMs(TimerOf(identity, readings[i]), NowAt(anchor, identity, readings, i).value)
  }

  predicate Readings(identity: Identity, readings: seq<Reading>) {
    && identity.running
    && (forall i | 0 <= i < |readings| :: Physical(readings[i].physical) && Monotonic(readings[i].monotonic))
    && forall i, j | 0 <= i < j < |readings| :: readings[i].monotonic <= readings[j].monotonic
  }

  /** After the first reading the anchor stays. */
  lemma {:induction false} AnchorStays(anchor: Option<TimerAnchor>, identity: Identity, readings: seq<Reading>, i: nat)
    requires Readings(identity, readings) && 1 <= i <= |readings|
    ensures AnchorBefore(anchor, identity, readings, i) == AnchorBefore(anchor, identity, readings, 1)
  {
    if i > 1 {
      AnchorStays(anchor, identity, readings, i - 1);
    }
  }

  lemma ElapsedOfOneReading(anchor: Option<TimerAnchor>, identity: Identity, r: Reading)
    requires identity.running && identity.planned >= 0 && identity.elapsedAtAnchor >= 0 && Sane(anchor, identity)
    requires var timer := TimerOf(identity, r); Effective(anchor, timer, r.physical, r.monotonic).Some?
    ensures var timer := TimerOf(identity, r);
            var a := AnchorFor(anchor, timer, r.physical, r.monotonic);
            && Sane(Some(a), identity)
            && ElapsedMs(timer, Effective(anchor, timer, r.physical, r.monotonic).value) ==
               Min(identity.planned, a.elapsed + r.monotonic - a.monotonic)
  {
  }

  /** Two readings by one anchor, whatever their time stamps. */
  lemma ElapsedNeverGoesBack(a: Option<TimerAnchor>, b: Option<TimerAnchor>, identity: Identity, r: Reading, s: Reading)
    requires identity.running && r.monotonic <= s.monotonic
    requires AnchorFor(a, TimerOf(identity, r), r.physical, r.monotonic) ==
               AnchorFor(b, TimerOf(identity, s), s.physical, s.monotonic)
    requires Effective(a, TimerOf(identity, r), r.physical, r.monotonic).Some?
    requires Effective(b, TimerOf(identity, s), s.physical, s.monotonic).Some?
    ensures ElapsedMs(TimerOf(identity, r), Effective(a, TimerOf(identity, r), r.physical, r.monotonic).value) <=
              ElapsedMs(TimerOf(identity, s), Effective(b, TimerOf(identity, s), s.physical, s.monotonic).value)
  {
  }

  lemma {:induction false} AnchorsAreSane(anchor: Option<TimerAnchor>, identity: Identity, readings: seq<Reading>,
                                          i: nat)
    requires identity.running && identity.planned >= 0 && Sane(anchor, identity) && i <= |readings|
    ensures Sane(AnchorBefore(anchor, identity, readings, i), identity)
  {
    if i > 0 { AnchorsAreSane(anchor, identity, readings, i - 1); }
  }

  /**
   * Whatever the wall clock does and however the anchor is re-stamped, the elapsed time shown never
   * goes back, and for a timer whose times are not negative goes exactly with the monotonic clock
   * until it stops at the planned duration.
   */
  lemma ElapsedFollowsTheMonotonicClock(anchor: Option<TimerAnchor>, identity: Identity, readings: seq<Reading>,
                                        i: nat, j: nat)
    requires Readings(identity, readings) && i <= j < |readings|
    requires NowAt(anchor, identity, readings, i).Some? && NowAt(anchor, identity, readings, j).Some?
    ensures ElapsedAt(anchor, identity, readings, i) <= ElapsedAt(anchor, identity, readings, j)
    ensures identity.planned >= 0 && identity.elapsedAtAnchor >= 0 && Sane(anchor, identity) ==>
              ElapsedAt(anchor, identity, readings, j) ==
              Min(identity.planned,
                  ElapsedAt(anchor, identity, readings, i) + readings[j].monotonic - readings[i].monotonic)
  {
    AnchorStays(anchor, identity, readings, i + 1);
    AnchorStays(anchor, identity, readings, j + 1);
    ElapsedNeverGoesBack(AnchorBefore(anchor, identity, readings, i), AnchorBefore(anchor, identity, readings, j),
                         identity, readings[i], readings[j]);
    if identity.planned >= 0 && identity.elapsedAtAnchor >= 0 && Sane(anchor, identity) {
      AnchorsAreSane(anchor, identity, readings, i);
      AnchorsAreSane(anchor, identity, readings, j);
      ElapsedOfOneReading(AnchorBefore(anchor, identity, readings, i), identity, readings[i]);
      ElapsedOfOneReading(AnchorBefore(anchor, identity, readings, j), identity, readings[j]);
    }
  }
}
