/** The trusted runtime clock: an in-memory monotone reader that latches on its first bad sample, and
    a durable history of clock events. Times are nanoseconds since 1970. */
module RuntimeClock {
  import opened Common

  type Time = int

  /** First instant of the year 9999. */
  const END_OF_TIME: Time := 253370764800_000_000_000

  const MAX_GENERATION: nat := 0x7FFF_FFFF_FFFF_FFFF

  /** `wall` is None when its text is not a canonical time. Id 0 is an invalid id. */
  datatype Sample = Sample(wall: Option<Time>, errorBound: int, ticks: int, provider: nat, session: nat)

  predicate CanonicalTime(t: Option<Time>)
  {
    t.Some? && 0 <= t.value < END_OF_TIME
  }

  datatype Fault = ClockUnverifiable | ClockReversal

  datatype Clock = Clock(maximumError: int, previous: Option<Sample>, fault: Option<Fault>, faultWall: Option<Time>)

  /** One call of read: the context is already cancelled, the source panics, or it answers with or
      without an error, possibly cancelling the context meanwhile. */
  datatype Answer = Cancelled | Panicked | Answered(sample: Sample, failed: bool, cancelled: bool)

  /** bounds: the error interval stays within the representable years. */
  function Bounds(s: Sample): Option<(Time, Time)>
  {
    if !CanonicalTime(s.wall) || s.errorBound < 0 then None
    else if s.wall.value - s.errorBound < 0 || s.wall.value + s.errorBound >= END_OF_TIME then None
    else Some((s.wall.value - s.errorBound, s.wall.value + s.errorBound))
  }

  predicate WellFormed(c: Clock, s: Sample)
  {
    CanonicalTime(s.wall) && s.provider != 0 && s.session != 0 && s.ticks >= 0 && 0 <= s.errorBound <= c.maximumError
  }

  /** The sample does not go back, and comes from the same provider session. */
  predicate Follows(p: Sample, s: Sample)
  {
    && p.wall.Some? && s.wall.Some? && p.wall.value <= s.wall.value
    && p.ticks <= s.ticks && p.provider == s.provider && p.session == s.session
  }

  /** manualRuntimeClock.read. */
  function Read(c: Clock, a: Answer): (Clock, Option<Sample>)
  {
    if a == Cancelled || c.fault.Some? then (c, None)
    else if a == Panicked then (c.(fault := Some(ClockUnverifiable)), None)
    else
      var s := a.sample;
      var seen := c.(faultWall := s.wall);
      if a.cancelled then (seen, None)
      else if a.failed || !WellFormed(c, s) then (seen.(fault := Some(ClockUnverifiable)), None)
      else if c.previous.Some? && !Follows(c.previous.value, s) then (seen.(fault := Some(ClockReversal)), None)
      else if Bounds(s).None? then (seen.(fault := Some(ClockUnverifiable)), None)
      else (seen.(previous := Some(s)), Some(s))
  }

  /** The samples accepted over a whole sequence of reads, and the clock after it. */
  function ReadAll(c: Clock, answers: seq<Answer>): (Clock, seq<Sample>)
  {
    if answers == [] then (c, [])
    else
      var before := ReadAll(c, answers[..|answers| - 1]);
      var r := Read(before.0, answers[|answers| - 1]);
      (r.0, if r.1.Some? then before.1 + [r.1.value] else before.1)
  }

  function NewClock(maximumError: int): Clock
  {
    Clock(maximumError, None, None, None)
  }

  ghost predicate Monotone(samples: seq<Sample>)
  {
    forall i, j :: 0 <= i < j < |samples| ==> Follows(samples[i], samples[j])
  }

  ghost predicate Accepted(c: Clock, samples: seq<Sample>)
  {
    && Monotone(samples)
    && (forall i :: 0 <= i < |samples| ==> WellFormed(c, samples[i]) && Bounds(samples[i]).Some?)
    && c.previous == (if samples == [] then None else Some(samples[|samples| - 1]))
  }

  lemma ReadKeepsAccepted(c: Clock, samples: seq<Sample>, a: Answer)
    requires Accepted(c, samples)
    ensures var r := Read(c, a);
            Accepted(r.0, if r.1.Some? then samples + [r.1.value] else samples) && r.0.maximumError == c.maximumError
  {
    var r := Read(c, a);
    if r.1.Some? {
      var samples' := samples + [r.1.value];
      forall i, j | 0 <= i < j < |samples'| ensures Follows(samples'[i], samples'[j]) {
        if j == |samples| {
          assert i < |samples| - 1 ==> Follows(samples[i], samples[|samples| - 1]);
        }
      }
    }
  }

  lemma {:induction false} ReadsAreAccepted(maximumError: int, answers: seq<Answer>)
    ensures Accepted(ReadAll(NewClock(maximumError), answers).0, ReadAll(NewClock(maximumError), answers).1)
    ensures ReadAll(NewClock(maximumError), answers).0.maximumError == maximumError
  {
    if answers != [] {
      var init := answers[..|answers| - 1];
      ReadsAreAccepted(maximumError, init);
      var before := ReadAll(NewClock(maximumError), init);
      ReadKeepsAccepted(before.0, before.1, answers[|answers| - 1]);
    }
  }

  /** Whatever the source answers, in whatever order: the accepted samples are monotone in wall time
      and ticks, all from one provider session, and each error interval is representable. */
  lemma AcceptedSamplesAreMonotone(maximumError: int, answers: seq<Answer>, i: nat, j: nat)
    requires i < j < |ReadAll(NewClock(maximumError), answers).1|
    ensures var s := ReadAll(NewClock(maximumError), answers).1;
            && s[i].wall.Some? && s[j].wall.Some? && s[i].wall.value <= s[j].wall.value && s[i].ticks <= s[j].ticks
            && s[i].provider == s[j].provider && s[i].session == s[j].session
            && s[i].provider != 0 && s[i].session != 0 && 0 <= s[i].ticks
            && 0 <= s[i].errorBound <= maximumError && 0 <= s[i].wall.value - s[i].errorBound
            && s[i].wall.value + s[i].errorBound < END_OF_TIME
  {
    ReadsAreAccepted(maximumError, answers);
  }

  /** A sample the reader could accept as its first. */
  predicate IsSound(maximumError: int, s: Sample)
  {
    && s.wall.Some? && s.provider != 0 && s.session != 0 && s.ticks >= 0 && 0 <= s.errorBound <= maximumError
    && 0 <= s.wall.value - s.errorBound && s.wall.value + s.errorBound < 253370764800_000_000_000
  }

  /** The sample is not behind the other in wall time or ticks, and is of the same session. */
  predicate IsNotBehind(p: Sample, s: Sample)
  {
    && p.wall.Some? && s.wall.Some? && p.wall.value <= s.wall.value && p.ticks <= s.ticks
    && (p.provider, p.session) == (s.provider, s.session)
  }

  /** One more read accepts the sample exactly when nothing has faulted, the answer is neither failed
      nor cancelled, the sample is sound, and it is not behind the last accepted one. */
  lemma AcceptsExactlyWhen(maximumError: int, answers: seq<Answer>, a: Answer, s: Sample)
    ensures var before := ReadAll(NewClock(maximumError), answers);
            ReadAll(NewClock(maximumError), answers + [a]).1 == before.1 + [s] <==>
              && before.0.fault == None && a == Answered(s, false, false) && IsSound(maximumError, s)
              && (before.1 != [] ==> IsNotBehind(before.1[|before.1| - 1], s))
  {
    ReadsAreAccepted(maximumError, answers);
    var more := answers + [a];
    assert more[..|more| - 1] == answers;
    var before := ReadAll(NewClock(maximumError), answers);
    var r := Read(before.0, a);
    if r.1.Some? {
      assert (before.1 + [r.1.value])[|before.1|] == r.1.value;
    }
  }

  lemma ReadFaults(c: Clock, a: Answer)
    requires c.fault == None && (c.previous.Some? ==> c.previous.value.wall.Some?)
    ensures var after := Read(c, a).0;
            var behind := a.Answered? && c.previous.Some? && !IsNotBehind(c.previous.value, a.sample);
            && (after.fault.Some? <==>
                  || a.Panicked?
                  || (a.Answered? && !a.cancelled && (a.failed || !IsSound(c.maximumError, a.sample) || behind)))
            && (a.Answered? && after.fault.Some? ==> after.faultWall == a.sample.wall)
            && (a.Panicked? || (a.Answered? && !a.cancelled && a.failed) ==> after.fault == Some(ClockUnverifiable))
            && (after.fault == Some(ClockReversal) ==> behind)
            && (a.Answered? && !a.cancelled && !a.failed && IsSound(c.maximumError, a.sample) && after.fault.Some? ==>
                  after.fault == Some(ClockReversal))
  {
  }

  /** The first fault: what latches it, and what it says. A panic, a failed answer or an unsound sample is
      unverifiable; a sound sample that is behind is a reversal. The wall time kept with it is that
      of the offending sample. */
  lemma FaultsExactlyWhen(maximumError: int, answers: seq<Answer>, a: Answer)
    requires ReadAll(NewClock(maximumError), answers).0.fault == None
    ensures var before := ReadAll(NewClock(maximumError), answers);
            var after := ReadAll(NewClock(maximumError), answers + [a]).0;
            && (after.fault.Some? <==>
                  || a.Panicked?
                  || (a.Answered? && !a.cancelled
                      && (a.failed || !IsSound(maximumError, a.sample)
                          || (before.1 != [] && !IsNotBehind(before.1[|before.1| - 1], a.sample)))))
            && (a.Answered? && after.fault.Some? ==> after.faultWall == a.sample.wall)
            && (a.Panicked? || (a.Answered? && !a.cancelled && a.failed) ==> after.fault == Some(ClockUnverifiable))
            && (after.fault == Some(ClockReversal) ==>
                  a.Answered? && before.1 != [] && !IsNotBehind(before.1[|before.1| - 1], a.sample))
            && (a.Answered? && !a.cancelled && !a.failed && IsSound(maximumError, a.sample) && after.fault.Some? ==>
                  after.fault == Some(ClockReversal))
  {
    ReadsAreAccepted(maximumError, answers);
    var more := answers + [a];
    assert more[..|more| - 1] == answers;
    ReadFaults(ReadAll(NewClock(maximumError), answers).0, a);
  }

  /** Nothing is accepted after the first fault. */
  lemma {:induction false} NothingAfterFault(c: Clock, answers: seq<Answer>, more: seq<Answer>)
    requires ReadAll(c, answers).0.fault.Some?
    ensures ReadAll(c, answers + more) == ReadAll(c, answers)
  {
    if more == [] {
      assert answers + more == answers;
    } else {
      var init := more[..|more| - 1];
      NothingAfterFault(c, answers, init);
      var all := answers + more;
      assert all[..|all| - 1] == answers + init;
    }
  }

  /** An answer that came back before any cancellation but panicked, failed, is malformed or goes
      behind the last accepted sample. */
  predicate IsBad(c: Clock, a: Answer)
  {
    match a
    case Cancelled => false
    case Panicked => true
    case Answered(s, failed, cancelled) =>
      && !cancelled
      && (failed || !WellFormed(c, s) || Bounds(s).None? || (c.previous.Some? && !Follows(c.previous.value, s)))
  }

  /** Whatever was read before and whatever is answered afterwards: with one bad answer in between,
      exactly the samples accepted before it are ever accepted. */
  lemma NothingAfterBadAnswer(c: Clock, answers: seq<Answer>, bad: Answer, more: seq<Answer>)
    requires IsBad(ReadAll(c, answers).0, bad)
    ensures ReadAll(c, answers + [bad] + more).1 == ReadAll(c, answers).1
    ensures ReadAll(c, answers + [bad] + more).0.fault.Some?
  {
    var upTo := answers + [bad];
    assert upTo[..|upTo| - 1] == answers;
    NothingAfterFault(c, upTo, more);
  }

  /** The reader as an object. */
  class Reader {
    const maximumError: int
    var previous: Option<Sample>
    var fault: Option<Fault>
    var faultWall: Option<Time>

    function State(): Clock
      reads this
    {
      Clock(maximumError, previous, fault, faultWall)
    }

    constructor (maximumError: int)
      ensures State() == NewClock(maximumError)
    {
      this.maximumError, previous, fault, faultWall := maximumError, None, None, None;
    }

    method ReadSample(a: Answer) returns (r: Option<Sample>)
      modifies this
      ensures (State(), r) == Read(old(State()), a)
      ensures r.Some? ==> old(previous).Some? ==> Follows(old(previous).value, r.value)
    {
      if a.Cancelled? || fault.Some? {
        return None;
      }
      if a.Panicked? {
        fault := Some(ClockUnverifiable);
        return None;
      }
      var s := a.sample;
      faultWall := s.wall;
      if a.cancelled {
        return None;
      }
      if a.failed || !CanonicalTime(s.wall) || s.provider == 0 || s.session == 0 || s.ticks < 0 || s.errorBound < 0
         || s.errorBound > maximumError {
        fault := Some(ClockUnverifiable);
        return None;
      }
      if previous.Some? && !Follows(previous.value, s) {
        fault := Some(ClockReversal);
        return None;
      }
      if Bounds(s).None? {
        fault := Some(ClockUnverifiable);
        return None;
      }
      previous := Some(s);
      return Some(s);
    }
  }

  // ---------------------------------------------------------------------------------------
  // Durable history of one environment

  datatype Event = Event(generation: nat, highWater: Time, fault: Option<Fault>, updated: Time)

  /** readManualRuntimeClock: the latest event, if it is healthy. */
  function Latest(events: seq<Event>): Option<Event>
  {
    if events == [] then None
    else
      var e := events[|events| - 1];
      if e.generation < 1 || e.generation == MAX_GENERATION || e.fault.Some? || !CanonicalTime(Some(e.highWater))
         || e.updated != e.highWater
      then None else Some(e)
  }

  /** initializeManualRuntimeClock: only where there is no history at all. */
  function Initialize(events: seq<Event>, s: Sample): Option<seq<Event>>
  {
    if events != [] || !CanonicalTime(s.wall) then None else Some([Event(1, s.wall.value, None, s.wall.value)])
  }

  /** checkManualClockFloor and the event that advances the clock. */
  function Advance(events: seq<Event>, s: Sample): Option<seq<Event>>
  {
    var v := Latest(events);
    if v.None? || !CanonicalTime(s.wall) || s.wall.value < v.value.highWater then None
    else Some(events + [Event(v.value.generation + 1, s.wall.value, None, s.wall.value)])
  }

  /** latchManualRuntimeClock: a fault keeps the high-water mark. */
  function Latch(events: seq<Event>, reason: Fault, observed: Option<Time>): Option<seq<Event>>
  {
    var v := Latest(events);
    if v.None? then None
    else
      var at := if CanonicalTime(observed) then observed.value else v.value.highWater;
      Some(events + [Event(v.value.generation + 1, v.value.highWater, Some(reason), at)])
  }

  datatype Change =
    | InitializeChange(s: Sample)
    | AdvanceChange(s: Sample)
    | LatchChange(reason: Fault, observed: Option<Time>)

  function Apply(events: seq<Event>, c: Change): Option<seq<Event>>
  {
    match c
    case InitializeChange(s) => Initialize(events, s)
    case AdvanceChange(s) => Advance(events, s)
    case LatchChange(reason, observed) => Latch(events, reason, observed)
  }

  /** A refused change leaves the history as it is. */
  function ApplyAll(changes: seq<Change>): seq<Event>
  {
    if changes == [] then []
    else
      var before := ApplyAll(changes[..|changes| - 1]);
      var r := Apply(before, changes[|changes| - 1]);
      if r.Some? then r.value else before
  }

  ghost predicate HistoryOk(events: seq<Event>)
  {
    && (forall i :: 0 <= i < |events| ==> events[i].generation == i + 1)
    && (forall i, j :: 0 <= i < j < |events| ==> events[i].highWater <= events[j].highWater && events[i].fault.None?)
    && (forall j :: 0 < j < |events| && events[j].fault.Some? ==> events[j].highWater == events[j - 1].highWater)
  }

  lemma ApplyKeepsHistory(events: seq<Event>, c: Change)
    requires HistoryOk(events) && Apply(events, c).Some?
    ensures HistoryOk(Apply(events, c).value)
  {
    var n := |events|;
    assert n > 0 ==> forall i :: 0 <= i < n - 1 ==> events[i].highWater <= events[n - 1].highWater;
  }

  lemma {:induction false} HistoryIsOk(changes: seq<Change>)
    ensures HistoryOk(ApplyAll(changes))
  {
    if changes != [] {
      var init := changes[..|changes| - 1];
      HistoryIsOk(init);
      if Apply(ApplyAll(init), changes[|changes| - 1]).Some? {
        ApplyKeepsHistory(ApplyAll(init), changes[|changes| - 1]);
      }
    }
  }

  /** Over all runs, every durable clock event increments the generation, never lowers the high-water
      mark, and never follows a fault; a fault keeps the mark. */
  lemma DurableClockIsMonotone(changes: seq<Change>, i: nat, j: nat)
    requires i < j < |ApplyAll(changes)|
    ensures var events := ApplyAll(changes);
            && events[i].generation == i + 1 && events[j].generation == j + 1
            && events[i].highWater <= events[j].highWater && events[i].fault == None
            && (events[j].fault.Some? ==> events[j].highWater == events[j - 1].highWater)
  {
    HistoryIsOk(changes);
  }

  /** The history ends in an event that is neither a fault nor the last generation there can be. */
  predicate IsOpen(events: seq<Event>)
  {
    events != [] && events[|events| - 1].fault == None && |events| < 0x7FFF_FFFF_FFFF_FFFF
  }

  ghost predicate StampsOk(events: seq<Event>)
  {
    forall i :: 0 <= i < |events| ==>
      && 0 <= events[i].highWater < END_OF_TIME
      && (events[i].fault == None ==> events[i].updated == events[i].highWater)
  }

  lemma {:induction false} StampsAreOk(changes: seq<Change>)
    ensures StampsOk(ApplyAll(changes))
  {
    if changes != [] {
      StampsAreOk(changes[..|changes| - 1]);
    }
  }

  /** What one more change does to any history the changes before it can lead to: it starts an empty
      history, moves the mark of an open one to a wall time that is not behind it, or latches a fault
      that keeps the mark; otherwise nothing. */
  lemma ChangesExactlyWhen(changes: seq<Change>, c: Change)
    ensures var events := ApplyAll(changes);
            var n := |events|;
            ApplyAll(changes + [c]) ==
              match c
              case InitializeChange(s) =>
                if n == 0 && s.wall.Some? && 0 <= s.wall.value < END_OF_TIME
                then [Event(1, s.wall.value, None, s.wall.value)] else events
              case AdvanceChange(s) =>
                if IsOpen(events) && s.wall.Some? && events[n - 1].highWater <= s.wall.value < END_OF_TIME
                then events + [Event(n + 1, s.wall.value, None, s.wall.value)] else events
              case LatchChange(reason, observed) =>
                if IsOpen(events)
                then events + [Event(n + 1, events[n - 1].highWater, Some(reason),
                                     if observed.Some? && 0 <= observed.value < END_OF_TIME then observed.value
                                     else events[n - 1].highWater)]
                else events
  {
    HistoryIsOk(changes);
    StampsAreOk(changes);
    var all := changes + [c];
    assert all[..|all| - 1] == changes;
  }

  /** Once a fault is latched the history is closed. */
  lemma {:induction false} FaultClosesHistory(changes: seq<Change>, more: seq<Change>)
    requires var events := ApplyAll(changes); events != [] && events[|events| - 1].fault.Some?
    ensures ApplyAll(changes + more) == ApplyAll(changes)
  {
    if more == [] {
      assert changes + more == changes;
    } else {
      var init := more[..|more| - 1];
      FaultClosesHistory(changes, init);
      var all := changes + more;
      assert all[..|all| - 1] == changes + init;
    }
  }
}
