/** The charger's interrupt flags: reading the registers clears them, so flags that nobody listens
    for yet are saved until a callback unmasks them. A flag word is the set of its bits. Callbacks
    are numbered; `masks[i]` is the pin mask of callback i. */
module FlagSaver {
  type Flags = set<nat>

  const ALL: Flags := set b | 0 <= b < 32

  /** The history: flags raised by the charger, and flags fired to the callbacks listed then. */
  datatype Entry = Raise(flags: Flags) | Fire(flags: Flags, to: seq<nat>)

  /** `hw` is raised and not read yet. */
  datatype State = State(hw: Flags, intMask: Flags, pending: Flags, listed: seq<nat>, log: seq<Entry>)

  const BOOTED := State({}, ALL, {}, [], [])

  /** The steps that can interleave. Adding a callback unmasks it and queues the work, and then lists
      it; removing unlists it and then masks it. */
  datatype Event =
    | Raised(flags: Flags)
    | WorkRun
    | Unmasked(i: nat)
    | Listed(i: nat)
    | Unlisted(i: nat)
    | Masked(i: nat)

  function Without(listed: seq<nat>, i: nat): (r: seq<nat>)
    ensures forall j :: j in r <==> j in listed && j != i
  {
    if listed == [] then []
    else if listed[0] == i then Without(listed[1..], i)
    else [listed[0]] + Without(listed[1..], i)
  }

  function MaskOf(masks: seq<Flags>, i: nat): Flags {
    if i < |masks| then masks[i] else {}
  }

  /** A work run whose register read succeeds. */
  function Work(s: State): State {
    var flags := s.hw + s.pending;
    var now := flags - s.intMask;
    s.(hw := {}, pending := flags * s.intMask,
       log := if now != {} then s.log + [Fire(now, s.listed)] else s.log)
  }

  function Step(masks: seq<Flags>, s: State, e: Event): State {
    match e
    case Raised(flags) => s.(hw := s.hw + flags, log := s.log + [Raise(flags)])
    case WorkRun => Work(s)
    case Unmasked(i) => s.(intMask := s.intMask - MaskOf(masks, i))
    case Listed(i) => s.(listed := [i] + Without(s.listed, i))
    case Unlisted(i) => s.(listed := Without(s.listed, i))
    case Masked(i) => s.(intMask := s.intMask + MaskOf(masks, i))
  }

  function RunFrom(masks: seq<Flags>, s: State, events: seq<Event>): State {
    if events == [] then s
    else Step(masks, RunFrom(masks, s, events[..|events| - 1]), events[|events| - 1])
  }

  function Run(masks: seq<Flags>, events: seq<Event>): State {
    RunFrom(masks, BOOTED, events)
  }

  // No flag is lost and none is made up.

  predicate Raises(log: seq<Entry>, j: int, b: nat) {
    0 <= j < |log| && log[j].Raise? && b in log[j].flags
  }

  predicate Fires(log: seq<Entry>, k: int, b: nat) {
    0 <= k < |log| && log[k].Fire? && b in log[k].flags
  }

  /** The flag was raised at j and has not been fired since. */
  ghost predicate RaisedSince(log: seq<Entry>, j: int, b: nat) {
    Raises(log, j, b) && forall k | j < k < |log| :: !Fires(log, k, b)
  }

  /** The flags whose last entry in the history is a raise. */
  function Awaiting(log: seq<Entry>): Flags {
    if log == [] then {}
    else
      var before, last := Awaiting(log[..|log| - 1]), log[|log| - 1];
      if last.Raise? then before + last.flags else before - last.flags
  }

  lemma {:induction false} AwaitingExactly(log: seq<Entry>, b: nat)
    ensures b in Awaiting(log) <==> exists j :: RaisedSince(log, j, b)
  {
    if log != [] {
      var n := |log| - 1;
      var before := log[..n];
      AwaitingExactly(before, b);
      assert forall k | 0 <= k < n :: Raises(log, k, b) == Raises(before, k, b) && Fires(log, k, b) == Fires(before, k, b);
      if Raises(log, n, b) {
        assert RaisedSince(log, n, b);
      } else if b in Awaiting(log) {
        var j :| RaisedSince(before, j, b);
        assert RaisedSince(log, j, b);
      } else if exists j :: RaisedSince(log, j, b) {
        var j :| RaisedSince(log, j, b);
        assert !Fires(log, n, b) && j < n;
        assert RaisedSince(before, j, b);
      }
    }
  }

  /** Unread and saved flags are exactly those raised since they were last fired, and every fired
      flag was one of those when it was fired. */
  ghost predicate Accounted(s: State) {
    && s.hw + s.pending == Awaiting(s.log)
    && forall k | 0 <= k < |s.log| && s.log[k].Fire? :: s.log[k].flags <= Awaiting(s.log[..k])
  }

  lemma LogAppend(log: seq<Entry>, e: Entry)
    ensures (log + [e])[..|log|] == log && (log + [e])[|log|] == e
    ensures forall k | 0 <= k <= |log| :: (log + [e])[..k] == log[..k]
  {
    assert (log + [e])[..|log|] == log;
  }

  lemma StepKeepsAccount(masks: seq<Flags>, s: State, e: Event)
    requires Accounted(s)
    ensures Accounted(Step(masks, s, e))
  {
    match e {
      case Raised(flags) =>
        LogAppend(s.log, Raise(flags));
      case WorkRun =>
        LogAppend(s.log, Fire((s.hw + s.pending) - s.intMask, s.listed));
      case _ =>
    }
  }

  lemma {:induction false} RunKeepsAccount(masks: seq<Flags>, events: seq<Event>)
    ensures Accounted(Run(masks, events))
  {
    if events != [] {
      hide Accounted, Step;
      RunKeepsAccount(masks, events[..|events| - 1]);
      StepKeepsAccount(masks, Run(masks, events[..|events| - 1]), events[|events| - 1]);
    }
  }

  /** Over any run, whatever the order of unmasking, listing and work runs: a flag is unread or saved
      exactly when it has been raised and not fired since, so every single raise is followed by a fire
      or still waits; and every fire is preceded by a raise that no other fire answered. */
  lemma NoFlagIsLost(masks: seq<Flags>, events: seq<Event>, b: nat)
    ensures var s := Run(masks, events);
            && (b in s.hw + s.pending <==> exists j :: RaisedSince(s.log, j, b))
            && (forall j | Raises(s.log, j, b) :: b in s.hw + s.pending || exists k | j < k :: Fires(s.log, k, b))
            && (forall k | Fires(s.log, k, b) :: exists j :: RaisedSince(s.log[..k], j, b))
  {
    var s := Run(masks, events);
    RunKeepsAccount(masks, events);
    AwaitingExactly(s.log, b);
    forall j | Raises(s.log, j, b)
      ensures b in s.hw + s.pending || exists k | j < k :: Fires(s.log, k, b)
    {
      assert RaisedSince(s.log, j, b) || exists k | j < k :: Fires(s.log, k, b);
    }
    forall k | Fires(s.log, k, b)
      ensures exists j :: RaisedSince(s.log[..k], j, b)
    {
      AwaitingExactly(s.log[..k], b);
    }
  }

  /** A successful work run reads everything, leaves no unmasked flag waiting, and hands the unmasked
      ones, and only those, to the callbacks listed. */
  lemma WorkFiresUnmasked(s: State)
    ensures var w, now := Work(s), (s.hw + s.pending) - s.intMask;
            && w.hw == {} && w.pending <= w.intMask && w.pending + now == s.hw + s.pending
            && w.log == s.log + (if now == {} then [] else [Fire(now, s.listed)])
  {
  }

  // What one callback sees.

  /** The flags callback i is called with, call by call. */
  function Calls(log: seq<Entry>, i: nat, mask: Flags): seq<Flags> {
    if log == [] then []
    else
      var before, last := Calls(log[..|log| - 1], i, mask), log[|log| - 1];
      if last.Fire? && i in last.to && last.flags * mask != {} then before + [last.flags * mask] else before
  }

  /** The flags of callback i that are fired while it is not listed, so that it never sees them. */
  function Lost(log: seq<Entry>, i: nat, mask: Flags): seq<Flags> {
    if log == [] then []
    else
      var before, last := Lost(log[..|log| - 1], i, mask), log[|log| - 1];
      if last.Fire? && i !in last.to && last.flags * mask != {} then before + [last.flags * mask] else before
  }

  /** A single callback alone with the charger: the reference. */
  datatype Solo = Solo(owed: Flags, masked: bool, listed: bool, calls: seq<Flags>, lost: seq<Flags>)

  const SOLO_BOOTED := Solo({}, true, false, [], [])

  function SoloWork(x: Solo): Solo {
    if x.masked || x.owed == {} then x
    else if x.listed then x.(owed := {}, calls := x.calls + [x.owed])
    else x.(owed := {}, lost := x.lost + [x.owed])
  }

  function SoloStep(i: nat, mask: Flags, x: Solo, e: Event): Solo {
    match e
    case Raised(flags) => x.(owed := x.owed + flags * mask)
    case WorkRun => SoloWork(x)
    case Unmasked(j) => if j == i then x.(masked := false) else x
    case Listed(j) => if j == i then x.(listed := true) else x
    case Unlisted(j) => if j == i then x.(listed := false) else x
    case Masked(j) => if j == i then x.(masked := true) else x
  }

  function SoloRun(i: nat, mask: Flags, events: seq<Event>): Solo {
    if events == [] then SOLO_BOOTED
    else SoloStep(i, mask, SoloRun(i, mask, events[..|events| - 1]), events[|events| - 1])
  }

  ghost predicate Disjoint(masks: seq<Flags>) {
    forall i, j | 0 <= i < |masks| && 0 <= j < |masks| && i != j :: masks[i] !! masks[j]
  }

  ghost predicate Bits(masks: seq<Flags>) {
    forall i | 0 <= i < |masks| :: masks[i] <= ALL
  }

  ghost predicate Tracks(mask: Flags, s: State, i: nat, x: Solo) {
    && x.owed == (s.hw + s.pending) * mask
    && (if x.masked then mask <= s.intMask else mask !! s.intMask)
    && (x.listed <==> i in s.listed)
    && x.calls == Calls(s.log, i, mask) && x.lost == Lost(s.log, i, mask)
  }

  lemma WorkTracks(mask: Flags, s: State, i: nat, x: Solo)
    requires Tracks(mask, s, i, x)
    ensures Tracks(mask, Work(s), i, SoloWork(x))
  {
    var flags := s.hw + s.pending;
    var now := flags - s.intMask;
    LogAppend(s.log, Fire(now, s.listed));
    if x.masked {
      assert now * mask == {};
      assert flags * s.intMask * mask == flags * mask;
    } else {
      assert now * mask == flags * mask;
      assert flags * s.intMask * mask == {};
    }
  }

  lemma RaiseTracks(mask: Flags, s: State, i: nat, x: Solo, flags: Flags)
    requires Tracks(mask, s, i, x)
    ensures Tracks(mask, s.(hw := s.hw + flags, log := s.log + [Raise(flags)]), i, x.(owed := x.owed + flags * mask))
  {
    LogAppend(s.log, Raise(flags));
  }

  lemma StepTracks(masks: seq<Flags>, s: State, i: nat, x: Solo, e: Event)
    requires Disjoint(masks) && i < |masks| && Tracks(masks[i], s, i, x)
    ensures Tracks(masks[i], Step(masks, s, e), i, SoloStep(i, masks[i], x, e))
  {
    match e {
      case Raised(flags) => RaiseTracks(masks[i], s, i, x, flags);
      case WorkRun => WorkTracks(masks[i], s, i, x);
      case Unmasked(j) => assert j != i ==> masks[i] !! MaskOf(masks, j);
      case Masked(j) => assert j != i ==> masks[i] !! MaskOf(masks, j);
      case _ =>
    }
  }

  /** Over any run, each callback sees exactly what it would see if it were the only one. */
  lemma {:induction false} RunTracks(masks: seq<Flags>, events: seq<Event>, i: nat)
    requires Disjoint(masks) && Bits(masks) && i < |masks|
    ensures Tracks(masks[i], Run(masks, events), i, SoloRun(i, masks[i], events))
  {
    if events == [] {
      hide Disjoint;
    } else {
      hide Disjoint, Bits, Tracks, Step, SoloStep;
      RunTracks(masks, events[..|events| - 1], i);
      StepTracks(masks, Run(masks, events[..|events| - 1]), i,
                 SoloRun(i, masks[i], events[..|events| - 1]), events[|events| - 1]);
    }
  }

  /** The events without those of other callbacks. */
  function Own(i: nat, events: seq<Event>): seq<Event> {
    if events == [] then []
    else
      var before, e := Own(i, events[..|events| - 1]), events[|events| - 1];
      if e.Raised? || e.WorkRun? || e.i == i then before + [e] else before
  }

  lemma {:induction false} OwnIsEnough(i: nat, mask: Flags, events: seq<Event>)
    ensures SoloRun(i, mask, Own(i, events)) == SoloRun(i, mask, events)
  {
    if events != [] {
      var before, e := events[..|events| - 1], events[|events| - 1];
      OwnIsEnough(i, mask, before);
      assert (Own(i, before) + [e])[..|Own(i, before)|] == Own(i, before);
    }
  }

  /** The calls a callback gets, call by call, the flags it misses and the flags it is owed do not
      depend on which other callbacks are added or removed, or when. */
  lemma OrderDoesNotMatter(masks: seq<Flags>, first: seq<Event>, second: seq<Event>, i: nat)
    requires Disjoint(masks) && Bits(masks) && i < |masks| && Own(i, first) == Own(i, second)
    ensures var s, t, mask := Run(masks, first), Run(masks, second), masks[i];
            && Calls(s.log, i, mask) == Calls(t.log, i, mask)
            && Lost(s.log, i, mask) == Lost(t.log, i, mask)
            && (s.hw + s.pending) * mask == (t.hw + t.pending) * mask
  {
    RunTracks(masks, first, i);
    RunTracks(masks, second, i);
    OwnIsEnough(i, masks[i], first);
    OwnIsEnough(i, masks[i], second);
    hide Run, SoloRun, Own;
  }

  // When a callback misses flags.

  /** The work runs while the callback is unmasked but not listed, and finds one of its flags. */
  ghost predicate Missed(masks: seq<Flags>, s: State, e: Event, i: nat)
    requires i < |masks|
  {
    e.WorkRun? && i !in s.listed && (s.hw + s.pending) * masks[i] - s.intMask != {}
  }

  ghost predicate EverMissed(masks: seq<Flags>, events: seq<Event>, i: nat)
    requires i < |masks|
  {
    events != [] &&
    var n := |events| - 1;
    EverMissed(masks, events[..n], i) || Missed(masks, Run(masks, events[..n]), events[n], i)
  }

  lemma {:induction false} EverMissedExactly(masks: seq<Flags>, events: seq<Event>, i: nat)
    requires i < |masks|
    ensures EverMissed(masks, events, i) <==>
            exists n | 0 <= n < |events| :: Missed(masks, Run(masks, events[..n]), events[n], i)
  {
    if events != [] {
      hide Missed, Run;
      var before := events[..|events| - 1];
      EverMissedExactly(masks, before, i);
      assert forall n | 0 <= n < |before| :: before[..n] == events[..n];
    }
  }

  lemma StepMisses(masks: seq<Flags>, s: State, e: Event, i: nat)
    requires i < |masks|
    ensures Lost(Step(masks, s, e).log, i, masks[i]) == [] <==>
            Lost(s.log, i, masks[i]) == [] && !Missed(masks, s, e, i)
  {
    match e {
      case Raised(flags) => LogAppend(s.log, Raise(flags));
      case WorkRun =>
        var now := (s.hw + s.pending) - s.intMask;
        LogAppend(s.log, Fire(now, s.listed));
        assert now * masks[i] == (s.hw + s.pending) * masks[i] - s.intMask;
      case _ =>
    }
  }

  /** A callback misses flags if and only if the work runs at some point while it is unmasked but not
      listed and one of its flags is unread or saved: between the two steps of adding it, between the
      two steps of removing it, or after a mask write that failed. */
  lemma {:induction false} NothingMissedIff(masks: seq<Flags>, events: seq<Event>, i: nat)
    requires i < |masks|
    ensures Lost(Run(masks, events).log, i, masks[i]) == [] <==> !EverMissed(masks, events, i)
  {
    if events != [] {
      hide Step, Missed, Lost;
      NothingMissedIff(masks, events[..|events| - 1], i);
      StepMisses(masks, Run(masks, events[..|events| - 1]), events[|events| - 1], i);
    } else {
      assert Run(masks, events).log == [];
    }
  }

  /** The smallest such run: a flag is raised, its callback is unmasked, and the work runs first. Then
      listing the callback comes too late. */
  lemma ListedTooLate()
    ensures var masks, events := [{0}], [Raised({0}), Unmasked(0), WorkRun, Listed(0)];
            EverMissed(masks, events, 0)
  {
    var masks: seq<Flags>, events := [{0}], [Raised({0}), Unmasked(0), WorkRun, Listed(0)];
    assert events[..0] + [events[0]] == events[..1] && events[..1] + [events[1]] == events[..2];
    RunOne(masks, BOOTED, events[..0], events[0]);
    RunOne(masks, BOOTED, events[..1], events[1]);
    var unmasked := Run(masks, events[..2]);
    assert 0 in unmasked.hw && 0 !in unmasked.intMask && unmasked.listed == [];
    assert 0 in (unmasked.hw + unmasked.pending) * masks[0] - unmasked.intMask;
    assert events[..3][..2] == events[..2] && events[..4][..3] == events[..3] && events[..4] == events;
    assert Missed(masks, unmasked, events[2], 0);
    assert EverMissed(masks, events[..3], 0);
  }

  /** The work never runs between unmasking and listing the callback, nor between unlisting and
      masking it. */
  ghost predicate Disciplined(i: nat, mask: Flags, events: seq<Event>) {
    forall n | 0 <= n < |events| && events[n].WorkRun? ::
      var x := SoloRun(i, mask, events[..n]); x.masked || x.listed
  }

  /** If the work item runs only after the callback is listed, the callback misses nothing. */
  lemma DisciplineSuffices(masks: seq<Flags>, events: seq<Event>, i: nat)
    requires Disjoint(masks) && Bits(masks) && i < |masks| && Disciplined(i, masks[i], events)
    ensures Lost(Run(masks, events).log, i, masks[i]) == []
  {
    NothingMissedIff(masks, events, i);
    EverMissedExactly(masks, events, i);
    forall n | 0 <= n < |events|
      ensures !Missed(masks, Run(masks, events[..n]), events[n], i)
    {
      RunTracks(masks, events[..n], i);
      hide Run, SoloRun;
    }
  }

  lemma {:induction false} FiredToListed(log: seq<Entry>, i: nat, mask: Flags, b: nat, k: int)
    requires Lost(log, i, mask) == [] && Fires(log, k, b) && b in mask
    ensures i in log[k].to
  {
    var n := |log| - 1;
    if k < n {
      FiredToListed(log[..n], i, mask, b, k);
    } else {
      assert b in log[n].flags * mask;
    }
  }

  /** Then, once the work has run with the callback listed and unmasked, the callback has been called
      for every single raise of each of its flags. */
  lemma EveryRaiseIsDelivered(masks: seq<Flags>, events: seq<Event>, i: nat, b: nat, j: int)
    requires Disjoint(masks) && Bits(masks) && i < |masks| && b in masks[i]
    requires events != [] && events[|events| - 1] == WorkRun && Disciplined(i, masks[i], events)
    requires !SoloRun(i, masks[i], events).masked
    requires Raises(Run(masks, events).log, j, b)
    ensures var log := Run(masks, events).log; exists k | j < k :: Fires(log, k, b) && i in log[k].to
  {
    var log := Run(masks, events).log;
    DisciplineSuffices(masks, events, i);
    RunTracks(masks, events, i);
    NoFlagIsLost(masks, events, b);
    assert SoloRun(i, masks[i], events).owed == {};
    hide Run, SoloRun, Disciplined, Disjoint, Bits;
    var k :| j < k && Fires(log, k, b);
    FiredToListed(log, i, masks[i], b, k);
  }

  // The driver.

  class Driver {
    ghost const masks: seq<Flags>
    var intMask: Flags
    var pendingFlags: Flags
    var callbacks: seq<(nat, Flags)>  // number and pin mask, most recently added first
    var workQueued: bool
    var hw: Flags
    ghost var log: seq<Entry>

    ghost function Now(): State
      reads this
    {
      State(hw, intMask, pendingFlags, Numbers(callbacks), log)
    }

    ghost predicate Valid()
      reads this
    {
      Accounted(Now()) && Known(masks, callbacks)
    }

    constructor (ghost masks: seq<Flags>)
      ensures Valid() && this.masks == masks && Now() == BOOTED
    {
      this.masks := masks;
      intMask, pendingFlags, callbacks, workQueued, hw, log := ALL, {}, [], false, {}, [];
    }

    /** The charger raises flags; the interrupt line queues the work. */
    method Interrupt(flags: Flags)
      requires Valid()
      modifies this
      ensures Valid() && Now() == Step(masks, old(Now()), Raised(flags)) && workQueued
      ensures callbacks == old(callbacks)
    {
      StepKeepsAccount(masks, Now(), Raised(flags));
      hide Accounted;
      hw := hw + flags;
      log := log + [Raise(flags)];
      workQueued := true;
    }

    /** Reads and clears the flag registers, or queues itself again if the bus fails. */
    method WorkHandler() returns (ok: bool)
      requires Valid()
      modifies this
      ensures Valid() && callbacks == old(callbacks)
      ensures Now() == if ok then Step(masks, old(Now()), WorkRun) else old(Now())
      ensures workQueued <==> !ok
    {
      StepKeepsAccount(masks, Now(), WorkRun);
      hide Accounted;
      workQueued := false;
      var fault: bool := *;
      if fault {
        workQueued := true;
        return false;
      }
      var flags := hw;
      hw := {};
      flags := flags + pendingFlags;
      pendingFlags := flags * intMask;
      flags := flags - intMask;
      if flags != {} {
        log := log + [Fire(flags, Numbers(callbacks))];
      }
      ok := true;
    }

    method MaybeInterrupt() returns (ghost events: seq<Event>)
      requires Valid()
      modifies this
      ensures Valid() && callbacks == old(callbacks) && (old(workQueued) ==> workQueued)
      ensures Now() == RunFrom(masks, old(Now()), events)
      ensures events == [] || (|events| == 1 && events[0].Raised?)
    {
      hide Accounted, Numbers, Known, Step;
      events := [];
      var raises: bool := *;
      if raises {
        var flags: Flags := *;
        RunOne(masks, Now(), [], Raised(flags));
        events := [Raised(flags)];
        assert [] + events == events;
        Interrupt(flags);
      }
    }

    method MaybeWork() returns (ghost events: seq<Event>)
      requires Valid()
      modifies this
      ensures Valid() && callbacks == old(callbacks)
      ensures Now() == RunFrom(masks, old(Now()), events)
      ensures events == [] || events == [WorkRun]
      ensures old(workQueued) ==> workQueued || events == [WorkRun]
    {
      hide Accounted, Numbers, Known, Step;
      events := [];
      var runs: bool := *;
      if runs {
        RunOne(masks, Now(), [], WorkRun);
        assert [] + [WorkRun] == [WorkRun];
        var ok := WorkHandler();
        if ok {
          events := [WorkRun];
        }
      }
    }

    /** What may happen between two steps of another thread: an interrupt, a work run, both, or
        nothing. */
    method Preempt() returns (ghost between: seq<Event>)
      requires Valid()
      modifies this
      ensures Valid() && callbacks == old(callbacks)
      ensures Now() == RunFrom(masks, old(Now()), between)
      ensures forall n | 0 <= n < |between| :: between[n].Raised? || between[n].WorkRun?
      ensures old(workQueued) ==> workQueued || WorkRun in between
    {
      hide Accounted, Numbers, Known, Step, RunFrom;
      ghost var before := Now();
      ghost var raised := MaybeInterrupt();
      ghost var worked := MaybeWork();
      between := raised + worked;
      RunMore(masks, before, raised, worked);
    }

    /** Unmasks, writes the mask, queues the work and lists the callback, in that order. The work may
        run before the callback is listed. If the mask cannot be written, the flags stay unmasked in
        memory and the callback stays unlisted. */
    method AddCallback(id: nat, mask: Flags) returns (ok: bool, ghost between: seq<Event>)
      requires Valid() && id < |masks| && mask == masks[id]
      modifies this
      ensures Valid()
      ensures forall n | 0 <= n < |between| :: between[n].Raised? || between[n].WorkRun?
      ensures ok ==> workQueued || WorkRun in between
      ensures Now() == RunFrom(masks, old(Now()), if ok then [Unmasked(id)] + between + [Listed(id)] else [Unmasked(id)])
    {
      hide Accounted, Numbers, Known, RunFrom;
      ghost var before := Now();
      between := [];
      StepKeepsAccount(masks, Now(), Unmasked(id));
      RunFirst(masks, before, Unmasked(id));
      intMask := intMask - mask;
      var fault: bool := *;
      if fault {
        return false, between;
      }
      workQueued := true;
      between := Preempt();
      RunMore(masks, before, [Unmasked(id)], between);
      DropNumbers(callbacks, id, masks);
      Prepended(DropCallback(callbacks, id), id, mask, masks);
      StepKeepsAccount(masks, Now(), Listed(id));
      RunOne(masks, before, [Unmasked(id)] + between, Listed(id));
      callbacks := [(id, mask)] + DropCallback(callbacks, id);
      ok := true;
    }

    /** Unlists, then masks. The work may run in between. The mask is changed in memory even if it
        cannot be written. */
    method RemoveCallback(id: nat, mask: Flags) returns (found: bool, ok: bool, ghost between: seq<Event>)
      requires Valid() && id < |masks| && mask == masks[id]
      modifies this
      ensures Valid() && (found <==> id in old(Now()).listed) && (ok ==> found)
      ensures forall n | 0 <= n < |between| :: between[n].Raised? || between[n].WorkRun?
      ensures Now() == RunFrom(masks, old(Now()), if found then [Unlisted(id)] + between + [Masked(id)] else [])
    {
      hide Accounted, Numbers, Known, RunFrom;
      ghost var before := Now();
      between := [];
      RunNothing(masks, before);
      DropNumbers(callbacks, id, masks);
      StepKeepsAccount(masks, Now(), Unlisted(id));
      RunFirst(masks, before, Unlisted(id));
      found := id in Numbers(callbacks);
      if !found {
        return false, false, between;
      }
      callbacks := DropCallback(callbacks, id);
      between := Preempt();
      RunMore(masks, before, [Unlisted(id)], between);
      StepKeepsAccount(masks, Now(), Masked(id));
      RunOne(masks, before, [Unlisted(id)] + between, Masked(id));
      intMask := intMask + mask;
      ok := *;
    }
  }

  lemma RunNothing(masks: seq<Flags>, s: State)
    ensures RunFrom(masks, s, []) == s
  {
  }

  lemma RunFirst(masks: seq<Flags>, s: State, e: Event)
    ensures RunFrom(masks, s, [e]) == Step(masks, s, e)
  {
    hide Step;
    assert [e][..0] == [];
  }

  lemma RunOne(masks: seq<Flags>, s: State, events: seq<Event>, e: Event)
    ensures RunFrom(masks, s, events + [e]) == Step(masks, RunFrom(masks, s, events), e)
  {
    assert (events + [e])[..|events|] == events;
  }

  lemma {:induction false} RunMore(masks: seq<Flags>, s: State, first: seq<Event>, second: seq<Event>)
    ensures RunFrom(masks, s, first + second) == RunFrom(masks, RunFrom(masks, s, first), second)
  {
    if second == [] {
      assert first + second == first;
    } else {
      hide Step;
      var rest, e := second[..|second| - 1], second[|second| - 1];
      RunMore(masks, s, first, rest);
      assert first + second == (first + rest) + [e];
      RunOne(masks, s, first + rest, e);
    }
  }

  // The callback list.

  function Numbers(callbacks: seq<(nat, Flags)>): seq<nat> {
    if callbacks == [] then [] else [callbacks[0].0] + Numbers(callbacks[1..])
  }

  ghost predicate Known(masks: seq<Flags>, callbacks: seq<(nat, Flags)>) {
    forall c | c in callbacks :: c.0 < |masks| && c.1 == masks[c.0]
  }

  function DropCallback(callbacks: seq<(nat, Flags)>, id: nat): seq<(nat, Flags)> {
    if callbacks == [] then []
    else if callbacks[0].0 == id then DropCallback(callbacks[1..], id)
    else [callbacks[0]] + DropCallback(callbacks[1..], id)
  }

  lemma {:induction false} DropNumbers(callbacks: seq<(nat, Flags)>, id: nat, masks: seq<Flags>)
    requires Known(masks, callbacks)
    ensures Numbers(DropCallback(callbacks, id)) == Without(Numbers(callbacks), id)
    ensures Known(masks, DropCallback(callbacks, id))
  {
    if callbacks != [] {
      assert callbacks[0] in callbacks;
      DropNumbers(callbacks[1..], id, masks);
      assert Numbers(callbacks)[1..] == Numbers(callbacks[1..]);
      var rest := DropCallback(callbacks[1..], id);
      assert ([callbacks[0]] + rest)[1..] == rest;
    }
  }

  lemma Prepended(callbacks: seq<(nat, Flags)>, id: nat, mask: Flags, masks: seq<Flags>)
    requires Known(masks, callbacks) && id < |masks| && mask == masks[id]
    ensures Numbers([(id, mask)] + callbacks) == [id] + Numbers(callbacks)
    ensures Known(masks, [(id, mask)] + callbacks)
  {
    assert ([(id, mask)] + callbacks)[1..] == callbacks;
  }
}
