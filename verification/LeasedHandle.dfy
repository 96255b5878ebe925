/**
 The leased provider handle: any number of threads call through it while others swap or close it.
 Each region that holds the lock is one atomic step; a retirement waits on the condition variable
 and runs the adapter's close hook after it has left the lock.
 */
module LeasedHandle {
  import opened Wrappers

  type Adapter = nat
  type Thread = nat

  /** The two fields guarded by the lock; `leases` has no entry for a count of zero. */
  datatype Handle = Handle(current: Option<Adapter>, leases: map<Adapter, nat>)

  function Count(h: Handle, a: Adapter): (n: nat) {
    if a in h.leases then h.leases[a] else 0
  }

  function Leased(h: Handle): (h': Handle)
    requires h.current.Some?
  {
    h.(leases := h.leases[h.current.value := Count(h, h.current.value) + 1])
  }

  function Dropped(h: Handle, a: Adapter): (h': Handle)
    requires Count(h, a) > 0
  {
    h.(leases := if Count(h, a) == 1 then h.leases - {a} else h.leases[a := Count(h, a) - 1])
  }

  // ----- The object

  class DynamicProviderAdapter {
    var current: Option<Adapter>
    var leases: map<Adapter, nat>

    ghost function View(): (h: Handle)
      reads this
    {
      Handle(current, leases)
    }

    constructor (adapter: Adapter)
      ensures View() == Handle(Some(adapter), map[])
    {
      current, leases := Some(adapter), map[];
    }

    method Acquire() returns (adapter: Option<Adapter>)
      modifies this
      ensures adapter == old(current)
      ensures View() == if adapter.Some? then Leased(old(View())) else old(View())
    {
      adapter := current;
      if adapter.Some? {
        var held := if adapter.value in leases then leases[adapter.value] else 0;
        leases := leases[adapter.value := held + 1];
      }
    }

    /** Give a lease back; `notify` is whether the waiting threads are woken. */
    method Release(adapter: Adapter) returns (notify: bool)
      requires Count(View(), adapter) > 0
      modifies this
      ensures View() == Dropped(old(View()), adapter)
      ensures notify <==> Count(View(), adapter) == 0
    {
      var remaining := leases[adapter] - 1;
      if remaining != 0 {
        leases := leases[adapter := remaining];
        notify := false;
      } else {
        leases := leases - {adapter};
        notify := true;
      }
    }

    /** The first region of `swap`: publish the replacement, say what to retire and whether to wait for it. */
    method Swap(replacement: Adapter) returns (previous: Option<Adapter>, wait: bool)
      modifies this
      ensures previous == old(current)
      ensures View() == if previous.Some? then old(View()).(current := Some(replacement)) else old(View())
      ensures previous.Some? ==> (wait <==> Count(View(), previous.value) > 0)
    {
      previous := current;
      if previous.None? { return previous, false; }
      current := Some(replacement);
      wait := previous.value in leases && leases[previous.value] != 0;
    }

    /** The first region of `close`. */
    method Close() returns (previous: Option<Adapter>, wait: bool)
      modifies this
      ensures previous == old(current) && View() == old(View()).(current := None)
      ensures previous.Some? ==> (wait <==> Count(View(), previous.value) > 0)
    {
      previous := current;
      current := None;
      wait := previous.Some? && previous.value in leases && leases[previous.value] != 0;
    }
  }

  // ----- Any number of threads

  datatype Phase =
    | Idle
    | Calling(adapter: Adapter)
    | Waiting(adapter: Adapter, awake: bool)
    | Retired(adapter: Adapter)

  /** `known` are the adapters ever published, `closed` counts the runs of their close hooks. */
  datatype System = System(handle: Handle, phases: map<Thread, Phase>, known: set<Adapter>, closed: map<Adapter, nat>)

  datatype Event =
    | AcquireEvent
    | ReleaseEvent
    | SwapEvent(replacement: Adapter)
    | CloseEvent
    | WakeEvent
    | FinishEvent

  function Woken(phases: map<Thread, Phase>): (r: map<Thread, Phase>) {
    map t | t in phases :: if phases[t].Waiting? then phases[t].(awake := true) else phases[t]
  }

  /** Where a retirement goes when it looks at the lease count. */
  function Look(h: Handle, a: Adapter): (p: Phase) {
    if Count(h, a) > 0 then Waiting(a, false) else Retired(a)
  }

  function Closes(s: System, a: Adapter): (n: nat) {
    if a in s.closed then s.closed[a] else 0
  }

  /** Thread `t` takes one step. A replacement is an adapter that was never published before. */
  ghost predicate Step(s: System, t: Thread, e: Event, s': System) {
    && t in s.phases
    && match e
       case AcquireEvent =>
         && s.phases[t].Idle?
         && s' == if s.handle.current.None? then s
                  else s.(handle := Leased(s.handle), phases := s.phases[t := Calling(s.handle.current.value)])
       case ReleaseEvent =>
         && s.phases[t].Calling?
         && var a := s.phases[t].adapter;
            && Count(s.handle, a) > 0
            && var rest := s.phases[t := Idle];
               s' == s.(handle := Dropped(s.handle, a), phases := if Count(s.handle, a) == 1 then Woken(rest) else rest)
       case SwapEvent(replacement) =>
         && s.phases[t].Idle? && replacement !in s.known
         && s' == if s.handle.current.None? then s
                  else
                    var h := s.handle.(current := Some(replacement));
                    s.(handle := h, known := s.known + {replacement},
                       phases := s.phases[t := Look(h, s.handle.current.value)])
       case CloseEvent =>
         && s.phases[t].Idle?
         && s' == if s.handle.current.None? then s
                  else
                    var h := s.handle.(current := None);
                    s.(handle := h, phases := s.phases[t := Look(h, s.handle.current.value)])
       case WakeEvent =>
         && s.phases[t].Waiting?
         && s' == s.(phases := s.phases[t := Look(s.handle, s.phases[t].adapter)])
       case FinishEvent =>
         && s.phases[t].Retired?
         && var a := s.phases[t].adapter;
            s' == s.(phases := s.phases[t := Idle], closed := s.closed[a := Closes(s, a) + 1])
  }

  ghost predicate Initial(s: System) {
    && s.handle.current.Some? && s.handle.leases == map[]
    && s.known == {s.handle.current.value} && s.closed == map[]
    && forall t | t in s.phases :: s.phases[t].Idle?
  }

  ghost predicate StepAt(states: seq<System>, moves: seq<(Thread, Event)>, i: nat)
    requires |states| == |moves| + 1 && i < |moves|
  {
    Step(states[i], moves[i].0, moves[i].1, states[i + 1])
  }

  ghost predicate Run(states: seq<System>, moves: seq<(Thread, Event)>) {
    && |states| == |moves| + 1 && Initial(states[0])
    && forall i | 0 <= i < |moves| :: StepAt(states, moves, i)
  }

  // ----- The invariant

  ghost function Callers(phases: map<Thread, Phase>, a: Adapter): (ts: set<Thread>) {
    set t | t in phases && phases[t] == Calling(a)
  }

  predicate Retires(p: Phase, a: Adapter) {
    (p.Waiting? || p.Retired?) && p.adapter == a
  }

  /** Exactly one of: current, being retired by one thread, closed once. */
  ghost predicate InHand(s: System, a: Adapter) {
    exists t :: t in s.phases && Retires(s.phases[t], a)
  }

  ghost predicate Counted(s: System) {
    && (forall a: Adapter :: Count(s.handle, a) == |Callers(s.phases, a)|)
    && (forall a | a in s.handle.leases :: s.handle.leases[a] > 0)
  }

  /** Leases, retirements and current all concern published adapters. */
  ghost predicate Scoped(s: System) {
    && (s.handle.current.Some? ==> s.handle.current.value in s.known)
    && (forall t | t in s.phases && !s.phases[t].Idle? :: s.phases[t].adapter in s.known)
    && (forall a: Adapter | Closes(s, a) > 0 :: a in s.known)
  }

  /** A retirement has its adapter to itself, and the adapter is neither current nor closed. */
  ghost predicate Exclusive(s: System) {
    && (forall t, a: Adapter | t in s.phases && Retires(s.phases[t], a) ::
          s.handle.current != Some(a) && Closes(s, a) == 0)
    && (forall t, u, a: Adapter | t in s.phases && u in s.phases && Retires(s.phases[t], a)
        && Retires(s.phases[u], a) :: t == u)
  }

  /** A retirement that has stopped waiting has seen the count at zero; one that sleeps has not missed a wake-up. */
  ghost predicate Awaited(s: System) {
    && (forall t, a: Adapter | t in s.phases && s.phases[t] == Retired(a) :: Count(s.handle, a) == 0)
    && (forall t, a: Adapter | t in s.phases && s.phases[t] == Waiting(a, false) :: Count(s.handle, a) > 0)
  }

  ghost predicate ClosedOnce(s: System) {
    forall a: Adapter | Closes(s, a) > 0 :: Closes(s, a) == 1 && s.handle.current != Some(a) && Count(s.handle, a) == 0
  }

  /** No adapter is lost: it is current, or some thread is retiring it, or it has been closed. */
  ghost predicate Conserved(s: System) {
    forall a: Adapter | a in s.known :: s.handle.current == Some(a) || Closes(s, a) == 1 || InHand(s, a)
  }

  ghost predicate Inv(s: System) {
    Counted(s) && Scoped(s) && Exclusive(s) && Awaited(s) && ClosedOnce(s) && Conserved(s)
  }

  lemma CallersChange(phases: map<Thread, Phase>, t: Thread, p: Phase, a: Adapter)
    requires t in phases
    ensures Callers(phases[t := p], a) == Callers(phases, a) - {t} + (if p == Calling(a) then {t} else {})
  {
  }

  lemma CallersWoken(phases: map<Thread, Phase>, a: Adapter)
    ensures Callers(Woken(phases), a) == Callers(phases, a)
  {
  }

  lemma AcquireCounted(s: System, t: Thread, s': System, a: Adapter)
    requires Step(s, t, AcquireEvent, s') && Count(s.handle, a) == |Callers(s.phases, a)|
    ensures Count(s'.handle, a) == |Callers(s'.phases, a)|
  {
    if s.handle.current.Some? { CallersChange(s.phases, t, Calling(s.handle.current.value), a); }
  }

  lemma ReleaseCounted(s: System, t: Thread, s': System, a: Adapter)
    requires Step(s, t, ReleaseEvent, s') && Count(s.handle, a) == |Callers(s.phases, a)|
    ensures Count(s'.handle, a) == |Callers(s'.phases, a)|
  {
    CallersChange(s.phases, t, Idle, a);
    CallersWoken(s.phases[t := Idle], a);
    assert a == s.phases[t].adapter <==> t in Callers(s.phases, a);
  }

  /** The other steps neither take nor give back a lease. */
  lemma OthersCounted(s: System, t: Thread, e: Event, s': System, a: Adapter)
    requires Step(s, t, e, s') && !e.AcquireEvent? && !e.ReleaseEvent?
    ensures Count(s'.handle, a) == Count(s.handle, a) && Callers(s'.phases, a) == Callers(s.phases, a)
  {
    assert s'.phases == s.phases[t := s'.phases[t]];
    CallersChange(s.phases, t, s'.phases[t], a);
  }

  lemma LeasesStayPositive(s: System, t: Thread, e: Event, s': System)
    requires Step(s, t, e, s') && forall a | a in s.handle.leases :: s.handle.leases[a] > 0
    ensures forall a | a in s'.handle.leases :: s'.handle.leases[a] > 0
  {
  }

  lemma StepCounted(s: System, t: Thread, e: Event, s': System)
    requires Counted(s) && Step(s, t, e, s')
    ensures Counted(s')
  {
    LeasesStayPositive(s, t, e, s');
    forall a: Adapter ensures Count(s'.handle, a) == |Callers(s'.phases, a)| {
      if e.AcquireEvent? {
        AcquireCounted(s, t, s', a);
      } else if e.ReleaseEvent? {
        ReleaseCounted(s, t, s', a);
      } else {
        OthersCounted(s, t, e, s', a);
      }
    }
  }

  lemma StepScoped(s: System, t: Thread, e: Event, s': System)
    requires Scoped(s) && Step(s, t, e, s')
    ensures Scoped(s')
  {
    forall u | u in s'.phases && !s'.phases[u].Idle? ensures s'.phases[u].adapter in s'.known {
      if u != t { assert s'.phases[u].adapter == s.phases[u].adapter; }
    }
  }

  /** Who retires an adapter after a step retired it before, or has just taken it away as the current one. */
  lemma RetireeBefore(s: System, t: Thread, e: Event, s': System, u: Thread, a: Adapter)
    requires Step(s, t, e, s') && u in s'.phases && Retires(s'.phases[u], a)
    ensures u in s.phases && (Retires(s.phases[u], a) || (u == t && s.handle.current == Some(a)))
    ensures !Retires(s.phases[u], a) ==>
              (e.SwapEvent? && s'.handle.current == Some(e.replacement) && e.replacement !in s.known)
                || s'.handle.current.None?
  {
  }

  lemma CurrentAfter(s: System, t: Thread, e: Event, s': System)
    requires Step(s, t, e, s')
    ensures s'.handle.current == s.handle.current || s'.handle.current.None?
            || (e.SwapEvent? && s'.handle.current == Some(e.replacement) && e.replacement !in s.known)
    ensures forall a: Adapter :: Closes(s', a) == Closes(s, a) + if e.FinishEvent? && s.phases[t] == Retired(a) then 1
            else 0
    ensures e.FinishEvent? ==> s.phases[t].Retired? && s'.phases[t].Idle?
  {
  }

  lemma StepExclusive(s: System, t: Thread, e: Event, s': System)
    requires Scoped(s) && Exclusive(s) && ClosedOnce(s) && Step(s, t, e, s')
    ensures Exclusive(s')
  {
    CurrentAfter(s, t, e, s');
    forall u, a: Adapter | u in s'.phases && Retires(s'.phases[u], a)
      ensures s'.handle.current != Some(a) && Closes(s', a) == 0
    {
      RetireeBefore(s, t, e, s', u, a);
      RetireeIsKnown(s, u, a);
      if e.FinishEvent? { FinishersOwn(s, t, u, a); }
    }
    forall u, v, a: Adapter | u in s'.phases && v in s'.phases && Retires(s'.phases[u], a) && Retires(s'.phases[v], a)
      ensures u == v
    {
      RetireeBefore(s, t, e, s', u, a);
      RetireeBefore(s, t, e, s', v, a);
    }
  }

  lemma RetireeIsKnown(s: System, u: Thread, a: Adapter)
    requires Scoped(s) && u in s.phases && (Retires(s.phases[u], a) || s.handle.current == Some(a))
    ensures a in s.known
  {
  }

  lemma FinishersOwn(s: System, t: Thread, u: Thread, a: Adapter)
    requires Exclusive(s) && t in s.phases && u in s.phases && s.phases[t].Retired? && Retires(s.phases[u], a) && u != t
    ensures s.phases[t] != Retired(a)
  {
    assert Retires(s.phases[t], s.phases[t].adapter);
  }

  lemma StepAwaited(s: System, t: Thread, e: Event, s': System)
    requires Exclusive(s) && Awaited(s) && Step(s, t, e, s')
    ensures Awaited(s')
  {
    forall u, a: Adapter | u in s'.phases && s'.phases[u] == Retired(a) ensures Count(s'.handle, a) == 0 {
      RetiredIsUnleased(s, t, e, s', u, a);
    }
    forall u, a: Adapter | u in s'.phases && s'.phases[u] == Waiting(a, false) ensures Count(s'.handle, a) > 0 {
      SleeperIsLeased(s, t, e, s', u, a);
    }
  }

  lemma RetiredIsUnleased(s: System, t: Thread, e: Event, s': System, u: Thread, a: Adapter)
    requires Exclusive(s) && Awaited(s) && Step(s, t, e, s') && u in s'.phases && s'.phases[u] == Retired(a)
    ensures Count(s'.handle, a) == 0
  {
    if u != t {
      assert s.phases[u] == Retired(a);
      assert Retires(s.phases[u], a);
    }
  }

  lemma SleeperIsLeased(s: System, t: Thread, e: Event, s': System, u: Thread, a: Adapter)
    requires Awaited(s) && Step(s, t, e, s') && u in s'.phases && s'.phases[u] == Waiting(a, false)
    ensures Count(s'.handle, a) > 0
  {
    if u != t { assert s.phases[u] == Waiting(a, false); }
  }

  lemma StepClosedOnce(s: System, t: Thread, e: Event, s': System)
    requires Scoped(s) && Exclusive(s) && Awaited(s) && ClosedOnce(s) && Step(s, t, e, s')
    ensures ClosedOnce(s')
  {
    CurrentAfter(s, t, e, s');
    forall a: Adapter | Closes(s', a) > 0
      ensures Closes(s', a) == 1 && s'.handle.current != Some(a) && Count(s'.handle, a) == 0
    {
      if e.FinishEvent? && s.phases[t] == Retired(a) {
        assert Retires(s.phases[t], a);
      } else {
        assert Closes(s, a) > 0;
        ClosedStaysUnleased(s, t, e, s', a);
      }
    }
  }

  lemma ClosedStaysUnleased(s: System, t: Thread, e: Event, s': System, a: Adapter)
    requires Step(s, t, e, s') && Count(s.handle, a) == 0 && s.handle.current != Some(a)
    ensures Count(s'.handle, a) == 0
  {
  }

  lemma StepConserved(s: System, t: Thread, e: Event, s': System)
    requires Inv(s) && Step(s, t, e, s')
    ensures Conserved(s')
  {
    forall a: Adapter | a in s'.known ensures s'.handle.current == Some(a) || Closes(s', a) == 1 || InHand(s', a) {
      if a in s.known && InHand(s, a) {
        var u :| u in s.phases && Retires(s.phases[u], a);
        if u != t || !e.FinishEvent? { assert Retires(s'.phases[u], a); }
      }
      if s.handle.current == Some(a) && s'.handle.current != Some(a) {
        assert Retires(s'.phases[t], a);
      }
    }
  }

  lemma StepKeepsInv(s: System, t: Thread, e: Event, s': System)
    requires Inv(s) && Step(s, t, e, s')
    ensures Inv(s')
  {
    StepCounted(s, t, e, s');
    StepScoped(s, t, e, s');
    StepExclusive(s, t, e, s');
    StepAwaited(s, t, e, s');
    StepClosedOnce(s, t, e, s');
    StepConserved(s, t, e, s');
  }

  lemma {:induction false} RunKeepsInv(states: seq<System>, moves: seq<(Thread, Event)>, i: nat)
    requires Run(states, moves) && i < |states|
    ensures Inv(states[i])
  {
    if i == 0 {
      assert forall a: Adapter :: Callers(states[0].phases, a) == {};
    } else {
      RunKeepsInv(states, moves, i - 1);
      assert StepAt(states, moves, i - 1);
      StepKeepsInv(states[i - 1], moves[i - 1].0, moves[i - 1].1, states[i]);
    }
  }

  // ----- Main results

  /** At no moment of any run is a call running on a closed adapter, and no adapter is closed twice. */
  lemma NoCallOnClosedAdapter(states: seq<System>, moves: seq<(Thread, Event)>, i: nat, t: Thread)
    requires Run(states, moves) && i < |states| && t in states[i].phases && states[i].phases[t].Calling?
    ensures Closes(states[i], states[i].phases[t].adapter) == 0
    ensures forall a: Adapter :: Closes(states[i], a) <= 1
  {
    RunKeepsInv(states, moves, i);
    var a := states[i].phases[t].adapter;
    assert t in Callers(states[i].phases, a);
  }

  /** A close hook runs only when its adapter is no longer current and has no lease, and for the first time. */
  lemma CloseRunsAfterRetirement(states: seq<System>, moves: seq<(Thread, Event)>, i: nat)
    requires Run(states, moves) && i < |moves| && moves[i].1.FinishEvent?
    ensures moves[i].0 in states[i].phases && states[i].phases[moves[i].0].Retired?
    ensures var a := states[i].phases[moves[i].0].adapter;
            && states[i].handle.current != Some(a) && Count(states[i].handle, a) == 0
            && Closes(states[i], a) == 0 && Closes(states[i + 1], a) == 1
            && forall t | t in states[i].phases :: states[i].phases[t] != Calling(a)
  {
    RunKeepsInv(states, moves, i);
    assert StepAt(states, moves, i);
    var t := moves[i].0;
    var a := states[i].phases[t].adapter;
    assert Retires(states[i].phases[t], a);
    forall u | u in states[i].phases ensures states[i].phases[u] != Calling(a) {
      assert u in Callers(states[i].phases, a) <==> states[i].phases[u] == Calling(a);
    }
  }

  /** A closed adapter is never current, never leased and never retired again. */
  lemma {:induction false} ClosedStaysClosed(states: seq<System>, moves: seq<(Thread, Event)>, i: nat, j: nat,
                                             a: Adapter)
    requires Run(states, moves) && i <= j < |states| && Closes(states[i], a) > 0
    ensures Closes(states[j], a) == 1 && states[j].handle.current != Some(a) && Count(states[j].handle, a) == 0
            && !InHand(states[j], a)
  {
    RunKeepsInv(states, moves, j);
    if i < j {
      ClosedStaysClosed(states, moves, i, j - 1, a);
      assert StepAt(states, moves, j - 1);
    }
  }

  /** No wake-up is lost: a retirement whose adapter has no lease left can go on. */
  lemma RetirementIsNeverStuck(states: seq<System>, moves: seq<(Thread, Event)>, i: nat, t: Thread)
    requires Run(states, moves) && i < |states| && t in states[i].phases && states[i].phases[t].Waiting?
    requires forall u | u in states[i].phases :: states[i].phases[u] != Calling(states[i].phases[t].adapter)
    ensures states[i].phases[t].awake
    ensures Look(states[i].handle, states[i].phases[t].adapter).Retired?
  {
    RunKeepsInv(states, moves, i);
    assert Callers(states[i].phases, states[i].phases[t].adapter) == {};
  }

  /** When every thread is back, each adapter ever published is the current one or has been closed exactly once. */
  lemma NothingLeaks(states: seq<System>, moves: seq<(Thread, Event)>, i: nat, a: Adapter)
    requires Run(states, moves) && i < |states| && a in states[i].known
    requires forall t | t in states[i].phases :: states[i].phases[t].Idle?
    ensures Closes(states[i], a) == if states[i].handle.current == Some(a) then 0 else 1
    ensures states[i].handle.leases == map[]
  {
    RunKeepsInv(states, moves, i);
    forall b: Adapter ensures Count(states[i].handle, b) == 0 {
      assert Callers(states[i].phases, b) == {};
    }
    assert forall b | b in states[i].handle.leases :: Count(states[i].handle, b) == 0;
  }

  /** The demand on replacements is needed: swapping in the adapter that is current would close it in use. */
  lemma SwapWithCurrentWouldClose(a: Adapter, t: Thread)
    ensures var s := System(Handle(Some(a), map[]), map[t := Idle], {a}, map[]);
            var swapped := s.(handle := s.handle.(current := Some(a)), phases := s.phases[t := Look(s.handle, a)]);
            exists s' :: Step(swapped, t, FinishEvent, s') && s'.handle.current == Some(a) && Closes(s', a) == 1
  {
    var s := System(Handle(Some(a), map[]), map[t := Idle], {a}, map[]);
    var swapped := s.(handle := s.handle.(current := Some(a)), phases := s.phases[t := Look(s.handle, a)]);
    var s' := swapped.(phases := swapped.phases[t := Idle], closed := swapped.closed[a := 1]);
    assert Step(swapped, t, FinishEvent, s') && s'.handle.current == Some(a) && Closes(s', a) == 1;
  }
}
