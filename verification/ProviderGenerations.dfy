/**
 The executable provider: callers register requests with the running child process, a reader per child
 matches its output to them, any thread may declare the child failed, and a supervisor starts the next
 one. Each region that holds the lock is one atomic step; what a thread still has to do after the
 region is kept as its remaining work.
 */
module ProviderGenerations {
  import opened Wrappers

  type Id = nat

  const MAX_PENDING := 128

  /** The fields guarded by the lock, and the restart event. */
  datatype Provider = Provider(current: Option<nat>, generation: nat, ready: bool, closing: bool, pending: map<Id, nat>,
                               restart: bool)

  function Of(pending: map<Id, nat>, g: nat): (ids: set<Id>) {
    set id | id in pending && pending[id] == g
  }

  function NotOf(pending: map<Id, nat>, g: nat): (rest: map<Id, nat>) {
    map id | id in pending && pending[id] != g :: pending[id]
  }

  predicate MayRegister(p: Provider, shutdown: bool, allowUnready: bool) {
    && (p.closing ==> shutdown) && (allowUnready || p.ready)
    && p.current.Some? && |p.pending| < MAX_PENDING
  }

  function Failed(p: Provider): (p': Provider)
    requires p.current.Some?
  {
    p.(ready := false, current := None, pending := NotOf(p.pending, p.current.value))
  }

  function Started(p: Provider): (p': Provider) {
    p.(generation := p.generation + 1, current := Some(p.generation + 1), ready := false)
  }

  // What each region that holds the lock makes of the fields.

  function Begun(p: Provider): (p': Provider) {
    if p.closing || p.current.Some? then p else Started(p)
  }

  function Registered(p: Provider, id: Id): (p': Provider)
    requires p.current.Some?
  {
    p.(pending := p.pending[id := p.current.value])
  }

  function Popped(p: Provider, reader: nat, id: Id): (p': Provider) {
    if p.current == Some(reader) && id in p.pending then p.(pending := p.pending - {id}) else p
  }

  function Failing(p: Provider, number: nat): (p': Provider) {
    if p.current == Some(number) then Failed(p) else p
  }

  /** A caller that gets past the first checks and finds its child dead declares it failed. */
  predicate FindsDead(p: Provider, shutdown: bool, allowUnready: bool, dead: bool) {
    (p.closing ==> shutdown) && (allowUnready || p.ready) && (p.current.None? || dead)
  }

  // ----- The object: one method per region that holds the lock

  class ExecutableProvider {
    var current: Option<nat>
    var generation: nat
    var ready: bool
    var closing: bool
    var pending: map<Id, nat>
    var restart: bool

    ghost function View(): (p: Provider)
      reads this
    {
      Provider(current, generation, ready, closing, pending, restart)
    }

    constructor ()
      ensures View() == Provider(None, 0, false, false, map[], false)
    {
      current, generation, ready, closing, pending, restart := None, 0, false, false, map[], false;
    }

    /** Make a freshly spawned child the current one, unless closing or another is running. */
    method Begin() returns (number: Option<nat>)
      modifies this
      ensures number.Some? <==> !old(closing) && old(current).None?
      ensures View() == Begun(old(View()))
      ensures number.Some? ==> number.value == generation && current == number
    {
      if closing || current.Some? { return None; }
      generation := generation + 1;
      current := Some(generation);
      ready := false;
      number := Some(generation);
    }

    /** Register a request with the current child; `id` is new. A child found dead is declared failed on the way. */
    method Register(id: Id, shutdown: bool, allowUnready: bool, dead: bool)
      returns (registered: Option<nat>, taken: Option<set<Id>>)
      requires id !in pending
      modifies this
      ensures registered.Some? <==> MayRegister(old(View()), shutdown, allowUnready) && !dead
      ensures registered.Some? ==> registered == old(current) && View() == Registered(old(View()), id)
      ensures taken.Some? <==>
              FindsDead(old(View()), shutdown, allowUnready, dead) && old(current) == Some(old(generation))
      ensures taken.Some? ==> taken.value == Of(old(pending), old(generation))
      ensures registered.None? ==>
                View() == if FindsDead(old(View()), shutdown, allowUnready, dead) then
                    Failing(old(View()), old(generation)) else old(View())
      ensures !dead && registered.None? && old(current).Some? ==> View() == old(View())
      ensures dead && (!old(closing) || shutdown) && (allowUnready || old(ready)) ==>
                current != Some(old(generation)) && (old(current) == Some(old(generation)) ==> taken.Some? && !ready)
    {
      registered, taken := None, None;
      if closing && !shutdown { return; }
      if !allowUnready && !ready { return; }
      if current.None? || dead {
        taken := TakeFailed(generation);
        return;
      }
      if |pending| >= MAX_PENDING { return; }
      pending := pending[id := current.value];
      registered := current;
    }

    /** A reader hands its response to the request it answers, as long as its child is the current one. */
    method Pop(reader: nat, id: Id) returns (live: bool, found: bool)
      modifies this
      ensures live <==> old(current) == Some(reader)
      ensures found <==> live && id in old(pending)
      ensures View() == Popped(old(View()), reader, id)
    {
      if current != Some(reader) { return false, false; }
      if id !in pending { return true, false; }
      pending := pending - {id};
      return true, true;
    }

    /** Declare a child failed. Only the first declaration takes effect; it takes the child's requests along. */
    method TakeFailed(number: nat) returns (taken: Option<set<Id>>)
      modifies this
      ensures taken.Some? <==> old(current) == Some(number)
      ensures taken.Some? ==> taken.value == Of(old(pending), number)
      ensures View() == Failing(old(View()), number)
    {
      if current != Some(number) { return None; }
      ready, current := false, None;
      taken := Some(set id | id in pending && pending[id] == number);
      pending := map id | id in pending && pending[id] != number :: pending[id];
    }
  }

  // ----- Any number of threads

  /**
   What a failing thread has left: requests to complete, the child to hand over for retirement, the restart to
   signal.
   */
  datatype Work = Work(ids: set<Id>, signal: bool, retired: bool)

  datatype Completion = Completion(id: Id, generation: nat, byReader: bool)

  datatype Supervisor = Idle | Looping | Delaying | Starting(number: nat)

  /** `origin` says with which child each request was registered; `log` lists the completions in order. */
  datatype System = System(
    p: Provider,
    hands: map<nat, Id>,
    work: map<nat, Work>,
    supervisor: Supervisor,
    origin: map<Id, nat>,
    abandoned: set<Id>,
    log: seq<Completion>,
    retired: seq<nat>)

  datatype Event =
    | RegisterEvent(id: Id, shutdown: bool, allowUnready: bool)
    | AbandonEvent(id: Id)
    | PopEvent(reader: nat, id: Id)
    | AnswerEvent(reader: nat)
    | FailEvent(number: nat)
    | FailRequestEvent(number: nat, id: Id)
    | RetireEvent(number: nat)
    | SignalEvent(number: nat)
    | ReadyEvent(number: nat)
    | CloseEvent
    | CloseFailEvent(number: nat)
    | WakeEvent
    | LookEvent
    | StartEvent
    | SpawnFailsEvent
    | GiveUpEvent
    | StartedEvent

  function AfterFailure(s: System, number: nat, signal: bool): (s': System) {
    if s.p.current != Some(number) then s
    else s.(p := Failed(s.p), work := s.work[number := Work(Of(s.p.pending, number), signal, false)])
  }

  function Completed(s: System, id: Id, number: nat, byReader: bool): (s': System) {
    s.(log := s.log + [Completion(id, number, byReader)])
  }

  ghost predicate Step(s: System, e: Event, s': System) {
    match e
    case RegisterEvent(id, shutdown, allowUnready) =>
      && id !in s.origin && MayRegister(s.p, shutdown, allowUnready)
      && s' == s.(p := s.p.(pending := s.p.pending[id := s.p.current.value]),
                  origin := s.origin[id := s.p.current.value])
    case AbandonEvent(id) =>
      // The encoded request is too long: its caller takes it back before anything is sent.
      && id in s.origin
      && s' == if id in s.p.pending then s.(p := s.p.(pending := s.p.pending - {id}), abandoned := s.abandoned + {id})
         else s
    case PopEvent(reader, id) =>
      && reader !in s.hands
      && s' == if s.p.current == Some(reader) && id in s.p.pending
               then s.(p := s.p.(pending := s.p.pending - {id}), hands := s.hands[reader := id]) else s
    case AnswerEvent(reader) =>
      reader in s.hands && s' == Completed(s, s.hands[reader], reader, true).(hands := s.hands - {reader})
    case FailEvent(number) =>
      s' == AfterFailure(s, number, true)
    case FailRequestEvent(number, id) =>
      && number in s.work && id in s.work[number].ids
      && s' == Completed(s, id, number,
                         false).(work := s.work[number := s.work[number].(ids := s.work[number].ids - {id})])
    case RetireEvent(number) =>
      && number in s.work && s.work[number].ids == {} && !s.work[number].retired
      && s' == s.(work := s.work[number := s.work[number].(retired := true)], retired := s.retired + [number])
    case SignalEvent(number) =>
      && number in s.work && s.work[number].retired
      && s' == s.(work := s.work - {number},
                  p := s.p.(restart := s.p.restart || (s.work[number].signal && !s.p.closing)))
    case ReadyEvent(number) =>
      s' == if s.p.current == Some(number) then s.(p := s.p.(ready := true)) else s
    case CloseEvent =>
      s' == s.(p := s.p.(closing := true))
    case CloseFailEvent(number) =>
      s.p.closing && s' == AfterFailure(s, number, false)
    case WakeEvent =>
      s.supervisor.Idle? && s.p.restart && s' == s.(p := s.p.(restart := false), supervisor := Looping)
    case LookEvent =>
      s.supervisor.Looping? && s' == s.(supervisor := if s.p.current.Some? then Idle else Delaying)
    case StartEvent =>
      && s.supervisor.Delaying?
      && s' == if s.p.closing then s.(supervisor := Idle)
               else if s.p.current.Some? then s.(supervisor := Looping)
               else s.(p := Started(s.p), supervisor := Starting(s.p.generation + 1))
    case SpawnFailsEvent =>
      s.supervisor.Delaying? && s' == s.(supervisor := Looping)
    case GiveUpEvent =>
      s.supervisor.Starting? && s' == AfterFailure(s, s.supervisor.number, false).(supervisor := Looping)
    case StartedEvent =>
      s.supervisor.Starting? && s' == s.(supervisor := Idle)
  }

  /** Every step that touches the guarded fields does to them what the region of the object does. */
  lemma StepsAreRegions(s: System, e: Event, s': System)
    requires Step(s, e, s')
    ensures e.RegisterEvent? ==> MayRegister(s.p, e.shutdown, e.allowUnready) && s'.p == Registered(s.p, e.id)
    ensures e.PopEvent? ==> s'.p == Popped(s.p, e.reader, e.id)
    ensures e.PopEvent? && s' != s ==> s'.hands == s.hands[e.reader := e.id] && s'.p != s.p
    ensures e.FailEvent? || e.CloseFailEvent? ==> s'.p == Failing(s.p, e.number)
    ensures (e.FailEvent? || e.CloseFailEvent?) && s' != s ==>
              e.number in s'.work && s'.work[e.number].ids == Of(s.p.pending, e.number)
    ensures e.GiveUpEvent? ==> s'.p == Failing(s.p, s.supervisor.number)
    ensures e.StartEvent? ==> s'.p == Begun(s.p) && (s'.supervisor.Starting? <==> s'.p != s.p)
    ensures e.SpawnFailsEvent? || e.LookEvent? || e.StartedEvent? ==> s'.p == s.p
    ensures e.AnswerEvent? || e.FailRequestEvent? || e.RetireEvent? ==> s'.p == s.p
  {
  }

  /** The first child has been started and initialized before the supervisor runs. */
  ghost predicate Initial(s: System) {
    s == System(Provider(Some(1), 1, true, false, map[], false), map[], map[], Idle, map[], {}, [], [])
  }

  ghost predicate StepAt(states: seq<System>, events: seq<Event>, i: nat)
    requires |states| == |events| + 1 && i < |events|
  {
    Step(states[i], events[i], states[i + 1])
  }

  ghost predicate Run(states: seq<System>, events: seq<Event>) {
    && |states| == |events| + 1 && Initial(states[0])
    && forall i {:trigger StepAt(states, events, i)} | 0 <= i < |events| :: StepAt(states, events, i)
  }

  // ----- The invariant

  ghost predicate Logged(log: seq<Completion>, id: Id) {
    exists i :: 0 <= i < |log| && log[i].id == id
  }

  predicate InHand(s: System, id: Id) {
    id in s.origin && s.origin[id] in s.hands && s.hands[s.origin[id]] == id
  }

  predicate InWork(s: System, id: Id) {
    id in s.origin && s.origin[id] in s.work && id in s.work[s.origin[id]].ids
  }

  function One(b: bool): (n: nat) {
    if b then 1 else 0
  }

  /** In how many places a request is: registered, with a reader, with a failing thread, completed, taken back. */
  ghost function Places(s: System, id: Id): (n: nat) {
    One(id in s.p.pending) + One(InHand(s, id)) + One(InWork(s, id)) + One(Logged(s.log, id)) + One(id in s.abandoned)
  }

  /** Every request is in exactly one place. */
  ghost predicate Conserved(s: System) {
    forall id: Id {:trigger Places(s, id)} :: Places(s, id) == One(id in s.origin)
  }

  /** Registered requests belong to the current child; whoever holds a request holds one of its own child's. */
  ghost predicate Owned(s: System) {
    && (forall id | id in s.p.pending ::
          id in s.origin && s.origin[id] == s.p.pending[id] && s.p.current == Some(s.p.pending[id]))
    && (forall g | g in s.hands :: s.hands[g] in s.origin && s.origin[s.hands[g]] == g)
    && (forall g, id | g in s.work && id in s.work[g].ids :: id in s.origin && s.origin[id] == g)
  }

  /** Each completion is for a request of the child it came from, and no request is completed twice. */
  ghost predicate LogSound(s: System) {
    && (forall i | 0 <= i < |s.log| :: s.log[i].id in s.origin && s.origin[s.log[i].id] == s.log[i].generation)
    && (forall i, j | 0 <= i < j < |s.log| :: s.log[i].id != s.log[j].id)
  }

  /** Where a child is: running, failed but not handed over, or handed over for retirement. */
  ghost function Stages(s: System, g: nat): (n: nat) {
    One(s.p.current == Some(g)) + One(g in s.work && !s.work[g].retired) + multiset(s.retired)[g]
  }

  ghost predicate Generations(s: System) {
    && (s.p.current.Some? ==> s.p.current.value == s.p.generation)
    && (forall g: nat {:trigger Stages(s, g)} :: Stages(s, g) == One(0 < g <= s.p.generation))
    && (forall g | g in s.work && s.work[g].retired :: s.work[g].ids == {} && g in multiset(s.retired))
    && (s.p.ready ==> s.p.current.Some?)
  }

  /** When no child runs, a restart is on its way. */
  ghost predicate RestartComing(s: System) {
    s.p.closing || s.p.current.Some? || s.p.restart || s.supervisor.Looping? || s.supervisor.Delaying?
    || exists g :: g in s.work && s.work[g].signal
  }

  ghost predicate Inv(s: System) {
    Owned(s) && LogSound(s) && Conserved(s) && Generations(s) && RestartComing(s)
  }

  // ----- Every step keeps it

  lemma FailureKeepsOwned(s: System, number: nat, signal: bool)
    requires Owned(s)
    ensures Owned(AfterFailure(s, number, signal))
  {
  }

  lemma RequestsKeepOwned(s: System, e: Event, s': System)
    requires Owned(s) && Step(s, e, s')
             && (e.RegisterEvent? || e.AbandonEvent? || e.PopEvent? || e.AnswerEvent? || e.FailRequestEvent?)
    ensures Owned(s')
  {
  }

  /** Nothing is held that was not held before. */
  predicate HoldsNoMore(s: System, s': System) {
    && s'.p.pending == s.p.pending && s'.hands == s.hands && s'.origin == s.origin
    && (s.p.current.Some? ==> s'.p.current == s.p.current)
    && forall g | g in s'.work :: g in s.work && s'.work[g].ids == s.work[g].ids
  }

  lemma HoldingNoMoreIsOwned(s: System, s': System)
    requires Owned(s) && HoldsNoMore(s, s')
    ensures Owned(s')
  {
  }

  lemma OthersHoldNoMore(s: System, e: Event, s': System)
    requires Step(s, e, s') && MovesNoRequest(e)
    ensures HoldsNoMore(s, s')
  {
  }

  lemma OthersKeepOwned(s: System, e: Event, s': System)
    requires Owned(s) && Step(s, e, s') && MovesNoRequest(e)
    ensures Owned(s')
  {
    OthersHoldNoMore(s, e, s');
    HoldingNoMoreIsOwned(s, s');
  }

  lemma StepKeepsOwned(s: System, e: Event, s': System)
    requires Owned(s) && Step(s, e, s')
    ensures Owned(s')
  {
    if e.FailEvent? || e.CloseFailEvent? || e.GiveUpEvent? {
      var number := if e.GiveUpEvent? then s.supervisor.number else e.number;
      FailureKeepsOwned(s, number, e.FailEvent?);
    } else if e.RegisterEvent? || e.AbandonEvent? || e.PopEvent? || e.AnswerEvent? || e.FailRequestEvent? {
      RequestsKeepOwned(s, e, s');
    } else {
      OthersKeepOwned(s, e, s');
    }
  }

  lemma StepKeepsRestart(s: System, e: Event, s': System)
    requires RestartComing(s) && Generations(s) && Step(s, e, s')
    ensures RestartComing(s')
  {
    if !s'.p.closing && s'.p.current.None? && !s'.p.restart && !s'.supervisor.Looping? && !s'.supervisor.Delaying? {
      if s.p.current.None? && !s.p.restart && !s.supervisor.Looping? && !s.supervisor.Delaying? {
        var g :| g in s.work && s.work[g].signal;
        assert g in s'.work && s'.work[g].signal;
      } else if s.p.current.Some? {
        assert s.p.current.value in s'.work && s'.work[s.p.current.value].signal;
      }
    }
  }

  lemma LogGrowsBy(s: System, e: Event, s': System)
    requires Owned(s) && Conserved(s) && Step(s, e, s') && s'.log != s.log
    ensures |s'.log| == |s.log| + 1 && s'.log[..|s.log|] == s.log && s'.origin == s.origin
    ensures var c := s'.log[|s.log|]; c.id in s.origin && s.origin[c.id] == c.generation && !Logged(s.log, c.id)
  {
    var id := s'.log[|s.log|].id;
    assert Places(s, id) <= 1;
    assert InHand(s, id) || InWork(s, id);
  }

  lemma StepKeepsLog(s: System, e: Event, s': System)
    requires Owned(s) && LogSound(s) && Conserved(s) && Step(s, e, s')
    ensures LogSound(s')
  {
    if s'.log != s.log {
      LogGrowsBy(s, e, s');
      assert forall i | 0 <= i < |s.log| :: s'.log[i] == s.log[i];
    } else {
      assert forall id | id in s.origin :: id in s'.origin && s'.origin[id] == s.origin[id];
    }
  }

  lemma FailureKeepsStages(s: System, number: nat, signal: bool, g: nat)
    requires Generations(s)
    ensures Stages(AfterFailure(s, number, signal), g) == Stages(s, g)
  {
    assert Stages(s, number) <= 1;
  }

  lemma RetiringKeepsStages(s: System, s': System, number: nat, g: nat)
    requires Generations(s) && Step(s, RetireEvent(number), s')
    ensures Stages(s', g) == Stages(s, g)
  {
    assert multiset(s.retired + [number]) == multiset(s.retired) + multiset{number};
  }

  lemma StartingStages(s: System, s': System, g: nat)
    requires Generations(s) && Step(s, StartEvent, s')
    ensures Stages(s', g) == One(0 < g <= s'.p.generation)
  {
    assert Stages(s, g) == One(0 < g <= s.p.generation);
  }

  predicate SameStage(s: System, s': System, g: nat) {
    && s'.p.current == s.p.current && s'.retired == s.retired && s'.p.generation == s.p.generation
    && (g in s'.work && !s'.work[g].retired <==> g in s.work && !s.work[g].retired)
  }

  /** The remaining steps move no child. */
  lemma OthersKeepStages(s: System, e: Event, s': System, g: nat)
    requires Step(s, e, s')
    requires !e.FailEvent? && !e.CloseFailEvent? && !e.GiveUpEvent? && !e.RetireEvent? && !e.StartEvent?
    ensures SameStage(s, s', g)
  {
  }

  lemma StagesAfter(s: System, e: Event, s': System, g: nat)
    requires Generations(s) && Step(s, e, s')
    ensures Stages(s', g) == One(0 < g <= s'.p.generation)
  {
    assert Stages(s, g) == One(0 < g <= s.p.generation);
    if e.FailEvent? || e.CloseFailEvent? || e.GiveUpEvent? {
      var number := if e.GiveUpEvent? then s.supervisor.number else e.number;
      FailureKeepsStages(s, number, e.FailEvent?, g);
      assert Stages(s', g) == Stages(AfterFailure(s, number, e.FailEvent?), g);
    } else if e.RetireEvent? {
      RetiringKeepsStages(s, s', e.number, g);
    } else if e.StartEvent? {
      StartingStages(s, s', g);
    } else {
      OthersKeepStages(s, e, s', g);
    }
  }

  lemma StepKeepsHandedOver(s: System, e: Event, s': System)
    requires Generations(s) && Step(s, e, s')
    ensures forall g | g in s'.work && s'.work[g].retired :: s'.work[g].ids == {} && g in multiset(s'.retired)
  {
    forall g | g in s'.work && s'.work[g].retired ensures s'.work[g].ids == {} && g in multiset(s'.retired) {
      HandedOverAt(s, e, s', g);
    }
  }

  lemma HandedOverAt(s: System, e: Event, s': System, g: nat)
    requires Step(s, e, s') && g in s'.work && s'.work[g].retired
    requires g in s.work && s.work[g].retired ==> s.work[g].ids == {} && g in multiset(s.retired)
    ensures s'.work[g].ids == {} && g in multiset(s'.retired)
  {
    if e.RetireEvent? { assert multiset(s.retired + [e.number]) == multiset(s.retired) + multiset{e.number}; }
  }

  lemma StepKeepsCurrent(s: System, e: Event, s': System)
    requires Generations(s) && Step(s, e, s')
    ensures (s'.p.current.Some? ==> s'.p.current.value == s'.p.generation) && (s'.p.ready ==> s'.p.current.Some?)
  {
  }

  lemma StepKeepsGenerations(s: System, e: Event, s': System)
    requires Generations(s) && Step(s, e, s')
    ensures Generations(s')
  {
    StepKeepsHandedOver(s, e, s');
    StepKeepsCurrent(s, e, s');
    forall g: nat ensures Stages(s', g) == One(0 < g <= s'.p.generation) { StagesAfter(s, e, s', g); }
  }

  lemma LogOneMore(log: seq<Completion>, c: Completion, id: Id)
    ensures Logged(log + [c], id) <==> Logged(log, id) || id == c.id
  {
    var longer := log + [c];
    if Logged(log, id) {
      var i :| 0 <= i < |log| && log[i].id == id;
      assert longer[i].id == id;
    }
    if id == c.id { assert longer[|log|].id == id; }
  }

  lemma FailureKeepsPlaces(s: System, number: nat, signal: bool, id: Id)
    requires Owned(s) && Generations(s) && Conserved(s)
    ensures Places(AfterFailure(s, number, signal), id) == Places(s, id)
  {
    if s.p.current == Some(number) {
      assert Stages(s, number) <= 1;
      assert Places(s, id) <= 1;
    }
  }

  lemma AnsweringKeepsPlaces(s: System, s': System, reader: nat, id: Id)
    requires Owned(s) && Conserved(s) && Step(s, AnswerEvent(reader), s')
    ensures Places(s', id) == Places(s, id)
  {
    LogOneMore(s.log, Completion(s.hands[reader], reader, true), id);
    assert Places(s, s.hands[reader]) <= 1;
  }

  lemma FailingKeepsPlaces(s: System, s': System, number: nat, failed: Id, id: Id)
    requires Owned(s) && Conserved(s) && Step(s, FailRequestEvent(number, failed), s')
    ensures Places(s', id) == Places(s, id)
  {
    LogOneMore(s.log, Completion(failed, number, false), id);
    assert Places(s, failed) <= 1;
  }

  lemma PoppingKeepsPlaces(s: System, s': System, reader: nat, popped: Id, id: Id)
    requires Owned(s) && Conserved(s) && Step(s, PopEvent(reader, popped), s')
    ensures Places(s', id) == Places(s, id)
  {
    assert Places(s, popped) <= 1;
  }

  lemma UnknownIsNowhere(s: System, id: Id)
    requires Owned(s) && LogSound(s) && Conserved(s) && id !in s.origin
    ensures id !in s.p.pending && id !in s.abandoned && !Logged(s.log, id)
    ensures (forall g | g in s.hands :: s.hands[g] != id) && (forall g | g in s.work :: id !in s.work[g].ids)
  {
    assert Places(s, id) == 0;
  }

  lemma WithNewRequest(s: System, added: Id, g: nat, id: Id)
    requires Owned(s) && LogSound(s) && Conserved(s) && added !in s.origin
    ensures var s' := s.(p := s.p.(pending := s.p.pending[added := g]), origin := s.origin[added := g]);
            Places(s', id) == One(id in s'.origin)
  {
    var s' := s.(p := s.p.(pending := s.p.pending[added := g]), origin := s.origin[added := g]);
    assert Places(s, id) == One(id in s.origin);
    UnknownIsNowhere(s, added);
    if id != added { assert InHand(s', id) == InHand(s, id) && InWork(s', id) == InWork(s, id); }
  }

  lemma RegisteringPlaces(s: System, e: Event, s': System, id: Id)
    requires Owned(s) && LogSound(s) && Conserved(s) && Step(s, e, s') && e.RegisterEvent?
    ensures Places(s', id) == One(id in s'.origin)
  {
    WithNewRequest(s, e.id, s.p.current.value, id);
  }

  lemma AbandoningPlaces(s: System, e: Event, s': System, id: Id)
    requires Conserved(s) && Step(s, e, s') && e.AbandonEvent?
    ensures Places(s', id) == One(id in s'.origin)
  {
    assert Places(s, id) == One(id in s.origin);
    assert InHand(s', id) == InHand(s, id) && InWork(s', id) == InWork(s, id);
  }

  /** The requests in every place are the same. */
  predicate SameRequests(s: System, s': System) {
    && s'.p.pending == s.p.pending && s'.hands == s.hands && s'.log == s.log && s'.origin == s.origin
       && s'.abandoned == s.abandoned
    && (forall g | g in s'.work :: g in s.work && s'.work[g].ids == s.work[g].ids)
    && (forall g | g in s.work && g !in s'.work :: s.work[g].ids == {})
  }

  lemma SamePlaces(s: System, s': System, id: Id)
    requires SameRequests(s, s')
    ensures Places(s', id) == Places(s, id)
  {
    assert InWork(s', id) == InWork(s, id);
  }

  predicate MovesNoRequest(e: Event) {
    || e.RetireEvent? || e.SignalEvent? || e.ReadyEvent? || e.CloseEvent? || e.WakeEvent? || e.LookEvent?
      || e.StartEvent?
    || e.SpawnFailsEvent? || e.StartedEvent?
  }

  /** The remaining steps move no request. */
  lemma OthersKeepRequests(s: System, e: Event, s': System)
    requires Step(s, e, s') && MovesNoRequest(e) && forall g | g in s.work && s.work[g].retired :: s.work[g].ids == {}
    ensures SameRequests(s, s')
  {
  }

  lemma FailuresKeepPlaces(s: System, e: Event, s': System, id: Id)
    requires Owned(s) && Conserved(s) && Generations(s) && Step(s, e, s')
             && (e.FailEvent? || e.CloseFailEvent? || e.GiveUpEvent?)
    ensures Places(s', id) == Places(s, id) && s'.origin == s.origin
  {
    var number := if e.GiveUpEvent? then s.supervisor.number else e.number;
    FailureKeepsPlaces(s, number, e.FailEvent?, id);
    assert SameRequests(AfterFailure(s, number, e.FailEvent?), s');
    SamePlaces(AfterFailure(s, number, e.FailEvent?), s', id);
  }

  lemma PlacesAfter(s: System, e: Event, s': System, id: Id)
    requires Owned(s) && LogSound(s) && Conserved(s) && Generations(s) && Step(s, e, s')
    ensures Places(s', id) == One(id in s'.origin)
  {
    assert Places(s, id) == One(id in s.origin);
    if MovesNoRequest(e) {
      OthersKeepRequests(s, e, s');
      SamePlaces(s, s', id);
    } else if e.FailEvent? || e.CloseFailEvent? || e.GiveUpEvent? {
      FailuresKeepPlaces(s, e, s', id);
    } else {
      RequestPlacesAfter(s, e, s', id);
    }
  }

  lemma RequestPlacesAfter(s: System, e: Event, s': System, id: Id)
    requires Owned(s) && LogSound(s) && Conserved(s) && Step(s, e, s')
    requires e.RegisterEvent? || e.AbandonEvent? || e.PopEvent? || e.AnswerEvent? || e.FailRequestEvent?
    ensures Places(s', id) == One(id in s'.origin)
  {
    assert Places(s, id) == One(id in s.origin);
    match e
    case RegisterEvent(_, _, _) => RegisteringPlaces(s, e, s', id);
    case AbandonEvent(_) => AbandoningPlaces(s, e, s', id);
    case PopEvent(reader, popped) => PoppingKeepsPlaces(s, s', reader, popped, id);
    case AnswerEvent(reader) => AnsweringKeepsPlaces(s, s', reader, id);
    case FailRequestEvent(number, failed) => FailingKeepsPlaces(s, s', number, failed, id);
  }

  lemma StepKeepsConserved(s: System, e: Event, s': System)
    requires Owned(s) && LogSound(s) && Conserved(s) && Generations(s) && Step(s, e, s')
    ensures Conserved(s')
  {
    forall id: Id ensures Places(s', id) == One(id in s'.origin) { PlacesAfter(s, e, s', id); }
  }

  lemma StepKeepsInv(s: System, e: Event, s': System)
    requires Inv(s) && Step(s, e, s')
    ensures Inv(s')
  {
    StepKeepsOwned(s, e, s');
    StepKeepsLog(s, e, s');
    StepKeepsConserved(s, e, s');
    StepKeepsGenerations(s, e, s');
    StepKeepsRestart(s, e, s');
  }

  lemma InitialInv(s: System)
    requires Initial(s)
    ensures Inv(s)
  {
    forall g: nat ensures Stages(s, g) == One(0 < g <= s.p.generation) {}
    forall id: Id ensures Places(s, id) == One(id in s.origin) {}
  }

  lemma {:induction false} RunKeepsInv(states: seq<System>, events: seq<Event>, i: nat)
    requires Run(states, events) && i < |states|
    ensures Inv(states[i])
  {
    if i == 0 {
      InitialInv(states[0]);
    } else {
      RunKeepsInv(states, events, i - 1);
      assert StepAt(states, events, i - 1);
      StepKeepsInv(states[i - 1], events[i - 1], states[i]);
    }
  }

  // ----- Main results

  /** At every moment of every run, all registered requests belong to the child that is running now. */
  lemma RequestsBelongToCurrent(states: seq<System>, events: seq<Event>, i: nat, id: Id)
    requires Run(states, events) && i < |states| && id in states[i].p.pending
    ensures states[i].p.current == Some(states[i].p.pending[id]) && states[i].p.pending[id] == states[i].p.generation
  {
    RunKeepsInv(states, events, i);
  }

  /** No request is completed twice, and each completion comes from the child the request was registered with. */
  lemma CompletedAtMostOnce(states: seq<System>, events: seq<Event>, i: nat, j: nat, k: nat)
    requires Run(states, events) && i < |states| && j < k < |states[i].log|
    ensures states[i].log[j].id != states[i].log[k].id
    ensures states[i].log[j].id in states[i].origin
            && states[i].origin[states[i].log[j].id] == states[i].log[j].generation
  {
    RunKeepsInv(states, events, i);
  }

  /**
   Once a child is gone and its threads are done, each of its requests has been completed, unless its caller
   took it back.
   */
  lemma NoRequestIsLost(states: seq<System>, events: seq<Event>, i: nat, id: Id)
    requires Run(states, events) && i < |states| && id in states[i].origin
    requires var g := states[i].origin[id];
             states[i].p.current != Some(g) && g !in states[i].hands && g !in states[i].work
    ensures Logged(states[i].log, id) <==> id !in states[i].abandoned
  {
    RunKeepsInv(states, events, i);
    assert Places(states[i], id) == 1;
  }

  /**
   Every child ever started is running, or being failed by one thread, or has been handed over for retirement
   exactly once.
   */
  lemma RetiredExactlyOnce(states: seq<System>, events: seq<Event>, i: nat, g: nat)
    requires Run(states, events) && i < |states| && 0 < g <= states[i].p.generation
    ensures multiset(states[i].retired)[g] ==
            if states[i].p.current == Some(g) || (g in states[i].work && !states[i].work[g].retired) then 0 else 1
  {
    RunKeepsInv(states, events, i);
    assert Stages(states[i], g) == 1;
  }

  predicate Gone(s: System, g: nat) {
    g <= s.p.generation && s.p.current != Some(g)
  }

  lemma StepKeepsGone(s: System, e: Event, s': System, g: nat)
    requires Step(s, e, s') && Gone(s, g)
    ensures Gone(s', g) && (g in s'.hands ==> g in s.hands && s'.hands[g] == s.hands[g])
  {
  }

  lemma {:induction false} GoneForGood(states: seq<System>, events: seq<Event>, i: nat, j: nat, g: nat)
    requires Run(states, events) && i <= j < |states| && Gone(states[i], g)
    ensures Gone(states[j], g)
            && (g in states[j].hands ==> g in states[i].hands && states[j].hands[g] == states[i].hands[g])
    decreases j - i
  {
    if i < j {
      GoneForGood(states, events, i, j - 1, g);
      assert StepAt(states, events, j - 1);
      StepKeepsGone(states[j - 1], events[j - 1], states[j], g);
    }
  }

  /**
   What a failed child prints afterwards reaches no caller: the only answer its reader can still deliver
   is the one it had already matched when the child was declared failed.
   */
  lemma LateOutputIsDropped(states: seq<System>, events: seq<Event>, i: nat, j: nat, g: nat)
    requires Run(states, events) && i <= j < |events| && Gone(states[i], g)
    ensures events[j].PopEvent? && events[j].reader == g ==> states[j + 1] == states[j]
    ensures events[j] == AnswerEvent(g) ==>
              g in states[i].hands && states[j + 1].log == states[j].log + [Completion(states[i].hands[g], g, true)]
  {
    GoneForGood(states, events, i, j, g);
    assert StepAt(states, events, j);
  }

  /** While no child runs and the provider is not closing, a restart is under way or will be signalled. */
  lemma RestartIsComing(states: seq<System>, events: seq<Event>, i: nat)
    requires Run(states, events) && i < |states| && !states[i].p.closing && states[i].p.current.None?
    requires states[i].supervisor.Idle? || states[i].supervisor.Starting?
    ensures states[i].p.restart || exists g :: g in states[i].work && states[i].work[g].signal
  {
    RunKeepsInv(states, events, i);
  }

  /**
   A request can be registered exactly when a child runs, is ready or need not be, has fewer than 128
   requests waiting, and the provider is not closing, unless the request is the shutdown itself.
   */
  lemma AdmittedRequests(s: System, id: Id, shutdown: bool, allowUnready: bool)
    ensures (exists s' :: Step(s, RegisterEvent(id, shutdown, allowUnready), s')) <==>
            && id !in s.origin && s.p.current.Some? && |s.p.pending| < 128
            && (s.p.ready || allowUnready) && (!s.p.closing || shutdown)
  {
    if MayRegister(s.p, shutdown, allowUnready) && id !in s.origin {
      var g := s.p.current.value;
      assert Step(s, RegisterEvent(id, shutdown, allowUnready),
                  s.(p := s.p.(pending := s.p.pending[id := g]), origin := s.origin[id := g]));
    }
  }

  lemma {:induction false} SmallerPart(a: set<Id>, b: set<Id>)
    requires a <= b
    ensures |a| <= |b|
  {
    if a != {} {
      var x :| x in a;
      SmallerPart(a - {x}, b - {x});
    }
  }

  lemma PendingShrinks(s: System, e: Event, s': System)
    requires Step(s, e, s') && !e.RegisterEvent?
    ensures s'.p.pending.Keys <= s.p.pending.Keys
  {
  }

  /** Never do more than 128 requests wait for a child. */
  lemma {:induction false} PendingIsBounded(states: seq<System>, events: seq<Event>, i: nat)
    requires Run(states, events) && i < |states|
    ensures |states[i].p.pending| <= 128
  {
    if i > 0 {
      PendingIsBounded(states, events, i - 1);
      assert StepAt(states, events, i - 1);
      var s, s' := states[i - 1], states[i];
      if events[i - 1].RegisterEvent? {
        assert s'.p.pending.Keys == s.p.pending.Keys + {events[i - 1].id};
      } else {
        PendingShrinks(s, events[i - 1], s');
        SmallerPart(s'.p.pending.Keys, s.p.pending.Keys);
      }
      assert |s.p.pending| == |s.p.pending.Keys| && |s'.p.pending| == |s'.p.pending.Keys|;
    }
  }

  ghost predicate SaidReady(events: seq<Event>, i: nat, g: nat)
    requires i <= |events|
  {
    g == 1 || exists j | 0 <= j < i :: events[j] == ReadyEvent(g)
  }

  /** The provider is ready only for a child that runs and was found ready itself, after it had been started. */
  lemma {:induction false} ReadyIsEarned(states: seq<System>, events: seq<Event>, i: nat)
    requires Run(states, events) && i < |states| && states[i].p.ready
    ensures states[i].p.current == Some(states[i].p.generation) && SaidReady(events, i, states[i].p.generation)
  {
    RunKeepsInv(states, events, i);
    if i > 0 {
      RunKeepsInv(states, events, i - 1);
      assert StepAt(states, events, i - 1);
      if events[i - 1] != ReadyEvent(states[i].p.generation) {
        StaysReady(states[i - 1], events[i - 1], states[i]);
        ReadyIsEarned(states, events, i - 1);
      }
    }
  }

  lemma StaysReady(s: System, e: Event, s': System)
    requires Step(s, e, s') && Generations(s) && s'.p.ready && e != ReadyEvent(s'.p.generation)
    ensures s.p.ready && s'.p.generation == s.p.generation
  {
  }

  lemma ClosingStep(s: System, e: Event, s': System)
    requires Step(s, e, s') && s.p.closing
    ensures s'.p.closing && s'.p.generation == s.p.generation && (s.p.current.None? ==> s'.p.current.None?)
  {
  }

  /** Once the provider is closing no further child is started. */
  lemma {:induction false} ClosingIsFinal(states: seq<System>, events: seq<Event>, i: nat, j: nat)
    requires Run(states, events) && i <= j < |states| && states[i].p.closing
    ensures states[j].p.closing && states[j].p.generation == states[i].p.generation
    ensures states[i].p.current.None? ==> states[j].p.current.None?
    decreases j - i
  {
    if i < j {
      ClosingIsFinal(states, events, i, j - 1);
      assert StepAt(states, events, j - 1);
      ClosingStep(states[j - 1], events[j - 1], states[j]);
    }
  }

  // ----- A run

  ghost predicate EndsIn(states: seq<System>, events: seq<Event>, s: System) {
    Run(states, events) && states[|states| - 1] == s
  }

  lemma Extend(states: seq<System>, events: seq<Event>, s: System, e: Event, s': System)
    requires EndsIn(states, events, s) && Step(s, e, s')
    ensures EndsIn(states + [s'], events + [e], s')
  {
    var states', events' := states + [s'], events + [e];
    forall i | 0 <= i < |events'| ensures StepAt(states', events', i) {
      if i < |events| { assert StepAt(states, events, i); }
    }
  }

  function Running(number: nat, log: seq<Completion>, hands: map<nat, Id>, pending: map<Id, nat>, origin: map<Id,
                   nat>): (s: System) {
    System(Provider(Some(number), number, true, false, pending, false), hands, map[], Idle, origin, {}, log, [])
  }

  /** Two requests are registered; the reader has matched the first. */
  lemma MatchedAndWaiting() returns (states: seq<System>, events: seq<Event>)
    ensures EndsIn(states, events, Running(1, [], map[1 := 7], map[8 := 1], map[7 := 1, 8 := 1]))
    ensures events == [RegisterEvent(7, false, false), PopEvent(1, 7), RegisterEvent(8, false, false)]
  {
    var s0 := Running(1, [], map[], map[], map[]);
    states, events := [s0], [];
    var s1 := Running(1, [], map[], map[7 := 1], map[7 := 1]);
    Extend(states, events, s0, RegisterEvent(7, false, false), s1);
    states, events := states + [s1], events + [RegisterEvent(7, false, false)];
    var s2 := Running(1, [], map[1 := 7], map[], map[7 := 1]);
    assert s1.p.pending - {7} == map[];
    Extend(states, events, s1, PopEvent(1, 7), s2);
    states, events := states + [s2], events + [PopEvent(1, 7)];
    var s3 := Running(1, [], map[1 := 7], map[8 := 1], map[7 := 1, 8 := 1]);
    Extend(states, events, s2, RegisterEvent(8, false, false), s3);
    states, events := states + [s3], events + [RegisterEvent(8, false, false)];
  }

  lemma FailedAndAnswered(s3: System) returns (s4: System, s5: System, s6: System)
    requires s3 == Running(1, [], map[1 := 7], map[8 := 1], map[7 := 1, 8 := 1])
    ensures Step(s3, FailEvent(1), s4) && Step(s4, AnswerEvent(1), s5) && Step(s5, FailRequestEvent(1, 8), s6)
    ensures Gone(s6, 1) && s6.log == [Completion(7, 1, true), Completion(8, 1, false)]
  {
    s4 := AfterFailure(s3, 1, true);
    s5 := Completed(s4, 7, 1, true).(hands := s4.hands - {1});
    assert Of(s3.p.pending, 1) == {8};
    s6 := Completed(s5, 8, 1, false).(work := s5.work[1 := s5.work[1].(ids := s5.work[1].ids - {8})]);
  }

  /**
   A child answers one request after it has been declared failed, because its reader had matched it before;
   another is failed with it.
   */
  lemma AnsweredAndFailed() returns (states: seq<System>, events: seq<Event>)
    ensures Run(states, events) && Gone(states[|states| - 1], 1)
    ensures events == [RegisterEvent(7, false, false), PopEvent(1, 7), RegisterEvent(8, false, false)]
                      + [FailEvent(1)] + [AnswerEvent(1)] + [FailRequestEvent(1, 8)]
    ensures states[|states| - 1].log == [Completion(7, 1, true), Completion(8, 1, false)]
  {
    states, events := MatchedAndWaiting();
    var s3 := states[|states| - 1];
    var s4, s5, s6 := FailedAndAnswered(s3);
    Extend(states, events, s3, FailEvent(1), s4);
    Extend(states + [s4], events + [FailEvent(1)], s4, AnswerEvent(1), s5);
    Extend(states + [s4] + [s5], events + [FailEvent(1)] + [AnswerEvent(1)], s5, FailRequestEvent(1, 8), s6);
    states, events := states + [s4] + [s5] + [s6], events + [FailEvent(1)] + [AnswerEvent(1)] +
      [FailRequestEvent(1, 8)];
  }
}
