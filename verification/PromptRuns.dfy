/**
 Every run of the prompt queue: requests, the worker and crashes, one step at a time.
 */
module PromptRuns {
  import opened Wrappers
  import opened PromptNames
  import opened PromptQueue

  /** A file of the directory; it survives a crash for sure once the directory has been synced. */
  datatype Entry = Entry(id: Id, durable: bool)

  /** Where a request is: its file renamed into place, the directory synced, the prompt in the queue. */
  datatype Enqueue = Resting | Written(p: Prompt) | Synced(p: Prompt) | Queued(p: Prompt)

  /** Where the worker is: holding a prompt, having injected it, having deleted its file. */
  datatype Worker = Waiting | Got(p: Prompt) | Injected(p: Prompt) | Unlinked(p: Prompt)

  datatype Injection = Injection(life: nat, id: Id)

  /**
   `gone` are the files deleted since the last sync; `up` is whether the process has started. `numbers`,
   `acked` and `injections` are the history: the number each prompt was given, the requests accepted, in
   the order in which they left the locked region, and the prompts injected in each life.
   */
  datatype System = System(
    dir: map<nat, Entry>,
    gone: map<nat, Id>,
    queue: seq<Prompt>,
    sequence: nat,
    enqueue: Enqueue,
    worker: Worker,
    life: nat,
    up: bool,
    numbers: map<Id, nat>,
    acked: seq<Id>,
    injections: seq<Injection>)

  datatype Event =
    | SkipEvent(now: nat)
    | WriteEvent(id: Id, now: nat)
    | SyncEvent
    | PutEvent
    | AckEvent
    | AbandonEvent
    | GetEvent
    | InjectEvent
    | UnlinkEvent
    | WorkerSyncEvent
    | DropEvent
    | CrashEvent(entries: map<string, Option<Id>>, sorted: seq<string>, restored: Option<Restored>)

  function NextSequence(s: System, now: nat): (n: nat)
    ensures n > s.sequence && n >= now && (n == now || n == s.sequence + 1)
  {
    if s.sequence + 1 > now then s.sequence + 1 else now
  }

  function AllDurable(dir: map<nat, Entry>): (r: map<nat, Entry>) {
    map n | n in dir :: dir[n].(durable := true)
  }

  function Ids(dir: map<nat, Entry>): (r: map<nat, Id>) {
    map n | n in dir :: dir[n].id
  }

  /** A crash keeps every synced file, and any of the unsynced ones and of the unsynced deletions. */
  ghost predicate Survives(s: System, dir: map<nat, Entry>) {
    && (forall n | n in s.dir && s.dir[n].durable :: n in dir)
    && (forall n | n in dir :: (n in s.dir && dir[n].id == s.dir[n].id) || (n in s.gone && dir[n].id == s.gone[n]))
    && (forall n | n in dir :: dir[n].durable)
  }

  /** A start after a crash: the queue is refilled from what is left of the directory, or the start fails. */
  function Restarted(s: System, dir: map<nat, Entry>, r: Option<Restored>): (s': System) {
    s.(dir := dir, gone := map[], queue := if r.Some? then r.value.queue else [],
       sequence := if r.Some? then r.value.sequence
       else 0, enqueue := Resting, worker := Waiting, life := s.life + 1, up := r.Some?)
  }

  ghost predicate Step(s: System, e: Event, s': System) {
    && (e.CrashEvent? || s.up) && (e.WriteEvent? ==> ValidId(e.id))
    && if e.CrashEvent? then Crashes(s, e, s') else Goes(s, e, s')
  }

  ghost predicate Crashes(s: System, e: Event, s': System)
    requires e.CrashEvent?
  {
    && Survives(s, s'.dir) && FilesAre(e.entries, Ids(s'.dir)) && Restores(e.entries, e.sorted, e.restored)
    && s' == Restarted(s, s'.dir, e.restored)
  }

  ghost predicate Goes(s: System, e: Event, s': System) {
    match e
    case SkipEvent(now) =>
      s.enqueue.Resting? && s' == s.(sequence := NextSequence(s, now))
    case WriteEvent(id, now) =>
      && s.enqueue.Resting? && id !in s.numbers
      && var p := Prompt(NextSequence(s, now), id);
         s' == s.(sequence := p.sequence, enqueue := Written(p), dir := s.dir[p.sequence := Entry(id, false)],
                  numbers := s.numbers[id := p.sequence])
    case SyncEvent =>
      s.enqueue.Written? && s' == s.(enqueue := Synced(s.enqueue.p), dir := AllDurable(s.dir), gone := map[])
    case PutEvent =>
      s.enqueue.Synced? && s' == s.(enqueue := Queued(s.enqueue.p), queue := s.queue + [s.enqueue.p])
    case AckEvent =>
      s.enqueue.Queued? && s' == s.(enqueue := Resting, acked := s.acked + [s.enqueue.p.id])
    case AbandonEvent =>
      !s.enqueue.Resting? && s' == s.(enqueue := Resting)
    case GetEvent =>
      s.worker.Waiting? && s.queue != [] && s' == s.(worker := Got(s.queue[0]), queue := s.queue[1..])
    case InjectEvent =>
      s.worker.Got?
        && s' == s.(worker := Injected(s.worker.p), injections := s.injections + [Injection(s.life, s.worker.p.id)])
    case UnlinkEvent =>
      && s.worker.Injected?
      && s' == s.(worker := Unlinked(s.worker.p), dir := s.dir - {s.worker.p.sequence},
                  gone := s.gone[s.worker.p.sequence := s.worker.p.id])
    case WorkerSyncEvent =>
      s.worker.Unlinked? && s' == s.(worker := Waiting, dir := AllDurable(s.dir), gone := map[])
    case DropEvent =>
      !s.worker.Waiting? && s' == s.(worker := Waiting)
    case CrashEvent(_, _, _) =>
      false
  }

  ghost predicate Initial(s: System) {
    s == System(map[], map[], [], 0, Resting, Waiting, 0, true, map[], [], [])
  }

  ghost predicate StepAt(states: seq<System>, events: seq<Event>, i: nat)
    requires |states| == |events| + 1 && i < |events|
  {
    Step(states[i], events[i], states[i + 1])
  }

  ghost predicate Run(states: seq<System>, events: seq<Event>) {
    && |states| == |events| + 1 && Initial(states[0])
    && forall i {:trigger StepAt(states, events, i)} | 0 <= i < |events| :: StepAt(states, events, i)
  }

  // ----- The invariant

  predicate OnDisk(s: System, p: Prompt) {
    p.sequence in s.dir && s.dir[p.sequence].id == p.id
  }

  /** Files carry the numbers they were given, and no number above the current one is in use. */
  ghost predicate Numbered(s: System) {
    && (forall id | id in s.numbers :: ValidId(id))
    && (s.up ==> forall n | n in s.dir || n in s.gone :: n <= s.sequence)
    && (forall n | n in s.dir :: s.dir[n].id in s.numbers && s.numbers[s.dir[n].id] == n)
    && (forall n | n in s.gone :: n !in s.dir && s.gone[n] in s.numbers && s.numbers[s.gone[n]] == n)
  }

  predicate Held(w: Worker) {
    w.Got? || w.Injected?
  }

  predicate Coming(e: Enqueue) {
    e.Written? || e.Synced?
  }

  /**
   The prompt in the worker's hand, the queue and the prompt being enqueued are, in this order, an ascending
   part of the directory.
   */
  ghost predicate InOrder(s: System) {
    && Ascending(s.queue)
    && (forall p | p in s.queue :: OnDisk(s, p))
    && (Held(s.worker) ==> OnDisk(s, s.worker.p) && forall p | p in s.queue :: s.worker.p.sequence < p.sequence)
    && (Coming(s.enqueue) ==> OnDisk(s, s.enqueue.p) && forall p | p in s.queue :: p.sequence < s.enqueue.p.sequence)
    && (Held(s.worker) && Coming(s.enqueue) ==> s.worker.p.sequence < s.enqueue.p.sequence)
    && (s.enqueue.Queued? ==> s.enqueue.p.id in s.numbers && s.numbers[s.enqueue.p.id] == s.enqueue.p.sequence)
  }

  ghost predicate WasInjected(s: System, id: Id) {
    exists i :: 0 <= i < |s.injections| && s.injections[i].id == id
  }

  predicate Durable(s: System, id: Id) {
    id in s.numbers && s.numbers[id] in s.dir && s.dir[s.numbers[id]] == Entry(id, true)
  }

  /** The prompt is safe: injected, or on disk for good. */
  ghost predicate Kept(s: System, id: Id) {
    WasInjected(s, id) || Durable(s, id)
  }

  ghost predicate AckedKept(s: System) {
    && (forall i | 0 <= i < |s.acked| :: Kept(s, s.acked[i]))
    && (s.enqueue.Synced? ==> Durable(s, s.enqueue.p.id))
    && (s.enqueue.Queued? ==> Kept(s, s.enqueue.p.id))
    && (s.worker.Injected? ==> WasInjected(s, s.worker.p.id))
  }

  predicate Unused(s: System, id: Id) {
    Injection(s.life, id) !in s.injections
  }

  /** No prompt is injected twice in one life. */
  ghost predicate OncePerLife(s: System) {
    && (forall i, j | 0 <= i < j < |s.injections| :: s.injections[i] != s.injections[j])
    && (forall i | 0 <= i < |s.injections| :: s.injections[i].life <= s.life && s.injections[i].id in s.numbers)
    && (forall p | p in s.queue :: Unused(s, p.id))
    && (s.worker.Got? ==> Unused(s, s.worker.p.id))
    && (Coming(s.enqueue) ==> Unused(s, s.enqueue.p.id))
  }

  predicate Present(s: System, id: Id) {
    && id in s.numbers
    && ((s.numbers[id] in s.dir && s.dir[s.numbers[id]].id == id)
        || (s.numbers[id] in s.gone && s.gone[s.numbers[id]] == id))
  }

  /** Prompts still there were numbered in the order in which they were acknowledged. */
  ghost predicate AckOrder(s: System) {
    && (forall i | 0 <= i < |s.acked| :: s.acked[i] in s.numbers)
    && (forall i, j | 0 <= i < j < |s.acked| && Present(s, s.acked[i]) :: s.numbers[s.acked[i]] < s.numbers[s.acked[j]])
    && (!s.enqueue.Resting? ==> s.enqueue.p.id in s.numbers && s.numbers[s.enqueue.p.id] == s.enqueue.p.sequence)
    && (!s.enqueue.Resting? ==>
          forall i | 0 <= i < |s.acked| && Present(s, s.acked[i]) :: s.numbers[s.acked[i]] < s.enqueue.p.sequence)
  }

  ghost predicate Inv(s: System) {
    Numbered(s) && InOrder(s) && AckedKept(s) && OncePerLife(s) && AckOrder(s)
  }

  // ----- Every step keeps it

  lemma SurvivorsFit(s: System, dir: map<nat, Entry>)
    requires Numbered(s) && Survives(s, dir)
    ensures IdsFit(Ids(dir)) && forall n | n in dir :: dir[n].id in s.numbers && s.numbers[dir[n].id] == n
  {
    forall n | n in Ids(dir) ensures Ids(dir)[n] == dir[n].id {}
  }

  /**
   A start succeeds if and only if the numbers left on disk fit their width, and then the queue is the whole
   directory in order.
   */
  lemma StartOutcome(s: System, e: Event, s': System)
    requires Numbered(s) && Step(s, e, s') && e.CrashEvent?
    ensures s'.up <==> NumbersFit(Ids(s'.dir))
    ensures s'.up ==> Lists(s'.queue, Ids(s'.dir)) && s'.sequence == Highest(s'.queue)
    ensures !s'.up ==> s'.queue == []
  {
    SurvivorsFit(s, s'.dir);
    StartsIff(e.entries, Ids(s'.dir), e.sorted, e.restored);
  }

  lemma RestartIsNumbered(s: System, e: Event, s': System)
    requires Numbered(s) && Step(s, e, s') && e.CrashEvent?
    ensures Numbered(s')
  {
    StartOutcome(s, e, s');
    SurvivorsFit(s, s'.dir);
    if s'.up {
      forall n | n in s'.dir ensures n <= s'.sequence {
        assert Ids(s'.dir)[n] == s'.dir[n].id;
        assert Prompt(n, s'.dir[n].id) in s'.queue;
      }
    }
  }

  lemma StepKeepsNumbered(s: System, e: Event, s': System)
    requires Numbered(s) && InOrder(s) && Step(s, e, s')
    ensures Numbered(s')
  {
    if e.CrashEvent? { RestartIsNumbered(s, e, s'); }
  }

  lemma GettingKeepsInOrder(s: System, s': System)
    requires InOrder(s) && Step(s, GetEvent, s')
    ensures InOrder(s')
  {
    assert s.queue[0] in s.queue;
    forall p | p in s'.queue ensures p in s.queue && s.queue[0].sequence < p.sequence {
      var i :| 0 <= i < |s'.queue| && s'.queue[i] == p;
      assert s.queue[i + 1] == p;
    }
    forall i, j | 0 <= i < j < |s'.queue| ensures s'.queue[i].sequence < s'.queue[j].sequence {
      assert s.queue[i + 1].sequence < s.queue[j + 1].sequence;
    }
  }

  lemma RestartIsInOrder(s: System, e: Event, s': System)
    requires Numbered(s) && Step(s, e, s') && e.CrashEvent?
    ensures InOrder(s')
  {
    StartOutcome(s, e, s');
    forall p | p in s'.queue ensures OnDisk(s', p) { assert Ids(s'.dir)[p.sequence] == p.id; }
  }

  lemma WritingKeepsInOrder(s: System, e: Event, s': System)
    requires Numbered(s) && InOrder(s) && Step(s, e, s') && e.WriteEvent?
    ensures InOrder(s')
  {
  }

  lemma EnqueueingKeepsInOrder(s: System, e: Event, s': System)
    requires Numbered(s) && InOrder(s) && Step(s, e, s')
    requires e.SkipEvent? || e.SyncEvent? || e.PutEvent? || e.AckEvent? || e.AbandonEvent?
    ensures InOrder(s')
  {
  }

  lemma WorkingKeepsInOrder(s: System, e: Event, s': System)
    requires Numbered(s) && InOrder(s) && Step(s, e, s')
             && (e.InjectEvent? || e.UnlinkEvent? || e.WorkerSyncEvent? || e.DropEvent?)
    ensures InOrder(s')
  {
  }

  lemma StepKeepsInOrder(s: System, e: Event, s': System)
    requires Numbered(s) && InOrder(s) && Step(s, e, s')
    ensures InOrder(s')
  {
    if e.CrashEvent? {
      RestartIsInOrder(s, e, s');
    } else if e.GetEvent? {
      GettingKeepsInOrder(s, s');
    } else if e.InjectEvent? || e.UnlinkEvent? || e.WorkerSyncEvent? || e.DropEvent? {
      WorkingKeepsInOrder(s, e, s');
    } else if e.WriteEvent? {
      WritingKeepsInOrder(s, e, s');
    } else {
      EnqueueingKeepsInOrder(s, e, s');
    }
  }

  lemma InjectedStays(s: System, e: Event, s': System, id: Id)
    requires Step(s, e, s') && WasInjected(s, id)
    ensures WasInjected(s', id)
  {
    var i :| 0 <= i < |s.injections| && s.injections[i].id == id;
    assert s'.injections[i] == s.injections[i];
  }

  /** A synced file goes only after its prompt has been injected. */
  lemma DurableStays(s: System, e: Event, s': System, id: Id)
    requires Numbered(s) && InOrder(s) && Step(s, e, s') && Durable(s, id)
    ensures Durable(s', id) || (e.UnlinkEvent? && s.worker.p.id == id)
  {
  }

  lemma KeptStays(s: System, e: Event, s': System, id: Id)
    requires Numbered(s) && InOrder(s) && AckedKept(s) && Step(s, e, s') && Kept(s, id)
    ensures Kept(s', id)
  {
    if WasInjected(s, id) {
      InjectedStays(s, e, s', id);
    } else {
      DurableStays(s, e, s', id);
    }
  }

  lemma StepKeepsAcked(s: System, e: Event, s': System)
    requires Numbered(s) && InOrder(s) && AckedKept(s) && Step(s, e, s')
    ensures AckedKept(s')
  {
    forall id | Kept(s, id) ensures Kept(s', id) { KeptStays(s, e, s', id); }
    if s'.worker.Injected? && s.worker.Injected? { InjectedStays(s, e, s', s.worker.p.id); }
    if e.InjectEvent? { assert s'.injections[|s.injections|].id == s.worker.p.id; }
    if s'.enqueue.Synced? && s.enqueue.Synced? { DurableStays(s, e, s', s.enqueue.p.id); }
  }

  lemma InjectingOnce(s: System, s': System)
    requires Numbered(s) && InOrder(s) && OncePerLife(s) && Step(s, InjectEvent, s')
    ensures OncePerLife(s')
  {
    var now := Injection(s.life, s.worker.p.id);
    forall p: Prompt | OnDisk(s, p) && p.sequence != s.worker.p.sequence ensures p.id != s.worker.p.id {}
    forall id | id != s.worker.p.id && Unused(s, id) ensures Unused(s', id) {}
  }

  lemma RestartingOnce(s: System, e: Event, s': System)
    requires OncePerLife(s) && Step(s, e, s') && e.CrashEvent?
    ensures OncePerLife(s')
  {
    forall id ensures Unused(s', id) {}
  }

  lemma WritingOnce(s: System, e: Event, s': System)
    requires OncePerLife(s) && Step(s, e, s') && e.WriteEvent?
    ensures OncePerLife(s')
  {
    assert Unused(s, e.id);
  }

  lemma StepKeepsOnce(s: System, e: Event, s': System)
    requires Numbered(s) && InOrder(s) && OncePerLife(s) && Step(s, e, s')
    ensures OncePerLife(s')
  {
    if e.InjectEvent? {
      InjectingOnce(s, s');
    } else if e.CrashEvent? {
      RestartingOnce(s, e, s');
    } else if e.WriteEvent? {
      WritingOnce(s, e, s');
    } else {
      assert s'.injections == s.injections && s'.life == s.life && s'.numbers == s.numbers;
      forall id | Unused(s, id) ensures Unused(s', id) {}
      assert e.GetEvent? ==> s.queue[0] in s.queue;
      assert forall p | p in s'.queue :: p in s.queue || (e.PutEvent? && p == s.enqueue.p);
    }
  }

  lemma PresentBefore(s: System, e: Event, s': System, id: Id)
    requires Numbered(s) && InOrder(s) && Step(s, e, s') && Present(s', id) && id in s.numbers
    ensures Present(s, id) && s'.numbers[id] == s.numbers[id]
  {
  }

  lemma StepKeepsAckOrder(s: System, e: Event, s': System)
    requires Numbered(s) && InOrder(s) && AckOrder(s) && Step(s, e, s')
    ensures AckOrder(s')
  {
    forall i | 0 <= i < |s.acked| && Present(s', s.acked[i]) ensures Present(s, s.acked[i]) {
      PresentBefore(s, e, s', s.acked[i]);
    }
    assert s'.acked == s.acked || s'.acked == s.acked + [s.enqueue.p.id];
    forall i | s.up && 0 <= i < |s.acked| && Present(s, s.acked[i]) ensures s.numbers[s.acked[i]] <= s.sequence {}
  }

  lemma StepKeepsInv(s: System, e: Event, s': System)
    requires Inv(s) && Step(s, e, s')
    ensures Inv(s')
  {
    StepKeepsNumbered(s, e, s');
    StepKeepsInOrder(s, e, s');
    StepKeepsAcked(s, e, s');
    StepKeepsOnce(s, e, s');
    StepKeepsAckOrder(s, e, s');
  }

  lemma {:induction false} RunKeepsInv(states: seq<System>, events: seq<Event>, i: nat)
    requires Run(states, events) && i < |states|
    ensures Inv(states[i])
  {
    if i == 0 {
      InitialHolds(states[0]);
    } else {
      RunKeepsInv(states, events, i - 1);
      StepAtKeepsInv(states, events, i - 1);
    }
  }

  lemma InitialHolds(s: System)
    requires Initial(s)
    ensures Inv(s)
  {
  }

  lemma StepAtKeepsInv(states: seq<System>, events: seq<Event>, i: nat)
    requires Run(states, events) && i < |events| && Inv(states[i])
    ensures Inv(states[i + 1])
  {
    assert StepAt(states, events, i);
    StepKeepsInv(states[i], events[i], states[i + 1]);
  }

  // ----- Main results

  /** Whatever crashes, an acknowledged prompt has been injected or is on disk for good. */
  lemma AcknowledgedIsSafe(states: seq<System>, events: seq<Event>, i: nat, k: nat)
    requires Run(states, events) && i < |states| && k < |states[i].acked|
    ensures WasInjected(states[i], states[i].acked[k]) || Durable(states[i], states[i].acked[k])
  {
    RunKeepsInv(states, events, i);
  }

  /** The queue in memory is always an ascending part of the directory. */
  lemma QueueFollowsDirectory(states: seq<System>, events: seq<Event>, i: nat)
    requires Run(states, events) && i < |states|
    ensures Ascending(states[i].queue) && forall p | p in states[i].queue :: OnDisk(states[i], p)
  {
    RunKeepsInv(states, events, i);
  }

  /** No prompt is injected twice in one life of the process. */
  lemma InjectedOncePerLife(states: seq<System>, events: seq<Event>, i: nat, j: nat, k: nat)
    requires Run(states, events) && i < |states| && j < k < |states[i].injections|
    ensures states[i].injections[j] != states[i].injections[k]
  {
    RunKeepsInv(states, events, i);
  }

  /** After a restart, prompts come back in the order in which they were acknowledged. */
  lemma RestoredInAckOrder(states: seq<System>, events: seq<Event>, i: nat, j: nat, k: nat, a: nat, b: nat)
    requires Run(states, events) && i < |events| && events[i].CrashEvent?
    requires j < k < |states[i + 1].acked| && a < |states[i + 1].queue| && b < |states[i + 1].queue|
    requires states[i + 1].queue[a].id == states[i + 1].acked[j] && states[i + 1].queue[b].id == states[i + 1].acked[k]
    ensures a < b
  {
    var s := states[i + 1];
    RunKeepsInv(states, events, i + 1);
    assert s.queue[a] in s.queue && s.queue[b] in s.queue;
    assert OnDisk(s, s.queue[a]) && OnDisk(s, s.queue[b]);
    assert Present(s, s.acked[j]);
    assert s.numbers[s.acked[j]] < s.numbers[s.acked[k]];
  }

  /** After a start that succeeds nothing accepted and not injected is missing from the queue. */
  lemma NothingIsForgotten(states: seq<System>, events: seq<Event>, i: nat, k: nat)
    requires Run(states, events) && i < |events| && events[i].CrashEvent? && states[i + 1].up
    requires k < |states[i + 1].acked| && !WasInjected(states[i + 1], states[i + 1].acked[k])
    ensures exists p :: p in states[i + 1].queue && p.id == states[i + 1].acked[k]
  {
    var s := states[i + 1];
    RunKeepsInv(states, events, i);
    RunKeepsInv(states, events, i + 1);
    assert StepAt(states, events, i);
    StartOutcome(states[i], events[i], s);
    var id := s.acked[k];
    assert Durable(s, id);
    assert Ids(s.dir)[s.numbers[id]] == id;
    assert Prompt(s.numbers[id], id) in s.queue;
  }

  /** A start after any run succeeds if and only if every number left on disk fits its width. */
  lemma StartsIffNumbersFit(states: seq<System>, events: seq<Event>, i: nat)
    requires Run(states, events) && i < |events| && events[i].CrashEvent?
    ensures states[i + 1].up <==> NumbersFit(Ids(states[i + 1].dir))
  {
    RunKeepsInv(states, events, i);
    assert StepAt(states, events, i);
    StartOutcome(states[i], events[i], states[i + 1]);
  }

  // ----- When numbers fit

  predicate ReadsAtMost(e: Event, clock: nat) {
    && (e.SkipEvent? ==> e.now <= clock)
    && (e.WriteEvent? ==> e.now <= clock)
  }

  predicate Below(s: System, bound: nat) {
    s.sequence <= bound && forall id | id in s.numbers :: s.numbers[id] <= bound
  }

  lemma StepStaysBelow(s: System, e: Event, s': System, bound: nat, clock: nat)
    requires Inv(s) && Inv(s') && Step(s, e, s') && Below(s, bound) && clock <= bound && ReadsAtMost(e, clock)
    ensures Below(s', bound + 1)
  {
    if e.CrashEvent? {
      StartOutcome(s, e, s');
      if s'.queue != [] {
        var p :| p in s'.queue && p.sequence == Highest(s'.queue);
        assert OnDisk(s', p);
      }
    }
  }

  lemma BelowStarts(s: System, e: Event, s': System, bound: nat)
    requires Inv(s) && Inv(s') && Step(s, e, s') && s.up && Below(s', bound) && bound < Power10(WIDTH)
    ensures s'.up
  {
    if e.CrashEvent? {
      StartOutcome(s, e, s');
      forall n | n in Ids(s'.dir) ensures n < Power10(WIDTH) { assert s'.numbers[s'.dir[n].id] == n; }
    }
  }

  lemma StepAtStarts(states: seq<System>, events: seq<Event>, i: nat, bound: nat, clock: nat)
    requires Run(states, events) && i < |events| && ReadsAtMost(events[i], clock)
    requires states[i].up && Below(states[i], bound) && clock <= bound && bound + 1 < Power10(WIDTH)
    ensures states[i + 1].up && Below(states[i + 1], bound + 1)
  {
    RunKeepsInv(states, events, i);
    RunKeepsInv(states, events, i + 1);
    assert StepAt(states, events, i);
    StepStaysBelow(states[i], events[i], states[i + 1], bound, clock);
    BelowStarts(states[i], events[i], states[i + 1], bound + 1);
  }

  /** While the clock plus the number of steps stays within twenty digits, every start succeeds. */
  lemma {:induction false} AlwaysStarts(states: seq<System>, events: seq<Event>, clock: nat, i: nat)
    requires Run(states, events) && i < |states| && clock + |events| < Power10(WIDTH)
    requires forall e | e in events :: ReadsAtMost(e, clock)
    ensures states[i].up && Below(states[i], clock + i)
  {
    if i > 0 {
      AlwaysStarts(states, events, clock, i - 1);
      assert events[i - 1] in events;
      StepAtStarts(states, events, i - 1, clock + (i - 1), clock);
    }
  }

  lemma Extend(states: seq<System>, events: seq<Event>, e: Event, s': System)
    requires Run(states, events) && Step(states[|events|], e, s')
    ensures Run(states + [s'], events + [e])
  {
    forall i | 0 <= i < |events| + 1 ensures StepAt(states + [s'], events + [e], i) {
      if i < |events| { assert StepAt(states, events, i); }
    }
  }

  /** A run whose only prompt has been given the number `p.sequence`. */
  function OnePrompt(p: Prompt, enqueue: Enqueue, synced: bool, queue: seq<Prompt>, acked: seq<Id>): (s: System) {
    System(map[p.sequence := Entry(p.id, synced)], map[], queue, p.sequence, enqueue, Waiting, 0, true,
           map[p.id := p.sequence], acked, [])
  }

  function Accepted(p: Prompt): (s: System) {
    OnePrompt(p, Resting, true, [p], [p.id])
  }

  lemma PromptSynced(p: Prompt) returns (states: seq<System>, events: seq<Event>)
    requires p.sequence > 0 && ValidId(p.id)
    ensures Run(states, events) && events == [WriteEvent(p.id, p.sequence), SyncEvent]
    ensures states[2] == OnePrompt(p, Synced(p), true, [], [])
  {
    var written := OnePrompt(p, Written(p), false, [], []);
    states, events := [System(map[], map[], [], 0, Resting, Waiting, 0, true, map[], [], [])], [];
    Extend(states, events, WriteEvent(p.id, p.sequence), written);
    states, events := states + [written], events + [WriteEvent(p.id, p.sequence)];
    assert AllDurable(written.dir) == map[p.sequence := Entry(p.id, true)];
    var synced := OnePrompt(p, Synced(p), true, [], []);
    Extend(states, events, SyncEvent, synced);
    states, events := states + [synced], events + [SyncEvent];
  }

  lemma PromptAccepted(p: Prompt) returns (states: seq<System>, events: seq<Event>)
    requires p.sequence > 0 && ValidId(p.id)
    ensures Run(states, events) && events == [WriteEvent(p.id, p.sequence), SyncEvent, PutEvent, AckEvent]
    ensures states[4] == Accepted(p)
  {
    states, events := PromptSynced(p);
    var queued := OnePrompt(p, Queued(p), true, [p], []);
    Extend(states, events, PutEvent, queued);
    states, events := states + [queued], events + [PutEvent];
    Extend(states, events, AckEvent, Accepted(p));
    states, events := states + [Accepted(p)], events + [AckEvent];
  }

  lemma RefusedDirectory(p: Prompt) returns (entries: map<string, Option<Id>>, sorted: seq<string>)
    requires p.sequence >= Power10(WIDTH) && ValidId(p.id)
    ensures FilesAre(entries, map[p.sequence := p.id]) && Restores(entries, sorted, None)
  {
    var name, dir := FileName(p.sequence, p.id), map[p.sequence := p.id];
    entries, sorted := map[name := Some(p.id)], [name];
    assert dir[p.sequence] == p.id;
    StartRefuses(entries, dir, p.sequence);
  }

  /** A directory that is synced survives as it is. */
  lemma RefusedStart(s: System, entries: map<string, Option<Id>>, sorted: seq<string>)
    requires forall n | n in s.dir :: s.dir[n].durable
    requires FilesAre(entries, Ids(s.dir)) && Restores(entries, sorted, None)
    ensures Step(s, CrashEvent(entries, sorted, None), Restarted(s, s.dir, None))
  {
    assert Survives(s, s.dir);
  }

  /** A clock past twenty digits: the prompt is accepted, and the next start fails over its file. */
  lemma LargeNumberStopsStart(p: Prompt) returns (states: seq<System>, events: seq<Event>)
    requires p.sequence >= Power10(WIDTH) && ValidId(p.id)
    ensures Run(states, events) && |events| == 5 && events[0] == WriteEvent(p.id, p.sequence) && events[4].CrashEvent?
    ensures states[4].acked == [p.id] && !WasInjected(states[5], p.id) && !states[5].up
  {
    states, events := PromptAccepted(p);
    var entries, sorted := RefusedDirectory(p);
    assert Ids(states[4].dir) == map[p.sequence := p.id];
    RefusedStart(states[4], entries, sorted);
    var s' := Restarted(states[4], states[4].dir, None);
    Extend(states, events, CrashEvent(entries, sorted, None), s');
    states, events := states + [s'], events + [CrashEvent(entries, sorted, None)];
  }
}
