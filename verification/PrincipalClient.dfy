/**
 The operator's client: it reads the readiness of an account, then resolves it, and accepts the
 pair only if both speak of the same generation.
 */
module PrincipalClient {
  import opened Wrappers
  import opened AccountRecord
  import opened Registry
  import opened AccountLines
  import opened RegistryRuns
  import opened RegistrySafety

  datatype Resolution =
    | Resolution(template: string, provider: Token, generation: nat)
    | NotEnrolled
    | NotEligibleNow
    | NotReadyYet
    | NotAvailable

  /** `None` stands for a request that brought no answer. */
  function ClientResolve(readiness: Option<Reply>, resolve: Option<Reply>): (r: Resolution) {
    if readiness == Some(Refused(AccountNotFound)) then NotEnrolled
    else if readiness == Some(Refused(NotEligible)) then NotEligibleNow
    else if readiness.None? || !readiness.value.Status? then NotAvailable
    else
      var status := readiness.value;
      if status.template == "" || status.generation < 1 then NotAvailable
      else match status.state
        case IsRevoked => NotEnrolled
        case IsUnready => NotReadyYet
        case IsReady =>
          if resolve == Some(Refused(AccountNotFound)) || resolve == Some(Refused(AccountUnready)) then NotReadyYet
          else if resolve == Some(Refused(NotEligible)) then NotEligibleNow
          else if resolve.None? || !resolve.value.Resolved? then NotAvailable
          else if resolve.value.template != status.template || resolve.value.generation != status.generation then
              NotAvailable
          else Resolution(resolve.value.template, resolve.value.provider, resolve.value.generation)
  }

  /**
   When the client succeeds, whatever happened between its two reads, restarts included, was not a
   replacement: the account was active with the same template, provider and credential at both.
   */
  lemma ResolveIsConsistent(worlds: seq<World>, events: seq<Event>, i: nat, j: nat, id: Owner,
                            now: int, ready: bool, now': int, ready': bool)
    requires Run(worlds, events) && i <= j < |worlds|
    requires ClientResolve(Some(ReadReadiness(worlds[i].registry, id, now, ready)),
                           Some(Resolve(worlds[j].registry, id, now', ready'))).Resolution?
    ensures var r :=
        ClientResolve(Some(ReadReadiness(worlds[i].registry, id, now, ready)),
                      Some(Resolve(worlds[j].registry, id, now', ready')));
            var before, after := worlds[i].registry, worlds[j].registry;
            && id in before.accounts && id in after.accounts && id in before.disk.lines && id in after.disk.lines
            && NoReplacement(before.disk.lines[id], after.disk.lines[id])
            && SameEnrollment(before.accounts[id], after.accounts[id]) && after.accounts[id].state.Active?
            && r == Resolution(before.accounts[id].template, before.accounts[id].provider,
                               before.accounts[id].generation)
  {
    EqualGenerationsMeanNoReplacement(worlds, events, i, j, id);
  }

  /** A steady, eligible, ready account always resolves. */
  lemma SteadyAccountResolves(w: World, id: Owner, now: int)
    requires Inv(w) && w.registry.healthy && id in w.registry.accounts
    requires var m := w.registry.accounts[id];
             m.state.Active? && m.eligibility > now && m.provider in w.registry.providers
    ensures var m := w.registry.accounts[id];
            ClientResolve(Some(ReadReadiness(w.registry, id, now, true)), Some(Resolve(w.registry, id, now, true)))
            == Resolution(m.template, m.provider, m.generation)
  {
    KnownIsWellFormed(w, id);
  }

  predicate Served(s: Registry, id: Owner, now: int, ready: bool) {
    && id in s.accounts && s.accounts[id].state.Active? && s.accounts[id].eligibility > now
    && s.accounts[id].provider in s.providers && ready
  }

  /** What the client tells when the first read does not find the account ready. */
  predicate FirstAnswer(s: Registry, id: Owner, now: int, answer: Resolution) {
    if !s.healthy then answer == NotAvailable
    else if id !in s.accounts || s.accounts[id].state.Revoked? then answer == NotEnrolled
    else if s.accounts[id].eligibility <= now then answer == NotEligibleNow
    else answer == NotReadyYet
  }

  /** What it tells when the first read finds it ready as `m`, by what the second finds. */
  predicate SecondAnswer(m: Metadata, s: Registry, id: Owner, now: int, ready: bool, answer: Resolution) {
    if !s.healthy then answer == NotAvailable
    else if id !in s.accounts || s.accounts[id].state.Revoked? then answer == NotReadyYet
    else if s.accounts[id].eligibility <= now then answer == NotEligibleNow
    else if !Served(s, id, now, ready) then answer == NotReadyYet
    else if s.accounts[id].template == m.template && s.accounts[id].generation == m.generation
    then answer == Resolution(m.template, s.accounts[id].provider, m.generation)
    else answer == NotAvailable
  }

  /** The record of the account, if there is one, is its own and has a template and a generation. */
  predicate Sane(s: Registry, id: Owner) {
    id in s.accounts ==>
      s.accounts[id].owner == id && s.accounts[id].template != "" && s.accounts[id].generation >= 1
  }

  lemma AnswersByReads(s: Registry, s': Registry, id: Owner, now: int, ready: bool, now': int, ready': bool)
    requires (s.healthy ==> Sane(s, id)) && (s'.healthy ==> Sane(s', id))
    ensures var answer := ClientResolve(Some(ReadReadiness(s, id, now, ready)), Some(Resolve(s', id, now', ready')));
            if s.healthy && Served(s, id, now, ready) then SecondAnswer(s.accounts[id], s', id, now', ready', answer)
            else FirstAnswer(s, id, now, answer)
  {
  }

  lemma EveryRecordIsSane(worlds: seq<World>, events: seq<Event>, i: nat, id: Owner)
    requires Run(worlds, events) && i < |worlds| && worlds[i].registry.healthy
    ensures Sane(worlds[i].registry, id)
  {
    RunKeepsInv(worlds, events, i);
    if id in worlds[i].registry.accounts { KnownIsWellFormed(worlds[i], id); }
  }

  /** What the client tells in every case, by what its two reads find at any two moments of a run. */
  lemma ClientAnswers(worlds: seq<World>, events: seq<Event>, i: nat, j: nat, id: Owner,
                      now: int, ready: bool, now': int, ready': bool)
    requires Run(worlds, events) && i <= j < |worlds|
    ensures var s, s' := worlds[i].registry, worlds[j].registry;
            var answer := ClientResolve(Some(ReadReadiness(s, id, now, ready)), Some(Resolve(s', id, now', ready')));
            if s.healthy && Served(s, id, now, ready) then SecondAnswer(s.accounts[id], s', id, now', ready', answer)
            else FirstAnswer(s, id, now, answer)
  {
    if worlds[i].registry.healthy { EveryRecordIsSane(worlds, events, i, id); }
    if worlds[j].registry.healthy { EveryRecordIsSane(worlds, events, j, id); }
    AnswersByReads(worlds[i].registry, worlds[j].registry, id, now, ready, now', ready');
  }

  /** A request without an answer leaves the account unavailable. */
  lemma NoAnswerIsUnavailable(readiness: Reply)
    ensures forall resolve :: ClientResolve(None, resolve) == NotAvailable
    ensures readiness.Status? && readiness.state == IsReady ==> ClientResolve(Some(readiness), None) == NotAvailable
  {
  }

  lemma KnownIsWellFormed(w: World, id: Owner)
    requires Inv(w) && w.registry.healthy && id in w.registry.accounts
    ensures Sane(w.registry, id)
  {
    CurrentIsLast(w, id);
    var d := w.registry.disk;
    assert Settle(d, false) == d;
    assert LineSound(d.lines[id], id, w.clock, w.issued);
    LineWellFormed(d.lines[id], |d.lines[id]| - 1);
  }

  /** After any run and a healthy restart, every active and eligible account whose provider accepts resolves. */
  lemma RestartedAccountResolves(worlds: seq<World>, events: seq<Event>, i: nat, c: Config, survived: bool,
                                 s': Registry, accepting: set<Token>, id: Owner, now: int)
    requires Run(worlds, events) && i < |worlds| && ValidConfig(c) && worlds[i].clock <= now
    requires Loads(c, Settle(worlds[i].registry.disk, survived), s', accepting) && s'.healthy && id in s'.accounts
    requires var m := s'.accounts[id]; m.state.Active? && m.eligibility > now && m.provider in accepting
    ensures var m := s'.accounts[id];
            ClientResolve(Some(ReadReadiness(s', id, now, true)), Some(Resolve(s', id, now, true)))
            == Resolution(m.template, m.provider, m.generation)
  {
    RunKeepsInv(worlds, events, i);
    LoadKeepsInv(worlds[i], c, survived, s', accepting, now);
    assert Publishes(s'.accounts[id], s'.accounts[id].provider);
    SteadyAccountResolves(World(s', now, worlds[i].issued), id, now);
  }
}
