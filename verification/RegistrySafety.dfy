/**
 What holds over every run of the account registry: any sequence of calls and restarts, any
 fate of every write, a clock that does not go back.
 */
module RegistrySafety {
  import opened Wrappers
  import opened AccountRecord
  import opened Registry
  import opened AccountLines
  import opened RegistryRuns
  import opened RegistryIndexes

  // ----- The invariant holds in every world of every run

  lemma LoadKeepsInv(w: World, config: Config, survived: bool, s': Registry, accepting: set<Token>, now: int)
    requires Core(w) && w.clock <= now && ValidConfig(config)
    requires Loads(config, Settle(w.registry.disk, survived), s', accepting)
    ensures Inv(World(s', now, w.issued))
  {
    var d := Settle(w.registry.disk, survived);
    assert Sound(d, w.clock, w.issued);
    SoundLater(d, w.clock, w.issued, now, w.issued);
    var d' := s'.disk;
    assert Manifests(d') == Manifests(d);
    assert d'.lines.Keys <= d'.directories by {
      if s'.healthy {
        forall id | id in d'.lines ensures id in s'.accounts { assert LineSound(d.lines[id], id, now, w.issued); }
      }
    }
    assert LinesSound(d', now, w.issued) by {
      forall id | id in d'.lines ensures LineSound(d'.lines[id], id, now, w.issued) {
        assert LineSound(d.lines[id], id, now, w.issued);
      }
    }
    assert Sound(d', now, w.issued);
    assert Settle(d', false) == d' && Settle(d', true) == d';
    if s'.healthy {
      IndexedAgrees(s'.accounts, s'.pending, now);
    }
  }

  lemma IndexedAgrees(accounts: map<Owner, Metadata>, pending: map<Token, Owner>, now: int)
    requires PendingIndexed(accounts, pending)
    ensures PendingAgrees(accounts, pending, now)
  {
    forall id | id in accounts && Unexpired(accounts[id], now)
      ensures Points(pending, accounts[id].switchRequest.value.id, id)
    {
      assert RequestId(accounts[id]).Some?;
    }
  }

  lemma CallKeepsCore(w: World, e: Event, now: int)
    requires Core(w) && w.clock <= now && Admissible(w, e) && !e.Restart?
    ensures Core(World(Call(w.registry, e, now).registry, now,
                       w.issued + (if e.RequestSwitchCall? then {e.drawn} else {})))
  {
    assert w.issued + {} == w.issued;
    match e
    case EnrollCall(caller, template, operation, draws, file, fault) =>
      EnrollKeepsCore(w, caller, template, operation, now, draws, file, fault);
    case ReconnectCall(caller, operation, file, fault) => ReconnectKeepsCore(w, caller, operation, now, file, fault);
    case RevokeCall(id, operation, fate) => RevokeKeepsCore(w, id, operation, now, fate);
    case RequestSwitchCall(caller, operation, drawn, fate) =>
      RequestSwitchKeepsCore(w, caller, operation, now, drawn, fate);
    case BeginAdmissionCall(id, operation, pruned, written) =>
      BeginAdmissionKeepsCore(w, id, operation, now, pruned, written);
    case BeginSwitchCall(request, operation, pruned, written) =>
      BeginSwitchKeepsCore(w, request, operation, now, pruned, written);
    case EndCall(id, kind, operation, fate) => EndReservationKeepsCore(w, id, kind, operation, now, fate);
    case CommitSwitchCall(id, operation, fate) => CommitSwitchKeepsCore(w, id, operation, now, fate);
    case RenewCall(caller, fate) => EligibilityKeepsCore(w, caller, now, fate);
    case RevokeEligibilityCall(caller, fate) => EligibilityKeepsCore(w, caller, now, fate);
  }

  lemma BeginAdmissionKeepsCore(w: World, id: Owner, operation: string, now: int, pruned: Fate, written: Fate)
    requires Core(w) && w.clock <= now && Identifier(operation)
    ensures Core(World(BeginAdmission(w.registry, id, operation, now, pruned, written).registry, now, w.issued))
  {
    CoreSurvives(w, w.registry, now, w.issued);
    var own := Own(w.registry, id);
    if w.registry.healthy && own.Some? && own.value.state.Active? {
      BeginCoordinationKeepsCore(w, id, Admission, operation, now, pruned, written);
    }
  }

  /** What a switch proof does to the registry: nothing, or a reservation for the account its request names. */
  lemma BeginSwitchCases(s: Registry, request: Token, operation: string, now: int, pruned: Fate, written: Fate)
    ensures var current := Indexed(s.pending, s.accounts, request);
            BeginSwitch(s, request, operation, now, pruned, written).registry ==
            if s.config.switching && s.healthy && current.Some? && current.value.state.Revoked?
               && RequestId(current.value) == Some(request) && Unexpired(current.value, now)
            then BeginCoordination(s, current.value, TemplateSwitch, operation, now, pruned, written).registry
            else s
  {
  }

  lemma BeginSwitchKeepsCore(w: World, request: Token, operation: string, now: int, pruned: Fate, written: Fate)
    requires Core(w) && w.clock <= now && Identifier(operation)
    ensures Core(World(BeginSwitch(w.registry, request, operation, now, pruned, written).registry, now, w.issued))
  {
    BeginSwitchCases(w.registry, request, operation, now, pruned, written);
    if BeginSwitch(w.registry, request, operation, now, pruned, written).registry == w.registry {
      CoreSurvives(w, w.registry, now, w.issued);
    } else {
      BeginCoordinationKeepsCore(w, w.registry.pending[request], TemplateSwitch, operation, now, pruned, written);
    }
  }

  lemma EligibilityKeepsCore(w: World, caller: Caller, now: int, fate: Fate)
    requires Core(w) && w.clock <= now
    ensures Core(World(RenewEligibility(w.registry, caller, now, fate).registry, now, w.issued))
    ensures Core(World(RevokeEligibility(w.registry, caller, now, fate).registry, now, w.issued))
  {
    CoreSurvives(w, w.registry, now, w.issued);
    var id := caller.owner;
    if w.registry.healthy && AssertsEligibility(caller, now) && id in w.registry.accounts {
      SetEligibilityKeepsCore(w, id, caller.eligibility.value, now, fate);
      SetEligibilityKeepsCore(w, id, 0, now, fate);
    }
  }

  lemma CallInStep(w: World, e: Event, now: int)
    requires Inv(w) && w.clock <= now && Admissible(w, e) && !e.Restart?
    ensures InStep(Call(w.registry, e, now).registry, now)
  {
    if e.EnrollCall? || e.ReconnectCall? || e.RevokeCall? || e.RenewCall? || e.RevokeEligibilityCall? {
      CredentialCallInStep(w, e, now);
    } else {
      SwitchCallInStep(w, e, now);
    }
  }

  lemma CredentialCallInStep(w: World, e: Event, now: int)
    requires Inv(w) && w.clock <= now && Admissible(w, e)
    requires e.EnrollCall? || e.ReconnectCall? || e.RevokeCall? || e.RenewCall? || e.RevokeEligibilityCall?
    ensures InStep(Call(w.registry, e, now).registry, now)
  {
    var s := w.registry;
    match e
    case EnrollCall(caller, template, operation, draws, file, fault) =>
      EnrollInStep(w, caller, template, operation, now, draws, file, fault);
    case ReconnectCall(caller, operation, file, fault) => ReconnectInStep(w, caller, operation, now, file, fault);
    case RevokeCall(id, operation, fate) =>
      if s.healthy { CoreIsTidy(w); }
      RevokeInStep(s, w.clock, id, operation, now, fate);
    case RenewCall(caller, fate) => EligibilityInStep(w, caller, now, fate);
    case RevokeEligibilityCall(caller, fate) => EligibilityInStep(w, caller, now, fate);
  }

  lemma SwitchCallInStep(w: World, e: Event, now: int)
    requires Inv(w) && w.clock <= now && Admissible(w, e)
    requires e.RequestSwitchCall? || e.BeginAdmissionCall? || e.BeginSwitchCall? || e.EndCall? || e.CommitSwitchCall?
    ensures InStep(Call(w.registry, e, now).registry, now)
  {
    var s := w.registry;
    if s.healthy { CoreIsTidy(w); }
    LaterInStep(s, w.clock, now);
    match e
    case RequestSwitchCall(caller, operation, drawn, fate) =>
      RequestSwitchInStep(s, w.clock, w.issued, caller, operation, now, drawn, fate);
    case BeginAdmissionCall(id, operation, pruned, written) =>
      ReservationInStep(w, id, Admission, operation, now, pruned, written);
    case BeginSwitchCall(request, operation, pruned, written) =>
      if request in s.pending {
        ReservationInStep(w, s.pending[request], TemplateSwitch, operation, now, pruned, written);
      }
    case EndCall(id, kind, operation, fate) => EndReservationInStep(s, w.clock, id, kind, operation, now, fate);
    case CommitSwitchCall(id, operation, fate) => CommitSwitchInStep(s, w.clock, w.issued, id, operation, now, fate);
  }

  lemma ReservationInStep(w: World, id: Owner, kind: Kind, operation: string, now: int, pruned: Fate, written: Fate)
    requires Inv(w) && w.clock <= now
    ensures w.registry.healthy && id in w.registry.accounts ==>
              InStep(BeginCoordination(w.registry, w.registry.accounts[id], kind, operation, now, pruned,
                                       written).registry, now)
  {
    if w.registry.healthy && id in w.registry.accounts {
      CurrentIsLast(w, id);
      BeginCoordinationInStep(w.registry, w.clock, id, kind, operation, now, pruned, written);
    }
  }

  lemma EligibilityInStep(w: World, caller: Caller, now: int, fate: Fate)
    requires Inv(w) && w.clock <= now
    ensures InStep(RenewEligibility(w.registry, caller, now, fate).registry, now)
    ensures InStep(RevokeEligibility(w.registry, caller, now, fate).registry, now)
  {
    LaterInStep(w.registry, w.clock, now);
    var own := Own(w.registry, caller.owner);
    if w.registry.healthy && own.Some? && AssertsEligibility(caller, now) {
      SetEligibilityInStep(w.registry, w.clock, caller.owner, caller.eligibility.value, now, fate);
      SetEligibilityInStep(w.registry, w.clock, caller.owner, 0, now, fate);
    }
  }

  lemma EnrollInStep(w: World, caller: Caller, template: string, operation: string, now: int, draws: seq<Token>,
                     file: Token, fault: Fault)
    requires Inv(w) && w.clock <= now
    ensures InStep(Enroll(w.registry, caller, template, operation, now, draws, file, fault).registry, now)
  {
    var s := w.registry;
    EnrollCases(s, caller, template, operation, now, draws, file, fault);
    if Enroll(s, caller, template, operation, now, draws, file, fault).registry == s {
      LaterInStep(s, w.clock, now);
    } else {
      CoreIsTidy(w);
      ReplaceInStep(s, w.clock, w.issued, caller, template, operation, now, Enrolling, NewProviderId(s, draws).value,
                    file, fault);
    }
  }

  lemma ReconnectInStep(w: World, caller: Caller, operation: string, now: int, file: Token, fault: Fault)
    requires Inv(w) && w.clock <= now
    ensures InStep(Reconnect(w.registry, caller, operation, now, file, fault).registry, now)
  {
    var s, own := w.registry, Own(w.registry, caller.owner);
    LaterInStep(s, w.clock, now);
    if s.healthy && AssertsEligibility(caller, now) && own.Some? && own.value.state.Active? {
      CoreIsTidy(w);
      ReplaceInStep(s, w.clock, w.issued, caller, own.value.template, operation, now, Reconnecting, own.value.provider,
                    file, fault);
    }
  }

  lemma StepKeepsInv(w: World, e: Event, w': World)
    requires Inv(w) && Step(w, e, w')
    ensures Inv(w')
  {
    if e.Restart? {
      assert w'.issued == w.issued;
      LoadKeepsInv(w, e.config, e.survived, w'.registry, e.accepting, w'.clock);
    } else {
      CallKeepsCore(w, e, w'.clock);
      CallInStep(w, e, w'.clock);
    }
  }

  lemma {:induction false} RunKeepsInv(worlds: seq<World>, events: seq<Event>, i: nat)
    requires Run(worlds, events) && i < |worlds|
    ensures Inv(worlds[i])
  {
    if i == 0 {
      InitialInv(worlds[0]);
    } else {
      RunKeepsInv(worlds, events, i - 1);
      assert StepAt(worlds, events, i - 1);
      StepKeepsInv(worlds[i - 1], events[i - 1], worlds[i]);
    }
  }

  lemma InitialInv(w: World)
    requires Initial(w)
    ensures Inv(w)
  {
    var empty := Disk({}, map[], None);
    assert Manifests(empty) == map[];
    var before := World(w.registry.(healthy := false, disk := empty), w.clock, w.issued);
    assert Settle(empty, true) == empty && Settle(empty, false) == empty;
    LoadKeepsInv(before, w.registry.config, false, w.registry, {}, w.clock);
  }

  // ----- Lines only grow

  ghost predicate LinesGrow(d: Disk, d': Disk) {
    forall id | id in d.lines :: id in d'.lines && d.lines[id] <= d'.lines[id]
  }

  lemma CoordinationGrows(s: Registry, current: Metadata, kind: Kind, operation: string, now: int, pruned: Fate,
                          written: Fate)
    ensures LinesGrow(s.disk, BeginCoordination(s, current, kind, operation, now, pruned, written).registry.disk)
  {
    var s1 := Lapse(s, current, now, pruned);
    var s2 := Reserve(s1, current.(reservation := None, updatedAt := now), kind, operation, now, written).registry;
    assert LinesGrow(s.disk, s1.disk) && LinesGrow(s1.disk, s2.disk);
  }

  lemma ReplaceGrows(s: Registry, caller: Caller, current: Option<Metadata>, template: string, operation: string,
                     now: int,
                     action: Action, provider: Token, file: Token, fault: Fault)
    requires caller.eligibility.Some?
    ensures LinesGrow(s.disk,
                      Replace(s, caller, current, template, operation, now, action, provider, file,
                              fault).registry.disk)
  {
  }

  lemma EnrollGrows(s: Registry, caller: Caller, template: string, operation: string, now: int, draws: seq<Token>,
                    file: Token, fault: Fault)
    ensures LinesGrow(s.disk, Enroll(s, caller, template, operation, now, draws, file, fault).registry.disk)
  {
    EnrollCases(s, caller, template, operation, now, draws, file, fault);
    if Enroll(s, caller, template, operation, now, draws, file, fault).registry != s {
      ReplaceGrows(s, caller, Prior(s, caller.owner), template, operation, now, Enrolling,
                   NewProviderId(s, draws).value, file, fault);
    }
  }

  lemma RequestSwitchGrows(s: Registry, caller: Caller, operation: string, now: int, drawn: Token, fate: Fate)
    ensures LinesGrow(s.disk, RequestSwitch(s, caller, operation, now, drawn, fate).registry.disk)
  {
    RequestSwitchCases(s, caller, operation, now, drawn, fate);
  }

  lemma WritersGrow(s: Registry, e: Event, now: int)
    requires e.RevokeCall? || e.EndCall? || e.CommitSwitchCall? || e.RenewCall? || e.RevokeEligibilityCall?
    ensures LinesGrow(s.disk, Call(s, e, now).registry.disk)
  {
  }

  lemma ReconnectGrows(s: Registry, caller: Caller, operation: string, now: int, file: Token, fault: Fault)
    ensures LinesGrow(s.disk, Reconnect(s, caller, operation, now, file, fault).registry.disk)
  {
  }

  lemma BeginSwitchGrows(s: Registry, request: Token, operation: string, now: int, pruned: Fate, written: Fate)
    ensures LinesGrow(s.disk, BeginSwitch(s, request, operation, now, pruned, written).registry.disk)
  {
    BeginSwitchCases(s, request, operation, now, pruned, written);
    var current := Indexed(s.pending, s.accounts, request);
    if current.Some? { CoordinationGrows(s, current.value, TemplateSwitch, operation, now, pruned, written); }
  }

  lemma BeginAdmissionGrows(s: Registry, id: Owner, operation: string, now: int, pruned: Fate, written: Fate)
    ensures LinesGrow(s.disk, BeginAdmission(s, id, operation, now, pruned, written).registry.disk)
  {
    if id in s.accounts { CoordinationGrows(s, s.accounts[id], Admission, operation, now, pruned, written); }
  }

  lemma CallGrows(s: Registry, e: Event, now: int)
    requires !e.Restart?
    ensures LinesGrow(s.disk, Call(s, e, now).registry.disk)
  {
    match e
    case EnrollCall(caller, template, operation, draws, file, fault) =>
      EnrollGrows(s, caller, template, operation, now, draws, file, fault);
    case ReconnectCall(caller, operation, file, fault) => ReconnectGrows(s, caller, operation, now, file, fault);
    case RequestSwitchCall(caller, operation, drawn, fate) =>
      RequestSwitchGrows(s, caller, operation, now, drawn, fate);
    case BeginAdmissionCall(id, operation, pruned, written) =>
      BeginAdmissionGrows(s, id, operation, now, pruned, written);
    case BeginSwitchCall(request, operation, pruned, written) =>
      BeginSwitchGrows(s, request, operation, now, pruned, written);
    case _ => WritersGrow(s, e, now);
  }

  lemma StepGrows(w: World, e: Event, w': World)
    requires Step(w, e, w')
    ensures LinesGrow(w.registry.disk, w'.registry.disk)
  {
    if !e.Restart? { CallGrows(w.registry, e, w'.clock); }
  }

  lemma RunStepGrows(worlds: seq<World>, events: seq<Event>, i: nat)
    requires Run(worlds, events) && i < |events|
    ensures LinesGrow(worlds[i].registry.disk, worlds[i + 1].registry.disk)
  {
    assert StepAt(worlds, events, i);
    StepGrows(worlds[i], events[i], worlds[i + 1]);
  }

  lemma GrowsTransitively(a: Disk, b: Disk, c: Disk)
    requires LinesGrow(a, b) && LinesGrow(b, c)
    ensures LinesGrow(a, c)
  {
  }

  lemma {:induction false} RunGrows(worlds: seq<World>, events: seq<Event>, i: nat, j: nat)
    requires Run(worlds, events) && i <= j < |worlds|
    ensures LinesGrow(worlds[i].registry.disk, worlds[j].registry.disk)
  {
    if i < j {
      RunGrows(worlds, events, i, j - 1);
      RunStepGrows(worlds, events, j - 1);
      GrowsTransitively(worlds[i].registry.disk, worlds[j - 1].registry.disk, worlds[j].registry.disk);
    }
  }

  /** In every world of a run, the line a restart would find for an account is well formed. */
  lemma RunLineOk(worlds: seq<World>, events: seq<Event>, i: nat, survived: bool, id: Owner)
    requires Run(worlds, events) && i < |worlds| && id in Settle(worlds[i].registry.disk, survived).lines
    ensures var line := Settle(worlds[i].registry.disk, survived).lines[id];
            LineOk(line) && line[0].meta.owner == id
  {
    RunKeepsInv(worlds, events, i);
    var d := Settle(worlds[i].registry.disk, survived);
    assert Sound(d, worlds[i].clock, worlds[i].issued);
    assert LineSound(d.lines[id], id, worlds[i].clock, worlds[i].issued);
  }

  // ----- Main results

  /**
   Whenever an account's template changes, the change was authorized by a switch reservation
   from whose creation up to the change no admission reservation was live.
   */
  lemma TemplateSwitchExcludesAdmission(worlds: seq<World>, events: seq<Event>, i: nat, survived: bool, id: Owner,
                                        k: nat)
    requires Run(worlds, events) && i < |worlds| && id in Settle(worlds[i].registry.disk, survived).lines
    requires 0 < k < |Settle(worlds[i].registry.disk, survived).lines[id]|
    requires var line := Settle(worlds[i].registry.disk, survived).lines[id];
             line[k].meta.template != line[k - 1].meta.template
    ensures exists r, c :: Excludes(Settle(worlds[i].registry.disk, survived).lines[id], r, c, k)
  {
    RunLineOk(worlds, events, i, survived, id);
    SwitchIsExclusive(Settle(worlds[i].registry.disk, survived).lines[id], k);
  }

  /**
   Every manifest a restart may find passes the loader's check, unless a replacement was made over a switch
   reservation.
   */
  lemma CommittedRecordsLoad(worlds: seq<World>, events: seq<Event>, i: nat, survived: bool, id: Owner)
    requires Run(worlds, events) && i < |worlds| && id in Settle(worlds[i].registry.disk, survived).lines
    ensures var line := Settle(worlds[i].registry.disk, survived).lines[id];
            && line != [] && line[0].meta.owner == id
            && (AllValid(line) <==> NeverOverwritesSwitch(line))
  {
    RunLineOk(worlds, events, i, survived, id);
    LineValidIff(Settle(worlds[i].registry.disk, survived).lines[id]);
  }

  /** The log of an account is the last 32 operations of its whole history, with pairwise different ids. */
  lemma LogIsRecentHistory(worlds: seq<World>, events: seq<Event>, i: nat, id: Owner)
    requires Run(worlds, events) && i < |worlds| && worlds[i].registry.healthy && id in worlds[i].registry.accounts
    ensures id in worlds[i].registry.disk.lines
    ensures worlds[i].registry.accounts[id].operations == Window(History(worlds[i].registry.disk.lines[id]))
    ensures DistinctIds(worlds[i].registry.accounts[id].operations)
  {
    RunKeepsInv(worlds, events, i);
    CurrentIsLast(worlds[i], id);
    var d := worlds[i].registry.disk;
    assert Settle(d, false) == d;
    RunLineOk(worlds, events, i, false, id);
    LogIsWindowOfHistory(d.lines[id]);
  }

  /** A mutation repeated with an id still in the log changes nothing: it is refused or answered from the log. */
  lemma RepeatChangesNothing(w: World, e: Event, now: int)
    requires Inv(w) && (e.EnrollCall? || e.ReconnectCall? || e.RevokeCall?)
    requires var id := if e.RevokeCall? then e.id else e.caller.owner;
             id in w.registry.accounts && Logged(w.registry.accounts[id].operations, e.operation)
    ensures var o := Call(w.registry, e, now);
            var id := if e.RevokeCall? then e.id else e.caller.owner;
            && o.registry == w.registry
            && (o.reply.Refused? ||
                exists k :: 0 <= k < |w.registry.accounts[id].operations|
                  && w.registry.accounts[id].operations[k].id == e.operation
                            && o.reply == Done(w.registry.accounts[id].operations[k].result))
  {
    var id := if e.RevokeCall? then e.id else e.caller.owner;
    var found := Find(w.registry.accounts[id].operations, e.operation);
    assert found.value in w.registry.accounts[id].operations;
    var k :| 0 <= k < |w.registry.accounts[id].operations| && w.registry.accounts[id].operations[k] == found.value;
  }

  // ----- The indexes against a scan

  ghost predicate HasRequest(m: Metadata, request: Token, now: int) {
    m.state.Revoked? && RequestId(m) == Some(request) && Unexpired(m, now)
  }

  /** The same call, made by looking through all the records. */
  ghost function BeginSwitchByScan(s: Registry, request: Token, operation: string, now: int, pruned: Fate,
                                   written: Fate): (o: Outcome) {
    if !s.config.switching then Refuse(s, NotFound)
    else if !s.healthy then Refuse(s, Unavailable)
    else if exists id :: id in s.accounts && HasRequest(s.accounts[id], request, now) then
      var id :| id in s.accounts && HasRequest(s.accounts[id], request, now);
      var o := BeginCoordination(s, s.accounts[id], TemplateSwitch, operation, now, pruned, written);
      if o.reply.Held? then Outcome(o.registry, SwitchHeld(s.accounts[id].owner, o.reply.expiresAt)) else o
    else if exists id :: id in s.accounts && Replays(s.accounts[id], request, operation) then
      var id :| id in s.accounts && Replays(s.accounts[id], request, operation);
      Outcome(s, SwitchHeld(s.accounts[id].owner, now + s.config.reservationSeconds))
    else Refuse(s, SwitchRequestNotFound)
  }

  lemma IndexFindsRequest(w: World, request: Token, now: int, id: Owner)
    requires Inv(w) && w.registry.healthy && w.clock <= now && id in w.registry.accounts
    requires HasRequest(w.registry.accounts[id], request, now)
    ensures Points(w.registry.pending, request, id)
  {
    assert Unexpired(w.registry.accounts[id], w.clock);
  }

  lemma IndexFindsAuthorization(w: World, request: Token, operation: string, id: Owner)
    requires Inv(w) && w.registry.healthy && id in w.registry.accounts
             && Replays(w.registry.accounts[id], request, operation)
    ensures Points(w.registry.authorized, request, id) && request !in w.registry.pending
  {
    var s := w.registry;
    CoreIsTidy(w);
    assert AuthorizedId(s.accounts[id]) == Some(request);
    assert SelfApart(s.accounts[id]);
    assert request in s.pending && s.pending[request] != id ==> Apart(s.accounts[s.pending[request]], s.accounts[id]);
  }

  /** What the indexes must give for the two lookups to coincide. */
  ghost predicate Covers(s: Registry, request: Token, operation: string, now: int) {
    && (forall a | a in s.accounts && HasRequest(s.accounts[a], request, now) :: Points(s.pending, request, a))
    && (forall a | a in s.accounts && Replays(s.accounts[a], request, operation) ::
          Points(s.authorized, request, a) && request !in s.pending)
  }

  lemma IndexesCover(w: World, request: Token, operation: string, now: int)
    requires Inv(w) && w.registry.healthy && w.clock <= now
    ensures Covers(w.registry, request, operation, now)
  {
    var s := w.registry;
    forall a | a in s.accounts && HasRequest(s.accounts[a], request, now) ensures Points(s.pending, request, a) {
      IndexFindsRequest(w, request, now, a);
    }
    forall a | a in s.accounts && Replays(s.accounts[a], request, operation)
      ensures Points(s.authorized, request, a) && request !in s.pending
    {
      IndexFindsAuthorization(w, request, operation, a);
    }
  }

  lemma ScanByIndex(s: Registry, request: Token, operation: string, now: int, pruned: Fate, written: Fate)
    requires s.healthy && Covers(s, request, operation, now)
    ensures BeginSwitch(s, request, operation, now, pruned, written) ==
            BeginSwitchByScan(s, request, operation, now, pruned, written)
  {
    if id :| id in s.accounts && HasRequest(s.accounts[id], request, now) {
      assert Indexed(s.pending, s.accounts, request) == Some(s.accounts[id]);
    } else if id :| id in s.accounts && Replays(s.accounts[id], request, operation) {
      assert Indexed(s.pending, s.accounts, request) == None;
      assert Indexed(s.authorized, s.accounts, request) == Some(s.accounts[id]);
    } else {
      NothingIndexed(s, request, operation, now);
    }
  }

  lemma NothingIndexed(s: Registry, request: Token, operation: string, now: int)
    requires !exists id :: id in s.accounts && HasRequest(s.accounts[id], request, now)
    requires !exists id :: id in s.accounts && Replays(s.accounts[id], request, operation)
    ensures var current := Indexed(s.pending, s.accounts, request);
            current.Some? ==> !HasRequest(current.value, request, now)
    ensures var done := Indexed(s.authorized, s.accounts, request);
            done.Some? ==> !Replays(done.value, request, operation)
  {
  }

  /** In every world of every run the indexed lookup and the scan are the same function. */
  lemma IndexedLookupIsScan(worlds: seq<World>, events: seq<Event>, i: nat, request: Token, operation: string, now: int,
                            pruned: Fate, written: Fate)
    requires Run(worlds, events) && i < |worlds| && worlds[i].clock <= now
    ensures BeginSwitch(worlds[i].registry, request, operation, now, pruned, written)
         == BeginSwitchByScan(worlds[i].registry, request, operation, now, pruned, written)
  {
    RunKeepsInv(worlds, events, i);
    if worlds[i].registry.healthy {
      IndexesCover(worlds[i], request, operation, now);
      ScanByIndex(worlds[i].registry, request, operation, now, pruned, written);
    }
  }

  // ----- Generations

  /** The generation reported for an account is the number of replacements it has seen. */
  lemma GenerationIsCount(w: World, id: Owner)
    requires Inv(w) && w.registry.healthy && id in w.registry.accounts
    ensures id in w.registry.disk.lines && w.registry.accounts[id].generation == Replacements(w.registry.disk.lines[id])
  {
    CurrentIsLast(w, id);
    var d := w.registry.disk;
    assert Settle(d, false) == d;
    assert LineSound(d.lines[id], id, w.clock, w.issued);
    GenerationCountsReplacements(d.lines[id]);
  }

  /** Without a replacement, an account that is active at the end was active, and unchanged, all along. */
  lemma {:induction false} UnreplacedStaysActive(line: Line, n: nat, k: nat)
    requires LineOk(line) && 0 < n <= k < |line| && line[k].meta.state.Active?
    requires forall i | n <= i <= k :: !line[i].cause.Replaced?
    ensures line[n - 1].meta.state.Active?
    ensures line[n - 1].meta.template == line[k].meta.template && line[n - 1].meta.provider == line[k].meta.provider
    ensures line[n - 1].meta.credential == line[k].meta.credential
  {
    assert Linked(line, k);
    if n < k { UnreplacedStaysActive(line, n, k - 1); }
  }

  /** The record reported later is that of the same, unreplaced enrollment. */
  predicate SameEnrollment(m: Metadata, m': Metadata) {
    m.state.Active? && m.template == m'.template && m.provider == m'.provider && m.credential == m'.credential
  }

  ghost predicate NoReplacement(line: Line, line': Line) {
    forall n | |line| <= n < |line'| :: !line'[n].cause.Replaced?
  }

  lemma GenerationsCompare(w: World, w': World, id: Owner)
    requires Inv(w) && Inv(w') && LinesGrow(w.registry.disk, w'.registry.disk)
    requires w.registry.healthy && id in w.registry.accounts && w'.registry.healthy
    ensures id in w'.registry.accounts && id in w.registry.disk.lines && id in w'.registry.disk.lines
    ensures var m, m' := w.registry.accounts[id], w'.registry.accounts[id];
            && m.generation <= m'.generation
            && (m.generation == m'.generation <==> NoReplacement(w.registry.disk.lines[id], w'.registry.disk.lines[id]))
            && (m.generation == m'.generation && m'.state.Active? ==> SameEnrollment(m, m'))
  {
    GenerationIsCount(w, id);
    CurrentIsLast(w, id);
    CurrentIsLast(w', id);
    GenerationIsCount(w', id);
    ReplacementsSplit(w.registry.disk.lines[id], w'.registry.disk.lines[id]);
    var m, m' := w.registry.accounts[id], w'.registry.accounts[id];
    if m.generation == m'.generation && m'.state.Active? {
      SameEnrollmentAcross(w, w', id);
    }
  }

  lemma UnreplacedSince(line: Line, line': Line)
    requires line != [] && line <= line' && LineOk(line') && NoReplacement(line, line') && Manifest(line').state.Active?
    ensures SameEnrollment(Manifest(line), Manifest(line'))
  {
    if |line| < |line'| {
      UnreplacedStaysActive(line', |line|, |line'| - 1);
      assert line'[|line| - 1] == line[|line| - 1];
    } else {
      assert line == line';
    }
  }

  lemma CurrentLine(w: World, id: Owner)
    requires Inv(w) && w.registry.healthy && id in w.registry.accounts
    ensures id in w.registry.disk.lines && w.registry.disk.lines[id] != [] && LineOk(w.registry.disk.lines[id])
    ensures Manifest(w.registry.disk.lines[id]) == w.registry.accounts[id]
  {
    CurrentIsLast(w, id);
    assert Settle(w.registry.disk, false) == w.registry.disk;
    assert LineSound(w.registry.disk.lines[id], id, w.clock, w.issued);
  }

  lemma SameEnrollmentAcross(w: World, w': World, id: Owner)
    requires Inv(w) && Inv(w') && LinesGrow(w.registry.disk, w'.registry.disk)
    requires w.registry.healthy && id in w.registry.accounts && w'.registry.healthy && id in w'.registry.accounts
    requires id in w.registry.disk.lines && id in w'.registry.disk.lines
    requires w'.registry.accounts[id].state.Active?
    requires NoReplacement(w.registry.disk.lines[id], w'.registry.disk.lines[id])
    ensures SameEnrollment(w.registry.accounts[id], w'.registry.accounts[id])
  {
    CurrentLine(w, id);
    CurrentLine(w', id);
    UnreplacedSince(w.registry.disk.lines[id], w'.registry.disk.lines[id]);
  }

  /**
   Reported generations never fall; two equal reports mean that nothing was replaced between
   them, and if the account is then active, that template, provider and credential stayed the same.
   */
  lemma EqualGenerationsMeanNoReplacement(worlds: seq<World>, events: seq<Event>, i: nat, j: nat, id: Owner)
    requires Run(worlds, events) && i <= j < |worlds|
    requires worlds[i].registry.healthy && id in worlds[i].registry.accounts && worlds[j].registry.healthy
    ensures id in worlds[j].registry.accounts && id in worlds[i].registry.disk.lines
            && id in worlds[j].registry.disk.lines
    ensures var m, m' := worlds[i].registry.accounts[id], worlds[j].registry.accounts[id];
            && m.generation <= m'.generation
            && (m.generation == m'.generation <==>
                NoReplacement(worlds[i].registry.disk.lines[id], worlds[j].registry.disk.lines[id]))
            && (m.generation == m'.generation && m'.state.Active? ==> SameEnrollment(m, m'))
  {
    RunKeepsInv(worlds, events, i);
    RunKeepsInv(worlds, events, j);
    RunGrows(worlds, events, i, j);
    GenerationsCompare(worlds[i], worlds[j], id);
  }
}
