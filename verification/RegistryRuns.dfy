/**
 Runs of the registry: any sequence of calls and restarts, with any fate for every write,
 under a clock that does not go back and request ids that are drawn fresh.
 */
module RegistryRuns {
  import opened Wrappers
  import opened AccountRecord
  import opened Registry
  import opened AccountLines

  datatype Event =
    | EnrollCall(caller: Caller, template: string, operation: string, draws: seq<Token>, file: Token, fault: Fault)
    | ReconnectCall(caller: Caller, operation: string, file: Token, fault: Fault)
    | RevokeCall(id: Owner, operation: string, fate: Fate)
    | RequestSwitchCall(caller: Caller, operation: string, drawn: Token, fate: Fate)
    | BeginAdmissionCall(id: Owner, operation: string, pruned: Fate, written: Fate)
    | BeginSwitchCall(request: Token, operation: string, pruned: Fate, written: Fate)
    | EndCall(id: Owner, kind: Kind, operation: string, fate: Fate)
    | CommitSwitchCall(id: Owner, operation: string, fate: Fate)
    | RenewCall(caller: Caller, fate: Fate)
    | RevokeEligibilityCall(caller: Caller, fate: Fate)
    | Restart(config: Config, survived: bool, accepting: set<Token>)

  function Call(s: Registry, e: Event, now: int): (o: Outcome)
    requires !e.Restart?
  {
    match e
    case EnrollCall(caller, template, operation, draws, file, fault) =>
      Enroll(s, caller, template, operation, now, draws, file, fault)
    case ReconnectCall(caller, operation, file, fault) => Reconnect(s, caller, operation, now, file, fault)
    case RevokeCall(id, operation, fate) => Revoke(s, id, operation, now, fate)
    case RequestSwitchCall(caller, operation, drawn, fate) => RequestSwitch(s, caller, operation, now, drawn, fate)
    case BeginAdmissionCall(id, operation, pruned, written) => BeginAdmission(s, id, operation, now, pruned, written)
    case BeginSwitchCall(request, operation, pruned, written) =>
      BeginSwitch(s, request, operation, now, pruned, written)
    case EndCall(id, kind, operation, fate) => EndReservation(s, id, kind, operation, now, fate)
    case CommitSwitchCall(id, operation, fate) => CommitSwitch(s, id, operation, now, fate)
    case RenewCall(caller, fate) => RenewEligibility(s, caller, now, fate)
    case RevokeEligibilityCall(caller, fate) => RevokeEligibility(s, caller, now, fate)
  }

  datatype World = World(registry: Registry, clock: int, issued: set<Token>)

  predicate KnownOwner(id: Owner) {
    IdentityText(id.issuer) && IdentityText(id.subject)
  }

  /** What the request decoder and the authenticator have already established. */
  ghost predicate Admissible(w: World, e: Event) {
    match e
    case EnrollCall(caller, _, operation, _, _, _) => KnownOwner(caller.owner) && Identifier(operation)
    case ReconnectCall(_, operation, _, _) => Identifier(operation)
    case RevokeCall(_, operation, _) => Identifier(operation)
    case RequestSwitchCall(_, operation, drawn, _) => Identifier(operation) && drawn !in w.issued
    case BeginAdmissionCall(_, operation, _, _) => Identifier(operation)
    case BeginSwitchCall(_, operation, _, _) => Identifier(operation)
    case EndCall(_, _, operation, _) => Identifier(operation)
    case CommitSwitchCall(_, operation, _) => Identifier(operation)
    case RenewCall(_, _) => true
    case RevokeEligibilityCall(_, _) => true
    case Restart(config, _, _) => ValidConfig(config)
  }

  ghost predicate Step(w: World, e: Event, w': World) {
    && w.clock <= w'.clock
    && Admissible(w, e)
    && w'.issued == w.issued + (if e.RequestSwitchCall? then {e.drawn} else {})
    && if e.Restart? then Loads(e.config, Settle(w.registry.disk, e.survived), w'.registry, e.accepting)
       else w'.registry == Call(w.registry, e, w'.clock).registry
  }

  ghost predicate Initial(w: World) {
    && ValidConfig(w.registry.config) && w.clock >= 0
    && Loads(w.registry.config, Disk({}, map[], None), w.registry, {})
  }

  ghost predicate StepAt(worlds: seq<World>, events: seq<Event>, i: nat)
    requires |worlds| == |events| + 1 && i < |events|
  {
    Step(worlds[i], events[i], worlds[i + 1])
  }

  ghost predicate Run(worlds: seq<World>, events: seq<Event>) {
    && |worlds| == |events| + 1
    && Initial(worlds[0])
    && forall i | 0 <= i < |events| :: StepAt(worlds, events, i)
  }

  // ----- The invariant

  predicate Issued(m: Metadata, issued: set<Token>) {
    && (RequestId(m).Some? ==> RequestId(m).value in issued)
    && (AuthorizedId(m).Some? ==> AuthorizedId(m).value in issued)
  }

  ghost predicate LineSound(line: Line, id: Owner, clock: int, issued: set<Token>) {
    && LineOk(line) && line[0].meta.owner == id
    && line[|line| - 1].at <= clock
    && Issued(Manifest(line), issued)
  }

  ghost predicate LinesSound(d: Disk, clock: int, issued: set<Token>) {
    && d.lines.Keys <= d.directories
    && forall id | id in d.lines :: LineSound(d.lines[id], id, clock, issued)
  }

  ghost predicate Sound(d: Disk, clock: int, issued: set<Token>) {
    && LinesSound(d, clock, issued)
    && DistinctProviders(Manifests(d))
    && DistinctRequests(Manifests(d))
  }

  /** The configuration still knows what the records name. */
  ghost predicate Suits(c: Config, accounts: map<Owner, Metadata>) {
    forall id | id in accounts ::
      && accounts[id].provider !in c.staticNames
      && (accounts[id].state.Active? ==> accounts[id].template in c.templates)
  }

  /** The disk is sound whichever manifest a restart will find; a healthy manager mirrors it. */
  ghost predicate Core(w: World) {
    var s := w.registry;
    && ValidConfig(s.config) && w.clock >= 0
    && Sound(Settle(s.disk, false), w.clock, w.issued)
    && Sound(Settle(s.disk, true), w.clock, w.issued)
    && (s.healthy ==> s.disk.unsettled.None? && s.accounts == Manifests(s.disk))
    && (s.healthy || s.disk.unsettled.Some? ==>
          Suits(s.config, Manifests(Settle(s.disk, false))) && Suits(s.config, Manifests(Settle(s.disk, true))))
  }

  predicate Unexpired(m: Metadata, now: int) {
    m.switchRequest.Some? && m.switchRequest.value.expiresAt > now
  }

  /** The pending index names only recorded requests, and every one that has not expired. */
  ghost predicate PendingAgrees(accounts: map<Owner, Metadata>, pending: map<Token, Owner>, now: int) {
    && (forall q | q in pending :: pending[q] in accounts && RequestId(accounts[pending[q]]) == Some(q))
    && (forall id | id in accounts && Unexpired(accounts[id], now) ::
          Points(pending, accounts[id].switchRequest.value.id, id))
  }

  ghost predicate IndexesAgree(s: Registry, now: int) {
    PendingAgrees(s.accounts, s.pending, now) && AuthorizedIndexed(s.accounts, s.authorized)
  }

  ghost predicate InStep(s: Registry, now: int) {
    s.healthy ==> IndexesAgree(s, now) && ProvidersOwned(s.accounts, s.providers)
  }

  ghost predicate Inv(w: World) {
    Core(w) && InStep(w.registry, w.clock)
  }

  // ----- One write

  lemma ManifestsAppend(d: Disk, id: Owner, v: Version)
    ensures Manifests(Append(d, id, v)) == Manifests(d)[id := v.meta]
  {
    var d' := Append(d, id, v);
    assert Manifests(d').Keys == Manifests(d).Keys + {id};
  }

  /** `m` may join the records of the other accounts: its provider and request ids collide with none. */
  ghost predicate Fits(c: Config, accounts: map<Owner, Metadata>, id: Owner, m: Metadata) {
    && (forall a | a in accounts && a != id :: DifferentProviders(accounts[a], m) && Apart(accounts[a], m))
    && SelfApart(m)
    && m.provider !in c.staticNames
    && (m.state.Active? ==> m.template in c.templates)
  }

  lemma LinesSoundAppend(d: Disk, clock: int, issued: set<Token>, id: Owner, v: Version, issued': set<Token>)
    requires LinesSound(d, clock, issued) && clock <= v.at && 0 <= v.at && issued <= issued'
    requires Follows(Before(LineOf(d, id), |LineOf(d, id)|), v)
    requires v.meta.owner == id && KnownOwner(id)
    requires Issued(v.meta, issued')
    ensures LinesSound(Append(d, id, v), v.at, issued')
  {
    LineExtend(LineOf(d, id), v);
    var d' := Append(d, id, v);
    forall a | a in d'.lines ensures LineSound(d'.lines[a], a, v.at, issued') {
      if a != id { assert LineSound(d.lines[a], a, clock, issued); }
    }
  }

  lemma AppendSound(c: Config, d: Disk, clock: int, issued: set<Token>, id: Owner, v: Version, issued': set<Token>)
    requires Sound(d, clock, issued) && clock <= v.at && 0 <= v.at && issued <= issued'
    requires Follows(Before(LineOf(d, id), |LineOf(d, id)|), v)
    requires v.meta.owner == id && KnownOwner(id)
    requires Fits(c, Manifests(d), id, v.meta) && Issued(v.meta, issued')
    ensures Sound(Append(d, id, v), v.at, issued')
  {
    ManifestsAppend(d, id, v);
    LinesSoundAppend(d, clock, issued, id, v, issued');
    FitsKeepsDistinct(c, Manifests(d), id, v.meta);
  }

  lemma FitsKeepsDistinct(c: Config, accounts: map<Owner, Metadata>, id: Owner, m: Metadata)
    requires DistinctProviders(accounts) && DistinctRequests(accounts) && Fits(c, accounts, id, m)
    ensures DistinctProviders(accounts[id := m]) && DistinctRequests(accounts[id := m])
  {
    var after := accounts[id := m];
    forall a, b | a in after && b in after && a != b
      ensures DifferentProviders(after[a], after[b]) && Apart(after[a], after[b])
    {
      if a != id && b != id {
        assert DifferentProviders(accounts[a], accounts[b]) && Apart(accounts[a], accounts[b]);
      }
    }
  }

  lemma SoundLater(d: Disk, clock: int, issued: set<Token>, clock': int, issued': set<Token>)
    requires Sound(d, clock, issued) && clock <= clock' && issued <= issued'
    ensures Sound(d, clock', issued')
  {
    forall id | id in d.lines ensures LineSound(d.lines[id], id, clock', issued') {
      assert LineSound(d.lines[id], id, clock, issued);
    }
  }

  /** The manifest in memory is the last one of the account's line. */
  lemma CurrentIsLast(w: World, id: Owner)
    requires Core(w) && w.registry.healthy
    ensures id in w.registry.accounts <==> LineOf(w.registry.disk, id) != []
    ensures id in w.registry.accounts ==>
              && w.registry.accounts[id].owner == id && KnownOwner(id)
              && Before(LineOf(w.registry.disk, id), |LineOf(w.registry.disk, id)|) == Some(w.registry.accounts[id])
              && Issued(w.registry.accounts[id], w.issued)
  {
    var d := w.registry.disk;
    assert Settle(d, false) == d;
    if id in d.lines {
      assert LineSound(d.lines[id], id, w.clock, w.issued);
      OwnerIsFixed(d.lines[id], |d.lines[id]| - 1);
    }
  }

  ghost function Prior(s: Registry, id: Owner): (prev: Option<Metadata>) {
    if id in s.accounts then Some(s.accounts[id]) else None
  }

  lemma WriteKeepsCore(w: World, id: Owner, v: Version, fate: Fate, issued': set<Token>)
    requires Core(w) && w.registry.healthy && w.clock <= v.at && w.issued <= issued'
    requires Follows(Prior(w.registry, id), v)
    requires v.meta.owner == id && KnownOwner(id)
    requires Fits(w.registry.config, w.registry.accounts, id, v.meta) && Issued(v.meta, issued')
    ensures Core(World(Write(w.registry, id, v, fate), v.at, issued'))
  {
    var d := w.registry.disk;
    assert Settle(d, false) == d && Settle(d, true) == d;
    CurrentIsLast(w, id);
    SoundLater(d, w.clock, w.issued, v.at, issued');
    AppendSound(w.registry.config, d, w.clock, w.issued, id, v, issued');
    ManifestsAppend(d, id, v);
    var d' := Write(w.registry, id, v, fate).disk;
    match fate
    case Synced => assert Settle(d', false) == d' == Settle(d', true);
    case Lost =>
    case Unconfirmed => assert Settle(d', false) == d; assert Settle(d', true) == Append(d, id, v);
  }

  // ----- Every call keeps the core

  /** Time passing, a directory appearing, an index or a handle changing: none of it touches the core. */
  lemma CoreSurvives(w: World, s': Registry, now: int, issued': set<Token>)
    requires Core(w) && w.clock <= now && w.issued <= issued'
    requires s'.config == w.registry.config && s'.accounts == w.registry.accounts
    requires s'.healthy ==> w.registry.healthy
    requires s'.disk.lines == w.registry.disk.lines && s'.disk.unsettled == w.registry.disk.unsettled
    requires w.registry.disk.directories <= s'.disk.directories
    ensures Core(World(s', now, issued'))
  {
    var d, d' := w.registry.disk, s'.disk;
    SoundLater(Settle(d, false), w.clock, w.issued, now, issued');
    SoundLater(Settle(d, true), w.clock, w.issued, now, issued');
    forall survived: bool
      ensures Sound(Settle(d', survived), now, issued')
              && Manifests(Settle(d', survived)) == Manifests(Settle(d, survived))
    {
      assert Settle(d', survived).lines == Settle(d, survived).lines;
      assert Settle(d, survived).directories <= Settle(d', survived).directories;
      assert Manifests(Settle(d', survived)) == Manifests(Settle(d, survived));
      assert LinesSound(Settle(d', survived), now, issued') by {
        assert LinesSound(Settle(d, survived), now, issued');
      }
    }
    if s'.healthy { assert Manifests(d') == Manifests(d); }
  }

  /** The account's own record, with its ids, its provider and its template kept, always fits. */
  lemma SameIdentityFits(w: World, id: Owner, m: Metadata)
    requires Core(w) && w.registry.healthy && id in w.registry.accounts
    requires var p := w.registry.accounts[id];
             && (RequestId(m).Some? ==> Carries(p, RequestId(m).value))
             && (AuthorizedId(m).Some? ==> Carries(p, AuthorizedId(m).value))
             && m.provider == p.provider && m.template == p.template && (m.state.Active? ==> p.state.Active?)
    requires SelfApart(m)
    ensures Fits(w.registry.config, w.registry.accounts, id, m)
  {
    assert Settle(w.registry.disk, false) == w.registry.disk;
    var accounts := w.registry.accounts;
    forall a | a in accounts && a != id ensures DifferentProviders(accounts[a], m) && Apart(accounts[a], m) {
      assert DifferentProviders(accounts[a], accounts[id]) && Apart(accounts[a], accounts[id]);
    }
  }

  lemma OwnRequestIsDistinct(w: World, id: Owner)
    requires Core(w) && w.registry.healthy && id in w.registry.accounts
    ensures SelfApart(w.registry.accounts[id])
  {
    assert Settle(w.registry.disk, false) == w.registry.disk;
  }

  /** A write that keeps the record's identity. */
  lemma PlainWriteKeepsCore(w: World, id: Owner, v: Version, fate: Fate)
    requires Core(w) && w.registry.healthy && w.clock <= v.at && id in w.registry.accounts
    requires Follows(Some(w.registry.accounts[id]), v)
    requires var p := w.registry.accounts[id];
             && v.meta.owner == p.owner && v.meta.switchRequest == p.switchRequest
                && v.meta.authorization == p.authorization
             && v.meta.provider == p.provider && v.meta.template == p.template
                && (v.meta.state.Active? ==> p.state.Active?)
    ensures Core(World(Write(w.registry, id, v, fate), v.at, w.issued))
  {
    CurrentIsLast(w, id);
    OwnRequestIsDistinct(w, id);
    SameIdentityFits(w, id, v.meta);
    WriteKeepsCore(w, id, v, fate, w.issued);
  }

  predicate MayReserve(m: Metadata, kind: Kind, now: int) {
    match kind
    case Admission => m.state.Active?
    case TemplateSwitch => m.state.Revoked? && Unexpired(m, now)
  }

  lemma ReserveKeepsCore(w: World, id: Owner, kind: Kind, operation: string, now: int, fate: Fate)
    requires Core(w) && w.registry.healthy && w.clock <= now && id in w.registry.accounts && Identifier(operation)
    requires w.registry.accounts[id].reservation.None? && MayReserve(w.registry.accounts[id], kind, now)
    ensures Core(World(Reserve(w.registry, w.registry.accounts[id], kind, operation, now, fate).registry, now,
                       w.issued))
  {
    CurrentIsLast(w, id);
    var expiresAt := now + w.registry.config.reservationSeconds;
    var m := w.registry.accounts[id].(reservation := Some(Reservation(kind, operation, expiresAt)), updatedAt := now);
    PlainWriteKeepsCore(w, id, Version(m, now, Reserved(kind, operation)), fate);
  }

  lemma LapseKeepsCore(w: World, id: Owner, now: int, fate: Fate)
    requires Core(w) && w.registry.healthy && w.clock <= now && id in w.registry.accounts
             && HasLapsed(w.registry.accounts[id], now)
    ensures Core(World(Lapse(w.registry, w.registry.accounts[id], now, fate), now, w.issued))
    ensures w.registry.accounts[id].owner == id
  {
    CurrentIsLast(w, id);
    var m := w.registry.accounts[id].(reservation := None, updatedAt := now);
    PlainWriteKeepsCore(w, id, Version(m, now, Lapsed), fate);
  }

  lemma BeginCoordinationKeepsCore(w: World, id: Owner, kind: Kind, operation: string, now: int, pruned: Fate,
                                   written: Fate)
    requires Core(w) && w.registry.healthy && w.clock <= now && id in w.registry.accounts && Identifier(operation)
    requires MayReserve(w.registry.accounts[id], kind, now)
    ensures Core(World(BeginCoordination(w.registry, w.registry.accounts[id], kind, operation, now, pruned,
                                         written).registry, now, w.issued))
  {
    if HasLapsed(w.registry.accounts[id], now) {
      LapseKeepsCore(w, id, now, pruned);
      if pruned == Synced {
        var w1 := World(Lapse(w.registry, w.registry.accounts[id], now, pruned), now, w.issued);
        ReserveKeepsCore(w1, id, kind, operation, now, written);
      }
    } else if w.registry.accounts[id].reservation.Some? {
      CoreSurvives(w, w.registry, now, w.issued);
    } else {
      ReserveKeepsCore(w, id, kind, operation, now, written);
    }
  }

  lemma EndReservationKeepsCore(w: World, id: Owner, kind: Kind, operation: string, now: int, fate: Fate)
    requires Core(w) && w.clock <= now
    ensures Core(World(EndReservation(w.registry, id, kind, operation, now, fate).registry, now, w.issued))
  {
    CoreSurvives(w, w.registry, now, w.issued);
    var own := Own(w.registry, id);
    if w.registry.healthy && own.Some? && Holds(own.value, kind, operation, now) {
      var m := own.value.(reservation := None, updatedAt := now);
      PlainWriteKeepsCore(w, id, Version(m, now, Released(kind, operation)), fate);
    }
  }

  function SwitchRecord(s: Registry, m: Metadata, operation: string, now: int, drawn: Token): (m': Metadata) {
    m.(switchRequest := Some(SwitchRequest(drawn, operation, now + s.config.requestSeconds)), updatedAt := now)
  }

  /** A switch request that changes anything writes the record and moves its index entry. */
  lemma RequestSwitchCases(s: Registry, caller: Caller, operation: string, now: int, drawn: Token, fate: Fate)
    ensures var s', id := RequestSwitch(s, caller, operation, now, drawn, fate).registry, caller.owner;
            s' == s || (s.healthy && id in s.accounts && s.accounts[id].owner == id && s.accounts[id].state.Revoked?
                        && !s.accounts[id].authorized && !Unexpired(s.accounts[id], now)
                        && var dropped := Drop(s.pending, RequestId(s.accounts[id]));
                           s' == Write(s, id,
                                       Version(SwitchRecord(s, s.accounts[id], operation, now, drawn), now,
                                               SwitchRequested), fate)
                                 .(pending := if fate == Synced then dropped[drawn := id] else dropped))
  {
  }

  lemma RequestSwitchKeepsCore(w: World, caller: Caller, operation: string, now: int, drawn: Token, fate: Fate)
    requires Core(w) && w.clock <= now && Identifier(operation) && drawn !in w.issued
    ensures Core(World(RequestSwitch(w.registry, caller, operation, now, drawn, fate).registry, now,
                       w.issued + {drawn}))
  {
    var s, id := w.registry, caller.owner;
    var s' := RequestSwitch(s, caller, operation, now, drawn, fate).registry;
    RequestSwitchCases(s, caller, operation, now, drawn, fate);
    if s' == s {
      CoreSurvives(w, s, now, w.issued + {drawn});
    } else {
      var v := SwitchVersion(w, id, operation, now, drawn, fate);
      var w1 := World(Write(s, id, v, fate), now, w.issued + {drawn});
      CoreIgnoresIndexes(w1, s'.pending, w1.registry.authorized, w1.registry.providers);
    }
  }

  lemma CoreIgnoresIndexes(w: World, pending: map<Token, Owner>, authorized: map<Token, Owner>, providers: set<Token>)
    requires Core(w)
    ensures Core(w.(registry := w.registry.(pending := pending, authorized := authorized, providers := providers)))
  {
  }

  lemma SwitchVersion(w: World, id: Owner, operation: string, now: int, drawn: Token, fate: Fate) returns (v: Version)
    requires Core(w) && w.registry.healthy && w.clock <= now && id in w.registry.accounts && Identifier(operation)
             && drawn !in w.issued
    requires var p := w.registry.accounts[id]; p.state.Revoked? && !p.authorized && !Unexpired(p, now)
    ensures v == Version(SwitchRecord(w.registry, w.registry.accounts[id], operation, now, drawn), now, SwitchRequested)
    ensures Core(World(Write(w.registry, id, v, fate), now, w.issued + {drawn}))
  {
    CurrentIsLast(w, id);
    var m := SwitchRecord(w.registry, w.registry.accounts[id], operation, now, drawn);
    v := Version(m, now, SwitchRequested);
    FreshRequestFits(w, id, m, drawn);
    WriteKeepsCore(w, id, v, fate, w.issued + {drawn});
  }

  lemma FreshRequestFits(w: World, id: Owner, m: Metadata, drawn: Token)
    requires Core(w) && w.registry.healthy && id in w.registry.accounts && drawn !in w.issued
    requires var p := w.registry.accounts[id];
             && RequestId(m) == Some(drawn) && m.authorization == p.authorization
             && m.provider == p.provider && m.template == p.template && m.state == p.state
    ensures Fits(w.registry.config, w.registry.accounts, id, m) && Issued(m, w.issued + {drawn})
  {
    assert Settle(w.registry.disk, false) == w.registry.disk;
    var accounts := w.registry.accounts;
    CurrentIsLast(w, id);
    forall a | a in accounts && a != id ensures DifferentProviders(accounts[a], m) && Apart(accounts[a], m) {
      CurrentIsLast(w, a);
      assert DifferentProviders(accounts[a], accounts[id]) && Apart(accounts[a], accounts[id]);
    }
  }

  lemma CommitSwitchKeepsCore(w: World, id: Owner, operation: string, now: int, fate: Fate)
    requires Core(w) && w.clock <= now && Identifier(operation)
    ensures Core(World(CommitSwitch(w.registry, id, operation, now, fate).registry, now, w.issued))
  {
    var s := w.registry;
    CoreSurvives(w, s, now, w.issued);
    var own := Own(s, id);
    if s.healthy && own.Some? && Holds(own.value, TemplateSwitch, operation, now) && own.value.state.Revoked?
      && own.value.switchRequest.Some? {
      CurrentIsLast(w, id);
      var request := own.value.switchRequest.value.id;
      var m := own.value.(switchRequest := None, reservation := None, authorized := true,
                          authorization := Some(Authorization(operation, request)), updatedAt := now);
      var v := Version(m, now, SwitchCommitted(operation));
      SameIdentityFits(w, id, m);
      WriteKeepsCore(w, id, v, fate, w.issued);
      var s1 := Write(s, id, v, fate);
      CoreSurvives(World(s1, now, w.issued),
                   s1.(pending := s1.pending - {request}, authorized := s1.authorized[request := id]), now, w.issued);
    }
  }

  predicate MayReplace(prev: Option<Metadata>, action: Action, template: string, provider: Token) {
    match action
    case Enrolling =>
      prev.Some? ==> prev.value.state.Revoked? && (template == prev.value.template || prev.value.authorized)
    case Reconnecting =>
      prev.Some? && prev.value.state.Active? && template == prev.value.template && provider == prev.value.provider
    case Revoking => false
  }

  lemma ReplaceKeepsCore(w: World, caller: Caller, template: string, operation: string, now: int,
                         action: Action, provider: Token, file: Token, fault: Fault)
    requires Core(w) && w.registry.healthy && w.clock <= now && KnownOwner(caller.owner) && Identifier(operation)
    requires AssertsEligibility(caller, now) && template in w.registry.config.templates
    requires !Logged(PriorOperations(Prior(w.registry, caller.owner)), operation)
    requires MayReplace(Prior(w.registry, caller.owner), action, template, provider)
    requires action.Enrolling? ==> !Taken(w.registry, provider)
    ensures Core(World(Replace(w.registry, caller, Prior(w.registry, caller.owner), template, operation, now, action,
                               provider, file, fault).registry,
                       now, w.issued))
  {
    var s, id, prev := w.registry, caller.owner, Prior(w.registry, caller.owner);
    var s' := Replace(s, caller, prev, template, operation, now, action, provider, file, fault).registry;
    var made := s.(disk := s.disk.(directories := s.disk.directories + {id}));
    CoreSurvives(w, made, w.clock, w.issued);
    if fault.Committing? {
      var m := NewRecord(caller, prev, template, operation, now, action, provider, file);
      ReplacementKeepsCore(World(made, w.clock, w.issued), caller, template, operation, now, action, provider, file,
                           fault.fate);
      var w1 := World(Write(made, id, Version(m, now, Replaced(action)), fault.fate), now, w.issued);
      CoreIgnoresIndexes(w1, s'.pending, s'.authorized, s'.providers);
    } else {
      CoreSurvives(w, s', now, w.issued);
    }
  }

  lemma ReplacementKeepsCore(w: World, caller: Caller, template: string, operation: string, now: int,
                             action: Action, provider: Token, file: Token, fate: Fate)
    requires Core(w) && w.registry.healthy && w.clock <= now && KnownOwner(caller.owner) && Identifier(operation)
    requires AssertsEligibility(caller, now) && template in w.registry.config.templates
    requires !Logged(PriorOperations(Prior(w.registry, caller.owner)), operation)
    requires MayReplace(Prior(w.registry, caller.owner), action, template, provider)
    requires action.Enrolling? ==> !Taken(w.registry, provider)
    ensures var m :=
        NewRecord(caller, Prior(w.registry, caller.owner), template, operation, now, action, provider, file);
            Core(World(Write(w.registry, caller.owner, Version(m, now, Replaced(action)), fate), now, w.issued))
  {
    var id, prev := caller.owner, Prior(w.registry, caller.owner);
    CurrentIsLast(w, id);
    var m := NewRecord(caller, prev, template, operation, now, action, provider, file);
    NewRecordFollows(caller, prev, template, operation, now, action, provider, file);
    NewRecordFits(w, id, m);
    WriteKeepsCore(w, id, Version(m, now, Replaced(action)), fate, w.issued);
  }

  lemma NewRecordFollows(caller: Caller, prev: Option<Metadata>, template: string, operation: string, now: int,
                         action: Action, provider: Token, file: Token)
    requires AssertsEligibility(caller, now) && Name(template) && Identifier(operation)
    requires prev.Some? ==> prev.value.owner == caller.owner
    requires !Logged(PriorOperations(prev), operation)
    requires MayReplace(prev, action, template, provider)
    ensures Follows(prev,
                    Version(NewRecord(caller, prev, template, operation, now, action, provider, file), now,
                            Replaced(action)))
  {
    var m := NewRecord(caller, prev, template, operation, now, action, provider, file);
    var op := Operation(operation, action, provider, Ready(template, m.generation));
    assert m.operations == Record(prev, op);
    assert LastOperation(m) == op;
  }

  lemma NewRecordFits(w: World, id: Owner, m: Metadata)
    requires Core(w) && w.registry.healthy && m.switchRequest.None? && m.authorization.None?
             && m.template in w.registry.config.templates
    requires !Taken(w.registry, m.provider)
             || (id in w.registry.accounts && w.registry.accounts[id].provider == m.provider)
    ensures Fits(w.registry.config, w.registry.accounts, id, m)
  {
    assert Settle(w.registry.disk, false) == w.registry.disk;
    var accounts := w.registry.accounts;
    forall a | a in accounts && a != id ensures DifferentProviders(accounts[a], m) && Apart(accounts[a], m) {
      if id in accounts { assert DifferentProviders(accounts[a], accounts[id]); }
    }
  }

  /** An enrollment that changes anything is a replacement with a new provider id. */
  lemma EnrollCases(s: Registry, caller: Caller, template: string, operation: string, now: int, draws: seq<Token>,
                    file: Token, fault: Fault)
    ensures var s', provider :=
        Enroll(s, caller, template, operation, now, draws, file, fault).registry, NewProviderId(s, draws);
            s' == s || (s.healthy && AssertsEligibility(caller, now) && provider.Some? && template in s.config.templates
                        && !Logged(PriorOperations(Prior(s, caller.owner)), operation)
                        && MayReplace(Prior(s, caller.owner), Enrolling, template, provider.value)
                        && s' == Replace(s, caller, Prior(s, caller.owner), template, operation, now, Enrolling,
                                         provider.value, file, fault).registry)
  {
  }

  lemma EnrollKeepsCore(w: World, caller: Caller, template: string, operation: string, now: int,
                        draws: seq<Token>, file: Token, fault: Fault)
    requires Core(w) && w.clock <= now && KnownOwner(caller.owner) && Identifier(operation)
    ensures Core(World(Enroll(w.registry, caller, template, operation, now, draws, file, fault).registry, now,
                       w.issued))
  {
    var s := w.registry;
    EnrollCases(s, caller, template, operation, now, draws, file, fault);
    if Enroll(s, caller, template, operation, now, draws, file, fault).registry == s {
      CoreSurvives(w, s, now, w.issued);
    } else {
      ReplaceKeepsCore(w, caller, template, operation, now, Enrolling, NewProviderId(s, draws).value, file, fault);
    }
  }

  lemma ReconnectKeepsCore(w: World, caller: Caller, operation: string, now: int, file: Token, fault: Fault)
    requires Core(w) && w.clock <= now && Identifier(operation)
    ensures Core(World(Reconnect(w.registry, caller, operation, now, file, fault).registry, now, w.issued))
  {
    var s := w.registry;
    CoreSurvives(w, s, now, w.issued);
    var own := Own(s, caller.owner);
    if s.healthy && AssertsEligibility(caller, now) && own.Some? && own.value.state.Active?
       && !Logged(own.value.operations, operation) && own.value.template in s.config.templates
    {
      CurrentIsLast(w, caller.owner);
      ReplaceKeepsCore(w, caller, own.value.template, operation, now, Reconnecting, own.value.provider, file, fault);
    }
  }

  lemma RevokeKeepsCore(w: World, id: Owner, operation: string, now: int, fate: Fate)
    requires Core(w) && w.clock <= now && Identifier(operation)
    ensures Core(World(Revoke(w.registry, id, operation, now, fate).registry, now, w.issued))
  {
    var s := w.registry;
    CoreSurvives(w, s, now, w.issued);
    var own := Own(s, id);
    if s.healthy && own.Some? && own.value.state.Active? && !Logged(own.value.operations, operation) {
      var m := Tombstone(own.value, operation, now);
      var v := Version(m, now, RevokedByOwner);
      assert LastOperation(m) == Operation(operation, Revoking, own.value.provider, Withdrawn);
      PlainWriteKeepsCore(w, id, v, fate);
      var s1 := Write(s, id, v, fate);
      CoreSurvives(World(s1, now, w.issued), s1.(providers := s1.providers - {own.value.provider}), now, w.issued);
    }
  }

  lemma SetEligibilityKeepsCore(w: World, id: Owner, expiresAt: int, now: int, fate: Fate)
    requires Core(w) && w.registry.healthy && w.clock <= now && id in w.registry.accounts && expiresAt >= 0
    ensures Core(World(SetEligibility(w.registry, w.registry.accounts[id], expiresAt, now, fate).registry, now,
                       w.issued))
  {
    CurrentIsLast(w, id);
    var m := w.registry.accounts[id].(eligibility := expiresAt, updatedAt := now);
    PlainWriteKeepsCore(w, id, Version(m, now, EligibilitySet), fate);
  }
}
