/**
 The account registry as a value: what every call of the broker does to the records in
 memory, to the two switch-request indexes and to the manifests on disk.

 The disk remembers, for each account, the line of manifests that its `metadata.json` has
 held. A write has one of three fates: it is synced; it leaves nothing behind; or its
 rename is visible but was not synced, so that a restart may find either manifest.
 */
module Registry {
  import opened Wrappers
  import opened AccountRecord

  datatype Config = Config(
    templates: set<string>,
    switching: bool,
    maxAccounts: nat,
    reservationSeconds: int,
    requestSeconds: int,
    staticNames: set<Token>)

  ghost predicate ValidConfig(c: Config) {
    && (forall t | t in c.templates :: Name(t))
    && c.reservationSeconds > 0 && c.requestSeconds > 0
  }

  /** An authenticated caller, with the eligibility lease its assertion carries. */
  datatype Caller = Caller(owner: Owner, eligibility: Option<int>)

  datatype Cause =
    | Replaced(action: Action)
    | RevokedByOwner
    | SwitchRequested
    | Lapsed
    | Reserved(kind: Kind, operation: string)
    | Released(kind: Kind, operation: string)
    | SwitchCommitted(operation: string)
    | EligibilitySet

  datatype Version = Version(meta: Metadata, at: int, cause: Cause)

  type Line = seq<Version>

  datatype Disk = Disk(directories: set<Owner>, lines: map<Owner, Line>, unsettled: Option<(Owner, Version)>)

  datatype Fate = Synced | Lost | Unconfirmed

  datatype Registry = Registry(
    config: Config,
    accounts: map<Owner, Metadata>,
    pending: map<Token, Owner>,
    authorized: map<Token, Owner>,
    providers: set<Token>,
    healthy: bool,
    disk: Disk)

  datatype Error =
    | NotFound | Unavailable | NotEligible | AccountNotFound | AlreadyEnrolled | OperationConflict
    | UnknownTemplate | SwitchNotAuthorized | CapacityExceeded | ProviderIdUnavailable
    | StorageUnavailable | ProviderInitializationFailed | SwitchNotRevoked | SwitchRequestNotFound
    | CoordinationConflict | CoordinationNotHeld | AccountUnready | InternalError

  datatype Reply =
    | Done(result: Result)
    | Pending(request: Token)
    | Authorized
    | Held(expiresAt: int)
    | Free
    | SwitchHeld(owner: Owner, expiresAt: int)
    | Status(state: Readiness, template: string, generation: nat)
    | Resolved(template: string, provider: Token, generation: nat)
    | Ok
    | Refused(error: Error)

  datatype Readiness = IsReady | IsUnready | IsRevoked

  datatype Outcome = Outcome(registry: Registry, reply: Reply)

  function Refuse(s: Registry, e: Error): (o: Outcome) { Outcome(s, Refused(e)) }

  // ----- Manifests

  function Manifest(line: Line): (m: Metadata)
    requires line != []
  {
    line[|line| - 1].meta
  }

  function LineOf(d: Disk, id: Owner): (line: Line) {
    if id in d.lines then d.lines[id] else []
  }

  function Append(d: Disk, id: Owner, v: Version): (d': Disk) {
    d.(directories := d.directories + {id}, lines := d.lines[id := LineOf(d, id) + [v]])
  }

  /** One replacement of `metadata.json`, and the update of the record in memory that follows it. */
  function Write(s: Registry, id: Owner, v: Version, fate: Fate): (s': Registry) {
    match fate
    case Synced => s.(disk := Append(s.disk, id, v), accounts := s.accounts[id := v.meta])
    case Lost => s
    case Unconfirmed => s.(disk := s.disk.(unsettled := Some((id, v))), healthy := false, providers := {})
  }

  // ----- Guards

  predicate AssertsEligibility(caller: Caller, now: int) {
    caller.eligibility.Some? && caller.eligibility.value > now
  }

  function Own(s: Registry, id: Owner): (m: Option<Metadata>)
    ensures m.Some? ==> id in s.accounts && m.value == s.accounts[id]
  {
    if id in s.accounts && s.accounts[id].owner == id then Some(s.accounts[id]) else None
  }

  predicate Holds(m: Metadata, kind: Kind, operation: string, now: int) {
    && m.reservation.Some?
    && m.reservation.value.kind == kind
    && m.reservation.value.operation == operation
    && m.reservation.value.expiresAt > now
  }

  // ----- Reservations

  predicate HasLapsed(m: Metadata, now: int) {
    m.reservation.Some? && m.reservation.value.expiresAt <= now
  }

  /** Expired reservations are removed, in a write of their own, before a new one is considered. */
  function Lapse(s: Registry, current: Metadata, now: int, fate: Fate): (s': Registry) {
    if HasLapsed(current, now)
    then Write(s, current.owner, Version(current.(reservation := None, updatedAt := now), now, Lapsed), fate)
    else s
  }

  function Reserve(s: Registry, current: Metadata, kind: Kind, operation: string, now: int, fate: Fate): (o: Outcome) {
    var expiresAt := now + s.config.reservationSeconds;
    var m := current.(reservation := Some(Reservation(kind, operation, expiresAt)), updatedAt := now);
    var s' := Write(s, m.owner, Version(m, now, Reserved(kind, operation)), fate);
    if fate == Synced then Outcome(s', Held(expiresAt)) else Refuse(s', StorageUnavailable)
  }

  function BeginCoordination(s: Registry, current: Metadata, kind: Kind, operation: string, now: int,
                             pruned: Fate, written: Fate): (o: Outcome)
  {
    if HasLapsed(current, now) then
      var s1 := Lapse(s, current, now, pruned);
      if pruned != Synced then Refuse(s1, StorageUnavailable)
      else Reserve(s1, current.(reservation := None, updatedAt := now), kind, operation, now, written)
    else if current.reservation.Some? then
      if current.reservation.value.kind == kind && current.reservation.value.operation == operation
      then Outcome(s, Held(current.reservation.value.expiresAt))
      else Refuse(s, CoordinationConflict)
    else Reserve(s, current, kind, operation, now, written)
  }

  function EndCoordination(s: Registry, current: Metadata, kind: Kind, operation: string, now: int,
                           fate: Fate): (o: Outcome) {
    if current.reservation.None? then Outcome(s, Free)
    else if !Holds(current, kind, operation, now) then Refuse(s, CoordinationNotHeld)
    else
      var m := current.(reservation := None, updatedAt := now);
      var s' := Write(s, m.owner, Version(m, now, Released(kind, operation)), fate);
      if fate == Synced then Outcome(s', Free) else Refuse(s', StorageUnavailable)
  }

  function BeginAdmission(s: Registry, id: Owner, operation: string, now: int, pruned: Fate,
                          written: Fate): (o: Outcome) {
    if !s.config.switching then Refuse(s, NotFound)
    else if !s.healthy then Refuse(s, Unavailable)
    else
      var current := Own(s, id);
      if current.None? || !current.value.state.Active? then Refuse(s, AccountNotFound)
      else if current.value.eligibility <= now then Refuse(s, NotEligible)
      else BeginCoordination(s, current.value, Admission, operation, now, pruned, written)
  }

  function EndReservation(s: Registry, id: Owner, kind: Kind, operation: string, now: int, fate: Fate): (o: Outcome) {
    if !s.config.switching then Refuse(s, NotFound)
    else if !s.healthy then Refuse(s, Unavailable)
    else
      var current := Own(s, id);
      if current.None? then Refuse(s, AccountNotFound)
      else EndCoordination(s, current.value, kind, operation, now, fate)
  }

  // ----- Template switches

  function Drop(index: map<Token, Owner>, request: Option<Token>): (index': map<Token, Owner>) {
    if request.Some? then index - {request.value} else index
  }

  function RequestId(m: Metadata): (id: Option<Token>) {
    if m.switchRequest.Some? then Some(m.switchRequest.value.id) else None
  }

  function AuthorizedId(m: Metadata): (id: Option<Token>) {
    if m.authorization.Some? then Some(m.authorization.value.request) else None
  }

  function RequestSwitch(s: Registry, caller: Caller, operation: string, now: int, drawn: Token,
                         fate: Fate): (o: Outcome) {
    if !s.config.switching then Refuse(s, NotFound)
    else if !s.healthy then Refuse(s, Unavailable)
    else if !AssertsEligibility(caller, now) then Refuse(s, NotEligible)
    else
      var own := Own(s, caller.owner);
      if own.None? then Refuse(s, AccountNotFound)
      else
        var current := own.value;
        if !current.state.Revoked? then Refuse(s, SwitchNotRevoked)
        else if current.authorized then Outcome(s, Authorized)
        else if current.switchRequest.Some? && current.switchRequest.value.expiresAt > now
        then Outcome(s, Pending(current.switchRequest.value.id))
        else
          var request := SwitchRequest(drawn, operation, now + s.config.requestSeconds);
          var m := current.(switchRequest := Some(request), updatedAt := now);
          var s1 := Write(s.(pending := Drop(s.pending, RequestId(current))), caller.owner,
                          Version(m, now, SwitchRequested), fate);
          if fate == Synced then Outcome(s1.(pending := s1.pending[drawn := caller.owner]), Pending(drawn))
          else Refuse(s1, StorageUnavailable)
  }

  function Indexed(index: map<Token, Owner>, accounts: map<Owner, Metadata>, request: Token): (m: Option<Metadata>)
    ensures m.Some? ==> request in index && index[request] in accounts && m.value == accounts[index[request]]
  {
    if request in index && index[request] in accounts then Some(accounts[index[request]]) else None
  }

  predicate Replays(m: Metadata, request: Token, operation: string) {
    m.state.Revoked? && m.authorized && m.authorization == Some(Authorization(operation, request))
  }

  function BeginSwitch(s: Registry, request: Token, operation: string, now: int, pruned: Fate,
                       written: Fate): (o: Outcome) {
    if !s.config.switching then Refuse(s, NotFound)
    else if !s.healthy then Refuse(s, Unavailable)
    else
      var current := Indexed(s.pending, s.accounts, request);
      var done := Indexed(s.authorized, s.accounts, request);
      if current.None? && done.Some? && Replays(done.value, request, operation)
      then Outcome(s, SwitchHeld(done.value.owner, now + s.config.reservationSeconds))
      else if current.None? || !current.value.state.Revoked? || RequestId(current.value) != Some(request)
              || current.value.switchRequest.value.expiresAt <= now
      then Refuse(s, SwitchRequestNotFound)
      else
        var o := BeginCoordination(s, current.value, TemplateSwitch, operation, now, pruned, written);
        if o.reply.Held? then Outcome(o.registry, SwitchHeld(current.value.owner, o.reply.expiresAt)) else o
  }

  function CommitSwitch(s: Registry, id: Owner, operation: string, now: int, fate: Fate): (o: Outcome) {
    if !s.config.switching then Refuse(s, NotFound)
    else if !s.healthy then Refuse(s, Unavailable)
    else
      var own := Own(s, id);
      if own.None? then Refuse(s, AccountNotFound)
      else
        var current := own.value;
        if current.authorization.Some? && current.authorization.value.operation == operation then Outcome(s, Authorized)
        else if !Holds(current, TemplateSwitch, operation, now) then Refuse(s, CoordinationNotHeld)
        else if !current.state.Revoked? then Refuse(s, SwitchNotRevoked)
        else if current.switchRequest.None? then Refuse(s, InternalError)
        else
          var request := current.switchRequest.value.id;
          var m := current.(switchRequest := None, reservation := None, authorized := true,
                            authorization := Some(Authorization(operation, request)), updatedAt := now);
          var s1 := Write(s, id, Version(m, now, SwitchCommitted(operation)), fate);
          if fate == Synced then
            Outcome(s1.(pending := s1.pending - {request}, authorized := s1.authorized[request := id]), Authorized)
          else Refuse(s1, StorageUnavailable)
  }

  // ----- Enrollment, reconnection, revocation

  /** What happens while a credential generation is being put in place. */
  datatype Fault =
    | StorageFails(directoryLeft: bool, latched: bool)
    | ProviderFails
    | Committing(fate: Fate)

  function Latch(s: Registry): (s': Registry) {
    s.(healthy := false, providers := {})
  }

  function NewRecord(caller: Caller, current: Option<Metadata>, template: string, operation: string, now: int,
                     action: Action, provider: Token, file: Token): (m: Metadata)
    requires caller.eligibility.Some?
  {
    var generation := (if current.Some? then current.value.generation else 0) + 1;
    Metadata(
      caller.owner, Active, template, provider, generation, Some(Credential(generation, file)),
      if current.Some? then current.value.createdAt else now,
      now,
      caller.eligibility.value,
      Record(current, Operation(operation, action, provider, Ready(template, generation))),
      None,
      if current.Some? then current.value.reservation else None,
      false,
      None)
  }

  function Replace(s: Registry, caller: Caller, current: Option<Metadata>, template: string, operation: string,
                   now: int,
                   action: Action, provider: Token, file: Token, fault: Fault): (o: Outcome)
    requires caller.eligibility.Some?
  {
    var id := caller.owner;
    match fault
    case StorageFails(left, latched) =>
      var s1 := if left then s.(disk := s.disk.(directories := s.disk.directories + {id})) else s;
      Refuse(if latched then Latch(s1) else s1, StorageUnavailable)
    case ProviderFails =>
      Refuse(s.(disk := s.disk.(directories := s.disk.directories + {id})), ProviderInitializationFailed)
    case Committing(fate) =>
      var made := s.(disk := s.disk.(directories := s.disk.directories + {id}));
      var m := NewRecord(caller, current, template, operation, now, action, provider, file);
      var s1 := Write(made, id, Version(m, now, Replaced(action)), fate);
      if fate != Synced then Refuse(s1, StorageUnavailable)
      else
        var s2 := s1.(
          providers := s1.providers + {provider},
          pending := if current.Some? then Drop(s1.pending, RequestId(current.value)) else s1.pending,
          authorized := if current.Some? then Drop(s1.authorized, AuthorizedId(current.value)) else s1.authorized);
        Outcome(s2, Done(Ready(template, m.generation)))
  }

  /** The answer that a log entry gives to a repeated operation id, if there is one. */
  function Repeated(current: Metadata, action: Action, operation: string): (reply: Option<Reply>)
    ensures reply.Some? <==> Logged(current.operations, operation)
  {
    var found := Find(current.operations, operation);
    if found.None? then None
    else if found.value.action != action || found.value.provider != current.provider then
        Some(Refused(OperationConflict))
    else Some(Done(found.value.result))
  }

  predicate Taken(s: Registry, value: Token) {
    value in s.config.staticNames || value in s.providers || exists id ::
        id in s.accounts && s.accounts[id].provider == value
  }

  /** The first drawn provider id that is not taken. */
  function NewProviderId(s: Registry, draws: seq<Token>): (value: Option<Token>)
    ensures value.Some? ==> value.value in draws && !Taken(s, value.value)
    ensures value.None? ==> forall i | 0 <= i < |draws| :: Taken(s, draws[i])
  {
    if draws == [] then None
    else if !Taken(s, draws[0]) then Some(draws[0])
    else NewProviderId(s, draws[1..])
  }

  function Enroll(s: Registry, caller: Caller, template: string, operation: string, now: int,
                  draws: seq<Token>, file: Token, fault: Fault): (o: Outcome)
  {
    if !s.healthy then Refuse(s, Unavailable)
    else if !AssertsEligibility(caller, now) then Refuse(s, NotEligible)
    else
      var current := if caller.owner in s.accounts then Some(s.accounts[caller.owner]) else None;
      if current.Some? && current.value.state.Active? then
        var repeated := Repeated(current.value, Enrolling, operation);
        if repeated.Some? then Outcome(s, repeated.value) else Refuse(s, AlreadyEnrolled)
      else if current.Some? && Logged(current.value.operations, operation) then Refuse(s, OperationConflict)
      else if template !in s.config.templates then Refuse(s, UnknownTemplate)
      else if current.Some? && current.value.template != template && !(s.config.switching && current.value.authorized)
      then Refuse(s, SwitchNotAuthorized)
      else if current.None? && |s.accounts| >= s.config.maxAccounts then Refuse(s, CapacityExceeded)
      else
        var provider := NewProviderId(s, draws);
        if provider.None? then Refuse(s, ProviderIdUnavailable)
        else Replace(s, caller, current, template, operation, now, Enrolling, provider.value, file, fault)
  }

  function Reconnect(s: Registry, caller: Caller, operation: string, now: int, file: Token,
                     fault: Fault): (o: Outcome) {
    if !s.healthy then Refuse(s, Unavailable)
    else if !AssertsEligibility(caller, now) then Refuse(s, NotEligible)
    else
      var own := Own(s, caller.owner);
      if own.None? || !own.value.state.Active? then Refuse(s, AccountNotFound)
      else
        var current := own.value;
        var repeated := Repeated(current, Reconnecting, operation);
        if repeated.Some? then Outcome(s, repeated.value)
        else if current.template !in s.config.templates then Refuse(s, InternalError)
        else Replace(s, caller, own, current.template, operation, now, Reconnecting, current.provider, file, fault)
  }

  function Tombstone(current: Metadata, operation: string, now: int): (m: Metadata) {
    current.(state := State.Revoked, credential := None, eligibility := 0, updatedAt := now,
             operations := Record(Some(current), Operation(operation, Revoking, current.provider, Withdrawn)))
  }

  function Revoke(s: Registry, id: Owner, operation: string, now: int, fate: Fate): (o: Outcome) {
    if !s.healthy then Refuse(s, Unavailable)
    else
      var own := Own(s, id);
      if own.None? then Refuse(s, AccountNotFound)
      else
        var current := own.value;
        var repeated := Repeated(current, Revoking, operation);
        if repeated.Some? then Outcome(s, repeated.value)
        else if !current.state.Active? then Refuse(s, AccountNotFound)
        else
          var s1 := Write(s, id, Version(Tombstone(current, operation, now), now, RevokedByOwner), fate);
          if fate == Synced then Outcome(s1.(providers := s1.providers - {current.provider}), Done(Withdrawn))
          else Refuse(s1, StorageUnavailable)
  }

  // ----- Eligibility

  function SetEligibility(s: Registry, current: Metadata, expiresAt: int, now: int, fate: Fate): (o: Outcome) {
    var m := current.(eligibility := expiresAt, updatedAt := now);
    var s' := Write(s, m.owner, Version(m, now, EligibilitySet), fate);
    if fate == Synced then Outcome(s', Ok) else Refuse(s', StorageUnavailable)
  }

  function RenewEligibility(s: Registry, caller: Caller, now: int, fate: Fate): (o: Outcome) {
    if !s.healthy then Refuse(s, Unavailable)
    else if !AssertsEligibility(caller, now) then Refuse(s, NotEligible)
    else
      var own := Own(s, caller.owner);
      if own.None? || own.value.eligibility >= caller.eligibility.value then Outcome(s, Ok)
      else SetEligibility(s, own.value, caller.eligibility.value, now, fate)
  }

  function RevokeEligibility(s: Registry, caller: Caller, now: int, fate: Fate): (o: Outcome) {
    if !s.healthy then Refuse(s, Unavailable)
    else if !AssertsEligibility(caller, now) then Refuse(s, NotEligible)
    else
      var own := Own(s, caller.owner);
      if own.None? || own.value.eligibility == 0 then Outcome(s, Ok)
      else SetEligibility(s, own.value, 0, now, fate)
  }

  // ----- Reads

  /** `ready` says whether the published provider, if any, accepts its local state. */
  function ReadReadiness(s: Registry, id: Owner, now: int, ready: bool): (reply: Reply) {
    if !s.healthy then Refused(Unavailable)
    else
      var own := Own(s, id);
      if own.None? then Refused(AccountNotFound)
      else
        var current := own.value;
        if current.state.Revoked? then Status(IsRevoked, current.template, current.generation)
        else if current.eligibility <= now then Refused(NotEligible)
        else if current.provider in s.providers && ready then Status(IsReady, current.template, current.generation)
        else Status(IsUnready, current.template, current.generation)
  }

  function Resolve(s: Registry, id: Owner, now: int, ready: bool): (reply: Reply) {
    if !s.healthy then Refused(Unavailable)
    else
      var own := Own(s, id);
      if own.None? || !own.value.state.Active? then Refused(AccountNotFound)
      else
        var current := own.value;
        if current.eligibility <= now then Refused(NotEligible)
        else if current.provider in s.providers && ready then
            Resolved(current.template, current.provider, current.generation)
        else Refused(AccountUnready)
  }

  // ----- Restart

  /** The disk a restart finds: an unsettled rename has survived or not. */
  function Settle(d: Disk, survived: bool): (d': Disk) {
    if d.unsettled.Some? && survived
    then Append(d, d.unsettled.value.0, d.unsettled.value.1).(unsettled := None)
    else d.(unsettled := None)
  }

  ghost function Manifests(d: Disk): (accounts: map<Owner, Metadata>) {
    map id | id in d.lines && d.lines[id] != [] :: Manifest(d.lines[id])
  }

  predicate DifferentProviders(m: Metadata, n: Metadata) {
    m.provider != n.provider
  }

  ghost predicate DistinctProviders(accounts: map<Owner, Metadata>) {
    forall a, b {:trigger DifferentProviders(accounts[a], accounts[b])} | a in accounts && b in accounts && a != b ::
      DifferentProviders(accounts[a], accounts[b])
  }

  predicate Carries(m: Metadata, q: Token) {
    RequestId(m) == Some(q) || AuthorizedId(m) == Some(q)
  }

  /** The two records carry no request id in common. */
  predicate Apart(m: Metadata, n: Metadata) {
    && (RequestId(m).Some? ==> !Carries(n, RequestId(m).value))
    && (AuthorizedId(m).Some? ==> !Carries(n, AuthorizedId(m).value))
  }

  predicate SelfApart(m: Metadata) {
    RequestId(m).Some? ==> RequestId(m) != AuthorizedId(m)
  }

  /** A request id is recorded at most once, as a pending request or as a completed one. */
  ghost predicate DistinctRequests(accounts: map<Owner, Metadata>) {
    && (forall a, b {:trigger Apart(accounts[a], accounts[b])} | a in accounts && b in accounts && a != b ::
          Apart(accounts[a], accounts[b]))
    && (forall a | a in accounts :: SelfApart(accounts[a]))
  }

  ghost predicate Loadable(c: Config, accounts: map<Owner, Metadata>) {
    && (forall id | id in accounts ::
          && ValidMetadata(accounts[id], id)
          && accounts[id].provider !in c.staticNames
          && (accounts[id].state.Active? ==> accounts[id].template in c.templates))
    && DistinctProviders(accounts)
    && DistinctRequests(accounts)
  }

  predicate Points(index: map<Token, Owner>, q: Token, id: Owner) {
    q in index && index[q] == id
  }

  /** The pending index holds exactly the recorded requests. */
  ghost predicate PendingIndexed(accounts: map<Owner, Metadata>, pending: map<Token, Owner>) {
    && (forall q | q in pending :: pending[q] in accounts && RequestId(accounts[pending[q]]) == Some(q))
    && (forall id | id in accounts && RequestId(accounts[id]).Some? ::
          Points(pending, RequestId(accounts[id]).value, id))
  }

  /** The index of completed requests holds exactly the recorded authorizations. */
  ghost predicate AuthorizedIndexed(accounts: map<Owner, Metadata>, authorized: map<Token, Owner>) {
    && (forall q | q in authorized :: authorized[q] in accounts && AuthorizedId(accounts[authorized[q]]) == Some(q))
    && (forall id | id in accounts && AuthorizedId(accounts[id]).Some? ::
          Points(authorized, AuthorizedId(accounts[id]).value, id))
  }

  /** Every published handle belongs to an active account. */
  ghost predicate ProvidersOwned(accounts: map<Owner, Metadata>, providers: set<Token>) {
    forall p | p in providers :: exists id :: id in accounts && Publishes(accounts[id], p)
  }

  predicate Publishes(m: Metadata, provider: Token) {
    m.state.Active? && m.provider == provider
  }

  /** The published handles are exactly those of active accounts whose provider accepts its credential file. */
  ghost predicate Published(accounts: map<Owner, Metadata>, providers: set<Token>, accepting: set<Token>) {
    forall p :: p in providers <==> p in accepting && exists id :: id in accounts && Publishes(accounts[id], p)
  }

  /**
   What starting a manager with configuration `c` on disk `d` leads to; `accepting` are the provider ids
   whose providers accept their credential file.
   */
  ghost predicate Loads(c: Config, d: Disk, s: Registry, accepting: set<Token>) {
    && s.config == c
    && s.disk.lines == d.lines && s.disk.unsettled.None?
    && s.healthy == (|d.directories| <= c.maxAccounts && Loadable(c, Manifests(d)))
    && if s.healthy then
         && s.accounts == Manifests(d)
         && s.disk.directories == s.accounts.Keys
         && PendingIndexed(s.accounts, s.pending) && AuthorizedIndexed(s.accounts, s.authorized)
         && Published(s.accounts, s.providers, accepting)
       else
         && s.accounts == map[] && s.pending == map[] && s.authorized == map[] && s.providers == {}
         && d.lines.Keys * d.directories <= s.disk.directories <= d.directories
  }
}
