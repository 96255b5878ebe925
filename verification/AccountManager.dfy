/**
 The manager object: its fields are the records, the two indexes, the published handles, the
 health latch and the disk, and its methods change them step by step. Each method is proved
 against the call of the same name in `Registry`.
 */
module AccountManager {
  import opened Wrappers
  import opened AccountRecord
  import opened Registry
  import opened RegistryRuns

  /** One more directory entry that the loader accepts, given the entries before it. */
  ghost predicate Acceptable(c: Config, accounts: map<Owner, Metadata>, id: Owner, m: Metadata) {
    ValidMetadata(m, id) && Fits(c, accounts, id, m)
  }

  ghost function Restricted(accounts: map<Owner, Metadata>, ids: set<Owner>): (r: map<Owner, Metadata>) {
    map id | id in accounts && id in ids :: accounts[id]
  }

  predicate Fresh(index: map<Token, Owner>, q: Option<Token>) {
    q.Some? ==> q.value !in index
  }

  /** The loader's tests against its two indexes find exactly the collisions between records. */
  lemma IndexTestsFindCollisions(accounts: map<Owner, Metadata>, pending: map<Token, Owner>, authorized: map<Token,
                                 Owner>, m: Metadata)
    requires PendingIndexed(accounts, pending) && AuthorizedIndexed(accounts, authorized)
    ensures (forall a | a in accounts :: Apart(accounts[a], m)) <==>
            && Fresh(pending, RequestId(m)) && Fresh(authorized, RequestId(m))
            && Fresh(pending, AuthorizedId(m)) && Fresh(authorized, AuthorizedId(m))
  {
    if forall a | a in accounts :: Apart(accounts[a], m) {
      forall q | q in pending ensures !Carries(m, q) { assert Apart(accounts[pending[q]], m); }
      forall q | q in authorized ensures !Carries(m, q) { assert Apart(accounts[authorized[q]], m); }
      assert RequestId(m).Some? ==> Carries(m, RequestId(m).value);
      assert AuthorizedId(m).Some? ==> Carries(m, AuthorizedId(m).value);
    } else {
      var a :| a in accounts && !Apart(accounts[a], m);
      assert RequestId(accounts[a]).Some? ==> Points(pending, RequestId(accounts[a]).value, a);
      assert AuthorizedId(accounts[a]).Some? ==> Points(authorized, AuthorizedId(accounts[a]).value, a);
    }
  }

  /** A refused entry refuses the whole directory. */
  lemma RefusedEntry(c: Config, all: map<Owner, Metadata>, done: set<Owner>, id: Owner)
    requires id in all && id !in done && !Acceptable(c, Restricted(all, done), id, all[id])
    ensures !Loadable(c, all)
  {
    var accounts := Restricted(all, done);
    if Loadable(c, all) {
      forall a | a in accounts && a != id
        ensures DifferentProviders(accounts[a], all[id]) && Apart(accounts[a], all[id])
      {
        assert DifferentProviders(all[a], all[id]) && Apart(all[a], all[id]);
      }
      assert false;
    }
  }

  lemma AcceptedEntry(accounts: map<Owner, Metadata>, pending: map<Token, Owner>, authorized: map<Token, Owner>,
                      c: Config, id: Owner, m: Metadata)
    requires PendingIndexed(accounts, pending) && AuthorizedIndexed(accounts, authorized)
    requires id !in accounts && Acceptable(c, accounts, id, m)
    ensures PendingIndexed(accounts[id := m], if m.switchRequest.Some? then pending[m.switchRequest.value.id := id]
                           else pending)
    ensures AuthorizedIndexed(accounts[id := m], if m.authorization.Some? then
                                authorized[m.authorization.value.request := id] else authorized)
  {
    IndexTestsFindCollisions(accounts, pending, authorized, m);
  }

  /** The handles published after one more entry. */
  function WithHandle(providers: set<Token>, m: Metadata, accepting: set<Token>): (providers': set<Token>) {
    if m.state.Active? && m.provider in accepting then providers + {m.provider} else providers
  }

  lemma PublishedWithMore(accounts: map<Owner, Metadata>, providers: set<Token>, accepting: set<Token>, id: Owner,
                          m: Metadata)
    requires Published(accounts, providers, accepting) && id !in accounts
    ensures Published(accounts[id := m], WithHandle(providers, m, accepting), accepting)
  {
    var accounts', providers' := accounts[id := m], WithHandle(providers, m, accepting);
    forall p
      ensures p in providers' <==> p in accepting && exists a :: a in accounts' && Publishes(accounts'[a], p)
    {
      if p in providers {
        var a :| a in accounts && Publishes(accounts[a], p);
        assert Publishes(accounts'[a], p);
      } else if p in providers' {
        assert Publishes(accounts'[id], p);
      }
      if p in accepting && exists a :: a in accounts' && Publishes(accounts'[a], p) {
        var a :| a in accounts' && Publishes(accounts'[a], p);
        if a != id { assert Publishes(accounts[a], p); }
      }
    }
  }

  /** What the loader has established after the entries in `done`. */
  ghost predicate LoadedSoFar(c: Config, d: Disk, done: set<Owner>, s: Registry, seen: set<Token>,
                              accepting: set<Token>) {
    && s.config == c && s.healthy
    && s.accounts == Restricted(Manifests(d), done)
    && (forall id | id in s.accounts ::
          && ValidMetadata(s.accounts[id], id) && s.accounts[id].provider !in c.staticNames
          && (s.accounts[id].state.Active? ==> s.accounts[id].template in c.templates))
    && DistinctProviders(s.accounts) && DistinctRequests(s.accounts)
    && (forall p :: p in seen <==> exists id :: id in s.accounts && s.accounts[id].provider == p)
    && PendingIndexed(s.accounts, s.pending) && AuthorizedIndexed(s.accounts, s.authorized)
    && Published(s.accounts, s.providers, accepting)
    && s.disk.lines == d.lines && s.disk.unsettled.None?
    && d.directories - done <= s.disk.directories <= d.directories
    && (forall id | id in done :: id in s.disk.directories <==> id in s.accounts)
  }

  /** The registry after one more accepted entry. */
  ghost predicate WithEntry(s: Registry, id: Owner, m: Metadata, s': Registry, accepting: set<Token>) {
    s' == s.(accounts := s.accounts[id := m],
             pending := if m.switchRequest.Some? then s.pending[m.switchRequest.value.id := id] else s.pending,
             authorized := if m.authorization.Some? then s.authorized[m.authorization.value.request := id]
             else s.authorized,
             providers := WithHandle(s.providers, m, accepting))
  }

  lemma RestrictedOneMore(accounts: map<Owner, Metadata>, done: set<Owner>, id: Owner)
    requires id in accounts
    ensures Restricted(accounts, done + {id}) == Restricted(accounts, done)[id := accounts[id]]
  {
  }

  lemma EntriesStayValid(c: Config, d: Disk, done: set<Owner>, s: Registry, seen: set<Token>, accepting: set<Token>,
                         id: Owner,
                         m: Metadata, accounts: map<Owner, Metadata>)
    requires LoadedSoFar(c, d, done, s, seen, accepting) && Acceptable(c, s.accounts, id, m)
             && accounts == s.accounts[id := m]
    ensures forall a | a in accounts ::
              && ValidMetadata(accounts[a], a) && accounts[a].provider !in c.staticNames
              && (accounts[a].state.Active? ==> accounts[a].template in c.templates)
  {
  }

  lemma LoadedOneMore(c: Config, d: Disk, done: set<Owner>, s: Registry, seen: set<Token>, accepting: set<Token>,
                      id: Owner, s': Registry)
    requires LoadedSoFar(c, d, done, s, seen, accepting) && id !in done && id in d.directories && id in Manifests(d)
    requires Acceptable(c, s.accounts, id, Manifests(d)[id]) && WithEntry(s, id, Manifests(d)[id], s', accepting)
    ensures LoadedSoFar(c, d, done + {id}, s', seen + {Manifests(d)[id].provider}, accepting)
  {
    var m := Manifests(d)[id];
    RestrictedOneMore(Manifests(d), done, id);
    EntriesStayValid(c, d, done, s, seen, accepting, id, m, s'.accounts);
    AcceptedEntry(s.accounts, s.pending, s.authorized, c, id, m);
    FitsKeepsDistinct(c, s.accounts, id, m);
    PublishedWithMore(s.accounts, s.providers, accepting, id, m);
    SeenOneMore(s.accounts, seen, id, m);
  }

  lemma NothingLoaded(c: Config, d: Disk, s: Registry, entries: seq<Owner>, accepting: set<Token>)
    requires s == Registry(c, map[], map[], map[], {}, true, d) && d.unsettled.None?
    ensures LoadedSoFar(c, d, Listed(entries[..0]), s, {}, accepting)
  {
    assert Listed(entries[..0]) == {};
    assert Restricted(Manifests(d), {}) == map[];
  }

  lemma ListedOneMore(entries: seq<Owner>, i: nat)
    requires i < |entries| && forall i, j | 0 <= i < j < |entries| :: entries[i] != entries[j]
    ensures entries[i] !in Listed(entries[..i]) && Listed(entries[..i + 1]) == Listed(entries[..i]) + {entries[i]}
  {
  }

  /** A directory without a manifest is removed. */
  lemma SkippedOne(c: Config, d: Disk, done: set<Owner>, s: Registry, seen: set<Token>, accepting: set<Token>,
                   id: Owner)
    requires LoadedSoFar(c, d, done, s, seen, accepting) && id !in done && id !in Manifests(d)
    ensures LoadedSoFar(c, d, done + {id}, s.(disk := s.disk.(directories := s.disk.directories - {id})), seen,
                        accepting)
  {
    assert Restricted(Manifests(d), done + {id}) == Restricted(Manifests(d), done);
  }

  /** The tests the loader makes of one manifest, against what it has seen so far. */
  predicate Passes(c: Config, pending: map<Token, Owner>, authorized: map<Token, Owner>, seen: set<Token>, id: Owner,
                   m: Metadata) {
    && ValidMetadata(m, id)
    && m.provider !in c.staticNames && m.provider !in seen
    && Fresh(pending, RequestId(m)) && Fresh(authorized, RequestId(m))
    && Fresh(pending, AuthorizedId(m)) && Fresh(authorized, AuthorizedId(m)) && SelfApart(m)
    && (m.state.Active? ==> m.template in c.templates)
  }

  lemma PassesIffAcceptable(c: Config, d: Disk, done: set<Owner>, s: Registry, seen: set<Token>, accepting: set<Token>,
                            id: Owner, m: Metadata)
    requires LoadedSoFar(c, d, done, s, seen, accepting) && id !in done
    ensures Passes(c, s.pending, s.authorized, seen, id, m) <==> Acceptable(c, s.accounts, id, m)
  {
    IndexTestsFindCollisions(s.accounts, s.pending, s.authorized, m);
    ProviderTest(s.accounts, seen, m);
  }

  lemma ProviderTest(accounts: map<Owner, Metadata>, seen: set<Token>, m: Metadata)
    requires forall p :: p in seen <==> exists a :: a in accounts && accounts[a].provider == p
    ensures m.provider !in seen <==> forall a | a in accounts :: DifferentProviders(accounts[a], m)
  {
  }

  lemma SeenOneMore(accounts: map<Owner, Metadata>, seen: set<Token>, id: Owner, m: Metadata)
    requires id !in accounts && forall p :: p in seen <==> exists a :: a in accounts && accounts[a].provider == p
    ensures var accounts' := accounts[id := m];
            forall p :: p in seen + {m.provider} <==> exists a :: a in accounts' && accounts'[a].provider == p
  {
    var accounts' := accounts[id := m];
    forall p ensures p in seen + {m.provider} <==> exists a :: a in accounts' && accounts'[a].provider == p {
      if p == m.provider { assert accounts'[id].provider == p; }
      if a :| a in accounts && accounts[a].provider == p { assert accounts'[a].provider == p; }
    }
  }

  lemma LoadedAll(c: Config, d: Disk, s: Registry, seen: set<Token>, accepting: set<Token>)
    requires LoadedSoFar(c, d, d.directories, s, seen, accepting) && d.lines.Keys <= d.directories
             && |d.directories| <= c.maxAccounts
    ensures Loads(c, d, s, accepting)
  {
    assert s.accounts == Manifests(d);
    assert s.disk.directories == s.accounts.Keys;
  }

  ghost function Listed(entries: seq<Owner>): (ids: set<Owner>) {
    set id | id in entries
  }

  lemma {:induction false} EntriesCount(entries: seq<Owner>)
    requires forall i, j | 0 <= i < j < |entries| :: entries[i] != entries[j]
    ensures |Listed(entries)| == |entries|
  {
    if entries != [] {
      var init := entries[..|entries| - 1];
      EntriesCount(init);
      assert Listed(entries) == Listed(init) + {entries[|entries| - 1]};
    }
  }

  /** A settled disk, and its account directories in some order. */
  ghost predicate Startable(d: Disk, entries: seq<Owner>) {
    && d.unsettled.None? && d.lines.Keys <= d.directories && (forall a | a in d.lines :: d.lines[a] != [])
    && Listed(entries) == d.directories && forall i, j | 0 <= i < j < |entries| :: entries[i] != entries[j]
  }

  class DynamicAccountManager {
    const config: Config
    var accounts: map<Owner, Metadata>
    var pending: map<Token, Owner>
    var authorized: map<Token, Owner>
    var providers: set<Token>
    var healthy: bool
    var disk: Disk

    ghost function Snapshot(): (s: Registry)
      reads this
    {
      Registry(config, accounts, pending, authorized, providers, healthy, disk)
    }

    // ----- Starting

    /** Start on the settled disk: memory is empty first, and then rebuilt. */
    constructor (c: Config, d: Disk, entries: seq<Owner>, accepting: set<Token>)
      requires Startable(d, entries)
      ensures config == c && Loads(c, d, Snapshot(), accepting)
    {
      config := c;
      accounts, pending, authorized, providers, healthy, disk := map[], map[], map[], {}, true, d;
      new;
      Load(entries, accepting);
    }

    /**
     Rebuild memory from the settled disk. `entries` lists the account directories in some order;
     `accepting` are the provider ids whose providers accept their credential file.
     */
    method Load(entries: seq<Owner>, accepting: set<Token>)
      requires Snapshot() == Registry(config, map[], map[], map[], {}, true, disk) && Startable(disk, entries)
      modifies this
      ensures Loads(config, old(disk), Snapshot(), accepting)
    {
      ghost var d := disk;
      EntriesCount(entries);
      var seen: set<Token> := {};
      var i := 0;
      NothingLoaded(config, d, Snapshot(), entries, accepting);
      healthy := |entries| <= config.maxAccounts;
      while i < |entries| && healthy
        invariant 0 <= i <= |entries|
        invariant healthy ==>
                    && |entries| <= config.maxAccounts
                    && LoadedSoFar(config, d, Listed(entries[..i]), Snapshot(), seen, accepting)
        invariant !healthy ==> !(|d.directories| <= config.maxAccounts && Loadable(config, Manifests(d)))
        invariant disk.lines == d.lines && disk.unsettled.None? && d.lines.Keys <= disk.directories <= d.directories
        decreases |entries| - i
      {
        ListedOneMore(entries, i);
        seen := LoadEntry(entries[i], seen, accepting, d, Listed(entries[..i]));
        i := i + 1;
      }
      if healthy {
        assert entries[..i] == entries;
        LoadedAll(config, d, Snapshot(), seen, accepting);
      } else {
        accounts, pending, authorized, providers := map[], map[], map[], {};
      }
    }

    /** Remove a directory that holds no manifest; else check the manifest and enter it, or give up. */
    method LoadEntry(id: Owner, seen: set<Token>, accepting: set<Token>, ghost d: Disk, ghost done: set<Owner>)
      returns (seen': set<Token>)
      requires LoadedSoFar(config, d, done, Snapshot(), seen, accepting) && id !in done && id in d.directories
      requires d.lines.Keys <= disk.directories && (forall a | a in d.lines :: d.lines[a] != [])
      modifies this
      ensures healthy ==> LoadedSoFar(config, d, done + {id}, Snapshot(), seen', accepting)
      ensures !healthy ==> !Loadable(config, Manifests(d))
      ensures disk.lines == d.lines && disk.unsettled.None? && d.lines.Keys <= disk.directories <= d.directories
    {
      ghost var before := Snapshot();
      if id !in disk.lines {
        SkippedOne(config, d, done, before, seen, accepting, id);
        disk := disk.(directories := disk.directories - {id});
        return seen;
      }
      var m := Manifest(disk.lines[id]);
      PassesIffAcceptable(config, d, done, before, seen, accepting, id, m);
      if !Passes(config, pending, authorized, seen, id, m) {
        RefusedEntry(config, Manifests(d), done, id);
        healthy := false;
        return seen;
      }
      accounts := accounts[id := m];
      if m.switchRequest.Some? { pending := pending[m.switchRequest.value.id := id]; }
      if m.authorization.Some? { authorized := authorized[m.authorization.value.request := id]; }
      if m.state == Active && m.provider in accepting { providers := providers + {m.provider}; }
      LoadedOneMore(config, d, done, before, seen, accepting, id, Snapshot());
      seen' := seen + {m.provider};
    }

    // ----- Writing

    method LatchUnhealthy()
      modifies this
      ensures Snapshot() == Latch(old(Snapshot()))
    {
      providers := {};
      healthy := false;
    }

    /** Replace `metadata.json`; on success the record in memory follows. */
    method Commit(id: Owner, v: Version, fate: Fate) returns (ok: bool)
      modifies this
      ensures Snapshot() == Write(old(Snapshot()), id, v, fate)
      ensures ok <==> fate == Synced
    {
      match fate {
        case Synced =>
          var line := if id in disk.lines then disk.lines[id] else [];
          disk := Disk(disk.directories + {id}, disk.lines[id := line + [v]], disk.unsettled);
          accounts := accounts[id := v.meta];
          ok := true;
        case Lost =>
          ok := false;
        case Unconfirmed =>
          disk := disk.(unsettled := Some((id, v)));
          LatchUnhealthy();
          ok := false;
      }
    }

    // ----- Reservations

    method BeginReservation(current: Metadata, kind: Kind, operation: string, now: int, pruned: Fate, written: Fate)
      returns (reply: Reply)
      modifies this
      ensures Outcome(Snapshot(), reply) ==
              BeginCoordination(old(Snapshot()), current, kind, operation, now, pruned, written)
    {
      var m := current;
      if m.reservation.Some? && m.reservation.value.expiresAt <= now {
        m := m.(reservation := None, updatedAt := now);
        var ok := Commit(m.owner, Version(m, now, Lapsed), pruned);
        if !ok { return Refused(StorageUnavailable); }
      }
      if m.reservation.Some? {
        if m.reservation.value.kind == kind && m.reservation.value.operation == operation {
          return Held(m.reservation.value.expiresAt);
        }
        return Refused(CoordinationConflict);
      }
      var expiresAt := now + config.reservationSeconds;
      m := m.(reservation := Some(Reservation(kind, operation, expiresAt)), updatedAt := now);
      var ok := Commit(m.owner, Version(m, now, Reserved(kind, operation)), written);
      reply := if ok then Held(expiresAt) else Refused(StorageUnavailable);
    }

    method OwnAccount(id: Owner) returns (current: Option<Metadata>)
      ensures current == Own(Snapshot(), id)
    {
      if id !in accounts || accounts[id].owner != id { return None; }
      current := Some(accounts[id]);
    }

    method BeginAdmissionCall(id: Owner, operation: string, now: int, pruned: Fate, written: Fate)
      returns (reply: Reply)
      modifies this
      ensures Outcome(Snapshot(), reply) == BeginAdmission(old(Snapshot()), id, operation, now, pruned, written)
    {
      if !config.switching { return Refused(NotFound); }
      if !healthy { return Refused(Unavailable); }
      var current := OwnAccount(id);
      if current.None? || current.value.state != Active { return Refused(AccountNotFound); }
      if current.value.eligibility <= now { return Refused(NotEligible); }
      reply := BeginReservation(current.value, Admission, operation, now, pruned, written);
    }

    /** Ending an admission and aborting a switch. */
    method EndReservationCall(id: Owner, kind: Kind, operation: string, now: int, fate: Fate) returns (reply: Reply)
      modifies this
      ensures Outcome(Snapshot(), reply) == EndReservation(old(Snapshot()), id, kind, operation, now, fate)
    {
      if !config.switching { return Refused(NotFound); }
      if !healthy { return Refused(Unavailable); }
      var current := OwnAccount(id);
      if current.None? { return Refused(AccountNotFound); }
      var m := current.value;
      if m.reservation.None? { return Free; }
      var held := m.reservation.value;
      if held.kind != kind || held.operation != operation || held.expiresAt <= now {
        return Refused(CoordinationNotHeld);
      }
      m := m.(reservation := None, updatedAt := now);
      var ok := Commit(m.owner, Version(m, now, Released(kind, operation)), fate);
      reply := if ok then Free else Refused(StorageUnavailable);
    }

    // ----- Template switches

    method RequestSwitchCall(caller: Caller, operation: string, now: int, drawn: Token, fate: Fate)
      returns (reply: Reply)
      modifies this
      ensures Outcome(Snapshot(), reply) == RequestSwitch(old(Snapshot()), caller, operation, now, drawn, fate)
    {
      if !config.switching { return Refused(NotFound); }
      if !healthy { return Refused(Unavailable); }
      if caller.eligibility.None? || caller.eligibility.value <= now { return Refused(NotEligible); }
      var current := OwnAccount(caller.owner);
      if current.None? { return Refused(AccountNotFound); }
      var m := current.value;
      if m.state != State.Revoked { return Refused(SwitchNotRevoked); }
      if m.authorized { return Authorized; }
      if m.switchRequest.Some? {
        if m.switchRequest.value.expiresAt > now { return Pending(m.switchRequest.value.id); }
        pending := pending - {m.switchRequest.value.id};
      }
      m := m.(switchRequest := Some(SwitchRequest(drawn, operation, now + config.requestSeconds)), updatedAt := now);
      var ok := Commit(caller.owner, Version(m, now, SwitchRequested), fate);
      if !ok { return Refused(StorageUnavailable); }
      pending := pending[drawn := caller.owner];
      reply := Pending(drawn);
    }

    method BeginSwitchCall(request: Token, operation: string, now: int, pruned: Fate, written: Fate)
      returns (reply: Reply)
      modifies this
      ensures Outcome(Snapshot(), reply) == BeginSwitch(old(Snapshot()), request, operation, now, pruned, written)
    {
      if !config.switching { return Refused(NotFound); }
      if !healthy { return Refused(Unavailable); }
      if request !in pending || pending[request] !in accounts {
        if request in authorized && authorized[request] in accounts {
          var m := accounts[authorized[request]];
          if m.state == State.Revoked && m.authorized && m.authorization == Some(Authorization(operation, request)) {
            return SwitchHeld(m.owner, now + config.reservationSeconds);
          }
        }
        return Refused(SwitchRequestNotFound);
      }
      var current := accounts[pending[request]];
      if current.state != State.Revoked || current.switchRequest.None? || current.switchRequest.value.id != request
         || current.switchRequest.value.expiresAt <= now
      {
        return Refused(SwitchRequestNotFound);
      }
      reply := BeginReservation(current, TemplateSwitch, operation, now, pruned, written);
      if reply.Held? { reply := SwitchHeld(current.owner, reply.expiresAt); }
    }

    method CommitSwitchCall(id: Owner, operation: string, now: int, fate: Fate) returns (reply: Reply)
      modifies this
      ensures Outcome(Snapshot(), reply) == CommitSwitch(old(Snapshot()), id, operation, now, fate)
    {
      if !config.switching { return Refused(NotFound); }
      if !healthy { return Refused(Unavailable); }
      var current := OwnAccount(id);
      if current.None? { return Refused(AccountNotFound); }
      var m := current.value;
      if m.authorization.Some? && m.authorization.value.operation == operation { return Authorized; }
      if m.reservation.None? || m.reservation.value.kind != TemplateSwitch || m.reservation.value.operation != operation
         || m.reservation.value.expiresAt <= now
      {
        return Refused(CoordinationNotHeld);
      }
      if m.state != State.Revoked { return Refused(SwitchNotRevoked); }
      if m.switchRequest.None? { return Refused(InternalError); }
      var request := m.switchRequest.value.id;
      m := m.(switchRequest := None, reservation := None, authorized := true,
              authorization := Some(Authorization(operation, request)), updatedAt := now);
      var ok := Commit(id, Version(m, now, SwitchCommitted(operation)), fate);
      if !ok { return Refused(StorageUnavailable); }
      pending := pending - {request};
      authorized := authorized[request := id];
      reply := Authorized;
    }

    // ----- Enrollment, reconnection, revocation

    /** Search the log for an operation id. */
    method FindRepeated(current: Metadata, action: Action, operation: string) returns (reply: Option<Reply>)
      ensures reply == Repeated(current, action, operation)
    {
      for i := 0 to |current.operations|
        invariant Find(current.operations, operation) == Find(current.operations[i..], operation)
      {
        var op := current.operations[i];
        assert current.operations[i..][1..] == current.operations[i + 1..];
        if op.id == operation {
          if op.action != action || op.provider != current.provider { return Some(Refused(OperationConflict)); }
          return Some(Done(op.result));
        }
      }
      reply := None;
    }

    method DrawProviderId(draws: seq<Token>) returns (value: Option<Token>)
      ensures value == NewProviderId(Snapshot(), draws)
    {
      for i := 0 to |draws|
        invariant NewProviderId(Snapshot(), draws) == NewProviderId(Snapshot(), draws[i..])
      {
        assert draws[i..][1..] == draws[i + 1..];
        if draws[i] !in config.staticNames && draws[i] !in providers
          && draws[i] !in (set id | id in accounts :: accounts[id].provider) {
          return Some(draws[i]);
        }
      }
      value := None;
    }

    method ReplaceCredential(caller: Caller, current: Option<Metadata>, template: string, operation: string, now: int,
                             action: Action, provider: Token, file: Token, fault: Fault) returns (reply: Reply)
      requires caller.eligibility.Some?
      modifies this
      ensures Outcome(Snapshot(), reply)
           == Replace(old(Snapshot()), caller, current, template, operation, now, action, provider, file, fault)
    {
      var id := caller.owner;
      if fault.StorageFails? {
        if fault.directoryLeft { disk := disk.(directories := disk.directories + {id}); }
        if fault.latched { LatchUnhealthy(); }
        return Refused(StorageUnavailable);
      }
      disk := disk.(directories := disk.directories + {id});
      if fault.ProviderFails? { return Refused(ProviderInitializationFailed); }
      var m := NewRecord(caller, current, template, operation, now, action, provider, file);
      var ok := Commit(id, Version(m, now, Replaced(action)), fault.fate);
      if !ok { return Refused(StorageUnavailable); }
      providers := providers + {provider};
      if current.Some? && current.value.switchRequest.Some? {
        pending := pending - {current.value.switchRequest.value.id};
      }
      if current.Some? && current.value.authorization.Some? {
        authorized := authorized - {current.value.authorization.value.request};
      }
      reply := Done(Ready(template, m.generation));
    }

    method EnrollCall(caller: Caller, template: string, operation: string, now: int, draws: seq<Token>, file: Token,
                      fault: Fault)
      returns (reply: Reply)
      modifies this
      ensures Outcome(Snapshot(), reply) ==
              Enroll(old(Snapshot()), caller, template, operation, now, draws, file, fault)
    {
      if !healthy { return Refused(Unavailable); }
      if caller.eligibility.None? || caller.eligibility.value <= now { return Refused(NotEligible); }
      var current := if caller.owner in accounts then Some(accounts[caller.owner]) else None;
      if current.Some? {
        var repeated := FindRepeated(current.value, Enrolling, operation);
        if current.value.state == Active {
          return if repeated.Some? then repeated.value else Refused(AlreadyEnrolled);
        }
        if repeated.Some? { return Refused(OperationConflict); }
      }
      if template !in config.templates { return Refused(UnknownTemplate); }
      if current.Some? && current.value.template != template && !(config.switching && current.value.authorized) {
        return Refused(SwitchNotAuthorized);
      }
      if current.None? && |accounts| >= config.maxAccounts { return Refused(CapacityExceeded); }
      var provider := DrawProviderId(draws);
      if provider.None? { return Refused(ProviderIdUnavailable); }
      reply := ReplaceCredential(caller, current, template, operation, now, Enrolling, provider.value, file, fault);
    }

    method ReconnectCall(caller: Caller, operation: string, now: int, file: Token, fault: Fault) returns (reply: Reply)
      modifies this
      ensures Outcome(Snapshot(), reply) == Reconnect(old(Snapshot()), caller, operation, now, file, fault)
    {
      if !healthy { return Refused(Unavailable); }
      if caller.eligibility.None? || caller.eligibility.value <= now { return Refused(NotEligible); }
      var current := OwnAccount(caller.owner);
      if current.None? || current.value.state != Active { return Refused(AccountNotFound); }
      var repeated := FindRepeated(current.value, Reconnecting, operation);
      if repeated.Some? { return repeated.value; }
      var template := current.value.template;
      if template !in config.templates { return Refused(InternalError); }
      reply := ReplaceCredential(caller, current, template, operation, now, Reconnecting, current.value.provider, file,
                                 fault);
    }

    method RevokeCall(id: Owner, operation: string, now: int, fate: Fate) returns (reply: Reply)
      modifies this
      ensures Outcome(Snapshot(), reply) == Revoke(old(Snapshot()), id, operation, now, fate)
    {
      if !healthy { return Refused(Unavailable); }
      var current := OwnAccount(id);
      if current.None? { return Refused(AccountNotFound); }
      var repeated := FindRepeated(current.value, Revoking, operation);
      if repeated.Some? { return repeated.value; }
      if current.value.state != Active { return Refused(AccountNotFound); }
      var ok := Commit(id, Version(Tombstone(current.value, operation, now), now, RevokedByOwner), fate);
      if !ok { return Refused(StorageUnavailable); }
      providers := providers - {current.value.provider};
      reply := Done(Withdrawn);
    }

    // ----- Eligibility

    method RenewEligibilityCall(caller: Caller, now: int, fate: Fate) returns (reply: Reply)
      modifies this
      ensures Outcome(Snapshot(), reply) == RenewEligibility(old(Snapshot()), caller, now, fate)
    {
      if !healthy { return Refused(Unavailable); }
      if caller.eligibility.None? || caller.eligibility.value <= now { return Refused(NotEligible); }
      var current := OwnAccount(caller.owner);
      if current.None? || current.value.eligibility >= caller.eligibility.value { return Ok; }
      var m := current.value.(eligibility := caller.eligibility.value, updatedAt := now);
      var ok := Commit(m.owner, Version(m, now, EligibilitySet), fate);
      reply := if ok then Ok else Refused(StorageUnavailable);
    }

    method RevokeEligibilityCall(caller: Caller, now: int, fate: Fate) returns (reply: Reply)
      modifies this
      ensures Outcome(Snapshot(), reply) == RevokeEligibility(old(Snapshot()), caller, now, fate)
    {
      if !healthy { return Refused(Unavailable); }
      if caller.eligibility.None? || caller.eligibility.value <= now { return Refused(NotEligible); }
      var current := OwnAccount(caller.owner);
      if current.None? || current.value.eligibility == 0 { return Ok; }
      var m := current.value.(eligibility := 0, updatedAt := now);
      var ok := Commit(m.owner, Version(m, now, EligibilitySet), fate);
      reply := if ok then Ok else Refused(StorageUnavailable);
    }
  }
}
