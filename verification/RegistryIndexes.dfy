/**
 Every call keeps the two switch-request indexes and the published handles in step with
 the records, whatever the fate of its writes.
 */
module RegistryIndexes {
  import opened Wrappers
  import opened AccountRecord
  import opened Registry
  import opened AccountLines
  import opened RegistryRuns

  /** What the core says of the records of a healthy registry. */
  ghost predicate Tidy(accounts: map<Owner, Metadata>, issued: set<Token>) {
    && DistinctProviders(accounts) && DistinctRequests(accounts)
    && forall id | id in accounts :: accounts[id].owner == id && Shaped(accounts[id]) && Issued(accounts[id], issued)
  }

  lemma CoreIsTidy(w: World)
    requires Core(w) && w.registry.healthy
    ensures Tidy(w.registry.accounts, w.issued)
  {
    var d := w.registry.disk;
    assert Settle(d, false) == d;
    forall id | id in w.registry.accounts
      ensures w.registry.accounts[id].owner == id && Shaped(w.registry.accounts[id])
              && Issued(w.registry.accounts[id], w.issued)
    {
      CurrentIsLast(w, id);
      assert LineSound(d.lines[id], id, w.clock, w.issued);
      LineShaped(d.lines[id], |d.lines[id]| - 1);
    }
  }

  // ----- The indexes, as maps

  lemma SameIdsKeepIndexes(accounts: map<Owner, Metadata>, pending: map<Token, Owner>, authorized: map<Token, Owner>,
                           now: int,
                           id: Owner, m: Metadata, now': int)
    requires PendingAgrees(accounts, pending, now) && AuthorizedIndexed(accounts, authorized)
    requires now <= now' && id in accounts
    requires m.switchRequest == accounts[id].switchRequest && m.authorization == accounts[id].authorization
    ensures PendingAgrees(accounts[id := m], pending, now') && AuthorizedIndexed(accounts[id := m], authorized)
  {
  }

  lemma ForgetRequest(accounts: map<Owner, Metadata>, pending: map<Token, Owner>, now: int, id: Owner, m: Metadata,
                      now': int)
    requires PendingAgrees(accounts, pending, now) && DistinctRequests(accounts) && now <= now' && m.switchRequest.None?
    ensures PendingAgrees(accounts[id := m], if id in accounts then Drop(pending, RequestId(accounts[id]))
                          else pending, now')
  {
    forall a | a in accounts && a != id && id in accounts ensures Apart(accounts[a], accounts[id]) {}
  }

  lemma ForgetExpired(accounts: map<Owner, Metadata>, pending: map<Token, Owner>, now: int, id: Owner, now': int)
    requires PendingAgrees(accounts, pending, now) && DistinctRequests(accounts) && now <= now'
    requires id in accounts && !Unexpired(accounts[id], now')
    ensures PendingAgrees(accounts, Drop(pending, RequestId(accounts[id])), now')
  {
    forall a | a in accounts && a != id && id in accounts ensures Apart(accounts[a], accounts[id]) {}
  }

  lemma AddRequest(accounts: map<Owner, Metadata>, pending: map<Token, Owner>, now: int, id: Owner, m: Metadata)
    requires PendingAgrees(accounts, pending, now) && id in accounts && accounts[id].switchRequest.None?
    requires RequestId(m).Some? && RequestId(m).value !in pending
    ensures PendingAgrees(accounts[id := m], pending[RequestId(m).value := id], now)
  {
  }

  lemma NewRequest(accounts: map<Owner, Metadata>, pending: map<Token, Owner>, now: int, id: Owner, m: Metadata,
                   now': int)
    requires PendingAgrees(accounts, pending, now) && DistinctRequests(accounts) && now <= now' && id in accounts
    requires RequestId(m).Some? && RequestId(m).value !in pending
    ensures PendingAgrees(accounts[id := m], Drop(pending, RequestId(accounts[id]))[RequestId(m).value := id], now')
  {
    var cleared := m.(switchRequest := None);
    ForgetRequest(accounts, pending, now, id, cleared, now');
    AddRequest(accounts[id := cleared], Drop(pending, RequestId(accounts[id])), now', id, m);
    assert accounts[id := cleared][id := m] == accounts[id := m];
  }

  lemma ForgetAuthorization(accounts: map<Owner, Metadata>, authorized: map<Token, Owner>, id: Owner, m: Metadata)
    requires AuthorizedIndexed(accounts, authorized) && DistinctRequests(accounts) && m.authorization.None?
    ensures AuthorizedIndexed(accounts[id := m], if id in accounts then Drop(authorized, AuthorizedId(accounts[id]))
                              else authorized)
  {
    forall a | a in accounts && a != id && id in accounts ensures Apart(accounts[a], accounts[id]) {}
  }

  lemma NewAuthorization(accounts: map<Owner, Metadata>, authorized: map<Token, Owner>, id: Owner, m: Metadata)
    requires AuthorizedIndexed(accounts, authorized) && DistinctRequests(accounts) && id in accounts
    requires accounts[id].authorization.None? && RequestId(accounts[id]).Some?
             && AuthorizedId(m) == RequestId(accounts[id])
    ensures AuthorizedIndexed(accounts[id := m], authorized[RequestId(accounts[id]).value := id])
  {
    forall a | a in accounts && a != id && id in accounts ensures Apart(accounts[a], accounts[id]) {}
  }

  /** A record may change freely where its account publishes nothing, or publishes the same handle. */
  lemma HandlesStayOwned(accounts: map<Owner, Metadata>, providers: set<Token>, id: Owner, m: Metadata,
                         providers': set<Token>)
    requires ProvidersOwned(accounts, providers)
    requires forall p | p in providers' :: p in providers || Publishes(m, p)
    requires id in accounts && accounts[id].state.Active? && accounts[id].provider in providers' ==>
               Publishes(m, accounts[id].provider)
    ensures ProvidersOwned(accounts[id := m], providers')
  {
    var accounts' := accounts[id := m];
    forall p | p in providers' ensures exists a :: a in accounts' && Publishes(accounts'[a], p) {
      if Publishes(m, p) {
        assert Publishes(accounts'[id], p);
      } else {
        var a :| a in accounts && Publishes(accounts[a], p);
        assert Publishes(accounts'[a], p);
      }
    }
  }

  // ----- The calls

  lemma PlainWriteInStep(s: Registry, now: int, id: Owner, v: Version, fate: Fate, now': int)
    requires s.healthy && InStep(s, now) && now <= now' && id in s.accounts
    requires v.meta.switchRequest == s.accounts[id].switchRequest
             && v.meta.authorization == s.accounts[id].authorization
    requires v.meta.provider == s.accounts[id].provider && v.meta.state == s.accounts[id].state
    ensures InStep(Write(s, id, v, fate), now')
  {
    if fate == Synced {
      SameIdsKeepIndexes(s.accounts, s.pending, s.authorized, now, id, v.meta, now');
      HandlesStayOwned(s.accounts, s.providers, id, v.meta, s.providers);
    }
  }

  lemma ReserveInStep(s: Registry, clock: int, id: Owner, kind: Kind, operation: string, now: int, fate: Fate)
    requires s.healthy && InStep(s, clock) && clock <= now && id in s.accounts && s.accounts[id].owner == id
    ensures InStep(Reserve(s, s.accounts[id], kind, operation, now, fate).registry, now)
  {
    var m := s.accounts[id].(reservation := Some(Reservation(kind, operation, now + s.config.reservationSeconds)),
                             updatedAt := now);
    PlainWriteInStep(s, clock, id, Version(m, now, Reserved(kind, operation)), fate, now);
  }

  lemma LapseInStep(s: Registry, clock: int, id: Owner, now: int, fate: Fate)
    requires s.healthy && InStep(s, clock) && clock <= now && id in s.accounts && s.accounts[id].owner == id
    ensures InStep(Lapse(s, s.accounts[id], now, fate), now)
  {
    PlainWriteInStep(s, clock, id, Version(s.accounts[id].(reservation := None, updatedAt := now), now, Lapsed), fate,
                     now);
  }

  lemma BeginCoordinationInStep(s: Registry, clock: int, id: Owner, kind: Kind, operation: string, now: int,
                                pruned: Fate, written: Fate)
    requires s.healthy && InStep(s, clock) && clock <= now && id in s.accounts && s.accounts[id].owner == id
    ensures InStep(BeginCoordination(s, s.accounts[id], kind, operation, now, pruned, written).registry, now)
  {
    LapseInStep(s, clock, id, now, pruned);
    if !HasLapsed(s.accounts[id], now) {
      ReserveInStep(s, clock, id, kind, operation, now, written);
    } else if pruned == Synced {
      ReserveInStep(Lapse(s, s.accounts[id], now, pruned), now, id, kind, operation, now, written);
    }
  }

  lemma EndReservationCases(s: Registry, id: Owner, kind: Kind, operation: string, now: int, fate: Fate)
    ensures var s' := EndReservation(s, id, kind, operation, now, fate).registry;
            s' == s || (s.healthy && id in s.accounts && s.accounts[id].owner == id
                        && s' == Write(s, id,
                                       Version(s.accounts[id].(reservation := None, updatedAt := now), now,
                                               Released(kind, operation)), fate))
  {
  }

  lemma EndReservationInStep(s: Registry, clock: int, id: Owner, kind: Kind, operation: string, now: int, fate: Fate)
    requires InStep(s, clock) && clock <= now
    ensures InStep(EndReservation(s, id, kind, operation, now, fate).registry, now)
  {
    EndReservationCases(s, id, kind, operation, now, fate);
    if EndReservation(s, id, kind, operation, now, fate).registry == s {
      LaterInStep(s, clock, now);
    } else {
      PlainWriteInStep(s, clock, id,
                       Version(s.accounts[id].(reservation := None, updatedAt := now), now,
                               Released(kind, operation)), fate, now);
    }
  }

  lemma RevokeInStep(s: Registry, clock: int, id: Owner, operation: string, now: int, fate: Fate)
    requires InStep(s, clock) && clock <= now
    ensures InStep(Revoke(s, id, operation, now, fate).registry, now)
  {
    var own := Own(s, id);
    if s.healthy && own.Some? {
      var m := Tombstone(own.value, operation, now);
      SameIdsKeepIndexes(s.accounts, s.pending, s.authorized, clock, id, m, now);
      HandlesStayOwned(s.accounts, s.providers, id, m, s.providers - {own.value.provider});
    }
  }

  lemma SetEligibilityInStep(s: Registry, clock: int, id: Owner, expiresAt: int, now: int, fate: Fate)
    requires s.healthy && InStep(s, clock) && clock <= now && id in s.accounts && s.accounts[id].owner == id
    ensures InStep(SetEligibility(s, s.accounts[id], expiresAt, now, fate).registry, now)
  {
    var m := s.accounts[id].(eligibility := expiresAt, updatedAt := now);
    PlainWriteInStep(s, clock, id, Version(m, now, EligibilitySet), fate, now);
  }

  lemma LaterInStep(s: Registry, clock: int, now: int)
    requires InStep(s, clock) && clock <= now
    ensures InStep(s, now)
  {
  }

  lemma RequestSwitchInStep(s: Registry, clock: int, issued: set<Token>, caller: Caller, operation: string, now: int,
                            drawn: Token, fate: Fate)
    requires InStep(s, clock) && clock <= now && (s.healthy ==> Tidy(s.accounts, issued)) && drawn !in issued
    ensures InStep(RequestSwitch(s, caller, operation, now, drawn, fate).registry, now)
  {
    var id := caller.owner;
    RequestSwitchCases(s, caller, operation, now, drawn, fate);
    if RequestSwitch(s, caller, operation, now, drawn, fate).registry == s {
      LaterInStep(s, clock, now);
    } else if fate == Synced {
      NewRequestInStep(s, clock, issued, id, operation, now, drawn);
    } else if fate == Lost {
      LostRequestInStep(s, clock, issued, id, now);
    }
  }

  lemma LostRequestInStep(s: Registry, clock: int, issued: set<Token>, id: Owner, now: int)
    requires s.healthy && InStep(s, clock) && clock <= now && Tidy(s.accounts, issued) && id in s.accounts
             && !Unexpired(s.accounts[id], now)
    ensures InStep(s.(pending := Drop(s.pending, RequestId(s.accounts[id]))), now)
  {
    ForgetExpired(s.accounts, s.pending, clock, id, now);
  }

  lemma NewRequestInStep(s: Registry, clock: int, issued: set<Token>, id: Owner, operation: string, now: int,
                         drawn: Token)
    requires s.healthy && InStep(s, clock) && clock <= now && Tidy(s.accounts, issued) && drawn !in issued
             && id in s.accounts
    ensures var m := SwitchRecord(s, s.accounts[id], operation, now, drawn);
            && PendingAgrees(s.accounts[id := m], Drop(s.pending, RequestId(s.accounts[id]))[drawn := id], now)
            && AuthorizedIndexed(s.accounts[id := m], s.authorized)
            && ProvidersOwned(s.accounts[id := m], s.providers)
  {
    var m := SwitchRecord(s, s.accounts[id], operation, now, drawn);
    FreshIsNotPending(s.accounts, s.pending, clock, issued, drawn);
    NewRequest(s.accounts, s.pending, clock, id, m, now);
    SameAuthorization(s.accounts, s.authorized, id, m);
    HandlesStayOwned(s.accounts, s.providers, id, m, s.providers);
  }

  lemma FreshIsNotPending(accounts: map<Owner, Metadata>, pending: map<Token, Owner>, now: int, issued: set<Token>,
                          drawn: Token)
    requires PendingAgrees(accounts, pending, now) && Tidy(accounts, issued) && drawn !in issued
    ensures drawn !in pending
  {
    assert drawn in pending ==> Issued(accounts[pending[drawn]], issued);
  }

  lemma SameAuthorization(accounts: map<Owner, Metadata>, authorized: map<Token, Owner>, id: Owner, m: Metadata)
    requires AuthorizedIndexed(accounts, authorized) && id in accounts && m.authorization == accounts[id].authorization
    ensures AuthorizedIndexed(accounts[id := m], authorized)
  {
  }

  lemma CommitSwitchInStep(s: Registry, clock: int, issued: set<Token>, id: Owner, operation: string, now: int,
                           fate: Fate)
    requires InStep(s, clock) && clock <= now && (s.healthy ==> Tidy(s.accounts, issued))
    ensures InStep(CommitSwitch(s, id, operation, now, fate).registry, now)
  {
    var s' := CommitSwitch(s, id, operation, now, fate).registry;
    LaterInStep(s, clock, now);
    if s'.healthy && s' != s {
      AuthorizationInStep(s, clock, issued, id, operation, now);
      var q := s.accounts[id].switchRequest.value.id;
      assert s'.pending == s.pending - {q} && s'.authorized == s.authorized[q := id] && s'.providers == s.providers;
    }
  }

  lemma AuthorizationInStep(s: Registry, clock: int, issued: set<Token>, id: Owner, operation: string, now: int)
    requires s.healthy && InStep(s, clock) && clock <= now && Tidy(s.accounts, issued)
    requires id in s.accounts && s.accounts[id].switchRequest.Some?
    ensures var q := s.accounts[id].switchRequest.value.id;
            var m := s.accounts[id].(switchRequest := None, reservation := None, authorized := true, updatedAt := now,
                                     authorization := Some(Authorization(operation, q)));
            && PendingAgrees(s.accounts[id := m], s.pending - {q}, now)
            && AuthorizedIndexed(s.accounts[id := m], s.authorized[q := id])
            && ProvidersOwned(s.accounts[id := m], s.providers)
  {
    var q := s.accounts[id].switchRequest.value.id;
    var m := s.accounts[id].(switchRequest := None, reservation := None, authorized := true, updatedAt := now,
                             authorization := Some(Authorization(operation, q)));
    assert Shaped(s.accounts[id]);
    ForgetRequest(s.accounts, s.pending, clock, id, m, now);
    NewAuthorization(s.accounts, s.authorized, id, m);
    HandlesStayOwned(s.accounts, s.providers, id, m, s.providers);
  }

  /** A replacement leaves the registry's maps alone, or latches it, or commits the new record and its index changes. */
  lemma ReplaceCases(s: Registry, caller: Caller, template: string, operation: string, now: int, action: Action,
                     provider: Token, file: Token, fault: Fault)
    requires caller.eligibility.Some?
    ensures var id, prev := caller.owner, Prior(s, caller.owner);
            var s' := Replace(s, caller, prev, template, operation, now, action, provider, file, fault).registry;
            || !s'.healthy
            || (s'.accounts == s.accounts && s'.pending == s.pending && s'.authorized == s.authorized
                && s'.providers == s.providers)
            || (&& s'.accounts ==
                s.accounts[id := NewRecord(caller, prev, template, operation, now, action, provider, file)]
                && s'.pending == (if id in s.accounts then Drop(s.pending, RequestId(s.accounts[id])) else s.pending)
                && s'.authorized ==
                   (if id in s.accounts then Drop(s.authorized, AuthorizedId(s.accounts[id])) else s.authorized)
                && s'.providers == s.providers + {provider})
  {
  }

  lemma ReplaceInStep(s: Registry, clock: int, issued: set<Token>, caller: Caller, template: string, operation: string,
                      now: int,
                      action: Action, provider: Token, file: Token, fault: Fault)
    requires s.healthy && InStep(s, clock) && clock <= now && Tidy(s.accounts, issued)
    requires caller.eligibility.Some? && MayReplace(Prior(s, caller.owner), action, template, provider)
    ensures InStep(Replace(s, caller, Prior(s, caller.owner), template, operation, now, action, provider, file,
                           fault).registry, now)
  {
    ReplaceCases(s, caller, template, operation, now, action, provider, file, fault);
    ReplacementInStep(s, clock, issued, caller, template, operation, now, action, provider, file);
    LaterInStep(s, clock, now);
  }

  lemma ReplacementInStep(s: Registry, clock: int, issued: set<Token>, caller: Caller, template: string,
                          operation: string, now: int,
                          action: Action, provider: Token, file: Token)
    requires s.healthy && InStep(s, clock) && clock <= now && Tidy(s.accounts, issued)
    requires caller.eligibility.Some? && MayReplace(Prior(s, caller.owner), action, template, provider)
    ensures var id := caller.owner;
            var m := NewRecord(caller, Prior(s, id), template, operation, now, action, provider, file);
            && PendingAgrees(s.accounts[id := m], if id in s.accounts then Drop(s.pending, RequestId(s.accounts[id]))
                             else s.pending, now)
            && AuthorizedIndexed(s.accounts[id := m], if id in s.accounts then
                                   Drop(s.authorized, AuthorizedId(s.accounts[id])) else s.authorized)
            && ProvidersOwned(s.accounts[id := m], s.providers + {provider})
  {
    var id, prev := caller.owner, Prior(s, caller.owner);
    var m := NewRecord(caller, prev, template, operation, now, action, provider, file);
    ForgetRequest(s.accounts, s.pending, clock, id, m, now);
    ForgetAuthorization(s.accounts, s.authorized, id, m);
    HandlesStayOwned(s.accounts, s.providers, id, m, s.providers + {provider});
  }
}
