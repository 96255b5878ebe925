/**
 What the replies of the registry mean: each says something about the record that is in place
 afterwards, in every world of every run, and each refusal names a reason that was there.
 */
module RegistryReplies {
  import opened Wrappers
  import opened AccountRecord
  import opened Registry
  import opened AccountLines
  import opened RegistryRuns
  import opened RegistryIndexes
  import opened RegistrySafety

  /** What every world of every run guarantees of a registry and one of its records. */
  ghost predicate Proper(s: Registry, id: Owner) {
    && s.config.reservationSeconds > 0
    && (s.healthy && id in s.accounts ==> s.accounts[id].owner == id && Shaped(s.accounts[id]))
  }

  lemma InvIsProper(w: World, id: Owner)
    requires Inv(w)
    ensures Proper(w.registry, id)
  {
    if w.registry.healthy { CoreIsTidy(w); }
  }

  lemma EveryWorldIsProper(worlds: seq<World>, events: seq<Event>, i: nat, id: Owner)
    requires Run(worlds, events) && i < |worlds|
    ensures Proper(worlds[i].registry, id)
  {
    RunKeepsInv(worlds, events, i);
    InvIsProper(worlds[i], id);
  }

  // ----- Reservations

  /** Another operation holds the slot. */
  predicate HeldByOther(m: Metadata, kind: Kind, operation: string, now: int) {
    && m.reservation.Some? && m.reservation.value.expiresAt > now
    && (m.reservation.value.kind != kind || m.reservation.value.operation != operation)
  }

  /** The operation holds the slot until `until`, which is still to come. */
  predicate HasSlot(accounts: map<Owner, Metadata>, id: Owner, kind: Kind, operation: string, until: int, now: int) {
    && id in accounts && accounts[id].reservation == Some(Reservation(kind, operation, until)) && until > now
  }

  /**
   A reservation that is granted is on record under the operation that asked; a live one of another operation
   is a conflict.
   */
  lemma ReservationReply(s: Registry, current: Metadata, kind: Kind, operation: string, now: int, pruned: Fate,
                         written: Fate)
    requires s.config.reservationSeconds > 0 && current.owner in s.accounts && s.accounts[current.owner] == current
    ensures var o := BeginCoordination(s, current, kind, operation, now, pruned, written);
            && (o.reply.Held? ==>
                  && HasSlot(o.registry.accounts, current.owner, kind, operation, o.reply.expiresAt, now)
                  && o.registry.healthy == s.healthy && OnlySlot(current, o.registry.accounts[current.owner])
                  && (current.reservation == o.registry.accounts[current.owner].reservation
                      || o.reply.expiresAt == now + s.config.reservationSeconds))
            && (HeldByOther(current, kind, operation, now) ==> o == Outcome(s, Refused(CoordinationConflict)))
            && (o.reply == Refused(CoordinationConflict) ==> HeldByOther(current, kind, operation, now))
            && (o.reply.Held? || o.reply.Refused?)
            && (!HeldByOther(current, kind, operation, now) && pruned == Synced && written == Synced ==> o.reply.Held?)
  {
    if HasLapsed(current, now) {
      ReserveReply(Lapse(s, current, now, pruned), current.(reservation := None, updatedAt := now), kind, operation,
                   now,
                   written);
    } else if current.reservation.None? {
      ReserveReply(s, current, kind, operation, now, written);
    }
  }

  /** The records differ in the slot and in the time of the last write only. */
  predicate OnlySlot(m: Metadata, m': Metadata) {
    m' == m.(reservation := m'.reservation, updatedAt := m'.updatedAt)
  }

  lemma ReserveReply(s: Registry, m: Metadata, kind: Kind, operation: string, now: int, fate: Fate)
    requires s.config.reservationSeconds > 0
    ensures var o := Reserve(s, m, kind, operation, now, fate);
            && (o.reply.Held? <==> fate == Synced) && (o.reply.Held? || o.reply == Refused(StorageUnavailable))
            && (o.reply.Held? ==>
                  && HasSlot(o.registry.accounts, m.owner, kind, operation, o.reply.expiresAt, now)
                  && o.registry.healthy == s.healthy && OnlySlot(m, o.registry.accounts[m.owner])
                  && o.reply.expiresAt == now + s.config.reservationSeconds)
  {
  }

  /** Who may be admitted. */
  predicate Admits(s: Registry, id: Owner, now: int) {
    && s.config.switching && s.healthy && id in s.accounts
    && s.accounts[id].state.Active? && s.accounts[id].eligibility > now
  }

  lemma AdmissionReply(s: Registry, id: Owner, operation: string, now: int, pruned: Fate, written: Fate)
    requires Proper(s, id)
    ensures var o := BeginAdmission(s, id, operation, now, pruned, written);
            && (o.reply.Held? ==>
                  && Admits(s, id, now)
                  && HasSlot(o.registry.accounts, id, Admission, operation, o.reply.expiresAt, now)
                  && o.registry.healthy && o.registry.accounts[id].state.Active?)
            && (Admits(s, id, now) && HeldByOther(s.accounts[id], Admission, operation, now) ==>
                  o == Outcome(s, Refused(CoordinationConflict)))
            && (Admits(s, id, now) && !HeldByOther(s.accounts[id], Admission, operation, now) ==>
                  (pruned == Synced && written == Synced ==> o.reply.Held?))
            && (!Admits(s, id, now) ==> o.registry == s && o.reply.Refused?)
  {
    if Admits(s, id, now) { ReservationReply(s, s.accounts[id], Admission, operation, now, pruned, written); }
  }

  /** The account has been authorized to switch by this operation on this request. */
  predicate WasAuthorized(m: Metadata, request: Token, operation: string) {
    m.state.Revoked? && m.authorized && m.authorization == Some(Authorization(operation, request))
  }

  /** The account waits for a decision on this request. */
  predicate Waits(m: Metadata, request: Token, now: int) {
    m.state.Revoked? && m.switchRequest.Some? && m.switchRequest.value.id == request
      && m.switchRequest.value.expiresAt > now
  }

  /**
   A switch that is told to hold the slot does so under its own operation, on the account that waits for the
   request; or the switch was committed before and nothing is held any more.
   */
  lemma SwitchReply(s: Registry, request: Token, operation: string, now: int, pruned: Fate, written: Fate)
    requires forall id :: Proper(s, id)
    ensures var o := BeginSwitch(s, request, operation, now, pruned, written);
            o.reply.SwitchHeld? ==>
              && o.reply.owner in s.accounts && s.healthy && s.config.switching
              && SwitchIsHeld(s, o.registry, o.reply.owner, request, operation, o.reply.expiresAt, now)
  {
    if s.healthy && request in s.pending && s.pending[request] in s.accounts {
      var id := s.pending[request];
      assert Proper(s, id);
      ReservationReply(s, s.accounts[id], TemplateSwitch, operation, now, pruned, written);
    } else if s.healthy && request in s.authorized && s.authorized[request] in s.accounts {
      assert Proper(s, s.authorized[request]);
    }
  }

  /** The slot is held for the request, or the switch was committed before and the registry is as it was. */
  predicate SwitchIsHeld(s: Registry, s': Registry, id: Owner, request: Token, operation: string, until: int, now: int)
    requires id in s.accounts
  {
    && id in s'.accounts && s'.healthy
    && if s'.accounts[id].authorized then s' == s && WasAuthorized(s.accounts[id], request, operation)
       else && HasSlot(s'.accounts, id, TemplateSwitch, operation, until, now)
            && Waits(s.accounts[id], request, now) && Waits(s'.accounts[id], request, now)
  }

  /** A switch over a live reservation of another operation is a conflict and changes nothing. */
  lemma SwitchConflict(w: World, id: Owner, request: Token, operation: string, now: int, pruned: Fate, written: Fate)
    requires Inv(w) && w.clock <= now && w.registry.config.switching && w.registry.healthy && id in w.registry.accounts
    requires Waits(w.registry.accounts[id], request, now)
    ensures var o := BeginSwitch(w.registry, request, operation, now, pruned, written);
            if HeldByOther(w.registry.accounts[id], TemplateSwitch, operation, now)
            then o == Outcome(w.registry, Refused(CoordinationConflict))
            else pruned == Synced && written == Synced ==> o.reply.SwitchHeld? && o.reply.owner == id
  {
    IndexFindsRequest(w, request, now, id);
    CurrentIsLast(w, id);
    ReservationReply(w.registry, w.registry.accounts[id], TemplateSwitch, operation, now, pruned, written);
  }

  /** A committed switch holds nothing: the answer to a repeated proof carries an expiry, but the slot is free. */
  lemma CommittedHoldsNothing(w: World, id: Owner)
    requires Inv(w) && w.registry.healthy && id in w.registry.accounts && w.registry.accounts[id].authorized
    ensures w.registry.accounts[id].reservation.None?
  {
    CurrentLine(w, id);
    var line := w.registry.disk.lines[id];
    var j := AuthorizationOrigin(line, |line| - 1);
  }

  /** Only the holder ends a reservation, and afterwards the slot is free. */
  lemma EndReply(s: Registry, id: Owner, kind: Kind, operation: string, now: int, fate: Fate)
    ensures var o := EndReservation(s, id, kind, operation, now, fate);
            && (o.reply.Free? ==> id in o.registry.accounts && o.registry.accounts[id].reservation.None?)
            && (o.registry != s ==> id in s.accounts && HoldsNow(s.accounts[id], kind, operation, now))
  {
  }

  predicate HoldsNow(m: Metadata, kind: Kind, operation: string, now: int) {
    m.reservation.Some? && m.reservation == Some(Reservation(kind, operation, m.reservation.value.expiresAt))
    && m.reservation.value.expiresAt > now
  }

  /** The holder is served, and another operation is told that it does not hold the slot. */
  lemma EndIsAnswered(s: Registry, id: Owner, kind: Kind, operation: string, now: int, fate: Fate)
    requires Proper(s, id) && s.config.switching && s.healthy && id in s.accounts
    ensures var o := EndReservation(s, id, kind, operation, now, fate);
            && (HeldByOther(s.accounts[id], kind, operation, now) ==> o == Outcome(s, Refused(CoordinationNotHeld)))
            && (HoldsNow(s.accounts[id], kind, operation, now) && fate == Synced ==> o.reply.Free?)
  {
  }

  // ----- Who was told to hold the slot

  /** Step `i` of the run tells an operation that it holds the slot of an account. */
  ghost predicate Told(worlds: seq<World>, events: seq<Event>, i: nat, id: Owner, kind: Kind, operation: string,
                       until: int)
    requires Run(worlds, events) && i < |events|
  {
    var e, now := events[i], worlds[i + 1].clock;
    match kind
    case Admission =>
      e.BeginAdmissionCall? && e.id == id && e.operation == operation
        && Call(worlds[i].registry, e, now).reply == Held(until)
    case TemplateSwitch =>
      && e.BeginSwitchCall? && e.operation == operation
         && Call(worlds[i].registry, e, now).reply == SwitchHeld(id, until)
      && id in worlds[i + 1].registry.accounts && !worlds[i + 1].registry.accounts[id].authorized
  }

  lemma ToldIsRecorded(worlds: seq<World>, events: seq<Event>, i: nat, id: Owner, kind: Kind, operation: string,
                       until: int)
    requires Run(worlds, events) && i < |events| && Told(worlds, events, i, id, kind, operation, until)
    ensures worlds[i + 1].registry.healthy
    ensures HasSlot(worlds[i + 1].registry.accounts, id, kind, operation, until, worlds[i + 1].clock)
  {
    RunKeepsInv(worlds, events, i);
    assert StepAt(worlds, events, i);
    var e, now := events[i], worlds[i + 1].clock;
    if kind.Admission? {
      InvIsProper(worlds[i], id);
      AdmissionReply(worlds[i].registry, id, operation, now, e.pruned, e.written);
    } else {
      forall a ensures Proper(worlds[i].registry, a) { InvIsProper(worlds[i], a); }
      SwitchReply(worlds[i].registry, e.request, operation, now, e.pruned, e.written);
    }
  }

  lemma SlotInLine(line: Line, line': Line, kind: Kind, operation: string, until: int)
    requires line != [] && line <= line' && LineOk(line') && line'[|line'| - 1].at < until
    requires Manifest(line).reservation == Some(Reservation(kind, operation, until))
    ensures || Manifest(line').reservation == Some(Reservation(kind, operation, until))
            || exists k :: |line| <= k < |line'| && Ends(line'[k].cause, kind, operation)
  {
    assert line'[|line| - 1] == line[|line| - 1];
    ReservationKept(line', |line| - 1, |line'| - 1);
  }

  /** The record of an account is the last manifest of its line, and none of them is of the future. */
  lemma LineInRun(worlds: seq<World>, events: seq<Event>, i: nat, id: Owner)
    requires Run(worlds, events) && i < |worlds| && worlds[i].registry.healthy
    ensures id in worlds[i].registry.accounts <==> id in worlds[i].registry.disk.lines
    ensures id in worlds[i].registry.disk.lines ==>
              var line := worlds[i].registry.disk.lines[id];
              && line != [] && LineOk(line) && Manifest(line) == worlds[i].registry.accounts[id]
              && line[|line| - 1].at <= worlds[i].clock
  {
    RunKeepsInv(worlds, events, i);
    if id in worlds[i].registry.disk.lines { LastIsPast(worlds[i], id); }
    CurrentIsLast(worlds[i], id);
    if id in worlds[i].registry.accounts { CurrentLine(worlds[i], id); }
  }

  lemma LastIsPast(w: World, id: Owner)
    requires Inv(w) && w.registry.healthy && id in w.registry.disk.lines
    ensures w.registry.disk.lines[id] != []
    ensures w.registry.disk.lines[id][|w.registry.disk.lines[id]| - 1].at <= w.clock
  {
    assert Settle(w.registry.disk, false) == w.registry.disk;
    assert LineSound(w.registry.disk.lines[id], id, w.clock, w.issued);
  }

  /**
   Two operations are never both told to hold the slot of an account at one time: when the second is told
   before the first expires, the first has given the slot up in between.
   */
  lemma SlotIsExclusive(worlds: seq<World>, events: seq<Event>, i: nat, j: nat, id: Owner, kind: Kind,
                        operation: string,
                        until: int, kind': Kind, operation': string, until': int)
    requires Run(worlds, events) && i < j < |events|
    requires Told(worlds, events, i, id, kind, operation, until)
             && Told(worlds, events, j, id, kind', operation', until')
    requires (kind, operation) != (kind', operation') && worlds[j + 1].clock < until
    ensures id in worlds[i + 1].registry.disk.lines && id in worlds[j + 1].registry.disk.lines
    ensures var line := worlds[j + 1].registry.disk.lines[id];
            exists k :: |worlds[i + 1].registry.disk.lines[id]| <= k < |line| && Ends(line[k].cause, kind, operation)
  {
    ToldIsRecorded(worlds, events, i, id, kind, operation, until);
    ToldIsRecorded(worlds, events, j, id, kind', operation', until');
    SlotIsKept(worlds, events, i + 1, j + 1, id, kind, operation, until);
  }

  /** Over a run, a slot stays with its holder until it expires or the holder gives it up. */
  lemma SlotIsKept(worlds: seq<World>, events: seq<Event>, i: nat, j: nat, id: Owner, kind: Kind, operation: string,
                   until: int)
    requires Run(worlds, events) && i <= j < |worlds| && worlds[i].registry.healthy && worlds[j].registry.healthy
    requires HasSlot(worlds[i].registry.accounts, id, kind, operation, until, worlds[j].clock)
    ensures id in worlds[i].registry.disk.lines && id in worlds[j].registry.disk.lines
            && id in worlds[j].registry.accounts
    ensures var line := worlds[j].registry.disk.lines[id];
            || worlds[j].registry.accounts[id].reservation == Some(Reservation(kind, operation, until))
            || exists k :: |worlds[i].registry.disk.lines[id]| <= k < |line| && Ends(line[k].cause, kind, operation)
  {
    LineInRun(worlds, events, i, id);
    LineInRun(worlds, events, j, id);
    RunGrows(worlds, events, i, j);
    SlotInLine(worlds[i].registry.disk.lines[id], worlds[j].registry.disk.lines[id], kind, operation, until);
  }

  /** In every run, an operation that asks for a slot another one holds is refused, and nothing changes. */
  lemma ConflictIsRefused(worlds: seq<World>, events: seq<Event>, i: nat, id: Owner)
    requires Run(worlds, events) && i < |events| && worlds[i].registry.healthy && worlds[i].registry.config.switching
    requires id in worlds[i].registry.accounts
    requires var s, e, now := worlds[i].registry, events[i], worlds[i + 1].clock;
             || (e.BeginAdmissionCall? && e.id == id && Admits(s, id, now)
                 && HeldByOther(s.accounts[id], Admission, e.operation, now))
             || (e.BeginSwitchCall? && Waits(s.accounts[id], e.request, now)
                 && HeldByOther(s.accounts[id], TemplateSwitch, e.operation, now))
    ensures Call(worlds[i].registry, events[i], worlds[i + 1].clock).reply == Refused(CoordinationConflict)
    ensures worlds[i + 1].registry == worlds[i].registry
  {
    var e, now := events[i], worlds[i + 1].clock;
    assert StepAt(worlds, events, i);
    RunKeepsInv(worlds, events, i);
    if e.BeginAdmissionCall? {
      InvIsProper(worlds[i], id);
      AdmissionReply(worlds[i].registry, id, e.operation, now, e.pruned, e.written);
    } else {
      SwitchConflict(worlds[i], id, e.request, e.operation, now, e.pruned, e.written);
    }
  }

  // ----- Switches

  /** A request that is pending is on record and can be found; an authorized account is told so. */
  lemma RequestReply(w: World, caller: Caller, operation: string, now: int, drawn: Token, fate: Fate)
    requires Inv(w) && w.clock <= now
    ensures var o, id := RequestSwitch(w.registry, caller, operation, now, drawn, fate), caller.owner;
            && (o.reply.Pending? ==>
                  id in o.registry.accounts && Waits(o.registry.accounts[id], o.reply.request, now)
                  && Points(o.registry.pending, o.reply.request, id))
            && (o.reply.Authorized? ==>
                  id in w.registry.accounts && w.registry.accounts[id].authorized && o.registry == w.registry)
            && (o.reply.Pending? || o.reply.Authorized? ==> AssertsNow(caller, now) && w.registry.healthy)
  {
    if w.registry.healthy {
      CurrentIsLast(w, caller.owner);
      if caller.owner in w.registry.accounts && Unexpired(w.registry.accounts[caller.owner], now) {
        assert Unexpired(w.registry.accounts[caller.owner], w.clock);
      }
    }
  }

  predicate AssertsNow(caller: Caller, now: int) {
    caller.eligibility.Some? && caller.eligibility.value > now
  }

  /**
   An authorization is granted to the operation that holds the slot, for the request on record, or was granted
   to it before.
   */
  lemma CommitReply(s: Registry, id: Owner, operation: string, now: int, fate: Fate)
    ensures var o := CommitSwitch(s, id, operation, now, fate);
            && (o.reply.Authorized? ==>
                  && id in s.accounts && id in o.registry.accounts && o.registry.accounts[id].authorization.Some?
                  && o.registry.accounts[id].authorization.value.operation == operation)
            && (o.registry != s ==>
                  id in s.accounts && s.accounts[id].state.Revoked?
                    && HoldsNow(s.accounts[id], TemplateSwitch, operation, now))
            && (o.reply.Authorized? && o.registry != s ==>
                  && s.accounts[id].switchRequest.Some? && o.registry.accounts[id].authorized
                  && o.registry.accounts[id].authorization.value.request == s.accounts[id].switchRequest.value.id
                  && o.registry.accounts[id].reservation.None? && o.registry.accounts[id].switchRequest.None?)
  {
  }

  // ----- Credentials

  /** The operation is in the log of the account with this result. */
  ghost predicate WasLogged(s: Registry, id: Owner, operation: string, action: Action, result: Result) {
    id in s.accounts && Operation(operation, action, s.accounts[id].provider, result) in s.accounts[id].operations
  }

  /** The account has just been given a new credential by this caller. */
  ghost predicate JustReplaced(s: Registry, s': Registry, caller: Caller, operation: string, action: Action, now: int,
                               result: Result) {
    var id := caller.owner;
    && AssertsNow(caller, now) && s.healthy && s'.healthy && id in s'.accounts
    && var m := s'.accounts[id];
       && m.state.Active? && m.owner == id && m.eligibility == caller.eligibility.value && m.provider in s'.providers
       && m.generation == (if id in s.accounts then s.accounts[id].generation else 0) + 1
       && m.credential.Some? && m.credential.value.generation == m.generation
       && result == Ready(m.template, m.generation)
       && m.operations != [] && LastOperation(m) == Operation(operation, action, m.provider, result)
  }

  lemma ReplaceReply(s: Registry, caller: Caller, template: string, operation: string, now: int, action: Action,
                     provider: Token, file: Token, fault: Fault)
    requires AssertsNow(caller, now) && s.healthy
    ensures var o :=
        Replace(s, caller, Prior(s, caller.owner), template, operation, now, action, provider, file, fault);
            && (o.reply.Done? || o.reply.Refused?)
            && (o.reply.Done? ==>
                  && JustReplaced(s, o.registry, caller, operation, action, now, o.reply.result)
                  && o.registry.accounts[caller.owner].template == template
                  && o.registry.accounts[caller.owner].provider == provider)
  {
  }

  /**
   An enrollment that succeeds has put a credential in place under the template asked for, or repeats one that
   did.
   */
  lemma EnrollReply(s: Registry, caller: Caller, template: string, operation: string, now: int, draws: seq<Token>,
                    file: Token, fault: Fault)
    ensures var id := caller.owner;
            var o := Enroll(s, caller, template, operation, now, draws, file, fault);
            o.reply.Done? ==>
              || (o.registry == s && WasLogged(s, id, operation, Enrolling, o.reply.result))
              || (&& JustReplaced(s, o.registry, caller, operation, Enrolling, now, o.reply.result)
                  && o.registry.accounts[id].template == template && o.registry.accounts[id].provider in draws
                  && MayEnroll(s, id, template))
  {
    EnrollAnswers(s, caller, template, operation, now, draws, file, fault);
    var provider := NewProviderId(s, draws);
    if s.healthy && AssertsNow(caller, now) && provider.Some? {
      ReplaceReply(s, caller, template, operation, now, Enrolling, provider.value, file, fault);
    }
  }

  /** The template is known, and the account is a tombstone or new and within capacity. */
  ghost predicate MayEnroll(s: Registry, id: Owner, template: string) {
    && template in s.config.templates
    && (id in s.accounts ==> s.accounts[id].state.Revoked?)
    && (id !in s.accounts ==> |s.accounts| < s.config.maxAccounts)
  }

  lemma EnrollAnswers(s: Registry, caller: Caller, template: string, operation: string, now: int, draws: seq<Token>,
                      file: Token, fault: Fault)
    ensures var o, provider := Enroll(s, caller, template, operation, now, draws, file, fault), NewProviderId(s, draws);
            || (o.reply.Refused? && o.registry == s)
            || (o.registry == s && o.reply.Done? && WasLogged(s, caller.owner, operation, Enrolling, o.reply.result))
            || (&& s.healthy && AssertsNow(caller, now) && provider.Some? && MayEnroll(s, caller.owner, template)
                && o == Replace(s, caller, Prior(s, caller.owner), template, operation, now, Enrolling, provider.value,
                                file, fault))
  {
  }

  /** A reconnection that succeeds keeps template and provider, and puts a new credential in place. */
  lemma ReconnectReply(s: Registry, caller: Caller, operation: string, now: int, file: Token, fault: Fault)
    ensures var id := caller.owner;
            var o := Reconnect(s, caller, operation, now, file, fault);
            o.reply.Done? ==>
              || (o.registry == s && WasLogged(s, id, operation, Reconnecting, o.reply.result))
              || (&& JustReplaced(s, o.registry, caller, operation, Reconnecting, now, o.reply.result)
                  && id in s.accounts && s.accounts[id].state.Active?
                  && o.registry.accounts[id].template == s.accounts[id].template
                  && o.registry.accounts[id].provider == s.accounts[id].provider)
  {
    ReconnectAnswers(s, caller, operation, now, file, fault);
    if s.healthy && AssertsNow(caller, now) && caller.owner in s.accounts {
      var m := s.accounts[caller.owner];
      ReplaceReply(s, caller, m.template, operation, now, Reconnecting, m.provider, file, fault);
    }
  }

  lemma ReconnectAnswers(s: Registry, caller: Caller, operation: string, now: int, file: Token, fault: Fault)
    ensures var o, id := Reconnect(s, caller, operation, now, file, fault), caller.owner;
            || (o.reply.Refused? && o.registry == s)
            || (o.registry == s && o.reply.Done? && WasLogged(s, id, operation, Reconnecting, o.reply.result))
            || (&& s.healthy && AssertsNow(caller, now) && id in s.accounts && s.accounts[id].state.Active?
                && o == Replace(s, caller, Prior(s, id), s.accounts[id].template, operation, now, Reconnecting,
                                s.accounts[id].provider, file, fault))
  {
  }

  /** A revocation that succeeds withdraws the credential, the eligibility and the handle, or repeats one that did. */
  lemma RevokeReply(s: Registry, id: Owner, operation: string, now: int, fate: Fate)
    ensures var o := Revoke(s, id, operation, now, fate);
            o.reply.Done? ==>
              || (o.registry == s && WasLogged(s, id, operation, Revoking, o.reply.result))
              || (&& id in s.accounts && s.accounts[id].state.Active? && id in o.registry.accounts
                  && var m := o.registry.accounts[id];
                     && m.state.Revoked? && m.credential.None? && m.eligibility == 0
                     && m.provider == s.accounts[id].provider && m.provider !in o.registry.providers
                     && o.reply.result == Withdrawn)
  {
  }

  // ----- What is served

  /** Nobody uses the provider id. */
  ghost predicate Unused(s: Registry, p: Token) {
    p !in s.config.staticNames && p !in s.providers && forall id | id in s.accounts :: s.accounts[id].provider != p
  }

  /** The operation is new to the account, and the template is its own or the account may switch. */
  ghost predicate MayTake(s: Registry, id: Owner, template: string, operation: string) {
    id in s.accounts ==>
      && (forall k | 0 <= k < |s.accounts[id].operations| :: s.accounts[id].operations[k].id != operation)
      && (s.accounts[id].template == template || (s.config.switching && s.accounts[id].authorized))
  }

  lemma EnrollIsServed(s: Registry, caller: Caller, template: string, operation: string, now: int, draws: seq<Token>,
                       file: Token)
    requires s.healthy && AssertsNow(caller, now) && MayEnroll(s, caller.owner, template)
    requires MayTake(s, caller.owner, template, operation) && exists p :: p in draws && Unused(s, p)
    ensures Enroll(s, caller, template, operation, now, draws, file, Committing(Synced)).reply.Done?
  {
    var p :| p in draws && Unused(s, p);
    var k :| 0 <= k < |draws| && draws[k] == p;
    assert !Taken(s, draws[k]);
    assert NewProviderId(s, draws).Some?;
  }

  lemma ReconnectIsServed(s: Registry, caller: Caller, operation: string, now: int, file: Token)
    requires s.healthy && AssertsNow(caller, now) && Proper(s, caller.owner) && caller.owner in s.accounts
    requires s.accounts[caller.owner].state.Active? && s.accounts[caller.owner].template in s.config.templates
    requires MayTake(s, caller.owner, s.accounts[caller.owner].template, operation)
    ensures Reconnect(s, caller, operation, now, file, Committing(Synced)).reply.Done?
  {
  }

  lemma RevokeIsServed(s: Registry, id: Owner, operation: string, now: int)
    requires s.healthy && Proper(s, id) && id in s.accounts && s.accounts[id].state.Active?
    requires MayTake(s, id, s.accounts[id].template, operation)
    ensures Revoke(s, id, operation, now, Synced).reply.Done?
  {
  }

  lemma RequestIsServed(s: Registry, caller: Caller, operation: string, now: int, drawn: Token)
    requires s.healthy && s.config.switching && AssertsNow(caller, now) && Proper(s, caller.owner)
    requires caller.owner in s.accounts && s.accounts[caller.owner].state.Revoked?
    ensures var reply := RequestSwitch(s, caller, operation, now, drawn, Synced).reply;
            if s.accounts[caller.owner].authorized then reply.Authorized? else reply.Pending?
  {
  }

  lemma CommitIsServed(s: Registry, id: Owner, request: Token, operation: string, now: int)
    requires s.healthy && s.config.switching && Proper(s, id) && id in s.accounts && Waits(s.accounts[id], request, now)
    requires HoldsNow(s.accounts[id], TemplateSwitch, operation, now)
    ensures CommitSwitch(s, id, operation, now, Synced).reply.Authorized?
  {
  }

  lemma {:induction false} FindIs(ops: seq<Operation>, op: Operation)
    requires DistinctIds(ops) && op in ops
    ensures Find(ops, op.id) == Some(op)
  {
    if ops[0] != op {
      assert ops == [ops[0]] + ops[1..];
      assert op in ops[1..];
      var k :| 0 <= k < |ops[1..]| && ops[1..][k] == op;
      assert ops[0].id != ops[k + 1].id;
      forall i, j | 0 <= i < j < |ops[1..]| ensures ops[1..][i].id != ops[1..][j].id {
        assert ops[i + 1].id != ops[j + 1].id;
      }
      FindIs(ops[1..], op);
    }
  }

  /** The call of a caller who may make it, under the action and the id of a logged operation. */
  predicate Repeats(m: Metadata, e: Event, op: Operation, now: int) {
    match op.action
    case Revoking => e.RevokeCall? && e.id == m.owner && e.operation == op.id
    case Reconnecting =>
      m.state.Active? && e.ReconnectCall? && e.caller.owner == m.owner && AssertsNow(e.caller, now)
        && e.operation == op.id
    case Enrolling =>
      m.state.Active? && e.EnrollCall? && e.caller.owner == m.owner && AssertsNow(e.caller, now) && e.operation == op.id
  }

  /** In every world of every run, an operation repeated while it is in the log is answered with the result it had. */
  lemma RepeatIsAnswered(worlds: seq<World>, events: seq<Event>, i: nat, id: Owner, op: Operation, e: Event, now: int)
    requires Run(worlds, events) && i < |worlds| && worlds[i].registry.healthy && id in worlds[i].registry.accounts
    requires op in worlds[i].registry.accounts[id].operations
    requires op.provider == worlds[i].registry.accounts[id].provider
    requires !e.Restart? && Repeats(worlds[i].registry.accounts[id], e, op, now)
    ensures Call(worlds[i].registry, e, now) == Outcome(worlds[i].registry, Done(op.result))
  {
    EveryWorldIsProper(worlds, events, i, id);
    LogIsRecentHistory(worlds, events, i, id);
    FindIs(worlds[i].registry.accounts[id].operations, op);
  }

  // ----- Eligibility

  /** Renewing never lowers a lease, and reaches the one asserted; revoking ends it. */
  lemma RenewReply(s: Registry, caller: Caller, now: int, fate: Fate)
    requires Proper(s, caller.owner)
    ensures var o, id := RenewEligibility(s, caller, now, fate), caller.owner;
            o.reply.Ok? ==>
              && AssertsNow(caller, now) && (id in o.registry.accounts <==> id in s.accounts)
              && (id in s.accounts ==>
                    o.registry.accounts[id].eligibility ==
                    if s.accounts[id].eligibility > caller.eligibility.value then s.accounts[id].eligibility
                    else caller.eligibility.value)
  {
  }

  lemma RevokeEligibilityReply(s: Registry, caller: Caller, now: int, fate: Fate)
    requires Proper(s, caller.owner)
    ensures var o, id := RevokeEligibility(s, caller, now, fate), caller.owner;
            o.reply.Ok? ==>
              && AssertsNow(caller, now) && (id in o.registry.accounts <==> id in s.accounts)
              && (id in s.accounts ==> o.registry.accounts[id].eligibility == 0)
              && (id !in s.accounts || s.accounts[id].eligibility == 0 ==> o.registry == s)
  {
  }

  // ----- Reads

  /** An account resolves if and only if it is active, eligible and ready, and then to what is on record. */
  lemma ResolveReply(worlds: seq<World>, events: seq<Event>, i: nat, id: Owner, now: int, ready: bool)
    requires Run(worlds, events) && i < |worlds|
    ensures var s := worlds[i].registry;
            var serves := s.healthy && id in s.accounts && s.accounts[id].state.Active?
              && s.accounts[id].eligibility > now
                          && s.accounts[id].provider in s.providers && ready;
            && (Resolve(s, id, now, ready).Resolved? <==> serves)
            && (serves ==>
                  Resolve(s, id, now, ready) ==
                    Resolved(s.accounts[id].template, s.accounts[id].provider, s.accounts[id].generation)
                  && ReadReadiness(s, id, now, ready) ==
                     Status(IsReady, s.accounts[id].template, s.accounts[id].generation))
  {
    EveryWorldIsProper(worlds, events, i, id);
  }

  /** What a caller learns of an account that does not resolve. */
  lemma ReadinessReply(worlds: seq<World>, events: seq<Event>, i: nat, id: Owner, now: int, ready: bool)
    requires Run(worlds, events) && i < |worlds| && worlds[i].registry.healthy
    ensures var s := worlds[i].registry;
            var reply := ReadReadiness(s, id, now, ready);
            && (reply == Refused(AccountNotFound) <==> id !in s.accounts)
            && (id in s.accounts ==>
                  var m := s.accounts[id];
                  && (reply == Status(IsRevoked, m.template, m.generation) <==> m.state.Revoked?)
                  && (reply == Refused(NotEligible) <==> m.state.Active? && m.eligibility <= now)
                  && (reply == Status(IsUnready, m.template, m.generation) <==>
                      m.state.Active? && m.eligibility > now && !(m.provider in s.providers && ready)))
  {
    EveryWorldIsProper(worlds, events, i, id);
  }

  // ----- Capacity

  lemma {:induction false} SubsetIsSmaller(a: set<Owner>, b: set<Owner>)
    requires a <= b
    ensures |a| <= |b|
  {
    if a != {} {
      var x :| x in a;
      SubsetIsSmaller(a - {x}, b - {x});
    }
  }

  ghost predicate WithinCapacity(s: Registry) {
    s.healthy ==> |s.accounts.Keys| <= s.config.maxAccounts
  }

  /** The same accounts, as long as the registry stays in working order. */
  ghost predicate SameAccounts(s: Registry, s': Registry) {
    s'.config == s.config && (s'.healthy ==> s.healthy && s'.accounts.Keys == s.accounts.Keys)
  }

  lemma ReplaceKeepsAccounts(s: Registry, caller: Caller, template: string, operation: string, now: int, action: Action,
                             provider: Token, file: Token, fault: Fault)
    requires s.healthy && caller.eligibility.Some?
    ensures var s' := Replace(s, caller, Prior(s, caller.owner), template, operation, now, action, provider, file,
                              fault).registry;
            && s'.config == s.config
            && (s'.healthy ==>
                  s'.accounts.Keys == s.accounts.Keys || s'.accounts.Keys == s.accounts.Keys + {caller.owner})
  {
    ReplaceCases(s, caller, template, operation, now, action, provider, file, fault);
  }

  lemma ReconnectKeepsAccounts(s: Registry, caller: Caller, operation: string, now: int, file: Token, fault: Fault)
    ensures SameAccounts(s, Reconnect(s, caller, operation, now, file, fault).registry)
  {
    var id := caller.owner;
    ReconnectAnswers(s, caller, operation, now, file, fault);
    if s.healthy && AssertsNow(caller, now) && id in s.accounts {
      ReplaceKeepsAccounts(s, caller, s.accounts[id].template, operation, now, Reconnecting, s.accounts[id].provider,
                           file, fault);
      assert s.accounts.Keys + {id} == s.accounts.Keys;
    }
  }

  lemma WriteKeepsAccounts(s: Registry, id: Owner, v: Version, fate: Fate)
    requires id in s.accounts
    ensures SameAccounts(s, Write(s, id, v, fate))
  {
    assert s.accounts.Keys + {id} == s.accounts.Keys;
  }

  lemma RevokeKeepsAccounts(s: Registry, id: Owner, operation: string, now: int, fate: Fate)
    ensures SameAccounts(s, Revoke(s, id, operation, now, fate).registry)
  {
    if id in s.accounts {
      WriteKeepsAccounts(s, id, Version(Tombstone(s.accounts[id], operation, now), now, RevokedByOwner), fate);
    }
  }

  lemma RenewKeepsAccounts(s: Registry, caller: Caller, now: int, fate: Fate)
    ensures SameAccounts(s, RenewEligibility(s, caller, now, fate).registry)
  {
  }

  lemma RevokeEligibilityKeepsAccounts(s: Registry, caller: Caller, now: int, fate: Fate)
    ensures SameAccounts(s, RevokeEligibility(s, caller, now, fate).registry)
  {
  }

  lemma RequestKeepsAccounts(s: Registry, caller: Caller, operation: string, now: int, drawn: Token, fate: Fate)
    ensures SameAccounts(s, RequestSwitch(s, caller, operation, now, drawn, fate).registry)
  {
    RequestSwitchCases(s, caller, operation, now, drawn, fate);
  }

  lemma CoordinationKeepsAccounts(s: Registry, current: Metadata, kind: Kind, operation: string, now: int, pruned: Fate,
                                  written: Fate)
    requires current.owner in s.accounts
    ensures SameAccounts(s, BeginCoordination(s, current, kind, operation, now, pruned, written).registry)
  {
  }

  lemma BeginAdmissionKeepsAccounts(s: Registry, id: Owner, operation: string, now: int, pruned: Fate, written: Fate)
    ensures SameAccounts(s, BeginAdmission(s, id, operation, now, pruned, written).registry)
  {
    if id in s.accounts && s.accounts[id].owner == id {
      CoordinationKeepsAccounts(s, s.accounts[id], Admission, operation, now, pruned, written);
    }
  }

  lemma BeginSwitchKeepsAccounts(s: Registry, request: Token, operation: string, now: int, pruned: Fate, written: Fate)
    requires forall id :: Proper(s, id)
    ensures SameAccounts(s, BeginSwitch(s, request, operation, now, pruned, written).registry)
  {
    BeginSwitchCases(s, request, operation, now, pruned, written);
    if s.healthy && request in s.pending && s.pending[request] in s.accounts {
      assert Proper(s, s.pending[request]);
      CoordinationKeepsAccounts(s, s.accounts[s.pending[request]], TemplateSwitch, operation, now, pruned, written);
    }
  }

  lemma EndKeepsAccounts(s: Registry, id: Owner, kind: Kind, operation: string, now: int, fate: Fate)
    ensures SameAccounts(s, EndReservation(s, id, kind, operation, now, fate).registry)
  {
    EndReservationCases(s, id, kind, operation, now, fate);
  }

  lemma CommitKeepsAccounts(s: Registry, id: Owner, operation: string, now: int, fate: Fate)
    ensures SameAccounts(s, CommitSwitch(s, id, operation, now, fate).registry)
  {
  }

  /** A call adds no account, except an enrollment that finds room for one. */
  lemma CallKeepsAccounts(s: Registry, e: Event, now: int)
    requires (forall id :: Proper(s, id)) && !e.Restart? && !e.EnrollCall?
    ensures SameAccounts(s, Call(s, e, now).registry)
  {
    match e
    case ReconnectCall(caller, operation, file, fault) =>
      ReconnectKeepsAccounts(s, caller, operation, now, file, fault);
    case RevokeCall(id, operation, fate) => RevokeKeepsAccounts(s, id, operation, now, fate);
    case RequestSwitchCall(caller, operation, drawn, fate) =>
      RequestKeepsAccounts(s, caller, operation, now, drawn, fate);
    case BeginAdmissionCall(id, operation, pruned, written) =>
      BeginAdmissionKeepsAccounts(s, id, operation, now, pruned, written);
    case BeginSwitchCall(request, operation, pruned, written) =>
      BeginSwitchKeepsAccounts(s, request, operation, now, pruned, written);
    case EndCall(id, kind, operation, fate) => EndKeepsAccounts(s, id, kind, operation, now, fate);
    case CommitSwitchCall(id, operation, fate) => CommitKeepsAccounts(s, id, operation, now, fate);
    case RenewCall(caller, fate) => RenewKeepsAccounts(s, caller, now, fate);
    case RevokeEligibilityCall(caller, fate) => RevokeEligibilityKeepsAccounts(s, caller, now, fate);
  }

  lemma CountOneMore(accounts: map<Owner, Metadata>, id: Owner)
    ensures |accounts| == |accounts.Keys|
    ensures |accounts.Keys + {id}| == |accounts.Keys| + if id in accounts then 0 else 1
  {
    if id in accounts { assert accounts.Keys + {id} == accounts.Keys; }
  }

  lemma EnrollAddsOne(s: Registry, caller: Caller, template: string, operation: string, now: int, draws: seq<Token>,
                      file: Token, fault: Fault)
    requires s.healthy && WithinCapacity(s)
    ensures WithinCapacity(Enroll(s, caller, template, operation, now, draws, file, fault).registry)
  {
    var provider := NewProviderId(s, draws);
    EnrollAnswers(s, caller, template, operation, now, draws, file, fault);
    CountOneMore(s.accounts, caller.owner);
    if AssertsNow(caller, now) && provider.Some? {
      ReplaceKeepsAccounts(s, caller, template, operation, now, Enrolling, provider.value, file, fault);
    }
  }

  /** A registry that is not in working order stays so until it is started again. */
  lemma OutOfOrderStays(s: Registry, e: Event, now: int)
    requires !s.healthy && !e.Restart?
    ensures !Call(s, e, now).registry.healthy
  {
  }

  lemma RestartIsWithinCapacity(w: World, e: Event, s': Registry)
    requires Inv(w) && e.Restart? && Loads(e.config, Settle(w.registry.disk, e.survived), s', e.accepting)
    ensures WithinCapacity(s')
  {
    var d := Settle(w.registry.disk, e.survived);
    assert Sound(d, w.clock, w.issued);
    if s'.healthy {
      assert s'.accounts.Keys <= d.directories;
      SubsetIsSmaller(s'.accounts.Keys, d.directories);
    }
  }

  lemma StepKeepsCapacity(w: World, e: Event, w': World)
    requires Inv(w) && WithinCapacity(w.registry) && Step(w, e, w')
    ensures WithinCapacity(w'.registry)
  {
    if e.Restart? {
      RestartIsWithinCapacity(w, e, w'.registry);
    } else if !w.registry.healthy {
      OutOfOrderStays(w.registry, e, w'.clock);
    } else if e.EnrollCall? {
      EnrollAddsOne(w.registry, e.caller, e.template, e.operation, w'.clock, e.draws, e.file, e.fault);
    } else {
      forall id ensures Proper(w.registry, id) { InvIsProper(w, id); }
      CallKeepsAccounts(w.registry, e, w'.clock);
    }
  }

  /** In every world of every run, a registry in working order holds no more accounts than it may. */
  lemma {:induction false} CapacityIsKept(worlds: seq<World>, events: seq<Event>, i: nat)
    requires Run(worlds, events) && i < |worlds|
    ensures WithinCapacity(worlds[i].registry)
  {
    if i == 0 {
      assert Manifests(Disk({}, map[], None)) == map[];
      assert worlds[0].registry.healthy ==> worlds[0].registry.accounts.Keys == {};
    } else {
      CapacityIsKept(worlds, events, i - 1);
      RunKeepsInv(worlds, events, i - 1);
      assert StepAt(worlds, events, i - 1);
      StepKeepsCapacity(worlds[i - 1], events[i - 1], worlds[i]);
    }
  }
}
