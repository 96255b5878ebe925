/**
 The line of manifests of one account: which manifest may follow which, and what that
 implies for the whole line. Nothing here mentions the registry; `RegistryRuns` proves that
 every run of the registry only ever produces such lines.
 */
module AccountLines {
  import opened Wrappers
  import opened AccountRecord
  import opened Registry

  function LastOperation(m: Metadata): (op: Operation)
    requires m.operations != []
  {
    m.operations[|m.operations| - 1]
  }

  function PriorOperations(prev: Option<Metadata>): (ops: seq<Operation>) {
    if prev.Some? then prev.value.operations else []
  }

  /** The new record logs one more operation, whose id was not in the log. */
  predicate LogsNew(prev: Option<Metadata>, m: Metadata, action: Action) {
    && m.operations != []
    && LastOperation(m).action == action
    && 0 < |LastOperation(m).id| <= MAX_IDENTIFIER
    && !Logged(PriorOperations(prev), LastOperation(m).id)
    && m.operations == Record(prev, LastOperation(m))
  }

  predicate FollowsByReplacement(prev: Option<Metadata>, m: Metadata, action: Action, at: int) {
    && LogsNew(prev, m, action)
    && LastOperation(m).provider == m.provider
    && LastOperation(m).result == Ready(m.template, m.generation)
    && Name(m.template)
    && m.state.Active?
    && m.generation == (if prev.Some? then prev.value.generation else 0) + 1
    && m.credential.Some? && m.credential.value.generation == m.generation
    && m.createdAt == (if prev.Some? then prev.value.createdAt else at)
    && m.updatedAt == at
    && m.eligibility > at
    && m.switchRequest.None? && !m.authorized && m.authorization.None?
    && m.reservation == (if prev.Some? then prev.value.reservation else None)
    && (prev.Some? ==> m.owner == prev.value.owner)
    && match action
       case Enrolling =>
         prev.Some? ==> prev.value.state.Revoked? && (m.template == prev.value.template || prev.value.authorized)
       case Reconnecting =>
         prev.Some? && prev.value.state.Active? && m.template == prev.value.template
           && m.provider == prev.value.provider
       case Revoking => false
  }

  /** `v` may be written over the manifest `prev` (none: the account did not exist). */
  predicate Follows(prev: Option<Metadata>, v: Version) {
    var m := v.meta;
    if v.cause.Replaced? then FollowsByReplacement(prev, m, v.cause.action, v.at)
    else
      && prev.Some?
      && var p := prev.value;
         match v.cause
         case RevokedByOwner =>
           && p.state.Active? && LogsNew(prev, m, Revoking)
           && m == Tombstone(p, LastOperation(m).id, v.at)
         case SwitchRequested =>
           && p.state.Revoked? && !p.authorized
           && (p.switchRequest.Some? ==> p.switchRequest.value.expiresAt <= v.at)
           && m.switchRequest.Some? && m.switchRequest.value.expiresAt > v.at
              && Identifier(m.switchRequest.value.operation)
           && m == p.(switchRequest := m.switchRequest, updatedAt := v.at)
         case Lapsed =>
           && p.reservation.Some? && p.reservation.value.expiresAt <= v.at
           && m == p.(reservation := None, updatedAt := v.at)
         case Reserved(kind, operation) =>
           && p.reservation.None? && Identifier(operation)
           && m.reservation.Some? && m.reservation.value.expiresAt > v.at
           && m.reservation == Some(Reservation(kind, operation, m.reservation.value.expiresAt))
           && m == p.(reservation := m.reservation, updatedAt := v.at)
           && (match kind
               case Admission => p.state.Active?
               case TemplateSwitch =>
                 p.state.Revoked? && p.switchRequest.Some? && p.switchRequest.value.expiresAt > v.at)
         case Released(kind, operation) =>
           && Holds(p, kind, operation, v.at)
           && m == p.(reservation := None, updatedAt := v.at)
         case SwitchCommitted(operation) =>
           && Holds(p, TemplateSwitch, operation, v.at) && p.state.Revoked? && p.switchRequest.Some?
              && Identifier(operation)
           && m == p.(switchRequest := None, reservation := None, authorized := true, updatedAt := v.at,
                      authorization := Some(Authorization(operation, p.switchRequest.value.id)))
         case EligibilitySet =>
           && m.eligibility >= 0 && m == p.(eligibility := m.eligibility, updatedAt := v.at)
  }

  function Before(line: Line, i: nat): (prev: Option<Metadata>)
    requires i <= |line|
  {
    if i == 0 then None else Some(line[i - 1].meta)
  }

  predicate Linked(line: Line, i: nat)
    requires i < |line|
  {
    Follows(Before(line, i), line[i]) && 0 <= line[i].at && (i > 0 ==> line[i - 1].at <= line[i].at)
  }

  predicate LineOk(line: Line) {
    && line != []
    && IdentityText(line[0].meta.owner.issuer) && IdentityText(line[0].meta.owner.subject)
    && forall i | 0 <= i < |line| :: Linked(line, i)
  }

  lemma LinePrefix(line: Line, n: nat)
    requires LineOk(line) && 0 < n <= |line|
    ensures LineOk(line[..n])
  {
    forall i | 0 <= i < n ensures Linked(line[..n], i) {
      assert Linked(line, i);
      assert Before(line[..n], i) == Before(line, i);
    }
  }

  lemma LineExtend(line: Line, v: Version)
    requires line == [] ==> IdentityText(v.meta.owner.issuer) && IdentityText(v.meta.owner.subject)
    requires line != [] ==> LineOk(line) && line[|line| - 1].at <= v.at
    requires 0 <= v.at && Follows(Before(line, |line|), v)
    ensures LineOk(line + [v])
  {
    var longer := line + [v];
    forall i | 0 <= i < |longer| ensures Linked(longer, i) {
      assert Before(longer, i) == Before(line, i);
      if i < |line| { assert Linked(line, i); }
    }
  }

  lemma {:induction false} TimesRise(line: Line, i: nat, j: nat)
    requires LineOk(line) && i <= j < |line|
    ensures line[i].at <= line[j].at
  {
    if i < j {
      TimesRise(line, i, j - 1);
      assert Linked(line, j);
    }
  }

  lemma {:induction false} OwnerIsFixed(line: Line, i: nat)
    requires LineOk(line) && i < |line|
    ensures line[i].meta.owner == line[0].meta.owner
  {
    if i > 0 {
      OwnerIsFixed(line, i - 1);
      assert Linked(line, i);
    }
  }

  /** A pending request and a completed one exclude each other, and only a tombstone has either. */
  predicate Shaped(m: Metadata) {
    && m.authorized == m.authorization.Some?
    && (m.authorized ==> m.switchRequest.None? && m.state.Revoked?)
    && (m.switchRequest.Some? ==> m.state.Revoked?)
  }

  lemma {:induction false} LineShaped(line: Line, i: nat)
    requires LineOk(line) && i < |line|
    ensures Shaped(line[i].meta)
  {
    assert Linked(line, i);
    if i > 0 { LineShaped(line, i - 1); }
  }

  // ----- Generations

  /** How many credential replacements a line holds. */
  function Replacements(line: Line): (n: nat) {
    if line == [] then 0
    else Replacements(line[..|line| - 1]) + if line[|line| - 1].cause.Replaced? then 1 else 0
  }

  lemma {:induction false} GenerationCountsReplacements(line: Line)
    requires LineOk(line)
    ensures Manifest(line).generation == Replacements(line)
  {
    var n := |line| - 1;
    assert Linked(line, n);
    if n > 0 {
      LinePrefix(line, n);
      GenerationCountsReplacements(line[..n]);
    } else {
      assert line[..0] == [];
    }
  }

  /** Replacements of a longer line: those of the shorter one and those among the new versions. */
  lemma {:induction false} ReplacementsSplit(shorter: Line, longer: Line)
    requires shorter <= longer
    ensures Replacements(shorter) <= Replacements(longer)
    ensures Replacements(shorter) == Replacements(longer) <==>
            forall i | |shorter| <= i < |longer| :: !longer[i].cause.Replaced?
  {
    if |shorter| == |longer| {
      assert shorter == longer;
    } else {
      var init := longer[..|longer| - 1];
      assert shorter <= init;
      ReplacementsSplit(shorter, init);
      assert forall i | 0 <= i < |init| :: init[i] == longer[i];
    }
  }

  // ----- The operation log

  /** Every operation an account has ever logged, oldest first. */
  function History(line: Line): (ops: seq<Operation>) {
    if line == [] then []
    else
      var last := line[|line| - 1];
      History(line[..|line| - 1]) +
      if (last.cause.Replaced? || last.cause.RevokedByOwner?) && last.meta.operations != [] then
          [LastOperation(last.meta)] else []
  }

  lemma LogStep(prev: Option<Metadata>, all: seq<Operation>, v: Version)
    requires Follows(prev, v)
    requires PriorOperations(prev) == Window(all) && DistinctIds(PriorOperations(prev))
    ensures DistinctIds(v.meta.operations)
    ensures if v.cause.Replaced? || v.cause.RevokedByOwner?
            then v.meta.operations != [] && v.meta.operations == Window(all + [LastOperation(v.meta)])
            else v.meta.operations == Window(all)
  {
    if v.cause.Replaced? || v.cause.RevokedByOwner? {
      WindowAppend(all, LastOperation(v.meta));
      WindowDistinct(PriorOperations(prev), LastOperation(v.meta));
    }
  }

  lemma {:induction false} LogIsWindowOfHistory(line: Line)
    requires LineOk(line)
    ensures Manifest(line).operations == Window(History(line))
    ensures DistinctIds(Manifest(line).operations)
  {
    var n := |line| - 1;
    assert Linked(line, n);
    if n > 0 {
      LinePrefix(line, n);
      LogIsWindowOfHistory(line[..n]);
      assert Before(line, n) == Some(Manifest(line[..n]));
      LogStep(Some(Manifest(line[..n])), History(line[..n]), line[n]);
    } else {
      assert line[..n] == [];
      LogStep(None, [], line[n]);
    }
  }

  // ----- The loader's check

  /** The one step that can leave the loader's check: a replacement made over a switch reservation. */
  predicate OverwritesSwitch(line: Line, i: nat)
    requires i < |line|
  {
    line[i].cause.Replaced? && i > 0 && HoldsSwitch(line[i - 1].meta)
  }

  lemma OperationsStayValid(prev: Option<Metadata>, m: Metadata, action: Action)
    requires LogsNew(prev, m, action) && ValidOperation(LastOperation(m))
    requires forall i | 0 <= i < |PriorOperations(prev)| :: ValidOperation(PriorOperations(prev)[i])
    ensures |m.operations| <= MAX_OPERATIONS
    ensures forall i | 0 <= i < |m.operations| :: ValidOperation(m.operations[i])
  {
    var all := PriorOperations(prev) + [LastOperation(m)];
    assert forall i | 0 <= i < |all| :: ValidOperation(all[i]);
  }

  lemma StepKeepsWellFormed(prev: Option<Metadata>, v: Version, id: Owner)
    requires Follows(prev, v) && v.meta.owner == id && 0 <= v.at
    requires IdentityText(id.issuer) && IdentityText(id.subject)
    requires prev.Some? ==> WellFormed(prev.value, id)
    ensures WellFormed(v.meta, id)
  {
    if v.cause.Replaced? {
      OperationsStayValid(prev, v.meta, v.cause.action);
    } else if v.cause.RevokedByOwner? {
      OperationsStayValid(prev, v.meta, Revoking);
    }
  }

  lemma {:induction false} LineWellFormed(line: Line, i: nat)
    requires LineOk(line) && i < |line|
    ensures WellFormed(line[i].meta, line[0].meta.owner)
  {
    if i > 0 { LineWellFormed(line, i - 1); }
    OwnerIsFixed(line, i);
    assert Linked(line, i);
    StepKeepsWellFormed(Before(line, i), line[i], line[0].meta.owner);
  }

  /** A record whose switch reservation has lost its request. */
  predicate Stranded(m: Metadata) {
    HoldsSwitch(m) && m.switchRequest.None?
  }

  /** A manifest of a line passes the loader's check exactly when it is not stranded. */
  lemma LineValidUnlessStranded(line: Line, i: nat)
    requires LineOk(line) && i < |line|
    ensures ValidMetadata(line[i].meta, line[0].meta.owner) <==> !Stranded(line[i].meta)
  {
    LineWellFormed(line, i);
    LineShaped(line, i);
  }

  /** A step from a valid record gives a valid record exactly when it does not overwrite a switch. */
  lemma StepKeepsValid(prev: Option<Metadata>, v: Version, id: Owner)
    requires Follows(prev, v) && v.meta.owner == id && 0 <= v.at
    requires IdentityText(id.issuer) && IdentityText(id.subject)
    requires prev.Some? ==> ValidMetadata(prev.value, id)
    ensures ValidMetadata(v.meta, id) <==> !(v.cause.Replaced? && prev.Some? && HoldsSwitch(prev.value))
  {
    StepKeepsWellFormed(prev, v, id);
  }

  predicate AllValid(line: Line)
    requires line != []
  {
    forall i | 0 <= i < |line| :: ValidMetadata(line[i].meta, line[0].meta.owner)
  }

  predicate NeverOverwritesSwitch(line: Line) {
    forall i | 0 <= i < |line| :: !OverwritesSwitch(line, i)
  }

  /** Every manifest of a line passes the loader's check if and only if no replacement overwrote a switch. */
  lemma {:induction false} LineValidIff(line: Line)
    requires LineOk(line)
    ensures AllValid(line) <==> NeverOverwritesSwitch(line)
  {
    var n := |line| - 1;
    assert Linked(line, n);
    OwnerIsFixed(line, n);
    if n > 0 {
      var init := line[..n];
      LinePrefix(line, n);
      LineValidIff(init);
      assert forall i | 0 <= i < n :: init[i] == line[i];
      assert NeverOverwritesSwitch(line) <==> NeverOverwritesSwitch(init) && !OverwritesSwitch(line, n) by {
        assert forall i | 0 <= i < n :: OverwritesSwitch(init, i) <==> OverwritesSwitch(line, i);
      }
      assert AllValid(line) <==> AllValid(init) && ValidMetadata(line[n].meta, line[0].meta.owner);
      if AllValid(init) {
        assert ValidMetadata(line[n - 1].meta, line[0].meta.owner);
        StepKeepsValid(Before(line, n), line[n], line[0].meta.owner);
      }
    } else {
      StepKeepsValid(None, line[0], line[0].meta.owner);
    }
  }

  // ----- Exclusion between admissions and template switches

  predicate AdmissionLive(m: Metadata, t: int) {
    m.reservation.Some? && m.reservation.value.kind.Admission? && m.reservation.value.expiresAt > t
  }

  /** Version `n` is the account's manifest at time `t`. */
  predicate InForce(line: Line, n: nat, t: int)
    requires n < |line|
  {
    line[n].at <= t && (n + 1 < |line| ==> t <= line[n + 1].at)
  }

  /** A switch reservation that is live at version `j` was created once and has stayed in place since. */
  lemma {:induction false} SwitchReservationOrigin(line: Line, j: nat, t: int) returns (i: nat)
    requires LineOk(line) && j < |line| && line[j].at <= t
    requires HoldsSwitch(line[j].meta) && line[j].meta.reservation.value.expiresAt > t
    ensures 0 < i <= j
    ensures line[i].cause == Reserved(TemplateSwitch, line[j].meta.reservation.value.operation)
    ensures forall n | i <= n <= j :: line[n].meta.reservation == line[j].meta.reservation
  {
    assert Linked(line, j);
    if line[j].cause.Reserved? {
      i := j;
    } else {
      i := SwitchReservationOrigin(line, j - 1, t);
    }
  }

  /** An authorization in force at version `k` was committed once; the slot has been free ever since. */
  lemma {:induction false} AuthorizationOrigin(line: Line, k: nat) returns (j: nat)
    requires LineOk(line) && k < |line| && line[k].meta.authorized
    ensures 0 < j <= k && line[j].cause.SwitchCommitted?
    ensures forall n | j <= n <= k ::
              && line[n].meta.authorized && line[n].meta.state.Revoked?
              && line[n].meta.reservation.None? && line[n].meta.switchRequest.None?
  {
    assert Linked(line, k);
    if line[k].cause.SwitchCommitted? {
      j := k;
    } else {
      j := AuthorizationOrigin(line, k - 1);
    }
  }

  /** A granted admission stays in the slot until it expires or its holder ends it. */
  lemma {:induction false} AdmissionKept(line: Line, n: nat, i: nat)
    requires LineOk(line) && n <= i < |line|
    requires AdmissionLive(line[n].meta, line[i].at)
    ensures line[i].meta.reservation == line[n].meta.reservation
         || exists e :: n < e <= i && line[e].cause == Released(Admission, line[n].meta.reservation.value.operation)
  {
    if n < i {
      assert Linked(line, i);
      AdmissionKept(line, n, i - 1);
      if line[i - 1].meta.reservation == line[n].meta.reservation {
        if line[i].meta.reservation != line[n].meta.reservation {
          assert line[i].cause == Released(Admission, line[n].meta.reservation.value.operation);
        }
      }
    }
  }

  /** The holder of the slot gives it up. */
  predicate Ends(cause: Cause, kind: Kind, operation: string) {
    cause == Released(kind, operation) || (kind.TemplateSwitch? && cause == SwitchCommitted(operation))
  }

  /** A reservation of either kind stays in the slot until it expires or its holder gives it up. */
  lemma {:induction false} ReservationKept(line: Line, n: nat, i: nat)
    requires LineOk(line) && n <= i < |line|
    requires line[n].meta.reservation.Some? && line[n].meta.reservation.value.expiresAt > line[i].at
    ensures var r := line[n].meta.reservation;
            || line[i].meta.reservation == r
            || exists e :: n < e <= i && Ends(line[e].cause, r.value.kind, r.value.operation)
  {
    if n < i {
      var r := line[n].meta.reservation;
      assert Linked(line, i);
      ReservationKept(line, n, i - 1);
      if line[i - 1].meta.reservation == r && line[i].meta.reservation != r {
        assert Ends(line[i].cause, r.value.kind, r.value.operation);
      }
    }
  }

  /**
   The switch reservation made at `i` and committed at `j` authorizes the enrollment at `k`:
   from its creation to the enrollment no admission is live, and every admission granted
   earlier had expired or been ended by its holder before the reservation was made.
   */
  ghost predicate Excludes(line: Line, i: nat, j: nat, k: nat) {
    && 0 < i < j < k < |line|
    && line[j].cause.SwitchCommitted?
    && line[i].cause == Reserved(TemplateSwitch, line[j].cause.operation)
    && !AdmissionLive(line[i - 1].meta, line[i].at)
    && (forall n, t | i <= n < k && InForce(line, n, t) :: !AdmissionLive(line[n].meta, t))
    && (forall n | 0 <= n < i && AdmissionLive(line[n].meta, line[i].at) ::
          exists e :: n < e < i && line[e].cause == Released(Admission, line[n].meta.reservation.value.operation))
  }

  lemma {:induction false} SwitchIsExclusive(line: Line, k: nat)
    requires LineOk(line) && 0 < k < |line|
    requires line[k].meta.template != line[k - 1].meta.template
    ensures exists i, j :: Excludes(line, i, j, k)
  {
    assert Linked(line, k);
    var j := AuthorizationOrigin(line, k - 1);
    assert Linked(line, j);
    var i := SwitchReservationOrigin(line, j - 1, line[j].at);
    assert Linked(line, i);
    forall n | 0 <= n < i && AdmissionLive(line[n].meta, line[i].at)
      ensures exists e :: n < e < i && line[e].cause == Released(Admission, line[n].meta.reservation.value.operation)
    {
      TimesRise(line, i - 1, i);
      AdmissionKept(line, n, i - 1);
    }
    assert Excludes(line, i, j, k);
  }
}
