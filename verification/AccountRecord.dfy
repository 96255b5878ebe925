/**
 The metadata record that the broker keeps for one principal, the check that the
 loader makes of it, and the bounded log of operations inside it.

 A principal id is a digest of issuer and subject; digests are taken to be
 injective, so the pair itself (`Owner`) names the account directory. Random
 identifiers are numbers (`Token`).
 */
module AccountRecord {
  import opened Wrappers

  type Token = nat

  const MAX_OPERATIONS := 32
  const MAX_IDENTIFIER := 128
  const MAX_IDENTITY := 1024

  datatype Owner = Owner(issuer: string, subject: string)

  datatype State = Active | Revoked

  /** The file `credential-<generation>-<token>.bin`. */
  datatype Credential = Credential(generation: nat, token: Token)

  datatype Action = Enrolling | Reconnecting | Revoking

  datatype Result = Ready(template: string, generation: nat) | Withdrawn

  datatype Operation = Operation(id: string, action: Action, provider: Token, result: Result)

  datatype SwitchRequest = SwitchRequest(id: Token, operation: string, expiresAt: int)

  datatype Kind = Admission | TemplateSwitch

  datatype Reservation = Reservation(kind: Kind, operation: string, expiresAt: int)

  datatype Authorization = Authorization(operation: string, request: Token)

  datatype Metadata = Metadata(
    owner: Owner,
    state: State,
    template: string,
    provider: Token,
    generation: nat,
    credential: Option<Credential>,
    createdAt: int,
    updatedAt: int,
    eligibility: int,
    operations: seq<Operation>,
    switchRequest: Option<SwitchRequest>,
    reservation: Option<Reservation>,
    authorized: bool,
    authorization: Option<Authorization>)

  predicate Printable(s: string) {
    forall i | 0 <= i < |s| :: s[i] >= ' ' && s[i] != 127 as char
  }

  predicate Identifier(s: string) {
    0 < |s| <= MAX_IDENTIFIER && Printable(s)
  }

  predicate IdentityText(s: string) {
    0 < |s| <= MAX_IDENTITY && Printable(s) && s[0] != ' ' && s[|s| - 1] != ' '
  }

  predicate Alphanumeric(c: char) {
    'A' <= c <= 'Z' || 'a' <= c <= 'z' || '0' <= c <= '9'
  }

  predicate Name(s: string) {
    && 0 < |s| <= MAX_IDENTIFIER
    && Alphanumeric(s[0])
    && forall i | 0 <= i < |s| :: Alphanumeric(s[i]) || s[i] == '.' || s[i] == '_' || s[i] == '-'
  }

  predicate ValidOperation(op: Operation) {
    && 0 < |op.id| <= MAX_IDENTIFIER
    && match op.action
       case Revoking => op.result.Withdrawn?
       case _ => op.result.Ready? && Name(op.result.template) && op.result.generation >= 1
  }

  predicate HoldsSwitch(m: Metadata) {
    m.reservation.Some? && m.reservation.value.kind.TemplateSwitch?
  }

  predicate ValidCoordination(m: Metadata) {
    && (m.switchRequest.Some? ==>
          m.state.Revoked? && Identifier(m.switchRequest.value.operation) && m.switchRequest.value.expiresAt > 0)
    && (m.reservation.Some? ==>
          Identifier(m.reservation.value.operation) && m.reservation.value.expiresAt > 0)
    && (m.authorized ==> m.state.Revoked? && m.switchRequest.None?)
    && (m.authorization.Some? ==> Identifier(m.authorization.value.operation))
    && m.authorized == m.authorization.Some?
  }

  /** A switch reservation belongs to a tombstone that has a request. */
  predicate SwitchHasRequest(m: Metadata) {
    HoldsSwitch(m) ==> m.state.Revoked? && m.switchRequest.Some?
  }

  /** The loader's demands other than `SwitchHasRequest`. */
  predicate WellFormed(m: Metadata, directory: Owner) {
    && m.owner == directory
    && IdentityText(m.owner.issuer) && IdentityText(m.owner.subject)
    && Name(m.template)
    && m.generation >= 1
    && (match m.state
        case Active => m.credential.Some? && m.credential.value.generation == m.generation
        case Revoked => m.credential.None?)
    && m.createdAt >= 0 && m.updatedAt >= 0 && m.eligibility >= 0
    && |m.operations| <= MAX_OPERATIONS
    && (forall i | 0 <= i < |m.operations| :: ValidOperation(m.operations[i]))
    && ValidCoordination(m)
  }

  /** What the loader demands of the record found in an account directory. */
  predicate ValidMetadata(m: Metadata, directory: Owner) {
    WellFormed(m, directory) && SwitchHasRequest(m)
  }

  // ----- The operation log

  /** The log keeps the last `MAX_OPERATIONS` entries. */
  function Window(ops: seq<Operation>): (log: seq<Operation>) {
    if |ops| <= MAX_OPERATIONS then ops else ops[|ops| - MAX_OPERATIONS..]
  }

  function Record(m: Option<Metadata>, op: Operation): (log: seq<Operation>) {
    Window((if m.Some? then m.value.operations else []) + [op])
  }

  predicate Logged(ops: seq<Operation>, id: string) {
    exists i :: 0 <= i < |ops| && ops[i].id == id
  }

  predicate DistinctIds(ops: seq<Operation>) {
    forall i, j | 0 <= i < j < |ops| :: ops[i].id != ops[j].id
  }

  /** The first log entry with the given id. */
  function Find(ops: seq<Operation>, id: string): (found: Option<Operation>)
    ensures found.Some? <==> Logged(ops, id)
    ensures found.Some? ==> found.value in ops && found.value.id == id
  {
    if ops == [] then None
    else if ops[0].id == id then assert Logged(ops, id); Some(ops[0])
    else
      var rest := Find(ops[1..], id);
      assert Logged(ops[1..], id) ==> Logged(ops, id) by {
        if Logged(ops[1..], id) {
          var i :| 0 <= i < |ops[1..]| && ops[1..][i].id == id;
          assert ops[i + 1].id == id;
        }
      }
      assert Logged(ops, id) ==> Logged(ops[1..], id) by {
        if Logged(ops, id) {
          var i :| 0 <= i < |ops| && ops[i].id == id;
          assert ops[1..][i - 1].id == id;
        }
      }
      rest
  }

  /** Windows compose: trimming before appending loses nothing that trimming after would keep. */
  lemma WindowAppend(ops: seq<Operation>, op: Operation)
    ensures Window(Window(ops) + [op]) == Window(ops + [op])
  {
    if |ops| > MAX_OPERATIONS {
      var k := |ops| - MAX_OPERATIONS;
      assert ops[k..] + [op] == (ops + [op])[k..];
      assert (ops + [op])[k..][1..] == (ops + [op])[k + 1..];
    }
  }

  lemma WindowDistinct(ops: seq<Operation>, op: Operation)
    requires DistinctIds(ops) && !Logged(ops, op.id)
    ensures DistinctIds(Window(ops + [op]))
  {
    forall i, j | 0 <= i < j < |ops + [op]|
      ensures (ops + [op])[i].id != (ops + [op])[j].id
    {
      if j == |ops| {
        assert ops[i].id != op.id;
      }
    }
  }
}
