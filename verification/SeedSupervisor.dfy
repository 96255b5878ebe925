/**
 The supervisor loop over the seed reconciler: which generations are tried, and that every try starts
 from a directory without undo records.
 */
module SeedSupervisor {
  import opened Wrappers
  import opened SeedReconciler

  type Sources = map<string, Bytes>

  /** What one round of the loop meets: the scan, and how the broker takes the generation. */
  datatype Round = Changing | Invalid | Scanned(sources: Sources, stopping: bool, ready: bool)

  datatype Attempt = Attempt(sources: Sources, verdict: Verdict)

  /** The generation that was last refused, unless another one has been accepted since. */
  function LastRefused(attempts: seq<Attempt>): (blocked: Option<Sources>)
    decreases |attempts|
  {
    if attempts == [] then None
    else
      var last := attempts[|attempts| - 1];
      match last.verdict
      case Rejected => Some(last.sources)
      case Accepted => None
      case _ => LastRefused(attempts[..|attempts| - 1])
  }

  /** No generation is tried again while it is the one last refused. */
  ghost predicate NoBlindRetry(attempts: seq<Attempt>) {
    forall i | 0 <= i < |attempts| :: LastRefused(attempts[..i]) != Some(attempts[i].sources)
  }

  lemma OneMore(attempts: seq<Attempt>, a: Attempt)
    requires NoBlindRetry(attempts) && LastRefused(attempts) != Some(a.sources)
    ensures NoBlindRetry(attempts + [a])
    ensures LastRefused(attempts + [a]) ==
            if a.verdict == Rejected then Some(a.sources) else if a.verdict == Accepted then None
            else LastRefused(attempts)
  {
    var longer := attempts + [a];
    assert longer[..|attempts|] == attempts;
    forall i | 0 <= i < |longer| ensures LastRefused(longer[..i]) != Some(longer[i].sources) {
      if i < |attempts| { assert longer[..i] == attempts[..i]; }
    }
  }

  /** A refused generation is not tried again until some other one has been decided. */
  lemma {:induction false} RefusedStaysRefused(attempts: seq<Attempt>, i: nat, j: nat)
    requires NoBlindRetry(attempts) && i < j < |attempts| && attempts[i].verdict == Rejected
    requires forall k | i < k < j :: attempts[k].verdict == NotApplied
    ensures attempts[j].sources != attempts[i].sources
  {
    LastRefusedIs(attempts, i, j);
  }

  lemma {:induction false} LastRefusedIs(attempts: seq<Attempt>, i: nat, j: nat)
    requires i < j <= |attempts| && attempts[i].verdict == Rejected
    requires forall k | i < k < j :: attempts[k].verdict == NotApplied
    ensures LastRefused(attempts[..j]) == Some(attempts[i].sources)
    decreases j
  {
    assert attempts[..j][..j - 1] == attempts[..j - 1];
    if i < j - 1 { LastRefusedIs(attempts, i, j - 1); }
  }

  /** What a round that could be scanned comes to: it is settled, unreadable, blocked, or its apply was rolled back. */
  ghost predicate Handled(d: Disk, sources: Sources, attempts: seq<Attempt>) {
    || Settled(d, sources)
    || (exists n :: n in sources && MarkerOf(d, Seed(n)) == Some(Unreadable))
    || LastRefused(attempts) == Some(sources)
    || (attempts != [] && attempts[|attempts| - 1] == Attempt(sources, NotApplied))
  }

  predicate Stops(round: Round) {
    round.Scanned? && round.stopping
  }

  predicate EndsStuck(attempts: seq<Attempt>) {
    attempts != [] && attempts[|attempts| - 1].verdict == Stuck
  }

  /** An attempt that is over settles its generation, blocks it, or was rolled back. */
  lemma AttemptIsHandled(d: Disk, before: seq<Attempt>, attempt: Attempt)
    requires attempt.verdict == Accepted ==> Settled(d, attempt.sources)
    requires NoBlindRetry(before) && LastRefused(before) != Some(attempt.sources) && attempt.verdict != Stuck
    ensures Handled(d, attempt.sources, before + [attempt])
  {
    OneMore(before, attempt);
    assert (before + [attempt])[|before|] == attempt;
  }

  // ----- Where the states of a supervised run come from

  /** State `i` is on the way of the generation that round `k` planned on the clean state `at`. */
  ghost predicate OfGeneration(rounds: seq<Round>, visited: seq<Disk>, rewritten: set<nat>, i: nat, at: nat, k: nat,
                               actions: seq<Action>) {
    && at < i < |visited| && k < |rounds| && rounds[k].Scanned? && visited[at].undo == map[]
    && PlanOf(visited[at], rounds[k].sources, actions)
    && OldOrAccepted(visited[at], visited[i], actions, rounds[k].ready && !rounds[k].stopping)
    && (HasTorn(visited[i]) ==> Untouched(visited[at], visited[i]))
    && StepSpares(visited[at], visited, rewritten, i)
  }

  /** Since the clean state `at`, only the broker has been writing. */
  predicate OfBroker(visited: seq<Disk>, rewritten: set<nat>, i: nat, at: nat) {
    && at < i < |visited| && i in rewritten && visited[at].undo == map[] && Rewritten(visited[at], visited[i])
  }

  ghost predicate Traced(rounds: seq<Round>, visited: seq<Disk>, rewritten: set<nat>, i: nat) {
    || (exists at: nat :: OfBroker(visited, rewritten, i, at))
    || (exists at: nat, k: nat, actions :: OfGeneration(rounds, visited, rewritten, i, at, k, actions))
  }

  ghost predicate AllTraced(rounds: seq<Round>, visited: seq<Disk>, rewritten: set<nat>, from: nat) {
    forall i {:trigger Traced(rounds, visited, rewritten, i)} | from <= i < |visited| ::
      Traced(rounds, visited, rewritten, i)
  }

  lemma TracedStays(rounds: seq<Round>, visited: seq<Disk>, rewritten: set<nat>, longer: seq<Disk>, more: set<nat>,
                    i: nat)
    requires visited <= longer && rewritten <= more && i < |visited| && Traced(rounds, visited, rewritten, i)
    ensures Traced(rounds, longer, more, i)
  {
    if at: nat :| OfBroker(visited, rewritten, i, at) {
      assert OfBroker(longer, more, i, at);
    } else {
      var at: nat, k: nat, actions :| OfGeneration(rounds, visited, rewritten, i, at, k, actions);
      assert OfGeneration(rounds, longer, more, i, at, k, actions);
    }
  }

  lemma TracedJoin(rounds: seq<Round>, visited: seq<Disk>, rewritten: set<nat>, longer: seq<Disk>, more: set<nat>,
                   from: nat)
    requires visited <= longer && rewritten <= more
    requires AllTraced(rounds, visited, rewritten, from) && AllTraced(rounds, longer, more, |visited|)
    ensures AllTraced(rounds, longer, more, from)
  {
    forall i | from <= i < |longer| ensures Traced(rounds, longer, more, i) {
      if i < |visited| {
        assert Traced(rounds, visited, rewritten, i);
        TracedStays(rounds, visited, rewritten, longer, more, i);
      }
    }
  }

  /** The name was settled by round `k`: its own content is marked as imported and its file exists. */
  predicate NewFrom(rounds: seq<Round>, k: nat, d: Disk, n: string) {
    && k < |rounds| && rounds[k].Scanned? && rounds[k].ready && !rounds[k].stopping && n in rounds[k].sources
    && MarkerOf(d, Seed(n)) == Some(Imported(rounds[k].sources[n])) && Canonical(d, Seed(n)).Some?
  }

  /**
   A crash at any point of a supervised run and recoveries until one completes: nothing changes if the
   broker alone was writing; otherwise every name is as before the generation, or settled by it.
   */
  lemma CrashedRunRecovers(rounds: seq<Round>, visited: seq<Disk>, rewritten: set<nat>, i: nat, disks: seq<Disk>,
                           n: string)
    requires Traced(rounds, visited, rewritten, i) && i < |visited|
    requires Recoveries(disks) && disks[0] == visited[i] && disks[|disks| - 1].undo == map[]
    ensures var d := disks[|disks| - 1];
            || d == visited[i]
            || (exists at: nat, k: nat, actions ::
                  OfGeneration(rounds, visited, rewritten, i, at, k, actions)
                    && (IsOld(visited[at], d, n, actions) || NewFrom(rounds, k, d, n)))
  {
    var d := disks[|disks| - 1];
    if at: nat :| OfBroker(visited, rewritten, i, at) {
      RecoveriesAgree(disks, |disks| - 1);
      RecoveryIsUnique(visited[i], d, visited[i]);
    } else {
      var at: nat, k: nat, actions :| OfGeneration(rounds, visited, rewritten, i, at, k, actions);
      CrashThenRecovery(visited[at], disks, actions, rounds[k].ready && !rounds[k].stopping, n);
      assert IsOld(visited[at], d, n, actions) || NewFrom(rounds, k, d, n);
    }
  }

  /**
   Over a supervised run a seed never overwrites a file without a marker: a step that changes a file was
   the broker's own, or it belongs to a generation that found a marker for it, or found no such file.
   */
  lemma NoCredentialIsOverwritten(rounds: seq<Round>, visited: seq<Disk>, rewritten: set<nat>, from: nat, i: nat,
                                  n: string)
    requires AllTraced(rounds, visited, rewritten, from) && 0 < from <= i < |visited|
    requires Canonical(visited[i], Seed(n)) != Canonical(visited[i - 1], Seed(n)) && i !in rewritten
    ensures exists at: nat, k: nat, actions ::
              OfGeneration(rounds, visited, rewritten, i, at, k, actions) && !Unmarked(visited[at], n)
  {
    assert Traced(rounds, visited, rewritten, i);
    var at: nat, k: nat, actions :| OfGeneration(rounds, visited, rewritten, i, at, k, actions);
    assert StepSpares(visited[at], visited, rewritten, i);
  }

  // ----- The loop

  /** What the plan of a round comes to when the broker has been running until now. */
  method Scan(r: Reconciler, round: Round, ghost rounds: seq<Round>) returns (actions: Option<seq<Action>>)
    requires r.Valid() && r.disk.undo == map[]
    modifies r
    ensures r.Valid() && old(r.visited) <= r.visited && old(r.rewritten) <= r.rewritten && r.disk.undo == map[]
    ensures AllTraced(rounds, r.visited, r.rewritten, |old(r.visited)|)
    ensures actions.Some? ==> round.Scanned? && actions.value != [] && PlanOf(r.disk, round.sources, actions.value)
    ensures actions.None? && round.Scanned? ==> Handled(r.disk, round.sources, [])
  {
    ghost var at := |r.visited| - 1;
    r.BrokerRewrites();
    forall i | at < i < |r.visited| ensures Traced(rounds, r.visited, r.rewritten, i) {
      assert OfBroker(r.visited, r.rewritten, i, at);
    }
    if !round.Scanned? { return None; }
    actions := r.Plan(round.sources);
    if actions.None? { return; }
    PlanIsEmptyIff(r.disk, round.sources, actions.value);
    if actions.value == [] { return None; }
  }

  method Try(r: Reconciler, round: Round, actions: seq<Action>, ghost rounds: seq<Round>, ghost k: nat)
    returns (attempt: Attempt)
    requires r.Valid() && r.disk.undo == map[] && round.Scanned? && PlanOf(r.disk, round.sources, actions)
    requires k < |rounds| && rounds[k] == round
    modifies r
    ensures r.Valid() && old(r.visited) <= r.visited && old(r.rewritten) <= r.rewritten
    ensures attempt.sources == round.sources
    ensures AllTraced(rounds, r.visited, r.rewritten, |old(r.visited)|)
    ensures attempt.verdict != Stuck ==> r.disk.undo == map[]
    ensures attempt.verdict == Accepted ==> Settled(r.disk, round.sources)
  {
    ghost var at := |r.visited| - 1;
    var verdict := r.Generation(round.sources, actions, round.stopping, round.ready);
    forall i | at < i < |r.visited| ensures Traced(rounds, r.visited, r.rewritten, i) {
      assert OfGeneration(rounds, r.visited, r.rewritten, i, at, k, actions);
    }
    attempt := Attempt(round.sources, verdict);
  }

  /** One round: scan, and try what is planned unless it is the generation refused last. */
  method TakeRound(r: Reconciler, rounds: seq<Round>, k: nat, before: seq<Attempt>, refused: Option<Sources>)
    returns (attempts: seq<Attempt>, blocked: Option<Sources>)
    requires k < |rounds| && r.Valid() && r.disk.undo == map[] && !EndsStuck(before)
    requires NoBlindRetry(before) && LastRefused(before) == refused
    modifies r
    ensures r.Valid() && old(r.visited) <= r.visited && old(r.rewritten) <= r.rewritten
    ensures AllTraced(rounds, r.visited, r.rewritten, |old(r.visited)|)
    ensures NoBlindRetry(attempts) && LastRefused(attempts) == blocked
    ensures !EndsStuck(attempts) ==> r.disk.undo == map[]
    ensures !EndsStuck(attempts) && rounds[k].Scanned? ==> Handled(r.disk, rounds[k].sources, attempts)
  {
    attempts, blocked := before, refused;
    var actions := Scan(r, rounds[k], rounds);
    if actions.None? || blocked == Some(rounds[k].sources) { return; }
    ghost var scanned, written := r.visited, r.rewritten;
    var attempt := Try(r, rounds[k], actions.value, rounds, k);
    TracedJoin(rounds, scanned, written, r.visited, r.rewritten, |old(r.visited)|);
    OneMore(before, attempt);
    attempts := before + [attempt];
    if attempt.verdict != Stuck { AttemptIsHandled(r.disk, before, attempt); }
    if attempt.verdict == Rejected {
      blocked := Some(rounds[k].sources);
    } else if attempt.verdict == Accepted {
      blocked := None;
    }
  }

  /**
   The loop. Every attempt starts without undo records, so its own guarantees hold; the loop ends with
   none unless a rollback or an acceptance failed midway, and then the next start recovers first. Every
   round it takes is handled, and every state on the way is one of the first recovery, of the broker's
   own writing, or of a generation.
   */
  method Supervise(r: Reconciler, rounds: seq<Round>)
    returns (attempts: seq<Attempt>, clean: bool, taken: nat, ghost recovered: nat)
    requires r.Valid()
    modifies r
    ensures r.Valid() && old(r.visited) <= r.visited && old(r.rewritten) <= r.rewritten
    ensures |old(r.visited)| <= recovered <= |r.visited|
    ensures forall i | |old(r.visited)| <= i < recovered :: SameRecovery(old(r.disk), r.visited[i])
    ensures AllTraced(rounds, r.visited, r.rewritten, recovered)
    ensures clean ==> r.disk.undo == map[]
    ensures HasTorn(old(r.disk)) ==> !clean && attempts == []
    ensures NoBlindRetry(attempts)
    ensures attempts != [] ==> (clean <==> !EndsStuck(attempts))
    ensures taken <= |rounds|
    ensures clean && taken < |rounds| ==> taken > 0 && rounds[taken - 1].Scanned? && rounds[taken - 1].stopping
    ensures forall k | 0 <= k < taken - 1 :: !(rounds[k].Scanned? && rounds[k].stopping)
    ensures clean && taken > 0 && rounds[taken - 1].Scanned? ==> Handled(r.disk, rounds[taken - 1].sources, attempts)
  {
    attempts, clean, taken := [], false, 0;
    var recovery := r.RecoverIncomplete();
    recovered := |r.visited|;
    ghost var first := r.visited;
    if recovery != Recovered { return; }
    var blocked: Option<Sources> := None;
    while taken < |rounds| && (taken == 0 || !Stops(rounds[taken - 1])) && !EndsStuck(attempts)
      invariant taken <= |rounds| && !HasTorn(old(r.disk)) && r.Valid() && first <= r.visited
      invariant forall k | 0 <= k < taken - 1 :: !Stops(rounds[k])
      invariant old(r.rewritten) <= r.rewritten
      invariant AllTraced(rounds, r.visited, r.rewritten, recovered)
      invariant NoBlindRetry(attempts) && LastRefused(attempts) == blocked
      invariant !EndsStuck(attempts) ==> r.disk.undo == map[]
      invariant !EndsStuck(attempts) && taken > 0 && rounds[taken - 1].Scanned? ==>
                  Handled(r.disk, rounds[taken - 1].sources, attempts)
    {
      ghost var before, written := r.visited, r.rewritten;
      attempts, blocked := TakeRound(r, rounds, taken, attempts, blocked);
      TracedJoin(rounds, before, written, r.visited, r.rewritten, recovered);
      taken := taken + 1;
    }
    clean := !EndsStuck(attempts);
  }
}
