/**
 The seed reconciler: a plan imports or adopts seed files into the broker's own directory behind an
 undo log, and the broker's readiness decides whether the log is dropped or played back.
 */
module SeedReconciler {
  import opened Wrappers
  import opened Names

  type Bytes = seq<nat>

  /** Temporary files sit in the same directory as the file they will replace. */
  datatype FileName = Seed(name: string) | Temporary(name: string, token: nat)

  /** The import marker of a name. Digests are taken to be injective, so it names the imported content. */
  datatype Marker = Imported(source: Bytes) | Unreadable

  datatype Record = Record(restoreCanonical: bool, canonical: Option<Bytes>, marker: Option<Marker>)

  datatype Entry = Undo(record: Record) | Torn

  datatype Disk = Disk(canonical: map<FileName, Bytes>, markers: map<FileName, Marker>, undo: map<FileName, Entry>)

  function Canonical(d: Disk, n: FileName): (c: Option<Bytes>) {
    if n in d.canonical then Some(d.canonical[n]) else None
  }

  function MarkerOf(d: Disk, n: FileName): (m: Option<Marker>) {
    if n in d.markers then Some(d.markers[n]) else None
  }

  function SetCanonical(d: Disk, n: FileName, c: Option<Bytes>): (d': Disk)
    ensures Canonical(d', n) == c && forall k | k != n :: Canonical(d', k) == Canonical(d, k)
  {
    d.(canonical := if c.Some? then d.canonical[n := c.value] else d.canonical - {n})
  }

  function SetMarker(d: Disk, n: FileName, m: Option<Marker>): (d': Disk)
    ensures MarkerOf(d', n) == m && forall k | k != n :: MarkerOf(d', k) == MarkerOf(d, k)
  {
    d.(markers := if m.Some? then d.markers[n := m.value] else d.markers - {n})
  }

  // ----- What a completed recovery brings back

  function RecordAt(d: Disk, n: FileName): (r: Option<Record>) {
    if n in d.undo && d.undo[n].Undo? then Some(d.undo[n].record) else None
  }

  function RestoredCanonical(d: Disk, n: FileName): (c: Option<Bytes>) {
    var r := RecordAt(d, n);
    if r.Some? && r.value.restoreCanonical then r.value.canonical else Canonical(d, n)
  }

  function RestoredMarker(d: Disk, n: FileName): (m: Option<Marker>) {
    var r := RecordAt(d, n);
    if r.Some? then r.value.marker else MarkerOf(d, n)
  }

  /** Recovery brings back the same files from either disk. */
  ghost predicate SameRecovery(d: Disk, d': Disk) {
    forall n :: RestoredCanonical(d', n) == RestoredCanonical(d, n) && RestoredMarker(d', n) == RestoredMarker(d, n)
  }

  /** Recovery brings every seed name back to what it was on `d0`. */
  ghost predicate BackTo(d0: Disk, d: Disk) {
    forall n {:trigger Seed(n)} ::
        RestoredCanonical(d, Seed(n)) == Canonical(d0, Seed(n)) && RestoredMarker(d, Seed(n)) == MarkerOf(d0, Seed(n))
  }

  predicate HasTorn(d: Disk) {
    exists n :: n in d.undo && d.undo[n].Torn?
  }

  // ----- Planning

  datatype Kind = Adopt | Import

  datatype Action = Action(name: string, kind: Kind, content: Bytes)

  /** What a seed file calls for: nothing once its own content is marked as imported and the canonical file exists. */
  function Needed(d: Disk, name: string, content: Bytes): (k: Option<Kind>) {
    if MarkerOf(d, Seed(name)).None? && Canonical(d, Seed(name)).Some? then Some(Adopt)
    else if MarkerOf(d, Seed(name)) != Some(Imported(content)) || Canonical(d, Seed(name)).None? then Some(Import)
    else None
  }

  predicate Settled(d: Disk, sources: map<string, Bytes>) {
    forall n | n in sources :: MarkerOf(d, Seed(n)) == Some(Imported(sources[n])) && Canonical(d, Seed(n)).Some?
  }

  function NamesOf(actions: seq<Action>): (names: seq<string>) {
    seq(|actions|, i requires 0 <= i < |actions| => actions[i].name)
  }

  /** The actions are, in the order of their names, exactly what the sources call for. */
  ghost predicate PlanOf(d: Disk, sources: map<string, Bytes>, actions: seq<Action>) {
    && Sorted(NamesOf(actions))
    && (forall a | a in actions ::
          a.name in sources && a.content == sources[a.name] && Needed(d, a.name, a.content) == Some(a.kind))
    && (forall n | n in sources && Needed(d, n, sources[n]).Some? :: exists a :: a in actions && a.name == n)
  }

  /** A name has at most one action. */
  ghost predicate Distinct(actions: seq<Action>) {
    forall i, j | 0 <= i < j < |actions| :: actions[i].name != actions[j].name
  }

  lemma SortedIsDistinct(actions: seq<Action>)
    requires Sorted(NamesOf(actions))
    ensures Distinct(actions)
  {
    var names := NamesOf(actions);
    forall i, j | 0 <= i < j < |actions| ensures actions[i].name != actions[j].name {
      assert Less(names[i], names[j]);
      LessIsTotal(names[i], names[i]);
    }
  }

  /** Nothing is planned exactly when every source is settled. */
  lemma PlanIsEmptyIff(d: Disk, sources: map<string, Bytes>, actions: seq<Action>)
    requires PlanOf(d, sources, actions)
    ensures actions == [] <==> Settled(d, sources)
  {
    if actions != [] {
      assert actions[0] in actions;
    } else {
      forall n | n in sources ensures Needed(d, n, sources[n]).None? {}
    }
  }

  /**
   What is planned, name by name: a file without a marker is adopted; a missing file, or one marked for other
   content, is imported; and nothing else is planned.
   */
  ghost predicate PlansEach(d: Disk, sources: map<string, Bytes>, actions: seq<Action>) {
    && (forall a | a in actions :: a.name in sources && a.content == sources[a.name])
    && forall n | n in sources ::
      var file, marker := Seed(n) in d.canonical, MarkerOf(d, Seed(n));
      && (Action(n, Adopt, sources[n]) in actions <==> file && marker.None?)
      && (Action(n, Import, sources[n]) in actions <==> !file || (marker.Some? && marker.value != Imported(sources[n])))
  }

  lemma PlanIsExact(d: Disk, sources: map<string, Bytes>, actions: seq<Action>)
    requires PlanOf(d, sources, actions)
    ensures PlansEach(d, sources, actions)
  {
    forall n, kind | n in sources && Needed(d, n, sources[n]) == Some(kind)
      ensures Action(n, kind, sources[n]) in actions
    {
      var a :| a in actions && a.name == n;
      assert a == Action(n, kind, sources[n]);
    }
  }

  /** A file the broker has and no marker accounts for. */
  predicate Unmarked(d: Disk, n: string) {
    Seed(n) in d.canonical && Seed(n) !in d.markers
  }

  /** The plan does not write the file of this name. */
  ghost predicate Spared(actions: seq<Action>, n: string) {
    forall a | a in actions && a.name == n :: a.kind == Adopt
  }

  lemma UnmarkedIsSpared(d: Disk, sources: map<string, Bytes>, actions: seq<Action>, n: string)
    requires PlanOf(d, sources, actions) && Unmarked(d, n)
    ensures Spared(actions, n)
  {
  }

  /** However the broker rewrites its canonical files, a settled disk stays settled. */
  lemma RewritingKeepsSettled(d: Disk, d': Disk, sources: map<string, Bytes>)
    requires Settled(d, sources) && d'.markers == d.markers && d.canonical.Keys <= d'.canonical.Keys
    ensures Settled(d', sources)
  {
    forall n | n in sources
      ensures MarkerOf(d', Seed(n)) == Some(Imported(sources[n])) && Canonical(d', Seed(n)).Some?
    {
      assert Canonical(d, Seed(n)).Some?;
    }
  }

  // ----- Undo records

  function RecordFor(d: Disk, a: Action): (r: Record) {
    Record(a.kind == Import, if a.kind == Import then Canonical(d, Seed(a.name)) else None, MarkerOf(d, Seed(a.name)))
  }

  function Records(d: Disk, actions: seq<Action>): (undo: map<FileName, Entry>)
    decreases |actions|
  {
    if actions == [] then map[]
    else
      var a := actions[|actions| - 1];
      Records(d, actions[..|actions| - 1])[Seed(a.name) := Undo(RecordFor(d, a))]
  }

  lemma {:induction false} RecordsHold(d: Disk, actions: seq<Action>, n: FileName)
    requires Distinct(actions)
    ensures n in Records(d, actions) <==> exists a :: a in actions && n == Seed(a.name)
    ensures forall a | a in actions && n == Seed(a.name) :: Records(d, actions)[n] == Undo(RecordFor(d, a))
    decreases |actions|
  {
    if actions != [] {
      var k := |actions| - 1;
      assert actions == actions[..k] + [actions[k]];
      RecordsHold(d, actions[..k], n);
      forall a | a in actions && n == Seed(a.name)
        ensures n in Records(d, actions) && Records(d, actions)[n] == Undo(RecordFor(d, a))
      {
        var i :| 0 <= i < |actions| && actions[i] == a;
        if i < k { assert actions[..k][i] == a; }
      }
    }
  }

  /** With the records in place, only names under a record may differ from `d0`, and adopted files may not. */
  ghost predicate Held(d0: Disk, d: Disk, actions: seq<Action>) {
    && d.undo == Records(d0, actions)
    && forall n {:trigger Seed(n)} ::
         && (Seed(n) !in d.undo ==>
               Canonical(d, Seed(n)) == Canonical(d0, Seed(n)) && MarkerOf(d, Seed(n)) == MarkerOf(d0, Seed(n)))
         && (Seed(n) in d.undo && d.undo[Seed(n)].Undo? && !d.undo[Seed(n)].record.restoreCanonical ==>
               Canonical(d, Seed(n)) == Canonical(d0, Seed(n)))
  }

  lemma HeldGoesBack(d0: Disk, d: Disk, actions: seq<Action>)
    requires Distinct(actions) && Held(d0, d, actions)
    ensures BackTo(d0, d)
  {
    forall n
      ensures RestoredCanonical(d, Seed(n)) == Canonical(d0, Seed(n))
              && RestoredMarker(d, Seed(n)) == MarkerOf(d0, Seed(n))
    {
      RecordsHold(d0, actions, Seed(n));
    }
  }

  // ----- Files no seed may overwrite

  /** Playing the record of this name back writes its file. */
  predicate Restores(d: Disk, n: FileName) {
    RecordAt(d, n).Some? && RecordAt(d, n).value.restoreCanonical
  }

  ghost predicate NoneRestored(d: Disk, actions: seq<Action>) {
    forall n {:trigger Seed(n)} :: Spared(actions, n) ==> !Restores(d, Seed(n))
  }

  /** Only files under a restoring record have changed. */
  ghost predicate OnlyRestored(d: Disk, d': Disk) {
    forall n :: Restores(d, n) || Canonical(d', n) == Canonical(d, n)
  }

  /** The files the plan does not write are the same. */
  ghost predicate SparedFiles(d: Disk, d': Disk, actions: seq<Action>) {
    forall n {:trigger Seed(n)} :: Spared(actions, n) ==> Canonical(d', Seed(n)) == Canonical(d, Seed(n))
  }

  lemma RecordsRestoreNone(d0: Disk, d: Disk, actions: seq<Action>, part: seq<Action>)
    requires d.undo == Records(d0, part) && Distinct(part) && forall a | a in part :: a in actions
    ensures NoneRestored(d, actions)
  {
    forall n | Spared(actions, n) ensures !Restores(d, Seed(n)) { RecordsHold(d0, part, Seed(n)); }
  }

  lemma HeldSpares(d0: Disk, d: Disk, actions: seq<Action>)
    requires Held(d0, d, actions) && Distinct(actions)
    ensures SparedFiles(d0, d, actions)
  {
    forall n | Spared(actions, n) ensures Canonical(d, Seed(n)) == Canonical(d0, Seed(n)) {
      RecordsHold(d0, actions, Seed(n));
    }
  }

  lemma RecoverySpares(d0: Disk, d: Disk, d': Disk, actions: seq<Action>)
    requires SparedFiles(d0, d, actions) && NoneRestored(d, actions) && OnlyRestored(d, d')
    ensures SparedFiles(d0, d', actions)
  {
    forall n | Spared(actions, n) ensures Canonical(d', Seed(n)) == Canonical(d0, Seed(n)) {
      assert !Restores(d, Seed(n));
    }
  }

  /**
   Step `i` was the broker's own, or it left every file alone that had no marker when `d0` was the state of
   the disk.
   */
  ghost predicate StepSpares(d0: Disk, visited: seq<Disk>, rewritten: set<nat>, i: nat) {
    && 0 < i < |visited|
    && (|| i in rewritten
        || forall n {:trigger Seed(n)} ::
          Unmarked(d0, n) ==> Canonical(visited[i], Seed(n)) == Canonical(visited[i - 1], Seed(n)))
  }

  lemma SameFilesSpare(d0: Disk, d: Disk, sources: map<string, Bytes>, actions: seq<Action>,
                       visited: seq<Disk>, rewritten: set<nat>, i: nat)
    requires PlanOf(d0, sources, actions) && 0 < i < |visited|
    requires SparedFiles(d, visited[i - 1], actions) && SparedFiles(d, visited[i], actions)
    ensures StepSpares(d0, visited, rewritten, i)
  {
    forall n | Unmarked(d0, n) ensures Canonical(visited[i], Seed(n)) == Canonical(visited[i - 1], Seed(n)) {
      UnmarkedIsSpared(d0, sources, actions, n);
    }
  }

  /** A stretch of states in which no spared file changes. */
  lemma StretchSpares(d0: Disk, d: Disk, sources: map<string, Bytes>, actions: seq<Action>,
                      visited: seq<Disk>, rewritten: set<nat>, from: nat)
    requires PlanOf(d0, sources, actions) && 0 < from <= |visited| && visited[from - 1] == d
    requires forall i | from <= i < |visited| :: SparedFiles(d, visited[i], actions)
    ensures forall i | from <= i < |visited| :: StepSpares(d0, visited, rewritten, i)
  {
    forall i | from <= i < |visited| ensures StepSpares(d0, visited, rewritten, i) {
      assert i > from ==> SparedFiles(d, visited[i - 1], actions);
      assert i == from ==> SparedFiles(d, visited[i - 1], actions);
      SameFilesSpare(d0, d, sources, actions, visited, rewritten, i);
    }
  }

  /** The file of an unmarked seed is the one that was there, or the one the broker wrote last. */
  lemma {:induction false} AsTheBrokerLeftIt(d0: Disk, visited: seq<Disk>, rewritten: set<nat>, from: nat, j: nat,
                                             n: string)
    requires from <= j < |visited| && visited[from] == d0 && Unmarked(d0, n)
    requires forall i | from < i < |visited| :: StepSpares(d0, visited, rewritten, i)
    ensures exists i | from <= i <= j ::
              (i == from || i in rewritten) && Canonical(visited[j], Seed(n)) == Canonical(visited[i], Seed(n))
    decreases j
  {
    if j > from && j !in rewritten {
      assert StepSpares(d0, visited, rewritten, j);
      AsTheBrokerLeftIt(d0, visited, rewritten, from, j - 1, n);
      var i :| from <= i <= j - 1 && (i == from || i in rewritten)
               && Canonical(visited[j - 1], Seed(n)) == Canonical(visited[i], Seed(n));
      assert Canonical(visited[j], Seed(n)) == Canonical(visited[i], Seed(n));
    }
  }

  // ----- Building a plan

  function OneAction(d: Disk, name: string, content: Bytes): (a: Option<Action>) {
    var kind := Needed(d, name, content);
    if kind.None? then None else Some(Action(name, kind.value, content))
  }

  /** The actions for a list of names, in its order. */
  function PlanFor(d: Disk, sources: map<string, Bytes>, names: seq<string>): (list: seq<Action>) {
    if names == [] then []
    else
      var k := |names| - 1;
      var action := if names[k] in sources then OneAction(d, names[k], sources[names[k]]) else None;
      PlanFor(d, sources, names[..k]) + if action.Some? then [action.value] else []
  }

  ghost predicate Planned(d: Disk, sources: map<string, Bytes>, names: seq<string>, list: seq<Action>) {
    && Sorted(NamesOf(list))
    && (forall a | a in list ::
          a.name in names && a.name in sources && OneAction(d, a.name, sources[a.name]) == Some(a))
    && (forall n | n in names && n in sources && Needed(d, n, sources[n]).Some? ::
          OneAction(d, n, sources[n]).value in list)
  }

  lemma PlannedMore(d: Disk, sources: map<string, Bytes>, names: seq<string>, name: string, list: seq<Action>)
    requires Sorted(names + [name]) && name in sources && Planned(d, sources, names, list)
    ensures var action := OneAction(d, name, sources[name]);
            Planned(d, sources, names + [name], list + if action.Some? then [action.value] else [])
  {
    var action := OneAction(d, name, sources[name]);
    if action.Some? {
      assert (names + [name])[..|names|] == names;
      AppendSorted(list, names + [name], |names|, action.value);
    } else {
      assert list + [] == list;
    }
  }

  lemma {:induction false} PlanForIsPlanned(d: Disk, sources: map<string, Bytes>, names: seq<string>)
    requires Sorted(names) && forall n | n in names :: n in sources
    ensures Planned(d, sources, names, PlanFor(d, sources, names))
    decreases |names|
  {
    if names != [] {
      var k := |names| - 1;
      var front := names[..k];
      assert names == front + [names[k]];
      assert names[k] in names && forall n | n in front :: n in names;
      PlanForIsPlanned(d, sources, front);
      PlannedMore(d, sources, front, names[k], PlanFor(d, sources, front));
    }
  }

  lemma PlanForIsPlan(d: Disk, sources: map<string, Bytes>, names: seq<string>)
    requires Sorted(names) && Elements(names) == sources.Keys
    ensures PlanOf(d, sources, PlanFor(d, sources, names))
  {
    forall n | n in names ensures n in sources { assert n in Elements(names); }
    PlanForIsPlanned(d, sources, names);
    var list := PlanFor(d, sources, names);
    forall n | n in sources && Needed(d, n, sources[n]).Some? ensures exists a :: a in list && a.name == n {
      assert n in Elements(names);
      assert OneAction(d, n, sources[n]).value in list;
    }
  }

  // ----- The reconciler

  /** The states of playing back a record: recovery brings back the same files from each of them. */
  lemma PlayingBack(d: Disk, n: FileName)
    requires n in d.undo && d.undo[n].Undo?
    ensures var record := d.undo[n].record;
            var first := if record.restoreCanonical then SetCanonical(d, n, record.canonical) else d;
            var second := SetMarker(first, n, record.marker);
            var third := second.(undo := second.undo - {n});
            && SameRecovery(d, d) && SameRecovery(d, first) && SameRecovery(d, second) && SameRecovery(d, third)
            && first.undo == d.undo && second.undo == d.undo && (HasTorn(third) ==> HasTorn(d))
  {
    var record := d.undo[n].record;
    var first := if record.restoreCanonical then SetCanonical(d, n, record.canonical) else d;
    var second := SetMarker(first, n, record.marker);
    var third := second.(undo := second.undo - {n});
    forall k
      ensures RestoredCanonical(third, k) == RestoredCanonical(d, k)
              && RestoredMarker(third, k) == RestoredMarker(d, k)
    {
      if k != n { assert RecordAt(third, k) == RecordAt(d, k); }
    }
    if HasTorn(third) {
      var k :| k in third.undo && third.undo[k].Torn?;
      assert k in d.undo && d.undo[k].Torn?;
    }
  }

  lemma RestoringOn(d: Disk, half: Disk, d': Disk)
    requires OnlyRestored(d, half) && OnlyRestored(half, d')
    requires forall n | n in half.undo :: n in d.undo && half.undo[n] == d.undo[n]
    ensures OnlyRestored(d, d')
  {
    forall n ensures Restores(d, n) || Canonical(d', n) == Canonical(d, n) {
      assert Restores(half, n) || Canonical(d', n) == Canonical(half, n);
      assert Restores(d, n) || Canonical(half, n) == Canonical(d, n);
    }
  }

  datatype Recovery = Recovered | Refused | Failed

  datatype Applied = Done | RolledBack | RollbackFailed

  class Reconciler {
    var disk: Disk
    /** Every state of the disk; a crash leaves the last one. */
    ghost var visited: seq<Disk>
    /** Which of these states the running broker has written. */
    ghost var rewritten: set<nat>

    ghost predicate Valid()
      reads this
    {
      visited != [] && visited[|visited| - 1] == disk && forall i | i in rewritten :: 0 < i < |visited|
    }

    constructor (d: Disk)
      ensures Valid() && disk == d && visited == [d] && rewritten == {}
    {
      disk, visited, rewritten := d, [d], {};
    }

    method Enter(d: Disk)
      requires Valid()
      modifies this
      ensures Valid() && disk == d && visited == old(visited) + [d] && rewritten == old(rewritten)
    {
      disk, visited := d, visited + [d];
    }

    /** The action one seed file calls for, if its marker can be read. */
    method PlanOne(name: string, content: Bytes) returns (ok: bool, action: Option<Action>)
      ensures ok <==> MarkerOf(disk, Seed(name)) != Some(Unreadable)
      ensures ok ==> action == OneAction(disk, name, content)
    {
      var canonical := if Seed(name) in disk.canonical then Some(disk.canonical[Seed(name)]) else None;
      var imported := if Seed(name) in disk.markers then Some(disk.markers[Seed(name)]) else None;
      if imported == Some(Unreadable) { return false, None; }
      if imported == None && canonical != None { return true, Some(Action(name, Adopt, content)); }
      if imported != Some(Imported(content)) || canonical == None { return true, Some(Action(name, Import, content)); }
      return true, None;
    }

    method Plan(sources: map<string, Bytes>) returns (actions: Option<seq<Action>>)
      ensures actions.None? <==> exists n :: n in sources && MarkerOf(disk, Seed(n)) == Some(Unreadable)
      ensures actions.Some? ==> PlanOf(disk, sources, actions.value) && PlansEach(disk, sources, actions.value)
    {
      var names := SortNames(sources.Keys);
      var list: seq<Action> := [];
      for i := 0 to |names|
        invariant forall k | 0 <= k < i :: MarkerOf(disk, Seed(names[k])) != Some(Unreadable)
        invariant list == PlanFor(disk, sources, names[..i])
      {
        var name := names[i];
        assert name in Elements(names);
        var ok, action := PlanOne(name, sources[name]);
        if !ok { return None; }
        assert names[..i + 1][..i] == names[..i];
        if action.Some? { list := list + [action.value]; }
      }
      assert names[..|names|] == names;
      forall n | n in sources ensures MarkerOf(disk, Seed(n)) != Some(Unreadable) {
        assert n in Elements(names);
        var k :| 0 <= k < |names| && names[k] == n;
      }
      PlanForIsPlan(disk, sources, names);
      PlanIsExact(disk, sources, list);
      actions := Some(list);
    }

    // ----- Recovery

    /** Play one record back; the record goes last, so a crash before that only repeats the work. */
    method PlayBack(n: FileName) returns (ok: bool)
      requires Valid() && n in disk.undo && disk.undo[n].Undo?
      modifies this
      ensures Valid() && old(visited) <= visited
      ensures forall i | |old(visited)| <= i < |visited| :: SameRecovery(old(disk), visited[i])
      ensures SameRecovery(old(disk), disk)
      ensures forall i | |old(visited)| <= i < |visited| :: HasTorn(visited[i]) ==> HasTorn(old(disk))
      ensures disk.undo == if ok then old(disk).undo - {n} else old(disk).undo
      ensures rewritten == old(rewritten) && OnlyRestored(old(disk), disk)
      ensures forall i | |old(visited)| <= i < |visited| :: OnlyRestored(old(disk), visited[i])
    {
      var record := disk.undo[n].record;
      PlayingBack(disk, n);
      var fails: bool := *;
      if fails { return false; }
      if record.restoreCanonical { Enter(SetCanonical(disk, n, record.canonical)); }
      fails := *;
      if fails { return false; }
      Enter(SetMarker(disk, n, record.marker));
      fails := *;
      if fails { return false; }
      Enter(disk.(undo := disk.undo - {n}));
      ok := true;
    }

    /**
     Play every record back, in whatever order the directory lists them. At every step recovery would
     still bring back the same files; a torn record is the only thing it refuses.
     */
    method RecoverIncomplete() returns (result: Recovery)
      requires Valid()
      modifies this
      ensures Valid() && old(visited) <= visited
      ensures forall i | |old(visited)| <= i < |visited| :: SameRecovery(old(disk), visited[i])
      ensures SameRecovery(old(disk), disk)
      ensures forall i | |old(visited)| <= i < |visited| :: HasTorn(visited[i]) ==> HasTorn(old(disk))
      ensures HasTorn(disk) ==> HasTorn(old(disk))
      ensures result == Recovered ==> disk.undo == map[]
      ensures result == Refused ==> HasTorn(old(disk))
      ensures HasTorn(old(disk)) ==> result != Recovered
      ensures old(disk).undo == map[] ==> result == Recovered && disk == old(disk) && visited == old(visited)
      ensures rewritten == old(rewritten) && OnlyRestored(old(disk), disk)
      ensures forall i | |old(visited)| <= i < |visited| :: OnlyRestored(old(disk), visited[i])
    {
      var entries := disk.undo.Keys;
      ghost var start := disk;
      while entries != {}
        invariant Valid() && old(visited) <= visited
        invariant forall i | |old(visited)| <= i < |visited| :: SameRecovery(start, visited[i])
        invariant SameRecovery(start, disk) && disk.undo.Keys == entries
        invariant forall n | n in entries :: n in start.undo && disk.undo[n] == start.undo[n]
        invariant forall n | n in start.undo && n !in entries :: start.undo[n].Undo?
        invariant forall i | |old(visited)| <= i < |visited| :: HasTorn(visited[i]) ==> HasTorn(start)
        invariant start.undo == map[] ==> entries == {} && disk == start && visited == old(visited)
        invariant rewritten == old(rewritten) && OnlyRestored(start, disk)
        invariant forall i | |old(visited)| <= i < |visited| :: OnlyRestored(start, visited[i])
        decreases |entries|
      {
        var n :| n in entries;
        if disk.undo[n].Torn? { return Refused; }
        ghost var before, length := disk, |visited|;
        var ok := PlayBack(n);
        forall i | length <= i < |visited| ensures OnlyRestored(start, visited[i]) {
          RestoringOn(start, before, visited[i]);
        }
        RestoringOn(start, before, disk);
        if !ok { return Failed; }
        entries := entries - {n};
      }
      result := Recovered;
    }

    // ----- Applying

    /** Write the undo record of one action by an atomic replacement; the temporary file can survive a crash. */
    method WriteRecovery(a: Action, token: nat) returns (ok: bool)
      requires Valid() && Temporary(a.name, token) !in disk.undo
      modifies this
      ensures Valid() && old(visited) <= visited
      ensures forall i | |old(visited)| <= i < |visited| :: RecordBeingWritten(old(disk), visited[i], a, token)
      ensures disk == if ok then old(disk).(undo := old(disk).undo[Seed(a.name) := Undo(RecordFor(old(disk), a))])
              else old(disk)
      ensures rewritten == old(rewritten)
    {
      WritingStates(disk, a, token);
      var before := disk;
      var fails: bool := *;
      if fails { return false; }
      Enter(BeforeRename(before, a, token, Torn));
      fails := *;
      if fails { Enter(before); return false; }
      Enter(BeforeRename(before, a, token, Undo(RecordFor(before, a))));
      fails := *;
      if fails { Enter(before); return false; }
      Enter(before.(undo := before.undo[Seed(a.name) := Undo(RecordFor(before, a))]));
      ok := true;
    }

    /** Bring in one seed file: its content, then its marker. An adopted file is not touched. */
    method Install(a: Action) returns (ok: bool)
      requires Valid()
      modifies this
      ensures Valid() && old(visited) <= visited
      ensures forall i | |old(visited)| <= i < |visited| :: BeingInstalled(old(disk), visited[i], a)
      ensures BeingInstalled(old(disk), disk, a)
      ensures ok ==> MarkerOf(disk, Seed(a.name)) == Some(Imported(a.content))
      ensures ok && a.kind == Import ==> Canonical(disk, Seed(a.name)) == Some(a.content)
      ensures rewritten == old(rewritten)
    {
      var fails: bool := *;
      if fails { return false; }
      if a.kind == Import { Enter(SetCanonical(disk, Seed(a.name), Some(a.content))); }
      fails := *;
      if fails { return false; }
      Enter(SetMarker(disk, Seed(a.name), Some(Imported(a.content))));
      ok := true;
    }

    /** Write all undo records before anything is changed. */
    method WriteRecords(actions: seq<Action>) returns (ok: bool)
      requires Valid() && disk.undo == map[] && Distinct(actions)
      modifies this
      ensures Valid() && old(visited) <= visited
      ensures forall i | |old(visited)| <= i < |visited| ::
                Untouched(old(disk), visited[i]) && BackTo(old(disk), visited[i])
      ensures !HasTorn(disk) && BackTo(old(disk), disk)
      ensures ok ==> disk == old(disk).(undo := Records(old(disk), actions))
      ensures rewritten == old(rewritten) && Untouched(old(disk), disk) && NoneRestored(disk, actions)
    {
      ghost var start := disk;
      for i := 0 to |actions|
        invariant Valid() && old(visited) <= visited && rewritten == old(rewritten)
        invariant forall k | |old(visited)| <= k < |visited| ::
                    Untouched(start, visited[k]) && BackTo(start, visited[k])
        invariant disk == start.(undo := Records(start, actions[..i]))
      {
        var token: nat := *;
        DistinctPrefix(actions, i);
        RecordsHold(start, actions[..i], Temporary(actions[i].name, token));
        RecordsAreWhole(start, actions[..i]);
        ghost var before := visited;
        ghost var half := disk;
        ok := WriteRecovery(actions[i], token);
        DistinctPrefix(actions, i + 1);
        assert RecordFor(half, actions[i]) == RecordFor(start, actions[i]);
        assert actions[..i + 1][..i] == actions[..i];
        forall k | |before| <= k < |visited| ensures Untouched(start, visited[k]) && BackTo(start, visited[k]) {
          WritingGoesBack(start, half, actions[..i], actions[i], token, visited[k]);
        }
        if !ok {
          HeldGoesBack(start, disk, actions[..i]);
          RecordsRestoreNone(start, disk, actions, actions[..i]);
          return;
        }
      }
      assert actions[..|actions|] == actions;
      RecordsAreWhole(start, actions);
      RecordsRestoreNone(start, disk, actions, actions);
      HeldGoesBack(start, disk, actions);
      ok := true;
    }

    /** Bring in every seed file under its record. */
    method InstallAll(ghost d0: Disk, actions: seq<Action>) returns (ok: bool)
      requires Valid() && Distinct(actions) && Held(d0, disk, actions)
      modifies this
      ensures Valid() && old(visited) <= visited && Held(d0, disk, actions)
      ensures forall i | |old(visited)| <= i < |visited| :: Held(d0, visited[i], actions)
      ensures ok ==> forall a | a in actions :: Installed(d0, disk, a)
      ensures rewritten == old(rewritten)
    {
      for i := 0 to |actions|
        invariant Valid() && old(visited) <= visited && Held(d0, disk, actions) && rewritten == old(rewritten)
        invariant forall k | |old(visited)| <= k < |visited| :: Held(d0, visited[k], actions)
        invariant forall k | 0 <= k < i :: Installed(d0, disk, actions[k])
      {
        ghost var before, half := visited, disk;
        var a := actions[i];
        ok := Install(a);
        forall k | |before| <= k < |visited| ensures Held(d0, visited[k], actions) {
          InstallingHolds(d0, half, visited[k], actions, a);
        }
        InstallingHolds(d0, half, disk, actions, a);
        if !ok { return; }
        forall k | 0 <= k < i ensures Installed(d0, disk, actions[k]) {
          assert actions[k].name != a.name;
        }
        RecordsHold(d0, actions, Seed(a.name));
      }
      ok := true;
    }

    /** Apply a plan; a step that fails is rolled back from the records. */
    method Apply(actions: seq<Action>) returns (result: Applied)
      requires Valid() && disk.undo == map[] && Distinct(actions)
      modifies this
      ensures Valid() && old(visited) <= visited
      ensures forall i | |old(visited)| <= i < |visited| ::
                BackTo(old(disk), visited[i]) && (HasTorn(visited[i]) ==> Untouched(old(disk), visited[i]))
      ensures !HasTorn(disk) && BackTo(old(disk), disk)
      ensures result == Done ==>
                Held(old(disk), disk, actions) && forall a | a in actions :: Installed(old(disk), disk, a)
      ensures result == RolledBack ==> disk.undo == map[]
      ensures rewritten == old(rewritten)
      ensures forall i | |old(visited)| <= i < |visited| :: SparedFiles(old(disk), visited[i], actions)
    {
      ghost var start := disk;
      var ok := WriteRecords(actions);
      if ok {
        RecordsAreWhole(start, actions);
        ghost var before := visited;
        ok := InstallAll(start, actions);
        HeldGoesBack(start, disk, actions);
        HeldSpares(start, disk, actions);
        RecordsRestoreNone(start, disk, actions, actions);
        forall i | |before| <= i < |visited|
          ensures BackTo(start, visited[i]) && !HasTorn(visited[i]) && SparedFiles(start, visited[i], actions)
        {
          HeldGoesBack(start, visited[i], actions);
          HeldSpares(start, visited[i], actions);
        }
      }
      if ok { return Done; }
      ghost var before, half := visited, disk;
      var recovery := RecoverIncomplete();
      forall i | |before| <= i < |visited|
        ensures BackTo(start, visited[i]) && SparedFiles(start, visited[i], actions)
      {
        StillGoesBack(start, half, visited[i]);
        RecoverySpares(start, half, visited[i], actions);
      }
      StillGoesBack(start, half, disk);
      result := if recovery == Recovered then RolledBack else RollbackFailed;
    }

    // ----- One generation of seeds

    /** The running broker rewrites canonical files as often as it likes; it does not delete them. */
    method BrokerRewrites()
      requires Valid()
      modifies this
      ensures Valid() && old(visited) <= visited
      ensures forall i | |old(visited)| <= i < |visited| :: Rewritten(old(disk), visited[i])
      ensures Rewritten(old(disk), disk)
      ensures old(rewritten) <= rewritten
      ensures forall i: nat | |old(visited)| <= i < |visited| :: i in rewritten && Rewritten(visited[i - 1], visited[i])
      ensures forall i | i in rewritten && i < |old(visited)| :: i in old(rewritten)
    {
      var times: int := *;
      for k := 0 to if times > 0 then times else 0
        invariant Valid() && old(visited) <= visited && Rewritten(old(disk), disk)
        invariant old(rewritten) <= rewritten
        invariant forall i: nat | |old(visited)| <= i < |visited| ::
                    i in rewritten && Rewritten(visited[i - 1], visited[i])
        invariant forall i | i in rewritten && i < |old(visited)| :: i in old(rewritten)
        invariant forall i | |old(visited)| <= i < |visited| :: Rewritten(old(disk), visited[i])
      {
        var canonical: map<FileName, Bytes> := *;
        if disk.canonical.Keys <= canonical.Keys {
          Enter(disk.(canonical := canonical));
          rewritten := rewritten + {|visited| - 1};
        }
      }
    }

    /** Drop the records one by one while the broker goes on writing. */
    method Accept(actions: seq<Action>) returns (ok: bool)
      requires Valid()
      modifies this
      ensures Valid() && old(visited) <= visited
      ensures forall i | |old(visited)| <= i < |visited| :: BeingAccepted(old(disk), visited[i])
      ensures BeingAccepted(old(disk), disk)
      ensures ok ==> forall a | a in actions :: Seed(a.name) !in disk.undo
      ensures old(rewritten) <= rewritten
      ensures forall i | |old(visited)| <= i < |visited| ::
                if i in rewritten then Rewritten(visited[i - 1], visited[i])
                else visited[i].canonical == visited[i - 1].canonical
    {
      for i := 0 to |actions|
        invariant Valid() && old(visited) <= visited && BeingAccepted(old(disk), disk) && old(rewritten) <= rewritten
        invariant forall k | |old(visited)| <= k < |visited| ::
                    if k in rewritten then Rewritten(visited[k - 1], visited[k])
                    else visited[k].canonical == visited[k - 1].canonical
        invariant forall k | |old(visited)| <= k < |visited| :: BeingAccepted(old(disk), visited[k])
        invariant forall k | 0 <= k < i :: Seed(actions[k].name) !in disk.undo
      {
        BrokerRewrites();
        var fails: bool := *;
        if fails { return false; }
        Enter(disk.(undo := disk.undo - {Seed(actions[i].name)}));
      }
      ok := true;
    }

    /**
     Apply a plan, let the broker run on it, then accept it or roll it back. At every step, each name
     comes back old, or its record has been dropped by the acceptance and it is new; without an acceptance
     everything comes back old.
     */
    method Generation(sources: map<string, Bytes>, actions: seq<Action>, stopping: bool, ready: bool)
      returns (verdict: Verdict)
      requires Valid() && disk.undo == map[] && PlanOf(disk, sources, actions)
      modifies this
      ensures Valid() && old(visited) <= visited
      ensures forall i | |old(visited)| <= i < |visited| ::
                OldOrAccepted(old(disk), visited[i], actions, ready && !stopping)
      ensures forall i | |old(visited)| <= i < |visited| :: HasTorn(visited[i]) ==> Untouched(old(disk), visited[i])
      ensures OldOrAccepted(old(disk), disk, actions, ready && !stopping) && !HasTorn(disk)
      ensures verdict != Stuck ==> disk.undo == map[]
      ensures verdict == Accepted ==> Settled(disk, sources) && !stopping && ready
      ensures verdict == Rejected ==> stopping || !ready
      ensures verdict == Rejected || verdict == NotApplied ==> OldOrAccepted(old(disk), disk, actions, false)
      ensures old(rewritten) <= rewritten
      ensures forall i | |old(visited)| <= i < |visited| :: StepSpares(old(disk), visited, rewritten, i)
    {
      ghost var d0 := disk;
      SortedIsDistinct(actions);
      var applied := Apply(actions);
      StretchSpares(d0, d0, sources, actions, visited, rewritten, |old(visited)|);
      forall i | |old(visited)| <= i < |visited| ensures OldOrAccepted(d0, visited[i], actions, false) {
        BackIsOld(d0, visited[i], actions);
      }
      BackIsOld(d0, disk, actions);
      if applied == RolledBack { return NotApplied; }
      if applied == RollbackFailed { return Stuck; }
      RecordsAreWhole(d0, actions);
      ghost var before, half := visited, disk;
      if stopping {
        verdict := RollBack(d0, sources, actions);
        SparesJoin(d0, before, old(rewritten), visited, rewritten, |old(visited)|);
        return;
      }
      BrokerRewrites();
      SparesJoin(d0, before, old(rewritten), visited, rewritten, |old(visited)|);
      forall i | |before| <= i < |visited| ensures Outstanding(d0, visited[i], actions) {
        RewritingIsOutstanding(d0, half, visited[i], actions);
      }
      RewritingIsOutstanding(d0, half, disk, actions);
      forall i | |before| <= i < |visited|
        ensures OldOrAccepted(d0, visited[i], actions, false) && !HasTorn(visited[i])
      {
        OutstandingIsOld(d0, visited[i], actions);
      }
      OutstandingIsOld(d0, disk, actions);
      InstalledKeepsFiles(d0, half, actions);
      ghost var running, written := visited, rewritten;
      if !ready {
        verdict := RollBack(d0, sources, actions);
        SparesJoin(d0, running, written, visited, rewritten, |old(visited)|);
        return;
      }
      verdict := AcceptAll(d0, sources, actions);
      SparesJoin(d0, running, written, visited, rewritten, |old(visited)|);
    }

    method RollBack(ghost d0: Disk, ghost sources: map<string, Bytes>, ghost actions: seq<Action>)
      returns (verdict: Verdict)
      requires Valid() && OldOrAccepted(d0, disk, actions, false) && !HasTorn(disk) && disk.undo == Records(d0, actions)
               && Distinct(actions) && PlanOf(d0, sources, actions)
      modifies this
      ensures Valid() && old(visited) <= visited
      ensures forall i | |old(visited)| <= i < |visited| ::
                OldOrAccepted(d0, visited[i], actions, false) && !HasTorn(visited[i])
      ensures OldOrAccepted(d0, disk, actions, false) && !HasTorn(disk)
      ensures verdict == if disk.undo == map[] then Rejected else Stuck
      ensures rewritten == old(rewritten)
      ensures forall i | |old(visited)| <= i < |visited| :: StepSpares(d0, visited, rewritten, i)
    {
      ghost var before, half := visited, disk;
      var recovery := RecoverIncomplete();
      RecordsRestoreNone(d0, half, actions, actions);
      forall i | |before| <= i < |visited|
        ensures OldOrAccepted(d0, visited[i], actions, false) && SparedFiles(half, visited[i], actions)
      {
        RecoveringStaysOld(d0, half, visited[i], actions);
        RecoverySpares(half, half, visited[i], actions);
      }
      StretchSpares(d0, half, sources, actions, visited, rewritten, |before|);
      RecoveringStaysOld(d0, half, disk, actions);
      verdict := if disk.undo == map[] then Rejected else Stuck;
    }

    method AcceptAll(ghost d0: Disk, ghost sources: map<string, Bytes>, actions: seq<Action>) returns (verdict: Verdict)
      requires Valid() && PlanOf(d0, sources, actions) && Distinct(actions) && Outstanding(d0, disk, actions)
      requires KeepsFiles(d0, disk)
      modifies this
      ensures Valid() && old(visited) <= visited
      ensures forall i | |old(visited)| <= i < |visited| ::
                OldOrAccepted(d0, visited[i], actions, true) && !HasTorn(visited[i])
      ensures OldOrAccepted(d0, disk, actions, true) && !HasTorn(disk)
      ensures verdict in {Accepted, Stuck} && (verdict == Accepted ==> Settled(disk, sources) && disk.undo == map[])
      ensures old(rewritten) <= rewritten
      ensures forall i | |old(visited)| <= i < |visited| :: StepSpares(d0, visited, rewritten, i)
    {
      ghost var before, half := visited, disk;
      OutstandingIsOld(d0, disk, actions);
      var ok := Accept(actions);
      forall i | |before| <= i < |visited|
        ensures OldOrAccepted(d0, visited[i], actions, true) && !HasTorn(visited[i])
      {
        AcceptingIsOldOrNew(d0, half, visited[i], actions);
      }
      AcceptingIsOldOrNew(d0, half, disk, actions);
      if !ok { return Stuck; }
      AllAccepted(d0, half, disk, sources, actions);
      verdict := Accepted;
    }
  }

  lemma SparesJoin(d0: Disk, visited: seq<Disk>, rewritten: set<nat>, longer: seq<Disk>, more: set<nat>, from: nat)
    requires visited <= longer && rewritten <= more
    requires forall i | from <= i < |visited| :: StepSpares(d0, visited, rewritten, i)
    requires forall i | |visited| <= i < |longer| :: StepSpares(d0, longer, more, i) || (0 < i && i in more)
    ensures forall i | from <= i < |longer| :: StepSpares(d0, longer, more, i)
  {
    forall i | from <= i < |longer| ensures StepSpares(d0, longer, more, i) {
      if i < |visited| { assert StepSpares(d0, visited, rewritten, i); }
    }
  }

  datatype Verdict = Accepted | Rejected | NotApplied | Stuck

  predicate Rewritten(d: Disk, d': Disk) {
    d'.markers == d.markers && d'.undo == d.undo && d.canonical.Keys <= d'.canonical.Keys
  }

  predicate BeingAccepted(d: Disk, d': Disk) {
    && d'.markers == d.markers && d.canonical.Keys <= d'.canonical.Keys && d'.undo.Keys <= d.undo.Keys
    && forall n | n in d'.undo :: d'.undo[n] == d.undo[n]
  }

  /** The name comes back as it was; a canonical file that was not imported is the broker's own business. */
  ghost predicate ComesBackOld(d0: Disk, d: Disk, n: string, actions: seq<Action>) {
    && RestoredMarker(d, Seed(n)) == MarkerOf(d0, Seed(n))
    && ((exists a :: a in actions && a.name == n && a.kind == Import) ==>
          RestoredCanonical(d, Seed(n)) == Canonical(d0, Seed(n)))
  }

  /** The name's record has been dropped, and its file and marker are the new ones. */
  ghost predicate IsNew(d: Disk, n: string, actions: seq<Action>) {
    && Seed(n) !in d.undo && Canonical(d, Seed(n)).Some?
    && exists a :: a in actions && a.name == n && MarkerOf(d, Seed(n)) == Some(Imported(a.content))
  }

  /** Every name comes back old or, if the plan may have been accepted, is new. */
  ghost predicate OldOrAccepted(d0: Disk, d: Disk, actions: seq<Action>, accepting: bool) {
    forall n {:trigger ComesBackOld(d0, d, n, actions)} ::
        ComesBackOld(d0, d, n, actions) || (accepting && IsNew(d, n, actions))
  }

  lemma BackIsOld(d0: Disk, d: Disk, actions: seq<Action>)
    requires BackTo(d0, d)
    ensures OldOrAccepted(d0, d, actions, false)
  {
    forall n ensures ComesBackOld(d0, d, n, actions) {
      assert RestoredMarker(d, Seed(n)) == MarkerOf(d0, Seed(n));
    }
  }

  /** All records are in place and everything is installed; the broker may have rewritten files. */
  ghost predicate Outstanding(d0: Disk, d: Disk, actions: seq<Action>) {
    && d.undo == Records(d0, actions)
    && (forall n {:trigger Seed(n)} :: Seed(n) !in d.undo ==> MarkerOf(d, Seed(n)) == MarkerOf(d0, Seed(n)))
    && (forall a | a in actions :: MarkerOf(d, Seed(a.name)) == Some(Imported(a.content)))
    && (forall a | a in actions && a.kind == Import :: Canonical(d, Seed(a.name)).Some?)
  }

  ghost predicate KeepsFiles(d: Disk, d': Disk) {
    forall n {:trigger Seed(n)} :: Seed(n) in d.canonical ==> Seed(n) in d'.canonical
  }

  lemma InstalledKeepsFiles(d0: Disk, d: Disk, actions: seq<Action>)
    requires Held(d0, d, actions) && Distinct(actions) && forall a | a in actions :: Installed(d0, d, a)
    ensures KeepsFiles(d0, d)
  {
    forall n | Seed(n) in d0.canonical ensures Seed(n) in d.canonical {
      RecordsHold(d0, actions, Seed(n));
      if Seed(n) in d.undo {
        var a :| a in actions && Seed(n) == Seed(a.name);
        assert Installed(d0, d, a);
      } else {
        assert Canonical(d, Seed(n)) == Canonical(d0, Seed(n));
      }
    }
  }

  lemma RewritingIsOutstanding(d0: Disk, d: Disk, d': Disk, actions: seq<Action>)
    requires Held(d0, d, actions) && Rewritten(d, d') && forall a | a in actions :: Installed(d0, d, a)
    ensures Outstanding(d0, d', actions)
  {
    forall n ensures Seed(n) !in d'.undo ==> MarkerOf(d', Seed(n)) == MarkerOf(d0, Seed(n)) {}
    forall a | a in actions
      ensures MarkerOf(d', Seed(a.name)) == Some(Imported(a.content))
              && (a.kind == Import ==> Canonical(d', Seed(a.name)).Some?)
    {
      assert Installed(d0, d, a);
    }
  }

  lemma OutstandingIsOld(d0: Disk, d: Disk, actions: seq<Action>)
    requires Outstanding(d0, d, actions) && Distinct(actions)
    ensures OldOrAccepted(d0, d, actions, false) && !HasTorn(d)
  {
    RecordsAreWhole(d0, actions);
    forall n ensures ComesBackOld(d0, d, n, actions) { RecordsHold(d0, actions, Seed(n)); }
  }

  lemma RecoveringStaysOld(d0: Disk, d: Disk, d': Disk, actions: seq<Action>)
    requires OldOrAccepted(d0, d, actions, false) && d.undo == Records(d0, actions) && Distinct(actions)
             && SameRecovery(d, d')
    ensures OldOrAccepted(d0, d', actions, false)
  {
    forall n ensures ComesBackOld(d0, d', n, actions) {
      RecordsHold(d0, actions, Seed(n));
      assert ComesBackOld(d0, d, n, actions);
      assert RestoredMarker(d', Seed(n)) == RestoredMarker(d, Seed(n));
    }
  }

  lemma AcceptingIsOldOrNew(d0: Disk, d: Disk, d': Disk, actions: seq<Action>)
    requires Outstanding(d0, d, actions) && Distinct(actions) && BeingAccepted(d, d')
    requires forall a | a in actions :: Canonical(d, Seed(a.name)).Some?
    ensures OldOrAccepted(d0, d', actions, true) && !HasTorn(d')
  {
    RecordsAreWhole(d0, actions);
    forall n ensures ComesBackOld(d0, d', n, actions) || IsNew(d', n, actions) {
      RecordsHold(d0, actions, Seed(n));
      if Seed(n) in d.undo && Seed(n) !in d'.undo {
        var a :| a in actions && a.name == n;
        assert MarkerOf(d', Seed(n)) == Some(Imported(a.content));
      }
    }
  }

  lemma AllAccepted(d0: Disk, d: Disk, d': Disk, sources: map<string, Bytes>, actions: seq<Action>)
    requires PlanOf(d0, sources, actions) && Distinct(actions) && Outstanding(d0, d, actions) && BeingAccepted(d, d')
    requires KeepsFiles(d0, d)
    requires forall a | a in actions :: Seed(a.name) !in d'.undo
    ensures Settled(d', sources) && d'.undo == map[]
  {
    forall n | n in d'.undo ensures false { RecordsHold(d0, actions, n); }
    forall n | n in sources
      ensures MarkerOf(d', Seed(n)) == Some(Imported(sources[n])) && Canonical(d', Seed(n)).Some?
    {
      RecordsHold(d0, actions, Seed(n));
      if Needed(d0, n, sources[n]).Some? {
        var a :| a in actions && a.name == n;
        assert MarkerOf(d, Seed(a.name)) == Some(Imported(a.content));
      } else {
        assert Seed(n) !in d.undo;
      }
    }
  }

  /** Nothing but the undo directory differs. */
  predicate Untouched(d: Disk, d': Disk) {
    d'.canonical == d.canonical && d'.markers == d.markers
  }

  ghost predicate Installed(d0: Disk, d: Disk, a: Action) {
    && MarkerOf(d, Seed(a.name)) == Some(Imported(a.content))
    && Canonical(d, Seed(a.name)) == if a.kind == Import then Some(a.content) else Canonical(d0, Seed(a.name))
  }

  lemma DistinctPrefix(actions: seq<Action>, i: nat)
    requires Distinct(actions) && i <= |actions|
    ensures Distinct(actions[..i])
  {
  }

  lemma {:induction false} RecordsAreWhole(d: Disk, actions: seq<Action>)
    ensures forall n | n in Records(d, actions) :: n.Seed? && Records(d, actions)[n].Undo?
    decreases |actions|
  {
    if actions != [] { RecordsAreWhole(d, actions[..|actions| - 1]); }
  }

  lemma RecordRestores(d0: Disk, actions: seq<Action>, n: string)
    requires Distinct(actions)
    ensures var d := d0.(undo := Records(d0, actions));
            RecordAt(d, Seed(n)).Some? ==>
                exists a: Action :: a.name == n && RecordAt(d, Seed(n)) == Some(RecordFor(d0, a))
  {
    RecordsHold(d0, actions, Seed(n));
  }

  lemma WritingGoesBack(d0: Disk, half: Disk, written: seq<Action>, a: Action, token: nat, d: Disk)
    requires Distinct(written) && half == d0.(undo := Records(d0, written)) && RecordBeingWritten(half, d, a, token)
    ensures Untouched(d0, d) && BackTo(d0, d)
  {
    assert RecordFor(half, a) == RecordFor(d0, a);
    forall n
      ensures RestoredCanonical(d, Seed(n)) == Canonical(d0, Seed(n))
              && RestoredMarker(d, Seed(n)) == MarkerOf(d0, Seed(n))
    {
      RecordRestores(d0, written, n);
      assert RecordAt(d, Seed(n)) == RecordAt(half, Seed(n))
             || (n == a.name && RecordAt(d, Seed(n)) == Some(RecordFor(half, a)));
    }
  }

  lemma InstallingHolds(d0: Disk, d: Disk, d': Disk, actions: seq<Action>, a: Action)
    requires Distinct(actions) && a in actions && Held(d0, d, actions) && BeingInstalled(d, d', a)
    ensures Held(d0, d', actions)
  {
    RecordsHold(d0, actions, Seed(a.name));
  }

  lemma StillGoesBack(d0: Disk, d: Disk, d': Disk)
    requires BackTo(d0, d) && SameRecovery(d, d')
    ensures BackTo(d0, d')
  {
    forall n
      ensures RestoredCanonical(d', Seed(n)) == Canonical(d0, Seed(n))
              && RestoredMarker(d', Seed(n)) == MarkerOf(d0, Seed(n))
    {
      assert RestoredCanonical(d, Seed(n)) == Canonical(d0, Seed(n));
    }
  }

  /** While a record is written nothing else changes: at most the temporary file is there, or the record itself. */
  ghost predicate RecordBeingWritten(d: Disk, d': Disk, a: Action, token: nat) {
    && Untouched(d, d') && d'.undo.Keys <= d.undo.Keys + {Temporary(a.name, token), Seed(a.name)}
    && (forall n {:trigger Seed(n)} ::
          RecordAt(d', Seed(n)) == RecordAt(d, Seed(n))
            || (n == a.name && RecordAt(d', Seed(n)) == Some(RecordFor(d, a))))
    && (forall n | n in d'.undo && d'.undo[n].Torn? :: n == Temporary(a.name, token) || n in d.undo)
  }

  function BeforeRename(d: Disk, a: Action, token: nat, entry: Entry): (d': Disk) {
    d.(undo := d.undo[Temporary(a.name, token) := entry])
  }

  lemma WritingStates(d: Disk, a: Action, token: nat)
    requires Temporary(a.name, token) !in d.undo
    ensures RecordBeingWritten(d, d, a, token)
    ensures RecordBeingWritten(d, BeforeRename(d, a, token, Torn), a, token)
    ensures RecordBeingWritten(d, BeforeRename(d, a, token, Undo(RecordFor(d, a))), a, token)
    ensures RecordBeingWritten(d, d.(undo := d.undo[Seed(a.name) := Undo(RecordFor(d, a))]), a, token)
  {
  }

  /** Installing changes the marker of its own name and, for an import, the canonical file. */
  ghost predicate BeingInstalled(d: Disk, d': Disk, a: Action) {
    && d'.undo == d.undo
    && (forall n | n != Seed(a.name) :: Canonical(d', n) == Canonical(d, n) && MarkerOf(d', n) == MarkerOf(d, n))
    && (a.kind == Adopt ==> Canonical(d', Seed(a.name)) == Canonical(d, Seed(a.name)))
  }

  lemma AppendSorted(list: seq<Action>, names: seq<string>, i: nat, a: Action)
    requires Sorted(NamesOf(list)) && Sorted(names) && i < |names| && a.name == names[i]
    requires forall b | b in list :: b.name in names[..i]
    ensures Sorted(NamesOf(list + [a]))
  {
    var longer := NamesOf(list + [a]);
    forall j, k | 0 <= j < k < |longer| ensures Less(longer[j], longer[k]) {
      if k < |list| {
        assert Less(NamesOf(list)[j], NamesOf(list)[k]);
      } else {
        assert list[j] in list;
        var m :| 0 <= m < i && names[m] == list[j].name;
        assert Less(names[m], names[i]);
      }
    }
  }

  // ----- What recovery guarantees and where it stops

  /**
   Every completed recovery ends with the same files, whatever the order of the records and however often it
   was repeated.
   */
  lemma RecoveryIsUnique(d: Disk, d1: Disk, d2: Disk)
    requires SameRecovery(d, d1) && SameRecovery(d, d2) && d1.undo == map[] && d2.undo == map[]
    ensures d1 == d2
  {
    forall n ensures Canonical(d1, n) == Canonical(d2, n) && MarkerOf(d1, n) == MarkerOf(d2, n) {
      assert RestoredCanonical(d1, n) == RestoredCanonical(d, n) == RestoredCanonical(d2, n);
      assert RestoredMarker(d1, n) == RestoredMarker(d, n) == RestoredMarker(d2, n);
    }
    forall n
      ensures (n in d1.canonical <==> n in d2.canonical) && (n in d1.canonical ==> d1.canonical[n] == d2.canonical[n])
    {
      assert Canonical(d1, n) == Canonical(d2, n);
    }
    forall n ensures (n in d1.markers <==> n in d2.markers) && (n in d1.markers ==> d1.markers[n] == d2.markers[n]) {
      assert MarkerOf(d1, n) == MarkerOf(d2, n);
    }
    assert d1.canonical == d2.canonical && d1.markers == d2.markers;
  }

  /** Recoveries one after the other, each from where the one before was interrupted. */
  ghost predicate Recoveries(disks: seq<Disk>) {
    disks != [] && forall i | 0 < i < |disks| :: SameRecovery(disks[i - 1], disks[i])
  }

  lemma {:induction false} RecoveriesAgree(disks: seq<Disk>, i: nat)
    requires Recoveries(disks) && i < |disks|
    ensures SameRecovery(disks[0], disks[i])
  {
    if i > 0 {
      RecoveriesAgree(disks, i - 1);
      forall n ensures RestoredCanonical(disks[i], n) == RestoredCanonical(disks[0], n)
                       && RestoredMarker(disks[i], n) == RestoredMarker(disks[0], n)
      {
        assert RestoredCanonical(disks[i], n) == RestoredCanonical(disks[i - 1], n);
        assert RestoredMarker(disks[i], n) == RestoredMarker(disks[i - 1], n);
      }
    }
  }

  /** The name is as it was; a canonical file that was not imported is the broker's own business. */
  ghost predicate IsOld(d0: Disk, d: Disk, n: string, actions: seq<Action>) {
    && MarkerOf(d, Seed(n)) == MarkerOf(d0, Seed(n))
    && ((exists a :: a in actions && a.name == n && a.kind == Import) ==>
          Canonical(d, Seed(n)) == Canonical(d0, Seed(n)))
  }

  /**
   From any state a crash can leave, any number of interrupted recoveries and then a completed one
   leave no record, and every name old, or new with its record dropped by the acceptance before the crash.
   */
  lemma CrashThenRecovery(d0: Disk, disks: seq<Disk>, actions: seq<Action>, accepting: bool, n: string)
    requires Recoveries(disks) && OldOrAccepted(d0, disks[0], actions, accepting) && disks[|disks| - 1].undo == map[]
    ensures var d, d' := disks[0], disks[|disks| - 1];
            || IsOld(d0, d', n, actions)
            || (accepting && Seed(n) !in d.undo && IsNew(d, n, actions) && IsNew(d', n, actions))
  {
    var d, d' := disks[0], disks[|disks| - 1];
    RecoveriesAgree(disks, |disks| - 1);
    assert RestoredCanonical(d', Seed(n)) == RestoredCanonical(d, Seed(n));
    assert RestoredMarker(d', Seed(n)) == RestoredMarker(d, Seed(n));
    assert ComesBackOld(d0, d, n, actions) || (accepting && IsNew(d, n, actions));
  }

  /**
   A record written over a disk that still had records brings the old files back exactly when its name had not
   been touched yet.
   */
  lemma NewRecordGoesBackIff(d0: Disk, d: Disk, a: Action)
    requires BackTo(d0, d)
    ensures BackTo(d0, d.(undo := d.undo[Seed(a.name) := Undo(RecordFor(d, a))])) <==>
            Canonical(d, Seed(a.name)) == Canonical(d0, Seed(a.name))
              && MarkerOf(d, Seed(a.name)) == MarkerOf(d0, Seed(a.name))
  {
    var d' := d.(undo := d.undo[Seed(a.name) := Undo(RecordFor(d, a))]);
    assert RestoredCanonical(d', Seed(a.name)) == Canonical(d, Seed(a.name));
    assert RestoredMarker(d', Seed(a.name)) == MarkerOf(d, Seed(a.name));
    forall n | n != a.name
      ensures RestoredCanonical(d', Seed(n)) == Canonical(d0, Seed(n))
              && RestoredMarker(d', Seed(n)) == MarkerOf(d0, Seed(n))
    {
      assert RestoredCanonical(d, Seed(n)) == Canonical(d0, Seed(n));
    }
  }

  /** The loop may apply again after a rollback that failed. The new records are then taken from the half-applied
      disk and replace the old ones, so recovery no longer brings the old file back. */
  lemma ApplyingOverRecordsLosesTheOldFile()
    ensures var old0: Bytes, new0: Bytes := [1], [2];
            var d0 := Disk(map[Seed("a") := old0], map[Seed("a") := Imported(old0)], map[]);
            var a := Action("a", Import, new0);
            var written := d0.(undo := map[Seed("a") := Undo(RecordFor(d0, a))]);
            var halfway := SetCanonical(written, Seed("a"), Some(new0));
            var again := halfway.(undo := map[Seed("a") := Undo(RecordFor(halfway, a))]);
            && Needed(d0, "a", new0) == Some(Import) && Needed(halfway, "a", new0) == Some(Import)
            && BackTo(d0, halfway) && !BackTo(d0, again)
            && RestoredCanonical(again, Seed("a")) == Some(new0)
               && RestoredMarker(again, Seed("a")) == Some(Imported(old0))
  {
    var old0: Bytes, new0: Bytes := [1], [2];
    var d0 := Disk(map[Seed("a") := old0], map[Seed("a") := Imported(old0)], map[]);
    var a := Action("a", Import, new0);
    var written := d0.(undo := map[Seed("a") := Undo(RecordFor(d0, a))]);
    var halfway := SetCanonical(written, Seed("a"), Some(new0));
    var again := halfway.(undo := map[Seed("a") := Undo(RecordFor(halfway, a))]);
    assert old0[0] != new0[0];
    assert RestoredCanonical(again, Seed("a")) == Some(new0);
    assert Canonical(d0, Seed("a")) == Some(old0);
  }
}
