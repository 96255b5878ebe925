/**
 The files of one account directory, and what a crash can leave of them.

 The object keeps the directory as the process sees it, and two ghost histories: `visited`, every
 state the directory has had since the object was made, and `volatile`, the states a crash at this
 moment may leave (a crash keeps a prefix of the operations made since the last sync).
 */
module AccountDirectory {
  import opened Wrappers
  import opened AccountRecord

  datatype Content = Partial | Whole

  datatype File =
    | CredentialFile(credential: Credential)
    | LockFile(credential: Credential)
    | TemporaryFile(token: Token)

  /** `metadata.json` and the other files. Locks are empty files. */
  datatype Dir = Dir(manifest: Option<Metadata>, files: map<File, Content>)

  /** The loader knows every file: a lock is known only beside the credential it names. */
  ghost predicate Recognized(d: Dir) {
    forall c | LockFile(c) in d.files :: CredentialFile(c) in d.files
  }

  function Named(m: Option<Metadata>): (c: Option<Credential>) {
    if m.Some? then m.value.credential else None
  }

  /** The credential the manifest names, if any, is there in full. */
  predicate KeepsNamed(d: Dir) {
    var c := Named(d.manifest);
    c.Some? ==> CredentialFile(c.value) in d.files && d.files[CredentialFile(c.value)] == Whole
  }

  /**
   A state on the way from `start` to the manifest `goal`: the loader accepts it, its manifest is the
   one before or the one after, and the credential it names is there unless `start` had lost it already.
   */
  ghost predicate OnTheWay(d: Dir, start: Dir, goal: Option<Metadata>) {
    && Recognized(d)
    && (d.manifest == start.manifest || d.manifest == goal)
    && (KeepsNamed(start) || Named(d.manifest) != Named(start.manifest) ==> KeepsNamed(d))
  }

  ghost predicate AllOnTheWay(states: seq<Dir>, start: Dir, goal: Option<Metadata>) {
    forall i | 0 <= i < |states| :: OnTheWay(states[i], start, goal)
  }

  ghost function Elements(paths: seq<File>): (s: set<File>) {
    set f | f in paths
  }

  /** How the placing of a new generation, or of a new manifest, goes wrong. */
  datatype Trouble = NoTrouble | CredentialUnwritten | ProviderRefuses | ManifestUnwritten | ManifestUnsynced

  /** The files the loader removes beside a manifest that names `keep`. */
  predicate Removable(f: File, keep: Option<Credential>) {
    match f
    case LockFile(c) => keep != Some(c)
    case CredentialFile(c) => keep.Some? && keep != Some(c)
    case TemporaryFile(_) => keep.Some?
  }

  /** The files after a replacement: the new generation in, the one the manifest named out. */
  ghost function Successor(d: Dir, c: Credential, locks: bool): (files: map<File, Content>) {
    var placed := if locks then d.files[CredentialFile(c) := Whole][LockFile(c) := Whole]
    else d.files[CredentialFile(c) := Whole];
    if Named(d.manifest).Some? then
        placed - {LockFile(Named(d.manifest).value), CredentialFile(Named(d.manifest).value)} else placed
  }

  lemma AnyGoal(states: seq<Dir>, start: Dir, goal: Option<Metadata>)
    requires AllOnTheWay(states, start, start.manifest)
    ensures AllOnTheWay(states, start, goal)
  {
  }

  /** States on the way from the directory with the new credential are on the way from the one without it. */
  lemma ThroughPlaced(states: seq<Dir>, start: Dir, placed: Dir, goal: Option<Metadata>, c: Credential)
    requires AllOnTheWay(states, placed, goal) && placed.manifest == start.manifest && Named(start.manifest) != Some(c)
    requires forall f | f in start.files :: f in placed.files && placed.files[f] == start.files[f]
    ensures AllOnTheWay(states, start, goal)
  {
  }

  lemma AfterCommit(states: seq<Dir>, start: Dir, named: Dir, m: Metadata)
    requires AllOnTheWay(states, named, Some(m)) && named.manifest == Some(m) && KeepsNamed(named)
    ensures AllOnTheWay(states, start, Some(m))
  {
  }

  class Directory {
    var dir: Dir
    ghost var visited: seq<Dir>
    ghost var volatile: seq<Dir>

    ghost predicate Valid()
      reads this
    {
      volatile != [] && volatile[|volatile| - 1] == dir && forall d | d in volatile :: d in visited
    }

    /** Every state entered since `since` is on the way from `start` to `goal`. */
    ghost predicate Travels(since: nat, start: Dir, goal: Option<Metadata>)
      reads this
    {
      since <= |visited| && AllOnTheWay(visited[since..], start, goal)
    }

    /** The directory that a crash left, or one newly made. */
    constructor (d: Dir)
      ensures Valid() && dir == d && visited == [d] && volatile == [d]
    {
      dir, visited, volatile := d, [d], [d];
    }

    // ----- Operations of the file system

    method Enter(d: Dir)
      requires Valid()
      modifies this
      ensures Valid() && dir == d && visited == old(visited) + [d]
    {
      dir, visited, volatile := d, visited + [d], volatile + [d];
    }

    method Sync()
      requires Valid()
      modifies this`volatile
      ensures Valid() && volatile == [dir]
    {
      volatile := [dir];
    }

    /** Create a file and write it out; `complete` is whether the writing got to its end. */
    method Create(f: File, complete: bool)
      requires Valid()
      modifies this
      ensures Valid() && dir == old(dir).(files := old(dir).files[f := if complete then Whole else Partial])
      ensures visited ==
              old(visited) + [old(dir).(files := old(dir).files[f := Partial])] + (if complete then [dir] else [])
    {
      Enter(dir.(files := dir.files[f := Partial]));
      if complete { Enter(dir.(files := dir.files[f := Whole])); }
    }

    method Unlink(f: File)
      requires Valid()
      modifies this
      ensures Valid() && dir == old(dir).(files := old(dir).files - {f})
      ensures visited == old(visited) + [dir]
    {
      Enter(dir.(files := dir.files - {f}));
    }

    // ----- Removing artifacts: locks first, durably, then what they name

    method UnlinkAll(paths: seq<File>)
      requires Valid() && Recognized(dir)
      requires forall f | f in paths ::
                 f.LockFile? || f.TemporaryFile?
                   || (LockFile(f.credential) !in dir.files && Named(dir.manifest) != Some(f.credential))
      modifies this
      ensures Valid() && dir == old(dir).(files := old(dir).files - Elements(paths))
      ensures Recognized(dir) && |visited| >= |old(visited)| && visited[..|old(visited)|] == old(visited)
      ensures Travels(|old(visited)|, old(dir), old(dir).manifest)
    {
      ghost var start := dir;
      assert Elements(paths[..0]) == {};
      for i := 0 to |paths|
        invariant Valid() && dir == start.(files := start.files - Elements(paths[..i]))
        invariant Recognized(dir) && |visited| >= |old(visited)| && visited[..|old(visited)|] == old(visited)
        invariant Travels(|old(visited)|, start, start.manifest)
      {
        assert Elements(paths[..i + 1]) == Elements(paths[..i]) + {paths[i]};
        ghost var before := visited;
        Unlink(paths[i]);
        assert visited[|old(visited)|..] == before[|old(visited)|..] + [dir];
      }
      assert paths[..|paths|] == paths;
    }

    method RemoveArtifacts(paths: seq<File>)
      requires Valid() && Recognized(dir)
      requires forall c | CredentialFile(c) in paths ::
                 Named(dir.manifest) != Some(c) && (LockFile(c) in paths || LockFile(c) !in dir.files)
      modifies this
      ensures Valid() && dir == old(dir).(files := old(dir).files - Elements(paths))
      ensures Recognized(dir) && |visited| >= |old(visited)| && visited[..|old(visited)|] == old(visited)
      ensures Travels(|old(visited)|, old(dir), old(dir).manifest)
      ensures paths != [] || old(volatile == [dir]) ==> volatile == [dir]
    {
      ghost var start := dir;
      var locks, remaining := [], [];
      for i := 0 to |paths|
        invariant forall f :: f in locks <==> f in paths[..i] && f.LockFile?
        invariant forall f :: f in remaining <==> f in paths[..i] && !f.LockFile?
      {
        if paths[i].LockFile? { locks := locks + [paths[i]]; } else { remaining := remaining + [paths[i]]; }
      }
      assert Elements(locks) + Elements(remaining) == Elements(paths);
      assert paths != [] ==> paths[0] in locks || paths[0] in remaining;
      if locks != [] {
        UnlinkAll(locks);
        Sync();
      }
      ghost var middle, half := dir, visited;
      if remaining != [] {
        UnlinkAll(remaining);
        Sync();
      }
      assert visited[|old(visited)|..] == half[|old(visited)|..] + visited[|half|..];
      assert start.files - Elements(locks) - Elements(remaining) == start.files - Elements(paths);
    }

    // ----- Replacing the manifest

    /** Write the manifest aside, rename it into place, sync. `committed` tells whether the rename happened. */
    method WriteManifest(m: Metadata, token: Token, trouble: Trouble) returns (committed: bool, ok: bool)
      requires Valid() && Recognized(dir) && TemporaryFile(token) !in dir.files
      requires KeepsNamed(dir.(manifest := Some(m))) || (Named(Some(m)) == Named(dir.manifest) && !KeepsNamed(dir))
      modifies this
      ensures Valid() && committed == (trouble != ManifestUnwritten) && ok == (committed && trouble != ManifestUnsynced)
      ensures dir == if committed then old(dir).(manifest := Some(m)) else old(dir)
      ensures |visited| >= |old(visited)| && visited[..|old(visited)|] == old(visited)
      ensures Travels(|old(visited)|, old(dir), Some(m))
      ensures ok ==> volatile == [dir]
      ensures committed ==> |visited| > |old(visited)| && visited[|visited| - 1] == dir
    {
      var temporary := TemporaryFile(token);
      ghost var start := dir;
      if trouble == ManifestUnwritten {
        var complete: bool := *;
        Create(temporary, complete);
        Unlink(temporary);
        assert start.files[temporary := Partial] - {temporary} == start.files;
        assert start.files[temporary := Whole] - {temporary} == start.files;
        return false, false;
      }
      Create(temporary, true);
      assert start.files[temporary := Whole] - {temporary} == start.files;
      Enter(Dir(Some(m), dir.files - {temporary}));
      committed := true;
      if trouble == ManifestUnsynced { return true, false; }
      Sync();
      ok := true;
    }

    /** Write a new credential file; its provider may then put a lock beside it. */
    method PlaceCredential(c: Credential, complete: bool, locks: bool)
      requires Valid() && Recognized(dir) && CredentialFile(c) !in dir.files && Named(dir.manifest) != Some(c)
      modifies this
      ensures Valid() && Recognized(dir) && dir.manifest == old(dir).manifest
      ensures var files := old(dir).files[CredentialFile(c) := if complete then Whole else Partial];
              dir.files == if complete && locks then files[LockFile(c) := Whole] else files
      ensures |visited| >= |old(visited)| && visited[..|old(visited)|] == old(visited)
      ensures Travels(|old(visited)|, old(dir), old(dir).manifest)
    {
      Create(CredentialFile(c), complete);
      if complete && locks { Enter(dir.(files := dir.files[LockFile(c) := Whole])); }
    }

    /** Take back a credential that never came to be named. */
    method Abandon(c: Credential, ghost since: nat, ghost start: Dir, ghost goal: Option<Metadata>)
      requires Valid() && Recognized(dir) && CredentialFile(c) in dir.files && Named(dir.manifest) != Some(c)
      requires Travels(since, start, goal) && OnTheWay(dir, start, goal)
      modifies this
      ensures Valid() && dir == old(dir).(files := old(dir).files - {CredentialFile(c)})
              && visited == old(visited) + [dir]
      ensures Travels(since, start, goal) <==> LockFile(c) !in dir.files
    {
      Unlink(CredentialFile(c));
      assert visited[since..] == old(visited[since..]) + [dir];
      assert visited[since..][|visited| - 1 - since] == dir;
    }

    /**
     Put a new credential generation in place: the credential, then the manifest that names it, then
     the removal of the generation before. `locks` says whether the new provider left its lock file.
     */
    method Replace(m: Metadata, token: Token, locks: bool, trouble: Trouble) returns (ok: bool)
      requires Valid() && Recognized(dir) && TemporaryFile(token) !in dir.files
      requires m.credential.Some? && Named(dir.manifest) != m.credential
      requires CredentialFile(m.credential.value) !in dir.files && LockFile(m.credential.value) !in dir.files
      modifies this
      ensures Valid() && ok == (trouble == NoTrouble)
      ensures |visited| >= |old(visited)| && visited[..|old(visited)|] == old(visited)
      // The one way to leave what the loader accepts is to unlink a credential that its provider has locked.
      ensures Travels(|old(visited)|, old(dir), Some(m)) <==>
              !(locks && (trouble == ProviderRefuses || trouble == ManifestUnwritten))
      ensures ok ==> volatile == [dir] && dir.manifest == Some(m) && KeepsNamed(dir)
      ensures ok ==> dir.files == Successor(old(dir), m.credential.value, locks)
      ensures trouble == CredentialUnwritten ==> dir == old(dir)
      ensures !locks && (trouble == ProviderRefuses || trouble == ManifestUnwritten) ==> dir == old(dir)
    {
      var c, last := m.credential.value, Named(dir.manifest);
      ghost var start, since, goal := dir, |visited|, Some(m);
      PlaceCredential(c, trouble != CredentialUnwritten, locks);
      AnyGoal(visited[since..], start, goal);
      if trouble == CredentialUnwritten || trouble == ProviderRefuses {
        Abandon(c, since, start, goal);
        assert !locks || trouble == CredentialUnwritten ==> dir.files == start.files;
        return false;
      }
      ghost var placed, half := dir, visited;
      var committed;
      committed, ok := WriteManifest(m, token, trouble);
      assert visited[since..] == half[since..] + visited[|half|..];
      ThroughPlaced(visited[|half|..], start, placed, goal, c);
      if !committed {
        Abandon(c, since, start, goal);
        assert !locks ==> dir.files == start.files;
        return false;
      }
      if ok && last.Some? { RemovePrevious(last.value, m, since, start); }
    }

    /** Remove the generation that the manifest named before. */
    method RemovePrevious(last: Credential, ghost m: Metadata, ghost since: nat, ghost start: Dir)
      requires Valid() && Recognized(dir) && dir.manifest == Some(m) && KeepsNamed(dir)
               && Named(dir.manifest) != Some(last)
      requires Travels(since, start, Some(m))
      modifies this
      ensures Valid() && dir == old(dir).(files := old(dir).files - {LockFile(last), CredentialFile(last)})
              && volatile == [dir]
      ensures |visited| >= |old(visited)| && visited[..|old(visited)|] == old(visited)
      ensures Travels(since, start, Some(m)) && KeepsNamed(dir)
    {
      ghost var half, named := visited, dir;
      RemoveArtifacts([LockFile(last), CredentialFile(last)]);
      assert visited[since..] == half[since..] + visited[|half|..];
      AfterCommit(visited[|half|..], start, named, m);
      assert Elements([LockFile(last), CredentialFile(last)]) == {LockFile(last), CredentialFile(last)};
    }

    /** Commit the tombstone, then remove the credential it no longer names. */
    method Revoke(m: Metadata, token: Token, trouble: Trouble) returns (ok: bool)
      requires Valid() && Recognized(dir) && TemporaryFile(token) !in dir.files
      requires m.credential.None? && Named(dir.manifest).Some?
      modifies this
      ensures Valid() && ok == (trouble != ManifestUnwritten && trouble != ManifestUnsynced)
      ensures |visited| >= |old(visited)| && visited[..|old(visited)|] == old(visited)
      ensures Travels(|old(visited)|, old(dir), Some(m))
      ensures ok ==> volatile == [dir] && dir.manifest == Some(m)
      ensures ok ==> var c := Named(old(dir).manifest).value;
              dir.files == old(dir).files - {CredentialFile(c), LockFile(c)}
      ensures trouble == ManifestUnwritten ==> dir == old(dir)
      ensures trouble != ManifestUnwritten ==> old(dir).(manifest := Some(m)) in visited[|old(visited)|..]
    {
      var c := Named(dir.manifest).value;
      ghost var start := dir;
      var committed;
      committed, ok := WriteManifest(m, token, trouble);
      assert committed ==> visited[|old(visited)|..][|visited| - |old(visited)| - 1] == dir;
      if ok {
        ghost var half := visited;
        RemoveArtifacts([LockFile(c), CredentialFile(c)]);
        assert visited[|old(visited)|..] == half[|old(visited)|..] + visited[|half|..];
        assert Elements([LockFile(c), CredentialFile(c)]) == {CredentialFile(c), LockFile(c)};
      }
    }

    // ----- Restart

    /** Remove what the manifest does not need. `paths` lists the directory in some order. */
    method CleanupOrphans(paths: seq<File>)
      requires Valid() && Recognized(dir) && dir.manifest.Some? && Elements(paths) == dir.files.Keys
      modifies this
      ensures Valid() && Travels(|old(visited)|, old(dir), old(dir).manifest)
      ensures |visited| >= |old(visited)| && visited[..|old(visited)|] == old(visited)
      ensures dir ==
              old(dir).(files := map f | f in old(dir).files && !Removable(f, Named(old(dir).manifest)) ::
                          old(dir).files[f])
    {
      var keep := Named(dir.manifest);
      var removable := [];
      for i := 0 to |paths|
        invariant forall f :: f in removable <==> f in paths[..i] && Removable(f, keep)
      {
        var f := paths[i];
        var lockedCredential := if f.LockFile? then Some(f.credential) else None;
        if !(f.CredentialFile? && keep == Some(f.credential)) && lockedCredential != keep {
          removable := removable + [f];
        }
      }
      RemoveArtifacts(removable);
      assert forall f | f in old(dir).files :: f in removable <==> Removable(f, keep) by {
        assert forall f | f in old(dir).files :: f in Elements(paths);
      }
    }

    /** Empty a directory whose first enrollment was never committed. */
    method RecoverUncommitted(paths: seq<File>)
      requires Valid() && Recognized(dir) && dir.manifest.None? && Elements(paths) == dir.files.Keys
      modifies this
      ensures Valid() && dir == Dir(None, map[]) && Travels(|old(visited)|, old(dir), None)
      ensures |visited| >= |old(visited)| && visited[..|old(visited)|] == old(visited)
    {
      assert forall f | f in dir.files :: f in Elements(paths);
      RemoveArtifacts(paths);
      assert dir.files == map[];
    }
  }

  // ----- Main results

  /** What a restart leaves of an account directory. */
  function Cleaned(d: Dir): (d': Dir) {
    if d.manifest.None? then Dir(None, map[])
    else d.(files := map f | f in d.files && !Removable(f, Named(d.manifest)) :: d.files[f])
  }

  /**
   A crash at any step on the way, then a restart: exactly the record before or exactly the record
   after. An active record keeps its credential, with its lock if it has one, and nothing else.
   */
  lemma CrashSelectsOldOrNew(d: Dir, start: Dir, goal: Option<Metadata>)
    requires OnTheWay(d, start, goal)
    ensures Recognized(Cleaned(d))
    ensures Cleaned(d).manifest == start.manifest || Cleaned(d).manifest == goal
    ensures KeepsNamed(start) || Named(d.manifest) != Named(start.manifest) ==> KeepsNamed(Cleaned(d))
    ensures Named(d.manifest).Some? ==>
              var c := Named(d.manifest).value;
                forall f :: f in Cleaned(d).files <==> f in d.files && (f == CredentialFile(c) || f == LockFile(c))
    ensures forall f | f in Cleaned(d).files :: Cleaned(d).files[f] == d.files[f]
    ensures Cleaned(Cleaned(d)) == Cleaned(d)
  {
    if d.manifest.Some? {
      assert Cleaned(Cleaned(d)).files == Cleaned(d).files;
    }
  }

  /** Beside a tombstone the loader removes locks only: left-over credentials and temporary files stay. */
  lemma TombstoneKeepsLeftovers(d: Dir)
    requires d.manifest.Some? && Named(d.manifest).None?
    ensures forall f :: f in Cleaned(d).files <==> f in d.files && !f.LockFile?
  {
  }

  /**
   Every revocation that commits its tombstone passes through a state after which a restart keeps the
   revoked credential, for good.
   */
  method RevokedCredentialCanSurvive(d: Directory, m: Metadata, token: Token, trouble: Trouble) returns (ghost at: nat)
    requires d.Valid() && Recognized(d.dir) && TemporaryFile(token) !in d.dir.files
    requires m.credential.None? && Named(d.dir.manifest).Some? && KeepsNamed(d.dir) && trouble != ManifestUnwritten
    modifies d
    ensures |old(d.visited)| <= at < |d.visited| && d.visited[..|old(d.visited)|] == old(d.visited)
    ensures var crashed, c := d.visited[at], Named(old(d.dir).manifest).value;
            crashed.manifest == Some(m) && CredentialFile(c) in Cleaned(crashed).files
              && Cleaned(Cleaned(crashed)) == Cleaned(crashed)
  {
    ghost var start, before := d.dir, |d.visited|;
    var ok := d.Revoke(m, token, trouble);
    var crashed := start.(manifest := Some(m));
    assert crashed in d.visited[before..];
    at :| before <= at < |d.visited| && d.visited[at] == crashed;
    TombstoneKeepsLeftovers(crashed);
    assert Cleaned(Cleaned(crashed)).files == Cleaned(crashed).files;
  }
}
