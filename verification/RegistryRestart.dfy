/**
 What a restart finds, and the two families of runs after which it leaves the registry
 unavailable.
 */
module RegistryRestart {
  import opened Wrappers
  import opened AccountRecord
  import opened Registry
  import opened AccountLines
  import opened RegistryRuns
  import opened RegistrySafety

  /**
   Starting a manager again after any run, in whatever state the last one was and under any
   configuration, brings back exactly the manifests on disk; it comes up healthy if and only if the
   directories fit the capacity, the configuration knows what the manifests name and no manifest is
   stranded.
   */
  lemma RestartIsHealthyIff(worlds: seq<World>, events: seq<Event>, i: nat, c: Config, survived: bool, s': Registry,
                            accepting: set<Token>)
    requires Run(worlds, events) && i < |worlds|
    requires Loads(c, Settle(worlds[i].registry.disk, survived), s', accepting)
    ensures var d := Settle(worlds[i].registry.disk, survived);
            && (s'.healthy <==>
                |d.directories| <= c.maxAccounts && Suits(c, Manifests(d)) && NoneStranded(Manifests(d)))
            && (s'.healthy ==> s'.accounts == Manifests(d))
            && (s'.healthy && worlds[i].registry.healthy ==> s'.accounts == worlds[i].registry.accounts)
  {
    RunKeepsInv(worlds, events, i);
    SoundLoads(worlds[i], c, survived);
    if worlds[i].registry.healthy {
      var d := worlds[i].registry.disk;
      assert Settle(d, survived) == d;
    }
  }

  /** Under the configuration of a healthy manager, only capacity and stranded manifests matter. */
  lemma SameConfigSuits(worlds: seq<World>, events: seq<Event>, i: nat, survived: bool)
    requires Run(worlds, events) && i < |worlds|
    requires worlds[i].registry.healthy || worlds[i].registry.disk.unsettled.Some?
    ensures Suits(worlds[i].registry.config, Manifests(Settle(worlds[i].registry.disk, survived)))
  {
    RunKeepsInv(worlds, events, i);
  }

  ghost predicate NoneStranded(accounts: map<Owner, Metadata>) {
    forall id | id in accounts :: !Stranded(accounts[id])
  }

  lemma SoundLoads(w: World, c: Config, survived: bool)
    requires Core(w)
    ensures var accounts := Manifests(Settle(w.registry.disk, survived));
            Loadable(c, accounts) <==> Suits(c, accounts) && NoneStranded(accounts)
  {
    var d := Settle(w.registry.disk, survived);
    var accounts := Manifests(d);
    assert Sound(d, w.clock, w.issued);
    forall id | id in accounts ensures ValidMetadata(accounts[id], id) <==> !Stranded(accounts[id]) {
      assert LineSound(d.lines[id], id, w.clock, w.issued);
      LineValidUnlessStranded(d.lines[id], |d.lines[id]| - 1);
    }
  }

  // ----- Replacing the credential of a tombstone under a switch reservation

  /** Enrolling again while a switch reservation is held, live or expired, strands the account. */
  lemma EnrollUnderSwitchStrands(s: Registry, caller: Caller, template: string, operation: string, now: int,
                                 draws: seq<Token>, file: Token, fault: Fault)
    requires caller.owner in s.accounts && HoldsSwitch(s.accounts[caller.owner])
    ensures var o := Enroll(s, caller, template, operation, now, draws, file, fault);
            o.reply.Done? && o.registry != s ==>
              && caller.owner in o.registry.accounts
              && Stranded(o.registry.accounts[caller.owner])
              && !ValidMetadata(o.registry.accounts[caller.owner], caller.owner)
  {
  }

  const EXAMPLE_CONFIG := Config({"t"}, true, 10, 60, 300, {})
  const EXAMPLE_OWNER := Owner("i", "s")
  const EXAMPLE_CALLER := Caller(EXAMPLE_OWNER, Some(1000))

  function StartedEmpty(c: Config): (s: Registry) {
    Registry(c, map[], map[], map[], {}, true, Disk({}, map[], None))
  }

  lemma StartedEmptyLoads(c: Config)
    ensures Loads(c, Disk({}, map[], None), StartedEmpty(c), {})
  {
    assert Manifests(Disk({}, map[], None)) == map[];
  }

  function EnrollAt(s: Registry, operation: string, now: int, drawn: Token): (s': Registry) {
    Enroll(s, EXAMPLE_CALLER, "t", operation, now, [drawn], 0, Committing(Synced)).registry
  }

  /** The registry holds one account and nothing is under way. */
  ghost predicate OneAccount(s: Registry, m: Metadata) {
    && s.healthy && s.config == EXAMPLE_CONFIG && s.disk.unsettled.None? && s.disk.directories == {EXAMPLE_OWNER}
    && s.accounts == map[EXAMPLE_OWNER := m] && m.owner == EXAMPLE_OWNER && m.template == "t" && m.provider == 1
    && m.switchRequest.None? && m.reservation.None? && !m.authorized && m.authorization.None?
    && s.pending == map[] && s.authorized == map[]
  }

  lemma FirstEnrolled(s0: Registry) returns (s1: Registry, m1: Metadata)
    requires s0 == StartedEmpty(EXAMPLE_CONFIG)
    ensures s1 == EnrollAt(s0, "a", 1, 1) && OneAccount(s1, m1) && m1.state.Active? && s1.providers == {1}
    ensures m1.operations == [Operation("a", Enrolling, 1, Ready("t", 1))]
  {
    s1 := EnrollAt(s0, "a", 1, 1);
    assert NewProviderId(s0, [1]) == Some(1);
    m1 := s1.accounts[EXAMPLE_OWNER];
    assert s1.accounts == map[EXAMPLE_OWNER := m1];
  }

  lemma ThenRevoked(s1: Registry, m1: Metadata) returns (s2: Registry, m2: Metadata)
    requires OneAccount(s1, m1) && m1.state.Active? && s1.providers == {1}
             && m1.operations == [Operation("a", Enrolling, 1, Ready("t", 1))]
    ensures s2 == Revoke(s1, EXAMPLE_OWNER, "b", 2, Synced).registry && OneAccount(s2, m2) && m2.state.Revoked?
            && s2.providers == {}
    ensures m2.operations == [Operation("a", Enrolling, 1, Ready("t", 1)), Operation("b", Revoking, 1, Withdrawn)]
  {
    s2 := Revoke(s1, EXAMPLE_OWNER, "b", 2, Synced).registry;
    assert !Logged(m1.operations, "b");
    m2 := Tombstone(m1, "b", 2);
    assert s2.accounts == map[EXAMPLE_OWNER := m2];
  }

  lemma ThenHeld(s2: Registry, m2: Metadata) returns (s3: Registry, s4: Registry)
    requires OneAccount(s2, m2) && m2.state.Revoked? && s2.providers == {}
    requires m2.operations == [Operation("a", Enrolling, 1, Ready("t", 1)), Operation("b", Revoking, 1, Withdrawn)]
    ensures s3 == RequestSwitch(s2, EXAMPLE_CALLER, "c", 3, 9, Synced).registry
    ensures s4 == BeginSwitch(s3, 9, "d", 4, Synced, Synced).registry
    ensures s4.healthy && s4.config == EXAMPLE_CONFIG && s4.disk.unsettled.None? && s4.providers == {}
    ensures s4.accounts.Keys == {EXAMPLE_OWNER} && s4.disk.directories == {EXAMPLE_OWNER}
    ensures var m := s4.accounts[EXAMPLE_OWNER];
            && m.owner == EXAMPLE_OWNER && m.state.Revoked? && m.template == "t" && m.provider == 1
            && HoldsSwitch(m) && !Logged(m.operations, "e")
  {
    s3 := RequestSwitch(s2, EXAMPLE_CALLER, "c", 3, 9, Synced).registry;
    assert s3.pending == map[9 := EXAMPLE_OWNER];
    s4 := BeginSwitch(s3, 9, "d", 4, Synced, Synced).registry;
  }

  /** Enrolled, revoked, a switch requested and its proof begun: a tombstone holding a switch reservation. */
  lemma TombstoneUnderSwitch(s0: Registry) returns (s1: Registry, s2: Registry, s3: Registry, s4: Registry)
    requires s0 == StartedEmpty(EXAMPLE_CONFIG)
    ensures s1 == EnrollAt(s0, "a", 1, 1)
    ensures s2 == Revoke(s1, EXAMPLE_OWNER, "b", 2, Synced).registry
    ensures s3 == RequestSwitch(s2, EXAMPLE_CALLER, "c", 3, 9, Synced).registry
    ensures s4 == BeginSwitch(s3, 9, "d", 4, Synced, Synced).registry
    ensures s4.healthy && s4.config == EXAMPLE_CONFIG && s4.disk.unsettled.None? && s4.providers == {}
    ensures s4.accounts.Keys == {EXAMPLE_OWNER} && s4.disk.directories == {EXAMPLE_OWNER}
    ensures var m := s4.accounts[EXAMPLE_OWNER];
            && m.owner == EXAMPLE_OWNER && m.state.Revoked? && m.template == "t" && m.provider == 1
            && HoldsSwitch(m) && !Logged(m.operations, "e")
  {
    var m1, m2;
    s1, m1 := FirstEnrolled(s0);
    s2, m2 := ThenRevoked(s1, m1);
    s3, s4 := ThenHeld(s2, m2);
  }

  lemma ExampleOperations()
    ensures Identifier("a") && Identifier("b") && Identifier("c") && Identifier("d") && Identifier("e")
    ensures KnownOwner(EXAMPLE_OWNER) && Name("t") && ValidConfig(EXAMPLE_CONFIG)
  {
  }

  // ----- Building runs step by step

  ghost predicate EndsIn(worlds: seq<World>, events: seq<Event>, w: World) {
    Run(worlds, events) && worlds[|worlds| - 1] == w
  }

  lemma Begin(c: Config) returns (worlds: seq<World>)
    requires ValidConfig(c)
    ensures EndsIn(worlds, [], World(StartedEmpty(c), 0, {}))
  {
    StartedEmptyLoads(c);
    worlds := [World(StartedEmpty(c), 0, {})];
  }

  lemma Extend(worlds: seq<World>, events: seq<Event>, w: World, e: Event, w': World)
    requires EndsIn(worlds, events, w) && Step(w, e, w')
    ensures EndsIn(worlds + [w'], events + [e], w')
  {
    var worlds', events' := worlds + [w'], events + [e];
    forall i | 0 <= i < |events'| ensures StepAt(worlds', events', i) {
      if i < |events| { assert StepAt(worlds, events, i); }
    }
  }

  lemma ExtendByCall(worlds: seq<World>, events: seq<Event>, w: World, e: Event, now: int)
    requires EndsIn(worlds, events, w) && !e.Restart? && !e.RequestSwitchCall? && Admissible(w, e) && w.clock <= now
    ensures var w' := World(Call(w.registry, e, now).registry, now, w.issued); EndsIn(worlds + [w'], events + [e], w')
  {
    assert w.issued + {} == w.issued;
    Extend(worlds, events, w, e, World(Call(w.registry, e, now).registry, now, w.issued));
  }

  lemma ExtendByRestart(worlds: seq<World>, events: seq<Event>, w: World, c: Config, s: Registry)
    requires EndsIn(worlds, events, w) && w.registry.disk.unsettled.None? && ValidConfig(c)
             && Loads(c, w.registry.disk, s, {})
    ensures EndsIn(worlds + [World(s, w.clock, w.issued)], events + [Restart(c, false, {})],
                   World(s, w.clock, w.issued))
  {
    assert Settle(w.registry.disk, false) == w.registry.disk;
    Extend(worlds, events, w, Restart(c, false, {}), World(s, w.clock, w.issued));
  }

  /** Enrolling again, under the same template, while the operator holds the switch reservation. */
  lemma EnrollOverSwitch(s4: Registry) returns (s5: Registry)
    requires s4.healthy && s4.config == EXAMPLE_CONFIG && s4.disk.unsettled.None? && s4.providers == {}
    requires s4.accounts.Keys == {EXAMPLE_OWNER} && s4.disk.directories == {EXAMPLE_OWNER}
    requires var m := s4.accounts[EXAMPLE_OWNER];
             && m.owner == EXAMPLE_OWNER && m.state.Revoked? && m.template == "t" && m.provider == 1
             && HoldsSwitch(m) && !Logged(m.operations, "e")
    ensures s5 == EnrollAt(s4, "e", 5, 2)
    ensures s5.healthy && s5.disk.unsettled.None? && s5.disk.directories == {EXAMPLE_OWNER}
    ensures var accounts := Manifests(s5.disk);
            EXAMPLE_OWNER in accounts && !ValidMetadata(accounts[EXAMPLE_OWNER], EXAMPLE_OWNER)
  {
    assert NewProviderId(s4, [2]) == Some(2);
    s5 := EnrollAt(s4, "e", 5, 2);
    EnrollUnderSwitchStrands(s4, EXAMPLE_CALLER, "t", "e", 5, [2], 0, Committing(Synced));
  }

  /** A disk with one manifest that fails the check loads as an unavailable registry, whatever else it holds. */
  lemma OneBadManifestStopsAll(c: Config, d: Disk, id: Owner) returns (s: Registry)
    requires id in Manifests(d) && !ValidMetadata(Manifests(d)[id], id)
    ensures Loads(c, d, s, {}) && !s.healthy && s.accounts == map[]
  {
    s := Registry(c, map[], map[], map[], {}, false, d.(unsettled := None));
  }

  const EXAMPLE_EVENTS: seq<Event> := [
    EnrollCall(EXAMPLE_CALLER, "t", "a", [1], 0, Committing(Synced)),
    RevokeCall(EXAMPLE_OWNER, "b", Synced),
    RequestSwitchCall(EXAMPLE_CALLER, "c", 9, Synced),
    BeginSwitchCall(9, "d", Synced, Synced),
    EnrollCall(EXAMPLE_CALLER, "t", "e", [2], 0, Committing(Synced))]

  lemma RunToEnrolled(s1: Registry) returns (worlds: seq<World>)
    requires s1 == EnrollAt(StartedEmpty(EXAMPLE_CONFIG), "a", 1, 1)
    ensures EndsIn(worlds, EXAMPLE_EVENTS[..1], World(s1, 1, {}))
  {
    ExampleOperations();
    worlds := Begin(EXAMPLE_CONFIG);
    ExtendByCall(worlds, [], World(StartedEmpty(EXAMPLE_CONFIG), 0, {}), EXAMPLE_EVENTS[0], 1);
    worlds := worlds + [World(s1, 1, {})];
    assert [] + [EXAMPLE_EVENTS[0]] == EXAMPLE_EVENTS[..1];
  }

  lemma RunToTombstone(worlds: seq<World>, s1: Registry, s2: Registry) returns (worlds': seq<World>)
    requires EndsIn(worlds, EXAMPLE_EVENTS[..1], World(s1, 1, {}))
    requires s2 == Revoke(s1, EXAMPLE_OWNER, "b", 2, Synced).registry
    ensures EndsIn(worlds', EXAMPLE_EVENTS[..2], World(s2, 2, {}))
  {
    ExampleOperations();
    ExtendByCall(worlds, EXAMPLE_EVENTS[..1], World(s1, 1, {}), EXAMPLE_EVENTS[1], 2);
    worlds' := worlds + [World(s2, 2, {})];
    assert EXAMPLE_EVENTS[..1] + [EXAMPLE_EVENTS[1]] == EXAMPLE_EVENTS[..2];
  }

  lemma RunToReservation(worlds: seq<World>, s2: Registry, s3: Registry, s4: Registry) returns (worlds': seq<World>)
    requires EndsIn(worlds, EXAMPLE_EVENTS[..2], World(s2, 2, {}))
    requires s3 == RequestSwitch(s2, EXAMPLE_CALLER, "c", 3, 9, Synced).registry
    requires s4 == BeginSwitch(s3, 9, "d", 4, Synced, Synced).registry
    ensures EndsIn(worlds', EXAMPLE_EVENTS[..4], World(s4, 4, {9}))
  {
    ExampleOperations();
    Extend(worlds, EXAMPLE_EVENTS[..2], World(s2, 2, {}), EXAMPLE_EVENTS[2], World(s3, 3, {9}));
    worlds' := worlds + [World(s3, 3, {9})];
    assert EXAMPLE_EVENTS[..2] + [EXAMPLE_EVENTS[2]] == EXAMPLE_EVENTS[..3];
    ExtendByCall(worlds', EXAMPLE_EVENTS[..3], World(s3, 3, {9}), EXAMPLE_EVENTS[3], 4);
    worlds' := worlds' + [World(s4, 4, {9})];
    assert EXAMPLE_EVENTS[..3] + [EXAMPLE_EVENTS[3]] == EXAMPLE_EVENTS[..4];
  }

  lemma RunToSwitch() returns (worlds: seq<World>, s5: Registry)
    ensures EndsIn(worlds, EXAMPLE_EVENTS, World(s5, 5, {9}))
    ensures s5.healthy && s5.disk.unsettled.None? && s5.disk.directories == {EXAMPLE_OWNER}
    ensures var accounts := Manifests(s5.disk);
            EXAMPLE_OWNER in accounts && !ValidMetadata(accounts[EXAMPLE_OWNER], EXAMPLE_OWNER)
  {
    var s1, s2, s3, s4 := TombstoneUnderSwitch(StartedEmpty(EXAMPLE_CONFIG));
    worlds := RunToEnrolled(s1);
    worlds := RunToTombstone(worlds, s1, s2);
    worlds := RunToReservation(worlds, s2, s3, s4);
    s5 := EnrollOverSwitch(s4);
    worlds := RunToEnrollment(worlds, s4, s5);
  }

  lemma RunToEnrollment(worlds: seq<World>, s4: Registry, s5: Registry) returns (worlds': seq<World>)
    requires EndsIn(worlds, EXAMPLE_EVENTS[..4], World(s4, 4, {9})) && s5 == EnrollAt(s4, "e", 5, 2)
    ensures EndsIn(worlds', EXAMPLE_EVENTS, World(s5, 5, {9}))
  {
    ExampleOperations();
    ExtendByCall(worlds, EXAMPLE_EVENTS[..4], World(s4, 4, {9}), EXAMPLE_EVENTS[4], 5);
    worlds' := worlds + [World(s5, 5, {9})];
    assert EXAMPLE_EVENTS[..4] + [EXAMPLE_EVENTS[4]] == EXAMPLE_EVENTS;
  }

  /**
   A run in which every write succeeds and which a restart ends with the registry unavailable:
   the owner enrolls again, under the same template, while the operator holds a switch reservation.
   */
  lemma SwitchOverwriteStopsRegistry() returns (worlds: seq<World>, events: seq<Event>)
    ensures Run(worlds, events) && events == EXAMPLE_EVENTS + [Restart(EXAMPLE_CONFIG, false, {})]
    ensures worlds[5].registry.healthy && |worlds[5].registry.disk.directories| == 1
    ensures !worlds[6].registry.healthy && worlds[6].registry.accounts == map[]
  {
    ExampleOperations();
    var s5;
    worlds, s5 := RunToSwitch();
    var s6 := OneBadManifestStopsAll(EXAMPLE_CONFIG, s5.disk, EXAMPLE_OWNER);
    ExtendByRestart(worlds, EXAMPLE_EVENTS, World(s5, 5, {9}), EXAMPLE_CONFIG, s6);
    worlds, events := worlds + [World(s6, 5, {9})], EXAMPLE_EVENTS + [Restart(EXAMPLE_CONFIG, false, {})];
  }

  // ----- Directories of enrollments that failed

  const SMALL_CONFIG := EXAMPLE_CONFIG.(maxAccounts := 1)
  const FAILING_CALLER := Caller(Owner("j", "s"), Some(1000))

  lemma TwoDirectories(s0: Registry) returns (s1: Registry, s2: Registry)
    requires s0 == StartedEmpty(SMALL_CONFIG)
    ensures s1 == Enroll(s0, FAILING_CALLER, "t", "a", 1, [1], 0, ProviderFails).registry
    ensures s2 == EnrollAt(s1, "b", 2, 1)
    ensures s1.healthy && s1.accounts == map[] && s2.healthy && |s2.accounts| == 1 && s2.config == SMALL_CONFIG
    ensures s2.disk.unsettled.None? && |s2.disk.directories| == 2
  {
    assert NewProviderId(s0, [1]) == Some(1);
    s1 := Enroll(s0, FAILING_CALLER, "t", "a", 1, [1], 0, ProviderFails).registry;
    assert NewProviderId(s1, [1]) == Some(1);
    s2 := EnrollAt(s1, "b", 2, 1);
    assert s2.accounts.Keys == {EXAMPLE_OWNER};
    assert s2.disk.directories == {FAILING_CALLER.owner, EXAMPLE_OWNER};
  }

  /**
   A run that never holds more than the one account allowed, and that a restart ends with the
   registry unavailable: a first enrollment that fails leaves its directory behind, and the
   loader counts directories.
   */
  lemma FailedEnrollmentStopsRegistry() returns (worlds: seq<World>, events: seq<Event>)
    ensures Run(worlds, events) && |events| == 3
    ensures events[2] == Restart(SMALL_CONFIG, false, {})
    ensures worlds[2].registry.healthy && |worlds[2].registry.accounts| == SMALL_CONFIG.maxAccounts
    ensures !worlds[3].registry.healthy
  {
    var s1, s2 := TwoDirectories(StartedEmpty(SMALL_CONFIG));
    worlds, events := RunToTwoDirectories(s1, s2);
    var s3 := CrowdedDiskStopsAll(SMALL_CONFIG, s2.disk);
    ExampleOperations();
    ExtendByRestart(worlds, events, World(s2, 2, {}), SMALL_CONFIG, s3);
    worlds, events := worlds + [World(s3, 2, {})], events + [Restart(SMALL_CONFIG, false, {})];
  }

  lemma CrowdedDiskStopsAll(c: Config, d: Disk) returns (s: Registry)
    requires |d.directories| > c.maxAccounts
    ensures Loads(c, d, s, {}) && !s.healthy && s.accounts == map[]
  {
    s := Registry(c, map[], map[], map[], {}, false, d.(unsettled := None));
  }

  lemma RunToTwoDirectories(s1: Registry, s2: Registry) returns (worlds: seq<World>, events: seq<Event>)
    requires s1 == Enroll(StartedEmpty(SMALL_CONFIG), FAILING_CALLER, "t", "a", 1, [1], 0, ProviderFails).registry
             && s2 == EnrollAt(s1, "b", 2, 1)
    ensures EndsIn(worlds, events, World(s2, 2, {})) && |events| == 2 && |worlds| == 3 && worlds[2] == World(s2, 2, {})
  {
    var e2 := EnrollCall(EXAMPLE_CALLER, "t", "b", [1], 0, Committing(Synced));
    ExampleOperations();
    worlds, events := RunToOneDirectory(s1);
    ExtendByCall(worlds, events, World(s1, 1, {}), e2, 2);
    worlds, events := worlds + [World(s2, 2, {})], events + [e2];
  }

  lemma RunToOneDirectory(s1: Registry) returns (worlds: seq<World>, events: seq<Event>)
    requires s1 == Enroll(StartedEmpty(SMALL_CONFIG), FAILING_CALLER, "t", "a", 1, [1], 0, ProviderFails).registry
    ensures EndsIn(worlds, events, World(s1, 1, {})) && |events| == 1 && |worlds| == 2
  {
    var e1 := EnrollCall(FAILING_CALLER, "t", "a", [1], 0, ProviderFails);
    ExampleOperations();
    worlds := Begin(SMALL_CONFIG);
    ExtendByCall(worlds, [], World(StartedEmpty(SMALL_CONFIG), 0, {}), e1, 1);
    worlds, events := worlds + [World(s1, 1, {})], [] + [e1];
  }
}
