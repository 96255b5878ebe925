/**
 The state manager: one `Ensure` run after another over the managed volumes. Any call can be cut off
 at any step, which is what a crash or a failing helper container does.
 */
module StateManager {
  import opened Wrappers
  import opened VolumeInventory
  import opened StateStore

  class DockerStore {
    const layout: Layout
    /** Whether every call gets to its end; otherwise any call can be cut off anywhere. */
    const steady: bool
    var world: World
    /** Every state the volumes have been in. */
    ghost var visited: seq<World>

    ghost predicate Valid()
      reads this
    {
      Path(layout, visited) && visited[|visited| - 1] == world
    }

    constructor (l: Layout, w: World, uncut: bool)
      requires Safe(l, w)
      ensures Valid() && layout == l && world == w && visited == [w] && steady == uncut
    {
      layout, world, visited, steady := l, w, [w], uncut;
    }

    method Enter(w: World)
      requires Valid() && Reached(layout, world, w)
      modifies this
      ensures Valid() && world == w && visited == old(visited) + [w]
    {
      ExtendPath(layout, visited, w);
      world, visited := w, visited + [w];
    }

    // ----- Private sources

    method InspectPrivateSource(name: string, size: nat) returns (state: SourceState)
      ensures state == Classify(SourceOf(world, name), size)
    {
      var s := if name in world.sources then world.sources[name] else EMPTY_SOURCE;
      if s.initialized == None && s.current == None { return Empty; }
      if IsReady(s, size) { return Ready; }
      if IsPublishing(s, size) { return Publishing; }
      state := Corrupt;
    }

    method AdvanceSource(name: string, s: Source)
      requires Valid() && name in layout.sizes
      requires Classify(s, layout.sizes[name]) != Corrupt && SourceKept(SourceOf(world, name), s, layout.sizes[name])
      modifies this
      ensures Valid() && visited == old(visited) + [world]
      ensures world == old(world).(sources := old(world).sources[name := s])
    {
      PathIsSafe(layout, visited, |visited| - 1);
      SourceChange(layout, world, name, s);
      Enter(world.(sources := world.sources[name := s]));
    }

    /** Carry out a script on a source; it can be cut off before any step. */
    method RunOnSource(name: string, steps: seq<Source>) returns (ok: bool)
      requires Valid() && name in layout.sizes && Publishes(SourceOf(world, name), steps, layout.sizes[name])
               && steps != []
      modifies this
      ensures Valid() && old(visited) <= visited && OnlySource(old(world), world, name)
      ensures ok ==> SourceOf(world, name) == steps[|steps| - 1]
      ensures steady ==> ok
    {
      ghost var start := world;
      for i := 0 to |steps|
        invariant Valid() && old(visited) <= visited
        invariant world == if i == 0 then start else start.(sources := start.sources[name := steps[i - 1]])
      {
        var cut: bool := *;
        if cut && !steady { return false; }
        assert SourceOf(world, name) == StepBefore(SourceOf(start, name), steps, i);
        AdvanceSource(name, steps[i]);
        assert world.sources == start.sources[name := steps[i]];
      }
      ok := true;
    }

    /** Publish a new value; a source that is not empty is refused. */
    method InitializePrivateSource(name: string, value: Bytes) returns (ok: bool)
      requires Valid() && name in layout.sizes
      modifies this
      ensures Valid() && old(visited) <= visited && OnlySource(old(world), world, name)
      ensures ok ==> && Classify(SourceOf(old(world), name), layout.sizes[name]).Empty?
                     && IsReady(SourceOf(world, name), layout.sizes[name])
                     && PublishedValue(SourceOf(world, name), layout.sizes[name]) == Some(value)
      ensures steady && ProperValue(value, layout.sizes[name]) ==>
                (Classify(SourceOf(old(world), name), layout.sizes[name]).Empty? ==> ok)
    {
      var size := layout.sizes[name];
      var s := if name in world.sources then world.sources[name] else EMPTY_SOURCE;
      if s.initialized.Some? || s.current.Some? { return false; }
      InitializingIsNeverCorrupt(s, value, size);
      ok := RunOnSource(name, InitializeSteps(s, value, size));
      ok := ok && Matches(Some(MarkerOf(value)), Some(value), size);
    }

    /** Finish a publication that was cut off. */
    method FinalizePrivateSource(name: string) returns (ok: bool)
      requires Valid() && name in layout.sizes
      modifies this
      ensures Valid() && old(visited) <= visited && OnlySource(old(world), world, name)
      ensures ok ==>
                IsPublishing(SourceOf(old(world), name), layout.sizes[name])
                  && IsReady(SourceOf(world, name), layout.sizes[name])
      ensures steady && IsPublishing(SourceOf(old(world), name), layout.sizes[name]) ==> ok
    {
      var s := if name in world.sources then world.sources[name] else EMPTY_SOURCE;
      if !IsPublishing(s, layout.sizes[name]) { return false; }
      FinalizingIsNeverCorrupt(s, layout.sizes[name]);
      ok := RunOnSource(name, FinalizeSteps(s));
    }

    // ----- Consumer copies

    method AdvanceCopy(name: string, c: CopyVolume)
      requires Valid() && c.current != Some(TornCopy)
      modifies this
      ensures Valid() && visited == old(visited) + [world]
      ensures world == old(world).(copies := old(world).copies[name := c])
    {
      PathIsSafe(layout, visited, |visited| - 1);
      CopyChange(layout, world, name, c);
      Enter(world.(copies := world.copies[name := c]));
    }

    method RunOnCopy(name: string, steps: seq<CopyVolume>) returns (ok: bool)
      requires Valid() && steps != [] && forall i | 0 <= i < |steps| :: steps[i].current != Some(TornCopy)
      modifies this
      ensures Valid() && old(visited) <= visited && OnlyCopy(old(world), world, name)
      ensures ok ==> CopyOf(world, name) == steps[|steps| - 1]
      ensures steady ==> ok
    {
      ghost var start := world;
      for i := 0 to |steps|
        invariant Valid() && old(visited) <= visited
        invariant world == if i == 0 then start else start.(copies := start.copies[name := steps[i - 1]])
      {
        var cut: bool := *;
        if cut && !steady { return false; }
        AdvanceCopy(name, steps[i]);
        assert world.copies == start.copies[name := steps[i]];
      }
      ok := true;
    }

    /** Give a consumer its own copy of a ready value. */
    method CopyPrivateFile(name: string, destination: string, uid: int, gid: int) returns (ok: bool)
      requires Valid() && name in layout.sizes
      modifies this
      ensures Valid() && old(visited) <= visited && OnlyCopy(old(world), world, destination)
      ensures ok ==> Served(layout, world, name, Consumer(destination, uid, gid))
      ensures steady && IsReady(SourceOf(old(world), name), layout.sizes[name]) ==> ok
    {
      var s := if name in world.sources then world.sources[name] else EMPTY_SOURCE;
      var c := if destination in world.copies then world.copies[destination] else EMPTY_COPY;
      if !IsReady(s, layout.sizes[name]) { return false; }
      var copy := Copy(s.current.value.value.value, uid, gid);
      CurrentCopyIsWhole(layout, visited, destination);
      var steps := CopySteps(c, copy);
      assert forall i | 0 <= i < |steps| :: steps[i].current != Some(TornCopy);
      ok := RunOnCopy(destination, steps);
    }

    // ----- The configuration volume

    method ReadVolumeInventory() returns (history: Option<History>)
      requires Valid()
      ensures history.Some? ==> FromHistory(layout.project, history.value) == RecordsOf(layout, world)
      ensures steady ==> history.Some?
    {
      SafeRecords(layout, visited);
      var cut: bool := *;
      if cut && !steady { return None; }
      if layout.configName !in world.existing { return Some(NoHistory); }
      var document := if world.config.current.Some? then world.config.current else world.config.previous;
      if document.None? { return Some(NoHistory); }
      if document.value.TornDocument? { return Some(Malformed); }
      history := Some(Recorded(document.value.inventory));
    }

    method AdvanceConfig(c: ConfigVolume, ghost records: Records)
      requires Valid() && layout.configName in world.existing && c.current != Some(TornDocument)
      requires RecordsOf(layout, world.(config := c)) == Some(records) && AllDeclared(layout.project, records)
      requires RecordsOf(layout, world).Some? && Keeps(RecordsOf(layout, world).value, records)
      modifies this
      ensures Valid() && visited == old(visited) + [world] && world == old(world).(config := c)
    {
      PathIsSafe(layout, visited, |visited| - 1);
      ghost var w := world.(config := c, existing := world.existing);
      assert w == world.(config := c);
      assert RecordsOf(layout, w) == Some(records);
      ConfigChange(layout, world, c, world.existing);
      Enter(world.(config := c));
    }

    /** Replace the configuration, in which the inventory records at least what was recorded before. */
    method ReplaceFiles(inventory: Inventory, ghost records: Records) returns (ok: bool)
      requires Valid() && layout.configName in world.existing && RecordsOf(layout, world).Some?
      requires FromHistory(layout.project, Recorded(inventory)) == Some(records) && AllDeclared(layout.project, records)
      requires Keeps(RecordsOf(layout, world).value, records)
      modifies this
      ensures Valid() && old(visited) <= visited && world == old(world).(config := world.config)
      ensures ok ==> RecordsOf(layout, world) == Some(records)
      ensures steady ==> ok
    {
      var steps := ReplaceSteps(world.config, Document(inventory));
      ghost var start := world;
      SafeRecords(layout, visited);
      ghost var before := RecordsOf(layout, start).value;
      for i := 0 to |steps|
        invariant Valid() && old(visited) <= visited
        invariant world == if i == 0 then start else start.(config := steps[i - 1])
        invariant RecordsOf(layout, world) == if i <= 6 then Some(before) else Some(records)
      {
        var cut: bool := *;
        if cut && !steady { return false; }
        RecordsAcrossReplacement(layout, start, inventory, i);
        assert world.(config := steps[i]) == start.(config := steps[i]);
        AdvanceConfig(steps[i], if i < 6 then before else records);
      }
      ok := true;
    }

    /** Create the volumes that are missing; only recorded volumes, or the configuration volume, may be created. */
    method EnsureVolumes(names: seq<string>) returns (ok: bool)
      requires Valid() && RecordsOf(layout, world).Some?
      requires forall n | n in names :: n == layout.configName || n in RecordsOf(layout, world).value
      modifies this
      ensures Valid() && old(visited) <= visited && world == old(world).(existing := world.existing)
      ensures old(world).existing <= world.existing && RecordsOf(layout, world) == RecordsOf(layout, old(world))
      ensures ok ==> forall n | n in names :: n in world.existing
      ensures steady ==> ok
    {
      ghost var start := world;
      for i := 0 to |names|
        invariant Valid() && old(visited) <= visited && world == start.(existing := world.existing)
        invariant RecordsOf(layout, world) == RecordsOf(layout, start) && start.existing <= world.existing
        invariant forall n | n in names[..i] :: n in world.existing
      {
        var cut: bool := *;
        if cut && !steady { return false; }
        assert names[..i + 1] == names[..i] + [names[i]];
        if names[i] !in world.existing { CreateVolume(names[i]); }
      }
      assert names[..|names|] == names;
      ok := true;
    }

    method CreateVolume(name: string)
      requires Valid() && RecordsOf(layout, world).Some?
      requires name == layout.configName || name in RecordsOf(layout, world).value
      modifies this
      ensures Valid() && visited == old(visited) + [world]
      ensures world == old(world).(existing := old(world).existing + {name})
              && RecordsOf(layout, world) == RecordsOf(layout, old(world))
    {
      PathIsSafe(layout, visited, |visited| - 1);
      CreationReaches(layout, world, name);
      Enter(world.(existing := world.existing + {name}));
    }
  }

  /** A generated value of the size its source is for. */
  predicate ProperValue(value: Bytes, size: nat) {
    ValidSize(size) && |value| == size
  }

  datatype Consumer = Consumer(volume: string, uid: int, gid: int)

  /** A consumer holds the value its source has made public, in a file it owns. */
  predicate Served(l: Layout, w: World, source: string, consumer: Consumer) {
    && source in l.sizes && IsReady(SourceOf(w, source), l.sizes[source])
    && CopyOf(w, consumer.volume).current ==
         Some(Copy(PublishedValue(SourceOf(w, source), l.sizes[source]).value, consumer.uid, consumer.gid))
  }

  /** Later states leave a served consumer alone unless its own copy is rewritten. */
  lemma StillServed(l: Layout, w: World, w': World, source: string, consumer: Consumer)
    requires Served(l, w, source, consumer) && Extends(l, w, w')
             && CopyOf(w', consumer.volume) == CopyOf(w, consumer.volume)
    ensures Served(l, w', source, consumer)
  {
    assert SourceKeptAt(l, w, w', source);
  }

  // ----- One run

  datatype Generated = Generated(source: string, consumers: seq<Consumer>)

  datatype Plan = Plan(volumes: seq<Volume>, generated: seq<Generated>)

  datatype Outcome = Completed | CutOff | InventoryInvalid | CorruptSource

  /** What a prepared plan guarantees: declared volumes, known sizes, and a volume of its own for every consumer. */
  ghost predicate PlanFor(l: Layout, plan: Plan) {
    && (forall v | v in plan.volumes :: Declared(l.project, v))
    && l.configName in NamesOf(plan.volumes)
    && (forall i | 0 <= i < |plan.generated| :: plan.generated[i].source in l.sizes)
    && forall i, k, j, m | 0 <= i < |plan.generated| && 0 <= k < |plan.generated[i].consumers|
                           && 0 <= j < |plan.generated| && 0 <= m < |plan.generated[j].consumers|
                           && plan.generated[i].consumers[k].volume == plan.generated[j].consumers[m].volume ::
                                i == j && k == m
  }

  function VolumeNames(volumes: seq<Volume>): (names: seq<string>) {
    seq(|volumes|, i requires 0 <= i < |volumes| => volumes[i].name)
  }

  /** No history of runs and crashes leads to a source that is found corrupt. */
  method InspectOne(store: DockerStore, name: string) returns (state: SourceState)
    requires store.Valid() && name in store.layout.sizes
    ensures state == Classify(SourceOf(store.world, name), store.layout.sizes[name]) && state != Corrupt
  {
    state := store.InspectPrivateSource(name, store.layout.sizes[name]);
    SafeSource(store.layout, store.visited, name);
  }

  /** What is known of the sources is what they are. */
  ghost predicate Accurate(l: Layout, w: World, states: map<string, SourceState>) {
    forall n | n in states :: n in l.sizes && states[n] == Classify(SourceOf(w, n), l.sizes[n])
  }

  lemma AccurateStill(l: Layout, w: World, w': World, states: map<string, SourceState>)
    requires Accurate(l, w, states) && w'.sources == w.sources
    ensures Accurate(l, w', states)
  {
  }

  lemma AccurateMore(l: Layout, w: World, states: map<string, SourceState>, n: string, state: SourceState)
    requires Accurate(l, w, states) && n in l.sizes && state == Classify(SourceOf(w, n), l.sizes[n])
    ensures Accurate(l, w, states[n := state])
  {
  }

  lemma AccurateAfter(l: Layout, w: World, w': World, states: map<string, SourceState>, n: string, state: SourceState)
    requires Accurate(l, w, states) && OnlySource(w, w', n) && n in l.sizes
             && state == Classify(SourceOf(w', n), l.sizes[n])
    ensures Accurate(l, w', states[n := state])
  {
    forall m | m in states && m != n ensures SourceOf(w', m) == SourceOf(w, m) {}
  }

  /** Classify the sources not looked at yet; sources of missing volumes are skipped on the first pass. */
  method InspectSources(store: DockerStore, generated: seq<Generated>, known: map<string, SourceState>,
                        skipMissing: bool)
    returns (ok: bool, states: map<string, SourceState>)
    requires store.Valid() && forall i | 0 <= i < |generated| :: generated[i].source in store.layout.sizes
    requires Accurate(store.layout, store.world, known)
    ensures ok && known.Keys <= states.Keys && Accurate(store.layout, store.world, states)
    ensures !skipMissing ==> forall i | 0 <= i < |generated| :: generated[i].source in states
  {
    states := known;
    for i := 0 to |generated|
      invariant known.Keys <= states.Keys && Accurate(store.layout, store.world, states)
      invariant !skipMissing ==> forall k | 0 <= k < i :: generated[k].source in states
    {
      var name := generated[i].source;
      if (skipMissing && name !in store.world.existing) || (!skipMissing && name in states) { continue; }
      var state := InspectOne(store, name);
      if state == Corrupt { return false, states; }
      AccurateMore(store.layout, store.world, states, name, state);
      states := states[name := state];
    }
    ok := true;
  }

  method FinalizeSources(store: DockerStore, generated: seq<Generated>, known: map<string, SourceState>)
    returns (ok: bool, states: map<string, SourceState>)
    requires store.Valid() && forall i | 0 <= i < |generated| ::
               generated[i].source in store.layout.sizes && generated[i].source in known
    requires Accurate(store.layout, store.world, known)
    modifies store
    ensures store.Valid() && old(store.visited) <= store.visited && states.Keys == known.Keys
    ensures store.world == old(store.world).(sources := store.world.sources)
    ensures ok ==> Accurate(store.layout, store.world, states)
    ensures ok ==>
              forall i | 0 <= i < |generated| ::
                  generated[i].source in states && states[generated[i].source] != Publishing
    ensures store.steady ==> ok
  {
    states := known;
    for i := 0 to |generated|
      invariant store.Valid() && old(store.visited) <= store.visited && states.Keys == known.Keys
      invariant store.world == old(store.world).(sources := store.world.sources)
      invariant Accurate(store.layout, store.world, states)
      invariant forall k | 0 <= k < i :: states[generated[k].source] != Publishing
    {
      var name := generated[i].source;
      if states[name] == Publishing {
        ghost var before := store.world;
        ok := store.FinalizePrivateSource(name);
        if !ok { return; }
        AccurateAfter(store.layout, before, store.world, states, name, Ready);
        states := states[name := Ready];
      }
    }
    ok := true;
  }

  ghost predicate ServedUpTo(l: Layout, w: World, g: Generated, k: nat)
    requires k <= |g.consumers|
  {
    forall m | 0 <= m < k :: Served(l, w, g.source, g.consumers[m])
  }

  ghost predicate AllServed(l: Layout, w: World, generated: seq<Generated>, i: nat)
    requires i <= |generated|
  {
    forall j | 0 <= j < i :: ServedUpTo(l, w, generated[j], |generated[j].consumers|)
  }

  /** Copy one ready value to all its consumers, without disturbing what others were given. */
  method CopyToConsumers(store: DockerStore, ghost plan: Plan, ghost i: nat, g: Generated) returns (ok: bool)
    requires store.Valid() && PlanFor(store.layout, plan) && i < |plan.generated| && plan.generated[i] == g
    requires AllServed(store.layout, store.world, plan.generated, i)
    modifies store
    ensures store.Valid() && old(store.visited) <= store.visited
    ensures store.world == old(store.world).(copies := store.world.copies)
    ensures ok ==> AllServed(store.layout, store.world, plan.generated, i + 1)
    ensures store.steady && IsReady(SourceOf(old(store.world), g.source), store.layout.sizes[g.source]) ==> ok
  {
    for k := 0 to |g.consumers|
      invariant store.Valid() && old(store.visited) <= store.visited
      invariant store.world == old(store.world).(copies := store.world.copies)
      invariant AllServed(store.layout, store.world, plan.generated, i) && ServedUpTo(store.layout, store.world, g, k)
    {
      var c := g.consumers[k];
      ghost var before := store.world;
      ok := store.CopyPrivateFile(g.source, c.volume, c.uid, c.gid);
      if !ok { return; }
      ServedAfterCopy(store.layout, before, store.world, plan, i, k);
    }
    ok := true;
  }

  /** A copy to the next consumer leaves those served before it alone. */
  lemma ServedAfterCopy(l: Layout, w: World, w': World, plan: Plan, i: nat, k: nat)
    requires PlanFor(l, plan) && i < |plan.generated| && k < |plan.generated[i].consumers|
    requires AllServed(l, w, plan.generated, i) && ServedUpTo(l, w, plan.generated[i], k)
    requires OnlyCopy(w, w', plan.generated[i].consumers[k].volume)
    ensures AllServed(l, w', plan.generated, i) && ServedUpTo(l, w', plan.generated[i], k)
  {
    var volume := plan.generated[i].consumers[k].volume;
    forall j | 0 <= j < i ensures ServedUpTo(l, w', plan.generated[j], |plan.generated[j].consumers|) {
      assert ServedUpTo(l, w, plan.generated[j], |plan.generated[j].consumers|);
      CopiedElsewhere(l, w, w', plan.generated[j], |plan.generated[j].consumers|, volume);
    }
    CopiedElsewhere(l, w, w', plan.generated[i], k, volume);
  }

  lemma CopiedElsewhere(l: Layout, w: World, w': World, g: Generated, k: nat, volume: string)
    requires k <= |g.consumers| && ServedUpTo(l, w, g, k) && OnlyCopy(w, w', volume)
    requires forall m | 0 <= m < k :: g.consumers[m].volume != volume
    ensures ServedUpTo(l, w', g, k)
  {
    forall m | 0 <= m < k ensures Served(l, w', g.source, g.consumers[m]) {
      assert Served(l, w, g.source, g.consumers[m]);
      assert SourceOf(w', g.source) == SourceOf(w, g.source);
      assert CopyOf(w', g.consumers[m].volume) == CopyOf(w, g.consumers[m].volume);
    }
  }

  lemma PublishedElsewhere(l: Layout, states: seq<World>, i: nat, plan: Plan, n: nat)
    requires Path(l, states) && i < |states| && n <= |plan.generated|
    requires AllServed(l, states[i], plan.generated, n) && states[|states| - 1].copies == states[i].copies
    ensures AllServed(l, states[|states| - 1], plan.generated, n)
  {
    LaterExtendsEarlier(l, states, i, |states| - 1);
    var w, w' := states[i], states[|states| - 1];
    forall j | 0 <= j < n ensures ServedUpTo(l, w', plan.generated[j], |plan.generated[j].consumers|) {
      var g := plan.generated[j];
      assert ServedUpTo(l, w, g, |g.consumers|);
      forall m | 0 <= m < |g.consumers| ensures Served(l, w', g.source, g.consumers[m]) {
        StillServed(l, w, w', g.source, g.consumers[m]);
      }
    }
  }

  method PublishOne(store: DockerStore, ghost plan: Plan, ghost i: nat, source: string, value: Bytes) returns (ok: bool)
    requires store.Valid() && source in store.layout.sizes && i <= |plan.generated|
    requires AllServed(store.layout, store.world, plan.generated, i)
    modifies store
    ensures store.Valid() && old(store.visited) <= store.visited
    ensures OnlySource(old(store.world), store.world, source)
    ensures AllServed(store.layout, store.world, plan.generated, i)
    ensures ok ==> IsReady(SourceOf(store.world, source), store.layout.sizes[source])
    ensures store.steady && ProperValue(value, store.layout.sizes[source]) ==>
              (Classify(SourceOf(old(store.world), source), store.layout.sizes[source]).Empty? ==> ok)
  {
    ghost var since := |store.visited| - 1;
    ok := store.InitializePrivateSource(source, value);
    PublishedElsewhere(store.layout, store.visited, since, plan, i);
  }

  /** Every source has a volume of its own, and every value drawn for one has its size. */
  ghost predicate ProperDraws(l: Layout, generated: seq<Generated>, draws: seq<Bytes>) {
    && |draws| == |generated|
    && (forall i, j | 0 <= i < j < |generated| :: generated[i].source != generated[j].source)
    && (forall i | 0 <= i < |generated| ::
          generated[i].source in l.sizes && ProperValue(draws[i], l.sizes[generated[i].source]))
  }

  /** The sources from `i` on are still what was found. */
  ghost predicate StillAsFound(l: Layout, w: World, generated: seq<Generated>, i: nat, states: map<string,
                               SourceState>) {
    forall k | i <= k < |generated| ::
      && generated[k].source in states && generated[k].source in l.sizes
      && states[generated[k].source] == Classify(SourceOf(w, generated[k].source), l.sizes[generated[k].source])
      && states[generated[k].source] in {Empty, Ready}
  }

  lemma StillAfter(l: Layout, w: World, w': World, generated: seq<Generated>, i: nat, states: map<string, SourceState>)
    requires i < |generated| && StillAsFound(l, w, generated, i, states) && OnlySource(w, w', generated[i].source)
    requires forall j, k | 0 <= j < k < |generated| :: generated[j].source != generated[k].source
    ensures StillAsFound(l, w', generated, i + 1, states)
  {
    forall k | i < k < |generated| ensures SourceOf(w', generated[k].source) == SourceOf(w, generated[k].source) {}
  }

  method GenerateAndCopy(store: DockerStore, plan: Plan, states: map<string, SourceState>, draws: seq<Bytes>)
    returns (ok: bool)
    requires store.Valid() && PlanFor(store.layout, plan) && |draws| == |plan.generated|
    requires forall i | 0 <= i < |plan.generated| :: plan.generated[i].source in states
    modifies store
    ensures store.Valid() && old(store.visited) <= store.visited
    ensures store.world == old(store.world).(sources := store.world.sources, copies := store.world.copies)
    ensures ok ==> AllServed(store.layout, store.world, plan.generated, |plan.generated|)
    ensures store.steady && ProperDraws(store.layout, plan.generated, draws) ==>
              (StillAsFound(store.layout, old(store.world), plan.generated, 0, states) ==> ok)
  {
    ghost var proper := store.steady && ProperDraws(store.layout, plan.generated, draws)
                        && StillAsFound(store.layout, store.world, plan.generated, 0, states);
    for i := 0 to |plan.generated|
      invariant store.Valid() && old(store.visited) <= store.visited
      invariant store.world == old(store.world).(sources := store.world.sources, copies := store.world.copies)
      invariant AllServed(store.layout, store.world, plan.generated, i)
      invariant proper ==> StillAsFound(store.layout, store.world, plan.generated, i, states)
    {
      ok := GenerateOne(store, plan, i, states[plan.generated[i].source], draws[i], states, draws, proper);
      if !ok { return; }
    }
    ok := true;
  }

  /** Generate one value if its source is empty, and copy it to its consumers. */
  method GenerateOne(store: DockerStore, plan: Plan, i: nat, state: SourceState, value: Bytes,
                     ghost states: map<string, SourceState>, ghost draws: seq<Bytes>, ghost proper: bool)
                       returns (ok: bool)
    requires store.Valid() && PlanFor(store.layout, plan) && i < |plan.generated| == |draws| && value == draws[i]
    requires plan.generated[i].source in states && states[plan.generated[i].source] == state
    requires AllServed(store.layout, store.world, plan.generated, i)
    requires proper ==> store.steady && ProperDraws(store.layout, plan.generated, draws)
                        && StillAsFound(store.layout, store.world, plan.generated, i, states)
    modifies store
    ensures store.Valid() && old(store.visited) <= store.visited
    ensures store.world == old(store.world).(sources := store.world.sources, copies := store.world.copies)
    ensures ok ==> AllServed(store.layout, store.world, plan.generated, i + 1)
    ensures proper ==> ok && StillAsFound(store.layout, store.world, plan.generated, i + 1, states)
  {
    var g := plan.generated[i];
    ghost var before := store.world;
    if state == Empty {
      ok := PublishOne(store, plan, i, g.source, value);
      if !ok { return; }
    }
    ghost var half := store.world;
    ok := CopyToConsumers(store, plan, i, g);
    if proper { StillAfter(store.layout, before, half, plan.generated, i, states); }
  }

  lemma MergeKeeps(l: Layout, history: History, before: Records, plan: Plan)
    requires FromHistory(l.project, history) == Some(before) && AllDeclared(l.project, before)
    requires (forall v | v in plan.volumes :: Declared(l.project, v)) && Merged(l.project, history, plan.volumes).Some?
    ensures var r := Merged(l.project, history, plan.volumes).value;
            AllDeclared(l.project, r) && Keeps(before, r) && r.Keys == before.Keys + NamesOf(plan.volumes)
  {
    MergingOnlyAdds(l.project, before, plan.volumes);
  }

  lemma NamesAreListed(volumes: seq<Volume>)
    ensures forall n :: n in VolumeNames(volumes) <==> n in NamesOf(volumes)
  {
    var names := VolumeNames(volumes);
    forall n ensures n in names <==> n in NamesOf(volumes) {
      if n in names {
        var i :| 0 <= i < |names| && names[i] == n;
        assert volumes[i].name == n;
      }
      if n in NamesOf(volumes) {
        var i :| 0 <= i < |volumes| && volumes[i].name == n;
        assert names[i] == n;
      }
    }
  }

  /** Publish the inventory first, then create the volumes it records. */
  method PublishInventory(store: DockerStore, plan: Plan, list: seq<Volume>, ghost records: Records) returns (ok: bool)
    requires store.Valid() && PlanFor(store.layout, plan) && AllDeclared(store.layout.project, records)
    requires RecordsOf(store.layout, store.world).Some? && Keeps(RecordsOf(store.layout, store.world).value, records)
    requires FromHistory(store.layout.project, Recorded(Inventory(STATE_VERSION, store.layout.project, list))) ==
             Some(records)
    requires NamesOf(plan.volumes) <= records.Keys
    modifies store
    ensures store.Valid() && old(store.visited) <= store.visited
    ensures store.world == old(store.world).(config := store.world.config, existing := store.world.existing)
    ensures ok ==>
              RecordsOf(store.layout, store.world) == Some(records) && NamesOf(plan.volumes) <= store.world.existing
    ensures store.steady ==> ok
  {
    ok := store.EnsureVolumes([store.layout.configName]);
    if !ok { return; }
    assert store.layout.configName in [store.layout.configName];
    ok := store.ReplaceFiles(Inventory(STATE_VERSION, store.layout.project, list), records);
    if !ok { return; }
    NamesAreListed(plan.volumes);
    ok := store.EnsureVolumes(VolumeNames(plan.volumes));
  }

  /** The plan fits what is recorded: no label differs, and the names are not too many. */
  ghost predicate Mergeable(l: Layout, w: World, plan: Plan) {
    && RecordsOf(l, w).Some? && LabelsAgree(RecordsOf(l, w).value, plan.volumes)
    && |RecordsOf(l, w).value.Keys + NamesOf(plan.volumes)| <= MAX_RECORDS
  }

  lemma MergeSucceedsIff(l: Layout, w: World, history: History, plan: Plan)
    requires RecordsOf(l, w).Some? && FromHistory(l.project, history) == RecordsOf(l, w) && PlanFor(l, plan)
    requires AllDeclared(l.project, RecordsOf(l, w).value)
    ensures Merged(l.project, history, plan.volumes).Some? <==> Mergeable(l, w, plan)
  {
    var records := RecordsOf(l, w).value;
    MergingOnlyAdds(l.project, records, plan.volumes);
    MergingFailsOverLabels(l.project, records, plan.volumes);
    var all := AddCurrent(l.project, records, plan.volumes);
    if all.Some? {
      assert l.configName in all.value.Keys;
      assert |all.value| == |all.value.Keys|;
    }
  }

  /** Merge the plan into what is recorded; nothing is written yet. */
  method PlanInventory(store: DockerStore, plan: Plan)
    returns (outcome: Outcome, list: seq<Volume>, ghost records: Records)
    requires store.Valid() && PlanFor(store.layout, plan)
    ensures RecordsOf(store.layout, store.world).Some? && outcome != CorruptSource
            && (store.steady ==> outcome != CutOff)
    ensures outcome == InventoryInvalid ==> !Mergeable(store.layout, store.world, plan)
    ensures outcome == Completed ==> Mergeable(store.layout, store.world, plan)
    ensures outcome == Completed ==>
              && AllDeclared(store.layout.project, records)
                 && Keeps(RecordsOf(store.layout, store.world).value, records)
              && NamesOf(plan.volumes) <= records.Keys
              && FromHistory(store.layout.project, Recorded(Inventory(STATE_VERSION, store.layout.project, list))) ==
                 Some(records)
  {
    list, records := [], map[];
    var history := store.ReadVolumeInventory();
    SafeRecords(store.layout, store.visited);
    if history.None? { return CutOff, list, records; }
    MergeSucceedsIff(store.layout, store.world, history.value, plan);
    var inventory := MergeVolumeInventory(store.layout.project, history.value, plan.volumes);
    if inventory.None? { return InventoryInvalid, list, records; }
    list, records := inventory.value, Merged(store.layout.project, history.value, plan.volumes).value;
    MergeKeeps(store.layout, history.value, RecordsOf(store.layout, store.world).value, plan);
    WrittenIsAccepted(store.layout.project, records, list);
    outcome := Completed;
  }

  lemma FoundIsStill(l: Layout, states: seq<World>, generated: seq<Generated>, found: map<string, SourceState>)
    requires Path(l, states) && Accurate(l, states[|states| - 1], found)
    requires forall i | 0 <= i < |generated| :: generated[i].source in found && found[generated[i].source] != Publishing
    ensures StillAsFound(l, states[|states| - 1], generated, 0, found)
  {
    forall k | 0 <= k < |generated| ensures found[generated[k].source] in {Empty, Ready} {
      SafeSource(l, states, generated[k].source);
    }
  }

  /** Inspect the sources again, finish what was cut off, then generate and copy. */
  method ServeConsumers(store: DockerStore, plan: Plan, known: map<string, SourceState>, draws: seq<Bytes>)
    returns (ok: bool)
    requires store.Valid() && PlanFor(store.layout, plan) && |draws| == |plan.generated|
             && Accurate(store.layout, store.world, known)
    modifies store
    ensures store.Valid() && old(store.visited) <= store.visited
    ensures store.world == old(store.world).(sources := store.world.sources, copies := store.world.copies)
    ensures ok ==> AllServed(store.layout, store.world, plan.generated, |plan.generated|)
    ensures store.steady && ProperDraws(store.layout, plan.generated, draws) ==> ok
  {
    var inspected, states := InspectSources(store, plan.generated, known, false);
    ok, states := FinalizeSources(store, plan.generated, states);
    if !ok { return; }
    FoundIsStill(store.layout, store.visited, plan.generated, states);
    ok := GenerateAndCopy(store, plan, states, draws);
  }

  /** Publish the inventory, create the volumes, and serve the consumers. */
  method CarryOut(store: DockerStore, plan: Plan, list: seq<Volume>, ghost records: Records, states: map<string,
                  SourceState>, draws: seq<Bytes>)
    returns (ok: bool)
    requires store.Valid() && PlanFor(store.layout, plan) && AllDeclared(store.layout.project, records)
    requires RecordsOf(store.layout, store.world).Some? && Keeps(RecordsOf(store.layout, store.world).value, records)
    requires FromHistory(store.layout.project, Recorded(Inventory(STATE_VERSION, store.layout.project, list))) ==
             Some(records)
    requires NamesOf(plan.volumes) <= records.Keys
    requires |draws| == |plan.generated| && Accurate(store.layout, store.world, states)
    modifies store
    ensures store.Valid() && old(store.visited) <= store.visited
    ensures ok ==> AllServed(store.layout, store.world, plan.generated, |plan.generated|)
    ensures ok ==>
              NamesOf(plan.volumes) <= store.world.existing && RecordsOf(store.layout, store.world) == Some(records)
    ensures store.steady && ProperDraws(store.layout, plan.generated, draws) ==> ok
  {
    ok := PublishInventory(store, plan, list, records);
    if !ok { return; }
    AccurateStill(store.layout, old(store.world), store.world, states);
    ok := ServeConsumers(store, plan, states, draws);
  }

  /**
   One run. Wherever it stops, every state on the way keeps what was published, recorded and created;
   it never finds a corrupt source; and when it completes, every consumer holds its source's value. A run
   that is not cut off completes exactly when the plan can be merged.
   */
  method Ensure(store: DockerStore, plan: Plan, draws: seq<Bytes>) returns (outcome: Outcome)
    requires store.Valid() && PlanFor(store.layout, plan) && |draws| == |plan.generated|
    modifies store
    ensures store.Valid() && old(store.visited) <= store.visited
    ensures outcome != CorruptSource
    ensures outcome == InventoryInvalid ==>
              store.visited == old(store.visited) && !Mergeable(store.layout, old(store.world), plan)
    ensures outcome == Completed ==> Mergeable(store.layout, old(store.world), plan)
    ensures store.steady && ProperDraws(store.layout, plan.generated, draws) ==>
              outcome == if Mergeable(store.layout, old(store.world), plan) then Completed else InventoryInvalid
    ensures outcome == Completed ==>
              && AllServed(store.layout, store.world, plan.generated, |plan.generated|)
              && NamesOf(plan.volumes) <= store.world.existing
              && RecordsOf(store.layout, store.world).Some?
              && NamesOf(plan.volumes) <= RecordsOf(store.layout, store.world).value.Keys
  {
    var planned, list, records := PlanInventory(store, plan);
    if planned != Completed { return planned; }
    var ok, states := InspectSources(store, plan.generated, map[], true);
    if !ok { return CorruptSource; }
    ok := CarryOut(store, plan, list, records, states, draws);
    outcome := if ok then Completed else CutOff;
  }

  /** Any number of runs, each with a plan of its own and each possibly cut off. */
  method EnsureRepeatedly(l: Layout, w: World, uncut: bool, plans: seq<Plan>, draws: seq<seq<Bytes>>)
    returns (store: DockerStore)
    requires Safe(l, w) && |draws| == |plans|
    requires forall k | 0 <= k < |plans| :: PlanFor(l, plans[k]) && |draws[k]| == |plans[k].generated|
    ensures store.Valid() && store.layout == l && store.visited[0] == w && fresh(store)
  {
    store := new DockerStore(l, w, uncut);
    for k := 0 to |plans|
      invariant store.Valid() && store.layout == l && store.visited[0] == w && fresh(store)
    {
      var outcome := Ensure(store, plans[k], draws[k]);
      assert outcome != CorruptSource;
    }
  }
}
