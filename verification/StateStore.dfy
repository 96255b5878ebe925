/**
 The trusted-state volumes: the scripts that publish a generated private value, copy it to its
 consumers and replace the configuration volume, as rename and link protocols over small trees.
 */
module StateStore {
  import opened Wrappers
  import opened VolumeInventory

  type Bytes = seq<nat>

  /** The journal line of a value; digests are taken to be injective, so it names the value itself. */
  datatype Marker = MarkerOf(value: Bytes) | Garbled

  /** A directory tree that may have been left half written. */
  datatype Tree = Torn | Tree(marker: Option<Marker>, value: Option<Bytes>)

  /** A volume with a generated private value: `.initialized`, `current/` and `.next/`. */
  datatype Source = Source(initialized: Option<Marker>, current: Option<Tree>, next: Option<Tree>)

  const EMPTY_SOURCE := Source(None, None, None)

  datatype SourceState = Empty | Publishing | Ready | Corrupt

  predicate ValidSize(size: nat) {
    size == 32 || size == 43
  }

  predicate Matches(marker: Option<Marker>, value: Option<Bytes>, size: nat) {
    ValidSize(size) && marker.Some? && value.Some? && |value.value| == size && marker.value == MarkerOf(value.value)
  }

  predicate IsReady(s: Source, size: nat) {
    && s.initialized.Some? && s.current.Some? && s.current.value.Tree?
    && s.current.value.marker.None? && Matches(s.initialized, s.current.value.value, size)
  }

  predicate IsPublishing(s: Source, size: nat) {
    && s.current.Some? && s.current.value.Tree?
    && Matches(s.current.value.marker, s.current.value.value, size)
    && (s.initialized.Some? ==> Matches(s.initialized, s.current.value.value, size))
  }

  function Classify(s: Source, size: nat): (state: SourceState) {
    if s.initialized.None? && s.current.None? then Empty
    else if IsReady(s, size) then Ready
    else if IsPublishing(s, size) then Publishing
    else Corrupt
  }

  /** The value a source has made public, for good. */
  function PublishedValue(s: Source, size: nat): (v: Option<Bytes>) {
    if IsReady(s, size) || IsPublishing(s, size) then s.current.value.value else None
  }

  /** The tree of a value that has been published and not yet finalized, or has been finalized. */
  function PublishingTree(v: Bytes): (t: Tree) {
    Tree(Some(MarkerOf(v)), Some(v))
  }

  function ReadyTree(v: Bytes): (t: Tree) {
    Tree(None, Some(v))
  }

  /**
   What each finding means. Ready and publishing both name one value of the right size, in the tree and in every
   marker there is; a value or a marker that was tampered with is found corrupt.
   */
  lemma ClassifiedExactly(s: Source, size: nat)
    ensures Classify(s, size) == Empty <==> s.initialized.None? && s.current.None?
    ensures Classify(s, size) == Ready <==>
            size in {32, 43} && exists v ::
                |v| == size && s.initialized == Some(MarkerOf(v)) && s.current == Some(ReadyTree(v))
    ensures Classify(s, size) == Publishing <==>
            size in {32, 43} && exists v ::
              |v| == size && s.current == Some(PublishingTree(v)) && s.initialized in {None, Some(MarkerOf(v))}
    ensures forall v :: PublishedValue(s, size) == Some(v) <==>
                        Classify(s, size) in {Ready, Publishing}
                          && s.current in {Some(ReadyTree(v)), Some(PublishingTree(v))}
  {
    if s.current.Some? && s.current.value.Tree? && s.current.value.value.Some? {
      var v := s.current.value.value.value;
      assert s.current.value == ReadyTree(v) || s.current.value == PublishingTree(v) || s.current.value.marker.Some?;
    }
  }

  /** A consumer's copy, with the owner of the file. */
  datatype Copy = TornCopy | Copy(value: Bytes, uid: int, gid: int)

  datatype CopyVolume = CopyVolume(current: Option<Copy>, previous: Option<Copy>, next: Option<Copy>)

  const EMPTY_COPY := CopyVolume(None, None, None)

  datatype Document = TornDocument | Document(inventory: Inventory)

  datatype ConfigVolume = ConfigVolume(current: Option<Document>, previous: Option<Document>, next: Option<Document>)

  const EMPTY_CONFIG := ConfigVolume(None, None, None)

  /** Reading looks at `current`, and at `current.old` when there is no `current`. */
  function ReadDocument(c: ConfigVolume): (d: Option<Document>) {
    if c.current.Some? then c.current else c.previous
  }

  /** All managed volumes. A volume without an entry is empty. */
  datatype World = World(existing: set<string>, config: ConfigVolume, sources: map<string, Source>, copies: map<string,
                         CopyVolume>)

  function SourceOf(w: World, name: string): (s: Source) {
    if name in w.sources then w.sources[name] else EMPTY_SOURCE
  }

  function CopyOf(w: World, name: string): (c: CopyVolume) {
    if name in w.copies then w.copies[name] else EMPTY_COPY
  }

  predicate OnlySource(w: World, w': World, name: string) {
    w' == w || w' == w.(sources := w.sources[name := SourceOf(w', name)])
  }

  predicate OnlyCopy(w: World, w': World, name: string) {
    w' == w || w' == w.(copies := w.copies[name := CopyOf(w', name)])
  }

  // ----- What every crash state keeps

  /** Which project, which volume holds the configuration, and how long each generated value is. */
  datatype Layout = Layout(project: string, configName: string, sizes: map<string, nat>)

  function RecordsOf(l: Layout, w: World): (r: Option<Records>) {
    match ReadDocument(w.config)
    case None => Some(map[])
    case Some(TornDocument) => None
    case Some(Document(inventory)) => FromHistory(l.project, Recorded(inventory))
  }

  predicate SourceSafe(l: Layout, w: World, n: string) {
    n in l.sizes ==> Classify(SourceOf(w, n), l.sizes[n]) != Corrupt
  }

  ghost predicate SourcesSafe(l: Layout, w: World) {
    forall n {:trigger SourceSafe(l, w, n)} :: SourceSafe(l, w, n)
  }

  ghost predicate ConfigSafe(l: Layout, w: World) {
    && w.config.current != Some(TornDocument)
    && RecordsOf(l, w).Some? && AllDeclared(l.project, RecordsOf(l, w).value)
    && w.existing <= {l.configName} + RecordsOf(l, w).value.Keys
    && (l.configName !in w.existing ==> w.config == EMPTY_CONFIG)
  }

  ghost predicate CopiesSafe(w: World) {
    forall n | n in w.copies :: w.copies[n].current != Some(TornCopy)
  }

  ghost predicate Safe(l: Layout, w: World) {
    SourcesSafe(l, w) && ConfigSafe(l, w) && CopiesSafe(w)
  }

  /** A published value stays what it is, and a ready source stays ready. */
  predicate SourceKept(s: Source, s': Source, size: nat) {
    && (PublishedValue(s, size).Some? ==> PublishedValue(s', size) == PublishedValue(s, size))
    && (IsReady(s, size) ==> IsReady(s', size))
  }

  predicate SourceKeptAt(l: Layout, w: World, w': World, n: string) {
    n in l.sizes ==> SourceKept(SourceOf(w, n), SourceOf(w', n), l.sizes[n])
  }

  ghost predicate SourcesKept(l: Layout, w: World, w': World) {
    forall n {:trigger SourceKeptAt(l, w, w', n)} :: SourceKeptAt(l, w, w', n)
  }

  ghost predicate ConfigKept(l: Layout, w: World, w': World) {
    && w.existing <= w'.existing
    && RecordsOf(l, w).Some? && RecordsOf(l, w').Some? && Keeps(RecordsOf(l, w).value, RecordsOf(l, w').value)
  }

  /** Before the first run there are no volumes at all. */
  lemma NothingIsSafe(l: Layout)
    ensures Safe(l, World({}, EMPTY_CONFIG, map[], map[]))
  {
    var w := World({}, EMPTY_CONFIG, map[], map[]);
    forall n ensures SourceSafe(l, w, n) {}
  }

  /** Nothing published, recorded or created in `w` is lost or altered in `w'`. */
  ghost predicate Extends(l: Layout, w: World, w': World) {
    SourcesKept(l, w, w') && ConfigKept(l, w, w')
  }

  ghost predicate Reached(l: Layout, start: World, w: World) {
    Safe(l, w) && Extends(l, start, w)
  }

  lemma ExtendsTransitively(l: Layout, a: World, b: World, c: World)
    requires Extends(l, a, b) && Extends(l, b, c)
    ensures Extends(l, a, c)
  {
    forall n ensures SourceKeptAt(l, a, c, n) {
      assert SourceKeptAt(l, a, b, n) && SourceKeptAt(l, b, c, n);
    }
  }

  /** One state leads to the next. */
  ghost predicate Linked(l: Layout, states: seq<World>, i: nat)
    requires 0 < i < |states|
  {
    Reached(l, states[i - 1], states[i])
  }

  ghost predicate StartsSafe(l: Layout, states: seq<World>, i: nat)
    requires i < |states|
  {
    Safe(l, states[i])
  }

  /** A history of states: the first is safe, and each leads to the next. A crash can stop it anywhere. */
  ghost predicate Path(l: Layout, states: seq<World>) {
    && states != []
    && (forall i {:trigger StartsSafe(l, states, i)} | i == 0 < |states| :: StartsSafe(l, states, i))
    && forall i {:trigger Linked(l, states, i)} | 0 < i < |states| :: Linked(l, states, i)
  }

  lemma PathIsSafe(l: Layout, states: seq<World>, i: nat)
    requires Path(l, states) && i < |states|
    ensures Safe(l, states[i])
  {
    if i > 0 { assert Linked(l, states, i); } else { assert StartsSafe(l, states, 0); }
  }

  lemma ExtendPath(l: Layout, states: seq<World>, w: World)
    requires Path(l, states) && Reached(l, states[|states| - 1], w)
    ensures Path(l, states + [w])
  {
    var longer := states + [w];
    assert StartsSafe(l, states, 0) && longer[0] == states[0];
    forall i | 0 < i < |longer| ensures Linked(l, longer, i) {
      if i < |states| { assert Linked(l, states, i); }
    }
  }

  /** Whatever was published, recorded or created at some point is still there, unaltered, at every later point. */
  lemma {:induction false} LaterExtendsEarlier(l: Layout, states: seq<World>, i: nat, j: nat)
    requires Path(l, states) && i <= j < |states|
    ensures Extends(l, states[i], states[j])
    decreases j - i
  {
    if i == j {
      PathIsSafe(l, states, i);
      ReachedItself(l, states[i]);
    } else {
      LaterExtendsEarlier(l, states, i, j - 1);
      NextExtends(l, states, j);
      ExtendsTransitively(l, states[i], states[j - 1], states[j]);
    }
  }

  /** A value published once is published unaltered ever after: it is never replaced and never regenerated. */
  lemma PublishedForGood(l: Layout, states: seq<World>, name: string, i: nat, j: nat)
    requires Path(l, states) && i <= j < |states| && name in l.sizes
    requires PublishedValue(SourceOf(states[i], name), l.sizes[name]).Some?
    ensures PublishedValue(SourceOf(states[j], name), l.sizes[name]) ==
            PublishedValue(SourceOf(states[i], name), l.sizes[name])
    ensures Classify(SourceOf(states[j], name), l.sizes[name]) in {Publishing, Ready}
    ensures Classify(SourceOf(states[i], name), l.sizes[name]) == Ready ==>
              Classify(SourceOf(states[j], name), l.sizes[name]) == Ready
  {
    LaterExtendsEarlier(l, states, i, j);
    assert SourceKeptAt(l, states[i], states[j], name);
  }

  /** The inventory can be read at every point, what it records never shrinks, and only recorded volumes exist. */
  lemma RecordedForGood(l: Layout, states: seq<World>, i: nat, j: nat)
    requires Path(l, states) && i <= j < |states|
    ensures RecordsOf(l, states[i]).Some? && RecordsOf(l, states[j]).Some?
    ensures Keeps(RecordsOf(l, states[i]).value, RecordsOf(l, states[j]).value)
    ensures states[i].existing <= states[j].existing <= {l.configName} + RecordsOf(l, states[j]).value.Keys
  {
    LaterExtendsEarlier(l, states, i, j);
    PathIsSafe(l, states, j);
    SafeConfig(l, states[j]);
  }

  lemma NextExtends(l: Layout, states: seq<World>, j: nat)
    requires Path(l, states) && 0 < j < |states|
    ensures Extends(l, states[j - 1], states[j])
  {
    assert Linked(l, states, j);
  }

  lemma ReachedItself(l: Layout, w: World)
    requires Safe(l, w)
    ensures Reached(l, w, w)
  {
  }

  /** A change of one source that keeps it. */
  lemma SourceChange(l: Layout, w: World, name: string, s: Source)
    requires Safe(l, w)
    requires name in l.sizes ==>
               Classify(s, l.sizes[name]) != Corrupt && SourceKept(SourceOf(w, name), s, l.sizes[name])
    ensures Reached(l, w, w.(sources := w.sources[name := s]))
  {
    var w' := w.(sources := w.sources[name := s]);
    forall n ensures SourceSafe(l, w', n) && SourceKeptAt(l, w, w', n) {
      assert SourceSafe(l, w, n);
      if n != name { assert SourceOf(w', n) == SourceOf(w, n); }
    }
    assert RecordsOf(l, w') == RecordsOf(l, w);
  }

  lemma CopyChange(l: Layout, w: World, name: string, c: CopyVolume)
    requires Safe(l, w) && c.current != Some(TornCopy)
    ensures Reached(l, w, w.(copies := w.copies[name := c]))
  {
    var w' := w.(copies := w.copies[name := c]);
    forall n ensures SourceSafe(l, w', n) && SourceKeptAt(l, w, w', n) {
      assert SourceSafe(l, w, n) && SourceOf(w', n) == SourceOf(w, n);
    }
    assert RecordsOf(l, w') == RecordsOf(l, w);
  }

  /** A change of the configuration volume after which the reader sees at least the same records. */
  lemma ConfigChange(l: Layout, w: World, c: ConfigVolume, existing: set<string>)
    requires Safe(l, w) && c.current != Some(TornDocument) && w.existing <= existing
    requires var w' := w.(config := c, existing := existing);
             && RecordsOf(l, w').Some? && AllDeclared(l.project, RecordsOf(l, w').value)
             && Keeps(RecordsOf(l, w).value, RecordsOf(l, w').value)
             && existing <= {l.configName} + RecordsOf(l, w').value.Keys
             && (l.configName !in existing ==> c == EMPTY_CONFIG)
    ensures Reached(l, w, w.(config := c, existing := existing))
  {
    var w' := w.(config := c, existing := existing);
    forall n ensures SourceSafe(l, w', n) && SourceKeptAt(l, w, w', n) {
      assert SourceSafe(l, w, n) && SourceOf(w', n) == SourceOf(w, n);
    }
  }

  lemma CreationReaches(l: Layout, w: World, name: string)
    requires Safe(l, w) && RecordsOf(l, w).Some? && (name == l.configName || name in RecordsOf(l, w).value)
    ensures Reached(l, w, w.(existing := w.existing + {name}))
    ensures RecordsOf(l, w.(existing := w.existing + {name})) == RecordsOf(l, w)
  {
    var w' := w.(existing := w.existing + {name});
    forall n ensures SourceSafe(l, w', n) && SourceKeptAt(l, w, w', n) {
      assert SourceSafe(l, w, n) && SourceOf(w', n) == SourceOf(w, n);
    }
    assert RecordsOf(l, w') == RecordsOf(l, w);
  }

  // ----- The scripts, as the states they go through

  /** What a recursive removal that was cut off leaves of a tree. */
  function Damaged<T>(previous: Option<T>, torn: T): (left: Option<T>) {
    if previous.Some? then Some(torn) else None
  }

  /** Stage the value beside the live tree. */
  function StageSteps(s: Source, value: Bytes): (steps: seq<Source>) {
    [s.(next := Damaged(s.next, Torn)), s.(next := None), s.(next := Some(Torn)),
     s.(next := Some(Tree(Some(MarkerOf(value)), Some(value))))]
  }

  /** Rename the staged tree into place, link its journal out, remove the inner link. */
  function PublishSteps(value: Bytes): (steps: seq<Source>) {
    var marker := MarkerOf(value);
    [Source(None, Some(Tree(Some(marker), Some(value))), None),
     Source(Some(marker), Some(Tree(Some(marker), Some(value))), None),
     Source(Some(marker), Some(Tree(None, Some(value))), None)]
  }

  /** Initializing stages, checks what it staged, and only then publishes. */
  function InitializeSteps(s: Source, value: Bytes, size: nat): (steps: seq<Source>) {
    StageSteps(s, value) + if Matches(Some(MarkerOf(value)), Some(value), size) then PublishSteps(value) else []
  }

  function FinalizeSteps(s: Source): (steps: seq<Source>)
    requires s.current.Some? && s.current.value.Tree?
  {
    var linked := s.(initialized := if s.initialized.None? then s.current.value.marker else s.initialized);
    [linked, linked.(current := Some(s.current.value.(marker := None)))]
  }

  function CopySteps(c: CopyVolume, copy: Copy): (steps: seq<CopyVolume>) {
    [CopyVolume(c.current, Damaged(c.previous, TornCopy), Damaged(c.next, TornCopy)),
     CopyVolume(c.current, None, None), CopyVolume(c.current, None, Some(TornCopy)), CopyVolume(c.current, None,
         Some(copy)),
     CopyVolume(None, c.current, Some(copy)), CopyVolume(Some(copy), c.current, None),
     CopyVolume(Some(copy), Damaged(c.current, TornCopy), None), CopyVolume(Some(copy), None, None)]
  }

  /** Replacing the files of the configuration volume; a replacement cut off between its renames is undone first. */
  function ReplaceSteps(c: ConfigVolume, document: Document): (steps: seq<ConfigVolume>) {
    var whole := ReadDocument(c);
    var left := if c.current.Some? then c.previous else None;
    [ConfigVolume(whole, left, c.next), ConfigVolume(whole, Damaged(left, TornDocument), Damaged(c.next, TornDocument)),
     ConfigVolume(whole, None, None), ConfigVolume(whole, None, Some(TornDocument)), ConfigVolume(whole, None,
         Some(document)),
     ConfigVolume(None, whole, Some(document)), ConfigVolume(Some(document), whole, None),
     ConfigVolume(Some(document), Damaged(whole, TornDocument), None), ConfigVolume(Some(document), None, None)]
  }

  function StepBefore(s: Source, steps: seq<Source>, i: nat): (before: Source)
    requires i <= |steps|
  {
    if i == 0 then s else steps[i - 1]
  }

  /** No step is corrupt, and none loses or alters what is published. */
  predicate Publishes(s: Source, steps: seq<Source>, size: nat) {
    forall i | 0 <= i < |steps| ::
        Classify(steps[i], size) != Corrupt && SourceKept(StepBefore(s, steps, i), steps[i], size)
  }

  /** Every crash prefix of initializing an empty source is empty, publishing or ready. */
  lemma InitializingIsNeverCorrupt(s: Source, value: Bytes, size: nat)
    requires Classify(s, size).Empty?
    ensures Publishes(s, InitializeSteps(s, value, size), size)
    ensures forall i | 0 <= i < |InitializeSteps(s, value, size)| ::
              PublishedValue(InitializeSteps(s, value, size)[i], size) == if i < 4 then None else Some(value)
  {
    var steps := InitializeSteps(s, value, size);
    if Matches(Some(MarkerOf(value)), Some(value), size) {
      assert IsPublishing(steps[4], size) && IsPublishing(steps[5], size) && IsReady(steps[6], size);
    }
  }

  /** Every crash prefix of finishing a publication is publishing or ready, with the same value. */
  lemma FinalizingIsNeverCorrupt(s: Source, size: nat)
    requires Classify(s, size).Publishing?
    ensures Publishes(s, FinalizeSteps(s), size)
    ensures IsPublishing(FinalizeSteps(s)[0], size) && IsReady(FinalizeSteps(s)[1], size)
    ensures forall i | 0 <= i < 2 :: PublishedValue(FinalizeSteps(s)[i], size) == PublishedValue(s, size)
  {
  }

  /** Copying never leaves a half written copy where the consumer looks. */
  lemma CopyingIsWhole(c: CopyVolume, copy: Copy, i: nat)
    requires c.current != Some(TornCopy) && copy != TornCopy && i < |CopySteps(c, copy)|
    ensures CopySteps(c, copy)[i].current in {c.current, None, Some(copy)}
  {
  }

  lemma SafeCopy(l: Layout, w: World, name: string)
    requires Safe(l, w)
    ensures CopyOf(w, name).current != Some(TornCopy)
  {
  }

  lemma CurrentCopyIsWhole(l: Layout, states: seq<World>, name: string)
    requires Path(l, states)
    ensures CopyOf(states[|states| - 1], name).current != Some(TornCopy)
  {
    PathIsSafe(l, states, |states| - 1);
    SafeCopy(l, states[|states| - 1], name);
  }

  /** At every step of a replacement the reader finds the whole old document or the whole new one. */
  lemma ReaderSeesOldOrNew(c: ConfigVolume, document: Document, i: nat)
    requires i < |ReplaceSteps(c, document)|
    ensures ReadDocument(ReplaceSteps(c, document)[i]) == if i < 6 then ReadDocument(c) else Some(document)
  {
  }

  /** So the records read are the old ones up to the second rename and the new ones from it on. */
  lemma RecordsAcrossReplacement(l: Layout, w: World, inventory: Inventory, i: nat)
    requires RecordsOf(l, w).Some? && i < |ReplaceSteps(w.config, Document(inventory))|
    ensures var c := ReplaceSteps(w.config, Document(inventory))[i];
            && c.current != Some(TornDocument)
            && RecordsOf(l, w.(config := c)) == if i < 6 then RecordsOf(l, w)
               else FromHistory(l.project, Recorded(inventory))
  {
    ReaderSeesOldOrNew(w.config, Document(inventory), i);
  }

  lemma SafeRecords(l: Layout, states: seq<World>)
    requires Path(l, states)
    ensures RecordsOf(l, states[|states| - 1]).Some? && AllDeclared(l.project, RecordsOf(l, states[|states| - 1]).value)
    ensures states[|states| - 1].existing <= {l.configName} + RecordsOf(l, states[|states| - 1]).value.Keys
    ensures l.configName !in states[|states| - 1].existing ==> states[|states| - 1].config == EMPTY_CONFIG
  {
    PathIsSafe(l, states, |states| - 1);
    SafeConfig(l, states[|states| - 1]);
  }

  lemma SafeConfig(l: Layout, w: World)
    requires Safe(l, w)
    ensures ConfigSafe(l, w)
  {
  }

  lemma SafeSource(l: Layout, states: seq<World>, name: string)
    requires Path(l, states) && name in l.sizes
    ensures Classify(SourceOf(states[|states| - 1], name), l.sizes[name]) != Corrupt
  {
    PathIsSafe(l, states, |states| - 1);
    assert SourceSafe(l, states[|states| - 1], name);
  }
}
