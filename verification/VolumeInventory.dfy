/**
 The inventory of managed volumes: who owns a volume, how the history is merged with the current
 plan, and how the file that records it is replaced.
 */
module VolumeInventory {
  import opened Wrappers
  import opened Names

  const OWNER_LABEL := "nvt.dev/local-platform-owner"
  const CUSTODIAN_LABEL := "nvt.dev/local-platform-custodian"
  const ROLE_LABEL := "nvt.dev/local-platform-role"
  const VOLUME_LABEL := "nvt.dev/local-platform-volume"
  const VERSION_LABEL := "nvt.dev/local-platform-version"
  const STATE_VERSION := "1"
  const MAX_RECORDS := 1024

  type Labels = map<string, string>

  datatype Volume = Volume(name: string, role: string, owner: string, consumers: seq<string>, labels: Labels)

  datatype Inventory = Inventory(version: string, project: string, volumes: seq<Volume>)

  /** A map lookup that gives the empty string for a missing key. */
  function Label(labels: Labels, key: string): (value: string) {
    if key in labels then labels[key] else ""
  }

  predicate EqualLabels(left: Labels, right: Labels) {
    |left| == |right| && forall k | k in left :: Label(right, k) == left[k]
  }

  function OwnLabels(project: string, name: string, role: string, owner: string): (labels: Labels) {
    map[OWNER_LABEL := project, CUSTODIAN_LABEL := owner, ROLE_LABEL := role, VOLUME_LABEL := name,
        VERSION_LABEL := STATE_VERSION]
  }

  predicate SafeVolumeName(name: string) {
    && 0 < |name| <= 255
    && ('a' <= name[0] <= 'z' || '0' <= name[0] <= '9')
    && forall i | 0 <= i < |name| ::
         'a' <= name[i] <= 'z' || '0' <= name[i] <= '9' || name[i] == '-' || name[i] == '_' || name[i] == '.'
  }

  predicate ValidVolume(v: Volume) {
    && SafeVolumeName(v.name) && v.role != "" && v.owner != ""
    && EqualLabels(v.labels, OwnLabels(Label(v.labels, OWNER_LABEL), v.name, v.role, v.owner))
    && Label(v.labels, OWNER_LABEL) != ""
  }

  /** A volume as the plan declares it: its labels are exactly its own. */
  predicate Declared(project: string, v: Volume) {
    && project != "" && SafeVolumeName(v.name) && v.role != "" && v.owner != ""
    && v.labels == OwnLabels(project, v.name, v.role, v.owner)
  }

  // ----- What the label comparison establishes

  lemma SubsetOfSameSize(a: set<string>, b: set<string>)
    requires a <= b && |a| == |b|
    ensures a == b
  {
    if a != b {
      var x :| x in b && x !in a;
      assert a <= b - {x};
      SetBound(a, b - {x});
    }
  }

  lemma {:induction false} SetBound(a: set<string>, b: set<string>)
    requires a <= b
    ensures |a| <= |b|
  {
    if a != {} {
      var x :| x in a;
      SetBound(a - {x}, b - {x});
    }
  }

  /** The comparison is equality exactly when no key of the left side with an empty value is missing on the right. */
  lemma EqualLabelsIff(left: Labels, right: Labels)
    ensures left == right <==> EqualLabels(left, right) && forall k | k in left && left[k] == "" :: k in right
  {
    if EqualLabels(left, right) && forall k | k in left && left[k] == "" :: k in right {
      forall k | k in left ensures k in right && right[k] == left[k] {
        assert Label(right, k) == left[k];
      }
      SubsetOfSameSize(left.Keys, right.Keys);
    }
  }

  /** A volume that lacks its owner label but carries a foreign empty one passes for one of the project's own. */
  lemma EqualLabelsCanDiffer(project: string, name: string, role: string, owner: string, foreign: string)
    requires project != "" && foreign !in OwnLabels(project, name, role, owner)
    ensures var own := OwnLabels(project, name, role, owner);
            var found := (own - {OWNER_LABEL})[foreign := ""];
            EqualLabels(found, own) && found != own && OWNER_LABEL !in found
  {
    var own := OwnLabels(project, name, role, owner);
    var found := (own - {OWNER_LABEL})[foreign := ""];
    assert found.Keys == own.Keys - {OWNER_LABEL} + {foreign};
    assert |found.Keys| == |own.Keys| && |found| == |found.Keys| && |own| == |own.Keys|;
    assert foreign in found;
  }

  lemma DeclaredIsValid(project: string, v: Volume)
    requires Declared(project, v)
    ensures ValidVolume(v) && Label(v.labels, OWNER_LABEL) == project
  {
  }

  /** Two declarations of one name with equal labels agree in role and owner. */
  lemma SameLabelsSameRecord(project: string, v: Volume, w: Volume)
    requires Declared(project, v) && Declared(project, w) && v.name == w.name && EqualLabels(v.labels, w.labels)
    ensures v.(consumers := []) == w.(consumers := [])
  {
    assert Label(w.labels, ROLE_LABEL) == v.labels[ROLE_LABEL];
    assert Label(w.labels, CUSTODIAN_LABEL) == v.labels[CUSTODIAN_LABEL];
  }

  // ----- Merging

  type Records = map<string, Volume>

  /** What was found where the inventory should be. */
  datatype History = NoHistory | Malformed | Recorded(inventory: Inventory)

  predicate OwnedBy(project: string, v: Volume) {
    ValidVolume(v) && Label(v.labels, OWNER_LABEL) == project
  }

  function AddHistory(project: string, records: Records, volumes: seq<Volume>): (r: Option<Records>)
    decreases |volumes|
  {
    if volumes == [] then Some(records)
    else
      var v := volumes[0];
      if !OwnedBy(project, v) || v.consumers != [] || v.name in records then None
      else AddHistory(project, records[v.name := v], volumes[1..])
  }

  function AddCurrent(project: string, records: Records, volumes: seq<Volume>): (r: Option<Records>)
    decreases |volumes|
  {
    if volumes == [] then Some(records)
    else
      var v := volumes[0];
      if !OwnedBy(project, v) || (v.name in records && !EqualLabels(records[v.name].labels, v.labels)) then None
      else AddCurrent(project, records[v.name := v.(consumers := [])], volumes[1..])
  }

  function FromHistory(project: string, history: History): (r: Option<Records>) {
    match history
    case NoHistory => Some(map[])
    case Malformed => None
    case Recorded(inventory) =>
      if inventory.version != STATE_VERSION || inventory.project != project
        || !(0 < |inventory.volumes| <= MAX_RECORDS) then None
      else AddHistory(project, map[], inventory.volumes)
  }

  function Merged(project: string, history: History, current: seq<Volume>): (r: Option<Records>) {
    var past := FromHistory(project, history);
    var all := if past.None? then None else AddCurrent(project, past.value, current);
    if all.Some? && 0 < |all.value| <= MAX_RECORDS then all else None
  }

  /** `list` gives the records in the order of their names. */
  ghost predicate Lists(list: seq<Volume>, records: Records) {
    && Sorted(seq(|list|, i requires 0 <= i < |list| => list[i].name))
    && (forall i | 0 <= i < |list| :: list[i].name in records && records[list[i].name] == list[i])
    && (forall n | n in records :: exists i :: 0 <= i < |list| && list[i].name == n)
    && |list| == |records|
  }

  lemma HistoryStep(project: string, records: Records, volumes: seq<Volume>, i: nat)
    requires i < |volumes|
    ensures var v := volumes[i];
            AddHistory(project, records, volumes[i..]) ==
            if !OwnedBy(project, v) || v.consumers != [] || v.name in records then None
            else AddHistory(project, records[v.name := v], volumes[i + 1..])
  {
    assert volumes[i..][0] == volumes[i] && volumes[i..][1..] == volumes[i + 1..];
  }

  /** Take the recorded volumes in; a record that is malformed or repeated refuses the history. */
  method LoadHistory(project: string, history: History) returns (past: Option<Records>)
    ensures past == FromHistory(project, history) && (past.Some? ==> Keyed(past.value))
  {
    if history.Malformed? { return None; }
    if history.NoHistory? { return Some(map[]); }
    var inventory := history.inventory;
    if inventory.version != STATE_VERSION || inventory.project != project || |inventory.volumes| == 0
      || |inventory.volumes| > MAX_RECORDS {
      return None;
    }
    var merged: Records := map[];
    assert inventory.volumes[0..] == inventory.volumes;
    for i := 0 to |inventory.volumes|
      invariant Keyed(merged)
      invariant AddHistory(project, map[], inventory.volumes) == AddHistory(project, merged, inventory.volumes[i..])
    {
      var v := inventory.volumes[i];
      HistoryStep(project, merged, inventory.volumes, i);
      if !ValidVolume(v) || Label(v.labels, OWNER_LABEL) != project || v.consumers != [] { return None; }
      if v.name in merged { return None; }
      merged := merged[v.name := v];
    }
    assert inventory.volumes[|inventory.volumes|..] == [];
    past := Some(merged);
  }

  /** Take the current plan in. */
  method MergeCurrent(project: string, past: Records, current: seq<Volume>) returns (all: Option<Records>)
    requires Keyed(past)
    ensures all == AddCurrent(project, past, current) && (all.Some? ==> Keyed(all.value))
  {
    var merged := past;
    assert current[0..] == current;
    for i := 0 to |current|
      invariant Keyed(merged)
      invariant AddCurrent(project, past, current) == AddCurrent(project, merged, current[i..])
    {
      var v := current[i];
      assert current[i..][0] == v && current[i..][1..] == current[i + 1..];
      if !ValidVolume(v) || Label(v.labels, OWNER_LABEL) != project { return None; }
      if v.name in merged && !EqualLabels(merged[v.name].labels, v.labels) { return None; }
      merged := merged[v.name := v.(consumers := [])];
    }
    assert current[|current|..] == [];
    all := Some(merged);
  }

  method MergeVolumeInventory(project: string, history: History, current: seq<Volume>)
    returns (result: Option<seq<Volume>>)
    ensures result.Some? <==> Merged(project, history, current).Some?
    ensures result.Some? ==> Lists(result.value, Merged(project, history, current).value)
  {
    var past := LoadHistory(project, history);
    if past.None? { return None; }
    var all := MergeCurrent(project, past.value, current);
    if all.None? || |all.value| == 0 || |all.value| > MAX_RECORDS { return None; }
    var list := ListRecords(all.value);
    result := Some(list);
  }

  ghost predicate Keyed(records: Records) {
    forall n | n in records :: records[n].name == n
  }

  method ListRecords(records: Records) returns (list: seq<Volume>)
    requires Keyed(records)
    ensures Lists(list, records)
  {
    var names := SortNames(records.Keys);
    list := [];
    for i := 0 to |names|
      invariant |list| == i && forall k | 0 <= k < i :: names[k] in records && list[k] == records[names[k]]
    {
      assert names[i] in Elements(names);
      list := list + [records[names[i]]];
    }
    assert seq(|list|, i requires 0 <= i < |list| => list[i].name) == names;
    SortedHasNoRepeats(names);
    forall n | n in records ensures exists i :: 0 <= i < |list| && list[i].name == n {
      assert n in Elements(names);
      var i :| 0 <= i < |names| && names[i] == n;
      assert list[i].name == n;
    }
  }

  lemma {:induction false} SortedHasNoRepeats(names: seq<string>)
    requires Sorted(names)
    ensures |Elements(names)| == |names|
  {
    if names != [] {
      TailElements(names);
      SortedHasNoRepeats(names[1..]);
    }
  }

  // ----- Which histories are accepted

  predicate Letter(c: char) {
    'a' <= c <= 'z' || '0' <= c <= '9'
  }

  /** A label of a recorded volume: one of its own five, or an empty foreign one. */
  predicate LabelFits(project: string, v: Volume, key: string, value: string) {
    match key
    case "nvt.dev/local-platform-owner" => value == project
    case "nvt.dev/local-platform-custodian" => value == v.owner
    case "nvt.dev/local-platform-role" => value == v.role
    case "nvt.dev/local-platform-volume" => value == v.name
    case "nvt.dev/local-platform-version" => value == "1"
    case _ => value == ""
  }

  /** What a recorded volume has to be. */
  ghost predicate RecordIsOwn(project: string, v: Volume) {
    && 0 < |v.name| <= 255 && Letter(v.name[0]) && (forall c | c in v.name :: Letter(c) || c in "-_.")
    && v.role != "" && v.owner != "" && v.consumers == []
    && |v.labels| == 5 && project != "" && "nvt.dev/local-platform-owner" in v.labels
    && forall k | k in v.labels :: LabelFits(project, v, k, v.labels[k])
  }

  lemma NameIsSafe(name: string)
    ensures SafeVolumeName(name) <==>
            0 < |name| <= 255 && Letter(name[0]) && forall c | c in name :: Letter(c) || c in "-_."
  {
    if 0 < |name| <= 255 && Letter(name[0]) && forall c | c in name :: Letter(c) || c in "-_." {
      forall i | 0 <= i < |name| ensures Letter(name[i]) || name[i] == '-' || name[i] == '_' || name[i] == '.' {
        assert name[i] in name;
      }
    }
  }

  lemma OwnLabel(project: string, v: Volume, key: string, value: string)
    requires project != "" && v.name != "" && v.role != "" && v.owner != ""
    ensures Label(OwnLabels(project, v.name, v.role, v.owner), key) == value <==> LabelFits(project, v, key, value)
  {
  }

  lemma FiveLabels(project: string, name: string, role: string, owner: string)
    ensures |OwnLabels(project, name, role, owner)| == 5
  {
    var own := OwnLabels(project, name, role, owner);
    assert own.Keys == {OWNER_LABEL, CUSTODIAN_LABEL, ROLE_LABEL, VOLUME_LABEL, VERSION_LABEL};
    assert |own| == |own.Keys|;
  }

  lemma OwnedIff(project: string, v: Volume)
    ensures OwnedBy(project, v) && v.consumers == [] <==> RecordIsOwn(project, v)
  {
    NameIsSafe(v.name);
    FiveLabels(project, v.name, v.role, v.owner);
    if project != "" && v.name != "" && v.role != "" && v.owner != "" {
      forall k, value
        ensures Label(OwnLabels(project, v.name, v.role, v.owner), k) == value <==> LabelFits(project, v, k, value)
      {
        OwnLabel(project, v, k, value);
      }
      if OWNER_LABEL in v.labels { assert LabelFits(project, v, OWNER_LABEL, project); }
    }
  }

  lemma {:induction false} AddsAllOrNone(project: string, records: Records, volumes: seq<Volume>)
    ensures AddHistory(project, records, volumes).Some? <==>
            Distinct(volumes) && forall v | v in volumes :: RecordIsOwn(project, v) && v.name !in records
    ensures var r := AddHistory(project, records, volumes);
            r.Some? ==>
              r.value.Keys == records.Keys + NamesOf(volumes)
              && (forall v | v in volumes :: v.name in r.value && r.value[v.name] == v)
              && forall n | n in records :: n in r.value && r.value[n] == records[n]
    decreases |volumes|
  {
    if volumes == [] {
      assert NamesOf(volumes) == {};
    } else {
      var v, tail := volumes[0], volumes[1..];
      assert volumes == [v] + tail;
      OwnedIff(project, v);
      AddsAllOrNone(project, records[v.name := v], tail);
      NamesOfCons(volumes);
      DistinctCons(volumes);
    }
  }

  lemma DistinctCons(volumes: seq<Volume>)
    requires volumes != []
    ensures Distinct(volumes) <==> Distinct(volumes[1..]) && forall w | w in volumes[1..] :: w.name != volumes[0].name
  {
    var tail := volumes[1..];
    assert forall i | 0 <= i < |tail| :: tail[i] == volumes[i + 1];
    if Distinct(tail) && forall w | w in tail :: w.name != volumes[0].name {
      forall i, j | 0 <= i < j < |volumes| ensures volumes[i].name != volumes[j].name {
        assert volumes[j] == tail[j - 1];
        if i == 0 { assert tail[j - 1] in tail; } else { assert volumes[i] == tail[i - 1]; }
      }
    }
  }

  /**
   A recorded history is accepted exactly when it is of this version and project, has between 1 and 1024
   volumes, no two of one name, and each of them the project's own and without consumers; and then it is
   taken in as it is.
   */
  lemma AcceptedHistories(project: string, inventory: Inventory)
    ensures var r := FromHistory(project, Recorded(inventory));
            && (r.Some? <==>
                inventory.version == "1" && inventory.project == project && 0 < |inventory.volumes| <= 1024
                  && Distinct(inventory.volumes) && forall v | v in inventory.volumes :: RecordIsOwn(project, v))
            && (r.Some? ==> r.value.Keys == NamesOf(inventory.volumes)
                            && forall v | v in inventory.volumes :: v.name in r.value && r.value[v.name] == v)
  {
    AddsAllOrNone(project, map[], inventory.volumes);
  }

  // ----- Main results about merging

  function NamesOf(volumes: seq<Volume>): (s: set<string>) {
    set i | 0 <= i < |volumes| :: volumes[i].name
  }

  ghost predicate AllDeclared(project: string, records: Records) {
    forall n | n in records :: Declared(project, records[n]) && records[n].name == n && records[n].consumers == []
  }

  ghost predicate Keeps(records: Records, r: Records) {
    forall n | n in records :: n in r && r[n] == records[n]
  }

  lemma AddOne(project: string, records: Records, v: Volume)
    requires AllDeclared(project, records) && Declared(project, v)
    requires v.name in records ==> EqualLabels(records[v.name].labels, v.labels)
    ensures AllDeclared(project, records[v.name := v.(consumers := [])])
            && Keeps(records, records[v.name := v.(consumers := [])])
  {
    if v.name in records { SameLabelsSameRecord(project, records[v.name], v); }
  }

  lemma NamesOfCons(volumes: seq<Volume>)
    requires volumes != []
    ensures NamesOf(volumes) == {volumes[0].name} + NamesOf(volumes[1..])
  {
    forall n | n in NamesOf(volumes) ensures n in {volumes[0].name} + NamesOf(volumes[1..]) {
      var i :| 0 <= i < |volumes| && volumes[i].name == n;
      if i > 0 { assert volumes[1..][i - 1].name == n; }
    }
    forall n | n in NamesOf(volumes[1..]) ensures n in NamesOf(volumes) {
      var i :| 0 <= i < |volumes[1..]| && volumes[1..][i].name == n;
      assert volumes[i + 1].name == n;
    }
  }

  /** Merging only adds: the names are those of both sides, and a declared record is never altered. */
  lemma {:induction false} MergingOnlyAdds(project: string, records: Records, current: seq<Volume>)
    requires AllDeclared(project, records) && (forall v | v in current :: Declared(project, v))
    ensures var r := AddCurrent(project, records, current);
            r.Some? ==>
              && AllDeclared(project, r.value) && Keeps(records, r.value)
              && r.value.Keys == records.Keys + NamesOf(current)
    decreases |current|
  {
    if current != [] && AddCurrent(project, records, current).Some? {
      var v := current[0];
      AddOne(project, records, v);
      var next := records[v.name := v.(consumers := [])];
      MergingOnlyAdds(project, next, current[1..]);
      NamesOfCons(current);
    }
  }

  ghost function Among(records: Records, names: set<string>): (r: Records) {
    map n | n in records && n in names :: records[n]
  }

  ghost predicate Distinct(list: seq<Volume>) {
    forall i, j | 0 <= i < j < |list| :: list[i].name != list[j].name
  }

  /** A listing of declared records is read back as those records. */
  lemma {:induction false} ListReadsBack(project: string, list: seq<Volume>, records: Records, k: nat)
    requires k <= |list| && AllDeclared(project, records) && Distinct(list)
    requires forall i | 0 <= i < |list| :: list[i].name in records && records[list[i].name] == list[i]
    ensures AddHistory(project, Among(records, NamesOf(list[..k])), list[k..]) == Some(Among(records, NamesOf(list)))
    decreases |list| - k
  {
    if k == |list| {
      assert list[..k] == list;
    } else {
      DeclaredIsValid(project, list[k]);
      assert list[k..][0] == list[k] && list[k..][1..] == list[k + 1..];
      NamesOneMore(list, k);
      assert Among(records, NamesOf(list[..k]))[list[k].name := list[k]] == Among(records, NamesOf(list[..k + 1]));
      ListReadsBack(project, list, records, k + 1);
    }
  }

  lemma NamesOneMore(list: seq<Volume>, k: nat)
    requires k < |list| && Distinct(list)
    ensures NamesOf(list[..k + 1]) == NamesOf(list[..k]) + {list[k].name}
    ensures list[k].name !in NamesOf(list[..k])
  {
    assert list[..k + 1] == list[..k] + [list[k]];
    forall n | n in NamesOf(list[..k]) + {list[k].name} ensures n in NamesOf(list[..k + 1]) {
      if n in NamesOf(list[..k]) {
        var i :| 0 <= i < k && list[..k][i].name == n;
        assert list[..k + 1][i].name == n;
      } else {
        assert list[..k + 1][k].name == n;
      }
    }
  }

  lemma ListIsDistinct(list: seq<Volume>, records: Records)
    requires Lists(list, records)
    ensures Distinct(list) && NamesOf(list) == records.Keys
  {
    var names := seq(|list|, i requires 0 <= i < |list| => list[i].name);
    forall i, j | 0 <= i < j < |list| ensures list[i].name != list[j].name {
      assert Less(names[i], names[j]);
      LessIsTotal(names[i], names[i]);
    }
  }

  lemma WholeListReadsBack(project: string, records: Records, list: seq<Volume>)
    requires AllDeclared(project, records) && Distinct(list) && NamesOf(list) == records.Keys
    requires forall i | 0 <= i < |list| :: list[i].name in records && records[list[i].name] == list[i]
    ensures AddHistory(project, map[], list) == Some(records)
  {
    ListReadsBack(project, list, records, 0);
    assert list[0..] == list && list[..0] == [];
    assert NamesOf([]) == {};
    assert Among(records, {}) == map[];
    assert Among(records, records.Keys) == records;
  }

  /** A written inventory is always accepted, and read back as exactly the records written. */
  lemma WrittenIsAccepted(project: string, records: Records, list: seq<Volume>)
    requires AllDeclared(project, records) && Lists(list, records) && 0 < |list| <= MAX_RECORDS
    ensures FromHistory(project, Recorded(Inventory(STATE_VERSION, project, list))) == Some(records)
  {
    ListIsDistinct(list, records);
    WholeListReadsBack(project, records, list);
  }

  /** Neither the records nor the plan itself gives one name two different sets of labels. */
  ghost predicate LabelsAgree(records: Records, current: seq<Volume>) {
    && (forall v | v in current && v.name in records :: records[v.name].labels == v.labels)
    && (forall v, w | v in current && w in current && v.name == w.name :: v.labels == w.labels)
  }

  lemma OwnLabelsCompare(project: string, v: Volume, w: Volume)
    requires Declared(project, v) && Declared(project, w) && v.name == w.name
    ensures EqualLabels(v.labels, w.labels) <==> v.labels == w.labels
  {
    if EqualLabels(v.labels, w.labels) { SameLabelsSameRecord(project, v, w); }
  }

  lemma AgreeingStep(records: Records, current: seq<Volume>)
    requires current != []
    ensures var v := current[0];
            LabelsAgree(records, current) <==>
              && (v.name in records ==> records[v.name].labels == v.labels)
              && LabelsAgree(records[v.name := v.(consumers := [])], current[1..])
  {
    var v, rest := current[0], current[1..];
    var next := records[v.name := v.(consumers := [])];
    assert v in current && current == [v] + rest;
    if LabelsAgree(next, rest) && (v.name in records ==> records[v.name].labels == v.labels) {
      forall w | w in rest ensures w.name == v.name ==> w.labels == v.labels {}
      forall w | w in rest && w.name in records ensures records[w.name].labels == w.labels { assert w.name in next; }
    }
  }

  /** The plan is taken in exactly when its labels agree with the records and among themselves. */
  lemma {:induction false} MergingFailsOverLabels(project: string, records: Records, current: seq<Volume>)
    requires AllDeclared(project, records) && (forall v | v in current :: Declared(project, v))
    ensures AddCurrent(project, records, current).Some? <==> LabelsAgree(records, current)
    decreases |current|
  {
    if current != [] {
      var v := current[0];
      AgreeingStep(records, current);
      DeclaredIsValid(project, v);
      if v.name in records { OwnLabelsCompare(project, records[v.name], v); }
      if v.name !in records || records[v.name].labels == v.labels {
        AddOne(project, records, v);
        MergingFailsOverLabels(project, records[v.name := v.(consumers := [])], current[1..]);
      }
    }
  }

  /** So the next merge can fail only over the current plan: a changed label, or too many records. */
  lemma NextMergeFailsOnlyOverThePlan(project: string, records: Records, list: seq<Volume>, current: seq<Volume>)
    requires AllDeclared(project, records) && Lists(list, records) && 0 < |list| <= MAX_RECORDS
    requires forall v | v in current :: Declared(project, v)
    ensures var r := Merged(project, Recorded(Inventory(STATE_VERSION, project, list)), current);
            && (r.Some? <==> LabelsAgree(records, current) && |records.Keys + NamesOf(current)| <= MAX_RECORDS)
            && (r.Some? ==> Keeps(records, r.value) && r.value.Keys == records.Keys + NamesOf(current))
  {
    WrittenIsAccepted(project, records, list);
    MergingOnlyAdds(project, records, current);
    MergingFailsOverLabels(project, records, current);
    assert list[0].name in records.Keys;
    MergedFrom(project, Recorded(Inventory(STATE_VERSION, project, list)), records, current);
  }

  lemma MergedFrom(project: string, history: History, records: Records, current: seq<Volume>)
    requires FromHistory(project, history) == Some(records) && records.Keys != {}
    ensures var all := AddCurrent(project, records, current);
            all.Some? && all.value.Keys == records.Keys + NamesOf(current) ==>
              Merged(project, history, current) ==
              if |records.Keys + NamesOf(current)| <= MAX_RECORDS then all else None
    ensures AddCurrent(project, records, current).None? ==> Merged(project, history, current).None?
  {
    var all := AddCurrent(project, records, current);
    if all.Some? && all.value.Keys == records.Keys + NamesOf(current) {
      var n :| n in records.Keys;
      assert n in all.value.Keys && |all.value| == |all.value.Keys|;
    }
  }
}
