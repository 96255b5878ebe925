/**
 The durable prompt queue: requests append prompts to a directory and to the queue in memory, a worker
 injects them into the session and deletes their files, and a restart refills the queue from the
 directory. A crash loses the memory and, of the directory, whatever had not been synced.
 */
module PromptQueue {
  import opened Wrappers
  import opened Names
  import opened PromptNames

  type Id = string

  // ----- Refilling the queue

  datatype Restored = Restored(queue: seq<Prompt>, files: map<Id, nat>, sequence: nat)

  predicate IsTemporary(name: string) {
    |name| >= 8 && name[..8] == ".prompt-" && |name| >= 4 && name[|name| - 4..] == ".tmp"
  }

  /** Strictly in the order of the sequence numbers. */
  ghost predicate Ascending(queue: seq<Prompt>) {
    forall i, j | 0 <= i < j < |queue| :: queue[i].sequence < queue[j].sequence
  }

  /** The directory holds the files of these prompts, and otherwise only temporary files. */
  ghost predicate Holds(names: set<string>, dir: map<nat, Id>) {
    && (forall s | s in dir :: s < Power10(WIDTH) && ValidId(dir[s]) && FileName(s, dir[s]) in names)
    && (forall n | n in names :: IsTemporary(n) || exists s :: s in dir && n == FileName(s, dir[s]))
    && (forall s, t | s in dir && t in dir && dir[s] == dir[t] :: s == t)
  }

  /** What a start finds: the files of these prompts with their ids inside, and temporary files. */
  ghost predicate FilesAre(entries: map<string, Option<Id>>, dir: map<nat, Id>) {
    && (forall s | s in dir :: FileName(s, dir[s]) in entries && entries[FileName(s, dir[s])] == Some(dir[s]))
    && (forall n | n in entries :: IsTemporary(n) || exists s :: s in dir && n == FileName(s, dir[s]))
  }

  /** Ids are well-formed and used once. */
  ghost predicate IdsFit(dir: map<nat, Id>) {
    && (forall s | s in dir :: ValidId(dir[s]))
    && (forall s, t | s in dir && t in dir && dir[s] == dir[t] :: s == t)
  }

  ghost predicate NumbersFit(dir: map<nat, Id>) {
    forall s | s in dir :: s < Power10(WIDTH)
  }

  /** The queue lists exactly the directory, in order. */
  ghost predicate Lists(queue: seq<Prompt>, dir: map<nat, Id>) {
    && Ascending(queue)
    && (forall p | p in queue :: p.sequence in dir && dir[p.sequence] == p.id)
    && (forall s | s in dir :: Prompt(s, dir[s]) in queue)
  }

  lemma NotTemporary(sequence: nat, id: Id)
    ensures !IsTemporary(FileName(sequence, id))
  {
    var name := FileName(sequence, id);
    PadIsDigits(sequence, WIDTH);
    assert name[0] == Pad(sequence, WIDTH)[0] && Pad(sequence, WIDTH)[0] in Pad(sequence, WIDTH);
    assert name[..8][0] != ".prompt-"[0];
  }

  /** A file the queue can be refilled from: its name fits the pattern and its content carries the same id. */
  predicate Readable(name: string, content: Option<Id>) {
    Parse(name).Some? && content == Some(Parse(name).value.id)
  }

  /** What one name of a listing contributes. */
  predicate Gives(name: string, p: Prompt) {
    !IsTemporary(name) && Parse(name) == Some(p)
  }

  function One(name: string): (r: seq<Prompt>)
    ensures forall p :: p in r <==> Gives(name, p)
    ensures |r| <= 1
  {
    if IsTemporary(name) || Parse(name).None? then [] else [Parse(name).value]
  }

  /** The prompts of a listing, in its order. */
  function Prompts(names: seq<string>): (r: seq<Prompt>) {
    if names == [] then [] else Prompts(names[..|names| - 1]) + One(names[|names| - 1])
  }

  function Highest(queue: seq<Prompt>): (n: nat)
    ensures forall p | p in queue :: p.sequence <= n
    ensures queue == [] ==> n == 0
    ensures queue != [] ==> exists p :: p in queue && p.sequence == n
  {
    if queue == [] then 0
    else
      var k := |queue| - 1;
      assert queue == queue[..k] + [queue[k]];
      if queue[k].sequence > Highest(queue[..k]) then queue[k].sequence
      else assert k == 0 ==> queue[k].sequence == 0; Highest(queue[..k])
  }

  lemma HighestOfMore(queue: seq<Prompt>, p: Prompt)
    ensures Highest(queue + [p]) == if p.sequence > Highest(queue) then p.sequence else Highest(queue)
  {
    assert (queue + [p])[..|queue|] == queue;
  }

  lemma PromptsOfMore(names: seq<string>, i: nat)
    requires i < |names|
    ensures Prompts(names[..i + 1]) == Prompts(names[..i]) + One(names[i])
  {
    assert names[..i + 1][..i] == names[..i];
  }

  /** Take one file into the queue, or say that it cannot be read. */
  method TakeFile(name: string, content: Option<Id>, before: Restored) returns (ok: bool, r: Restored)
    requires before == RestoredFrom(before.queue)
    ensures ok <==> IsTemporary(name) || Readable(name, content)
    ensures ok ==> r == RestoredFrom(before.queue + One(name))
  {
    r := before;
    if IsTemporary(name) {
      assert before.queue + [] == before.queue;
      return true, r;
    }
    var prompt := Parse(name);
    if prompt.None? || content != Some(prompt.value.id) { return false, r; }
    HighestOfMore(before.queue, prompt.value);
    FilesOfMore(before.queue, prompt.value);
    var sequence := if prompt.value.sequence > before.sequence then prompt.value.sequence else before.sequence;
    return true, Restored(before.queue + [prompt.value], before.files[prompt.value.id := prompt.value.sequence],
                          sequence);
  }

  /** The file each prompt is deleted through. */
  function FilesOf(queue: seq<Prompt>): (files: map<Id, nat>) {
    if queue == [] then map[]
    else
      var k := |queue| - 1;
      FilesOf(queue[..k])[queue[k].id := queue[k].sequence]
  }

  lemma FilesOfMore(queue: seq<Prompt>, p: Prompt)
    ensures FilesOf(queue + [p]) == FilesOf(queue)[p.id := p.sequence]
  {
    assert (queue + [p])[..|queue|] == queue;
  }

  predicate FileOk(entries: map<string, Option<Id>>, n: string) {
    n in entries && (IsTemporary(n) || Readable(n, entries[n]))
  }

  ghost predicate AllOk(entries: map<string, Option<Id>>) {
    forall n | n in entries :: FileOk(entries, n)
  }

  function RestoredFrom(queue: seq<Prompt>): (r: Restored) {
    Restored(queue, FilesOf(queue), Highest(queue))
  }

  /**
   What a start makes of a directory: it fails over a file it cannot read, and otherwise takes all prompts in
   the order of the names.
   */
  ghost predicate Restores(entries: map<string, Option<Id>>, sorted: seq<string>, r: Option<Restored>) {
    && Sorted(sorted) && Elements(sorted) == entries.Keys
    && r == if AllOk(entries) then Some(RestoredFrom(Prompts(sorted))) else None
  }

  /** The first `i` names of a listing can be read. */
  ghost predicate OkUpTo(entries: map<string, Option<Id>>, names: seq<string>, i: nat)
    requires i <= |names|
  {
    forall k | 0 <= k < i :: FileOk(entries, names[k])
  }

  lemma AllListedOk(entries: map<string, Option<Id>>, names: seq<string>)
    requires Elements(names) == entries.Keys && OkUpTo(entries, names, |names|)
    ensures AllOk(entries)
  {
    forall n | n in entries ensures FileOk(entries, n) {
      assert n in Elements(names);
      var k :| 0 <= k < |names| && names[k] == n;
    }
  }

  function StateAt(names: seq<string>, i: nat): (r: Restored)
    requires i <= |names|
  {
    RestoredFrom(Prompts(names[..i]))
  }

  lemma NextState(names: seq<string>, i: nat)
    requires i < |names|
    ensures StateAt(names, i + 1) == RestoredFrom(StateAt(names, i).queue + One(names[i]))
  {
    PromptsOfMore(names, i);
  }

  lemma LastState(names: seq<string>)
    ensures StateAt(names, 0) == Restored([], map[], 0) && StateAt(names, |names|) == RestoredFrom(Prompts(names))
  {
    assert names[..0] == [] && names[..|names|] == names;
  }

  /**
   Go through the files in the order of their names; a file that is neither temporary nor readable stops the
   start.
   */
  method RestorePromptQueue(entries: map<string, Option<Id>>) returns (r: Option<Restored>)
    ensures r.Some? <==> AllOk(entries)
    ensures exists sorted :: Restores(entries, sorted, r)
  {
    var names := SortNames(entries.Keys);
    var state := Restored([], map[], 0);
    LastState(names);
    for i := 0 to |names|
      invariant state == StateAt(names, i) && OkUpTo(entries, names, i)
    {
      assert names[i] in Elements(names);
      NextState(names, i);
      var ok, next := TakeFile(names[i], entries[names[i]], state);
      if !ok {
        assert !FileOk(entries, names[i]);
        assert Restores(entries, names, None);
        return None;
      }
      state := next;
    }
    AllListedOk(entries, names);
    assert Restores(entries, names, Some(state));
    r := Some(state);
  }

  // ----- What a refilled queue holds

  lemma {:induction false} PromptIsListed(names: seq<string>, p: Prompt)
    ensures p in Prompts(names) <==> exists k :: 0 <= k < |names| && Gives(names[k], p)
    decreases |names|
  {
    if names != [] {
      var k := |names| - 1;
      var front := names[..k];
      PromptIsListed(front, p);
      assert p in Prompts(names) <==> p in Prompts(front) || Gives(names[k], p);
      if p in Prompts(front) {
        var m :| 0 <= m < k && Gives(front[m], p);
        assert Gives(names[m], p);
      }
      if m :| 0 <= m < |names| && Gives(names[m], p) {
        if m < k { assert Gives(front[m], p); }
      }
    }
  }

  lemma SmallerName(m: nat, n: nat, idM: Id, idN: Id)
    requires m < Power10(WIDTH) && n < Power10(WIDTH) && Less(FileName(m, idM), FileName(n, idN))
             && (m == n ==> idM == idN)
    ensures m < n
  {
    LessIsTotal(FileName(m, idM), FileName(n, idN));
    LessIsTotal(FileName(m, idM), FileName(m, idM));
    if n < m { NamesSortAsNumbers(n, m, idN, idM); }
  }

  lemma NameOfPrompt(names: set<string>, dir: map<nat, Id>, name: string)
    requires Holds(names, dir) && name in names && !IsTemporary(name)
    ensures Parse(name).Some? && var p := Parse(name).value;
            p.sequence in dir && dir[p.sequence] == p.id && name == FileName(p.sequence, p.id)
  {
    var s :| s in dir && name == FileName(s, dir[s]);
    NameReadsBack(s, dir[s]);
  }

  /** A prompt listed before another has the smaller number. */
  lemma ListedBefore(names: set<string>, dir: map<nat, Id>, front: seq<string>, name: string, p: Prompt)
    requires Holds(names, dir) && Elements(front) <= names && name in names && !IsTemporary(name)
    requires (forall n | n in front :: Less(n, name)) && p in Prompts(front)
    ensures Parse(name).Some? && p.sequence < Parse(name).value.sequence
  {
    PromptIsListed(front, p);
    var m :| 0 <= m < |front| && Gives(front[m], p);
    assert front[m] in Elements(front);
    NameOfPrompt(names, dir, front[m]);
    NameOfPrompt(names, dir, name);
    assert Less(front[m], name);
    SmallerName(p.sequence, Parse(name).value.sequence, p.id, Parse(name).value.id);
  }

  lemma AscendingMore(queue: seq<Prompt>, last: Prompt)
    requires Ascending(queue) && forall p | p in queue :: p.sequence < last.sequence
    ensures Ascending(queue + [last])
  {
    var longer := queue + [last];
    forall i, j | 0 <= i < j < |longer| ensures longer[i].sequence < longer[j].sequence {
      if j == |queue| { assert queue[i] in queue; }
    }
  }

  lemma FrontOf(names: set<string>, sorted: seq<string>, k: nat)
    requires Sorted(sorted) && Elements(sorted) <= names && |sorted| == k + 1
    ensures Sorted(sorted[..k]) && Elements(sorted[..k]) <= names && sorted[k] in names
    ensures forall n | n in sorted[..k] :: Less(n, sorted[k])
  {
    assert sorted[k] in Elements(sorted);
    forall n | n in Elements(sorted[..k]) ensures n in names { assert n in Elements(sorted); }
  }

  lemma {:induction false} PromptsAscend(names: set<string>, dir: map<nat, Id>, sorted: seq<string>)
    requires Holds(names, dir) && Sorted(sorted) && Elements(sorted) <= names
    ensures Ascending(Prompts(sorted))
    decreases |sorted|
  {
    if sorted != [] {
      var k := |sorted| - 1;
      var front, name := sorted[..k], sorted[k];
      FrontOf(names, sorted, k);
      PromptsAscend(names, dir, front);
      if IsTemporary(name) {
        assert Prompts(sorted) == Prompts(front);
      } else {
        NameOfPrompt(names, dir, name);
        forall p | p in Prompts(front) ensures p.sequence < Parse(name).value.sequence {
          ListedBefore(names, dir, front, name, p);
        }
        AscendingMore(Prompts(front), Parse(name).value);
      }
    }
  }

  /** Sorted by name, the files of the directory give its prompts in the order of their sequence numbers. */
  lemma RestoredInOrder(names: set<string>, dir: map<nat, Id>, sorted: seq<string>)
    requires Holds(names, dir) && Sorted(sorted) && Elements(sorted) == names
    ensures Lists(Prompts(sorted), dir)
  {
    PromptsAscend(names, dir, sorted);
    forall p | p in Prompts(sorted) ensures p.sequence in dir && dir[p.sequence] == p.id {
      PromptIsListed(sorted, p);
      var k :| 0 <= k < |sorted| && Gives(sorted[k], p);
      assert sorted[k] in Elements(sorted);
      NameOfPrompt(names, dir, sorted[k]);
    }
    forall s | s in dir ensures Prompt(s, dir[s]) in Prompts(sorted) {
      assert FileName(s, dir[s]) in Elements(sorted);
      var k :| 0 <= k < |sorted| && sorted[k] == FileName(s, dir[s]);
      NotTemporary(s, dir[s]);
      NameReadsBack(s, dir[s]);
      assert Gives(sorted[k], Prompt(s, dir[s]));
      PromptIsListed(sorted, Prompt(s, dir[s]));
    }
  }

  /** A temporary name is what a temporary file is called. */
  lemma TemporaryIff(name: string)
    ensures IsTemporary(name) <==> exists middle :: name == ".prompt-" + middle + ".tmp"
  {
    if IsTemporary(name) {
      var end := name[|name| - 4..];
      assert end[0] == '.' && end[1] == 't' && end[2] == 'm' && end[3] == 'p' && name[7] == name[..8][7] == '-';
      assert |name| >= 12;
      assert name == ".prompt-" + name[8..|name| - 4] + ".tmp";
    }
    if middle :| name == ".prompt-" + middle + ".tmp" {
      assert name[..8] == ".prompt-" && name[|name| - 4..] == ".tmp";
    }
  }

  /** A file a start can deal with. */
  ghost predicate Acceptable(name: string, content: Option<Id>) {
    || (exists middle :: name == ".prompt-" + middle + ".tmp")
    || (exists p: Prompt :: IsFileOf(name, p) && content == Some(p.id))
  }

  /** The name is the one written for this prompt. */
  ghost predicate IsFileOf(name: string, p: Prompt) {
    ValidId(p.id) && p.sequence < Power10(20) && name == FileName(p.sequence, p.id)
  }

  lemma OkIff(entries: map<string, Option<Id>>, n: string)
    requires n in entries
    ensures FileOk(entries, n) <==> Acceptable(n, entries[n])
  {
    TemporaryIff(n);
    forall p: Prompt ensures Parse(n) == Some(p) <==> IsFileOf(n, p) { MatchesIff(n, p); }
    if Parse(n).Some? { assert IsFileOf(n, Parse(n).value); }
  }

  lemma {:induction false} FilesAreOf(queue: seq<Prompt>)
    ensures forall id | id in FilesOf(queue) :: Prompt(FilesOf(queue)[id], id) in queue
    ensures forall p | p in queue :: p.id in FilesOf(queue)
    decreases |queue|
  {
    if queue != [] {
      var k := |queue| - 1;
      assert queue == queue[..k] + [queue[k]];
      FilesAreOf(queue[..k]);
    }
  }

  /**
   A start on any directory: it fails exactly over a file that is neither temporary nor a prompt's own, with
   the same id inside. Otherwise the queue has exactly the prompts with a file, each is deleted through a file
   of its own id, and the next number is above all of them.
   */
  lemma StartOnAnyDirectory(entries: map<string, Option<Id>>, sorted: seq<string>, r: Option<Restored>)
    requires Restores(entries, sorted, r)
    ensures r.Some? <==> forall n | n in entries :: Acceptable(n, entries[n])
    ensures r.Some? ==>
              && (forall p :: p in r.value.queue <==> exists n :: n in entries && IsFileOf(n, p))
              && (forall p | p in r.value.queue :: p.id in r.value.files && p.sequence <= r.value.sequence)
              && (forall id | id in r.value.files :: Prompt(r.value.files[id], id) in r.value.queue)
              && (r.value.sequence == 0 || exists p :: p in r.value.queue && p.sequence == r.value.sequence)
  {
    forall n | n in entries ensures FileOk(entries, n) <==> Acceptable(n, entries[n]) { OkIff(entries, n); }
    if r.Some? {
      FilesAreOf(r.value.queue);
      forall p ensures p in r.value.queue <==> exists n :: n in entries && IsFileOf(n, p) {
        QueuedIff(entries, sorted, p);
      }
    }
  }

  lemma QueuedIff(entries: map<string, Option<Id>>, sorted: seq<string>, p: Prompt)
    requires Elements(sorted) == entries.Keys
    ensures p in Prompts(sorted) <==> exists n :: n in entries && IsFileOf(n, p)
  {
    PromptIsListed(sorted, p);
    if k :| 0 <= k < |sorted| && Gives(sorted[k], p) {
      assert sorted[k] in Elements(sorted);
      MatchesIff(sorted[k], p);
    }
    if n :| n in entries && IsFileOf(n, p) {
      assert n in Elements(sorted);
      var k :| 0 <= k < |sorted| && sorted[k] == n;
      MatchesIff(n, p);
      NotTemporary(p.sequence, p.id);
      assert Gives(sorted[k], p);
    }
  }

  lemma StartReadsAll(entries: map<string, Option<Id>>, dir: map<nat, Id>)
    requires FilesAre(entries, dir) && IdsFit(dir) && NumbersFit(dir)
    ensures AllOk(entries) && Holds(entries.Keys, dir)
  {
    forall n | n in entries ensures FileOk(entries, n) {
      if !IsTemporary(n) {
        var s :| s in dir && n == FileName(s, dir[s]);
        NameReadsBack(s, dir[s]);
      }
    }
  }

  lemma StartRefuses(entries: map<string, Option<Id>>, dir: map<nat, Id>, s: nat)
    requires FilesAre(entries, dir) && IdsFit(dir) && s in dir && s >= Power10(WIDTH)
    ensures !AllOk(entries)
  {
    NotTemporary(s, dir[s]);
    NameReadsBack(s, dir[s]);
    assert !FileOk(entries, FileName(s, dir[s]));
  }

  /**
   A start succeeds if and only if all numbers fit their width, and then the queue is the whole directory in
   order.
   */
  lemma StartsIff(entries: map<string, Option<Id>>, dir: map<nat, Id>, sorted: seq<string>, r: Option<Restored>)
    requires FilesAre(entries, dir) && IdsFit(dir) && Restores(entries, sorted, r)
    ensures r.Some? <==> NumbersFit(dir)
    ensures r.Some? ==> Lists(r.value.queue, dir) && r.value.sequence == Highest(r.value.queue)
  {
    if NumbersFit(dir) {
      StartReadsAll(entries, dir);
      RestoredInOrder(entries.Keys, dir, sorted);
    } else {
      var s :| s in dir && s >= Power10(WIDTH);
      StartRefuses(entries, dir, s);
    }
  }
}
