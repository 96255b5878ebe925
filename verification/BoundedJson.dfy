/**
 The bounded decoder of claim documents: it reads a token stream and gives up at the first limit that
 is passed. On the tokens of a JSON value it either returns that value or the value breaks a limit.
 */
module BoundedJson {

  datatype Limits = Limits(maxDepth: nat, maxArrayItems: nat, maxObjectProperties: nat, maxTotalNodes: nat,
                           maxStringBytes: nat)

  datatype Token = ObjectStart | ObjectEnd | ArrayStart | ArrayEnd | Text(text: string) | Number(digits: string)
      | Truth(truth: bool) | Null

  /** A JSON text, with the members of an object in the order written. */
  datatype Json = Scalar(token: Token) | Array(items: Items) | Object(members: Members)
  datatype Items = NoItems | Item(head: Json, tail: Items)
  datatype Members = NoMembers | Member(key: string, value: Json, others: Members)

  /** What the decoder returns. */
  datatype Value = Leaf(token: Token) | List(items: seq<Value>) | Map(members: map<string, Value>)

  datatype Result = Failed | Decoded(value: Value, rest: seq<Token>, nodes: nat)

  predicate IsScalar(t: Token) {
    t.Text? || t.Number? || t.Truth? || t.Null?
  }

  // ----- JSON texts and what they mean

  predicate WellFormed(v: Json) {
    match v
    case Scalar(t) => IsScalar(t)
    case Array(items) => AllWellFormed(items)
    case Object(members) => MembersWellFormed(members)
  }

  predicate AllWellFormed(items: Items) {
    items.Item? ==> WellFormed(items.head) && AllWellFormed(items.tail)
  }

  predicate MembersWellFormed(members: Members) {
    members.Member? ==> WellFormed(members.value) && MembersWellFormed(members.others)
  }

  function Tokens(v: Json): (ts: seq<Token>) {
    match v
    case Scalar(t) => [t]
    case Array(items) => [ArrayStart] + (ItemTokens(items) + [ArrayEnd])
    case Object(members) => [ObjectStart] + (MemberTokens(members) + [ObjectEnd])
  }

  function ItemTokens(items: Items): (ts: seq<Token>) {
    match items
    case NoItems => []
    case Item(head, tail) => Tokens(head) + ItemTokens(tail)
  }

  function MemberTokens(members: Members): (ts: seq<Token>) {
    match members
    case NoMembers => []
    case Member(key, value, others) => [Text(key)] + (Tokens(value) + MemberTokens(others))
  }

  /** The number of values in a text, the text itself included. Keys are not values. */
  function Size(v: Json): (n: nat) {
    match v
    case Scalar(_) => 1
    case Array(items) => 1 + ItemsSize(items)
    case Object(members) => 1 + MembersSize(members)
  }

  function ItemsSize(items: Items): (n: nat) {
    if items.NoItems? then 0 else Size(items.head) + ItemsSize(items.tail)
  }

  function MembersSize(members: Members): (n: nat) {
    if members.NoMembers? then 0 else Size(members.value) + MembersSize(members.others)
  }

  function Length(items: Items): (n: nat) {
    if items.NoItems? then 0 else 1 + Length(items.tail)
  }

  function Keys(members: Members): (keys: seq<string>) {
    if members.NoMembers? then [] else [members.key] + Keys(members.others)
  }

  predicate Distinct(keys: seq<string>) {
    forall i, j | 0 <= i < j < |keys| :: keys[i] != keys[j]
  }

  function Meaning(v: Json): (r: Value) {
    match v
    case Scalar(t) => Leaf(t)
    case Array(items) => List(ItemsMeaning(items))
    case Object(members) => Map(MembersMeaning(members))
  }

  function ItemsMeaning(items: Items): (r: seq<Value>) {
    if items.NoItems? then [] else [Meaning(items.head)] + ItemsMeaning(items.tail)
  }

  /** The first member with a key gives its value. */
  function MembersMeaning(members: Members): (r: map<string, Value>) {
    if members.NoMembers? then map[] else MembersMeaning(members.others)[members.key := Meaning(members.value)]
  }

  /** All limits but the one on the number of values. */
  predicate Fits(v: Json, depth: int, l: Limits) {
    && depth <= l.maxDepth
    && match v
       case Scalar(t) => t.Text? ==> |t.text| <= l.maxStringBytes
       case Array(items) => Length(items) <= l.maxArrayItems && ItemsFit(items, depth + 1, l)
       case Object(members) =>
         && |Keys(members)| <= l.maxObjectProperties && Distinct(Keys(members)) && MembersFit(members, depth + 1, l)
  }

  predicate ItemsFit(items: Items, depth: int, l: Limits) {
    items.Item? ==> Fits(items.head, depth, l) && ItemsFit(items.tail, depth, l)
  }

  predicate MembersFit(members: Members, depth: int, l: Limits) {
    members.Member? ==>
        |members.key| <= l.maxStringBytes && Fits(members.value, depth, l) && MembersFit(members.others, depth, l)
  }

  // ----- The decoder

  /** Whether another element follows in the current array or object. */
  predicate More(ts: seq<Token>) {
    ts != [] && !ts[0].ArrayEnd? && !ts[0].ObjectEnd?
  }

  function Decode(ts: seq<Token>, depth: int, l: Limits, nodes: nat): (r: Result)
    ensures r.Decoded? ==> |r.rest| < |ts|
    decreases |ts|, 0
  {
    if depth > l.maxDepth || ts == [] || nodes + 1 > l.maxTotalNodes then Failed
    else
      match ts[0]
      case ObjectStart => DecodeMembers(ts[1..], depth, l, nodes + 1, map[])
      case ArrayStart => DecodeItems(ts[1..], depth, l, nodes + 1, [])
      case Text(text) => if |text| > l.maxStringBytes then Failed else Decoded(Leaf(ts[0]), ts[1..], nodes + 1)
      case ObjectEnd => Failed
      case ArrayEnd => Failed
      case _ => Decoded(Leaf(ts[0]), ts[1..], nodes + 1)
  }

  function DecodeItems(ts: seq<Token>, depth: int, l: Limits, nodes: nat, done: seq<Value>): (r: Result)
    ensures r.Decoded? ==> |r.rest| < |ts|
    decreases |ts|, 1
  {
    if More(ts) then
      if |done| >= l.maxArrayItems then Failed
      else
        var item := Decode(ts, depth + 1, l, nodes);
        if item.Failed? then Failed else DecodeItems(item.rest, depth, l, item.nodes, done + [item.value])
    else if ts != [] && ts[0].ArrayEnd? then Decoded(List(done), ts[1..], nodes)
    else Failed
  }

  function DecodeMembers(ts: seq<Token>, depth: int, l: Limits, nodes: nat, found: map<string, Value>): (r: Result)
    ensures r.Decoded? ==> |r.rest| < |ts|
    decreases |ts|, 1
  {
    if More(ts) then
      if |found| >= l.maxObjectProperties then Failed
      else if !ts[0].Text? || |ts[0].text| > l.maxStringBytes || ts[0].text in found then Failed
      else
        var member := Decode(ts[1..], depth + 1, l, nodes);
        if member.Failed? then Failed
        else DecodeMembers(member.rest, depth, l, member.nodes, found[ts[0].text := member.value])
    else if ts != [] && ts[0].ObjectEnd? then Decoded(Map(found), ts[1..], nodes)
    else Failed
  }

  /** The decoder as it runs: a loop for the elements of an array or object, a call for each of them. */
  method DecodeBoundedJson(ts: seq<Token>, depth: int, l: Limits, nodes: nat) returns (r: Result)
    ensures r == Decode(ts, depth, l, nodes)
    decreases |ts|
  {
    if depth > l.maxDepth || ts == [] { return Failed; }
    var count: nat := nodes + 1;
    if count > l.maxTotalNodes { return Failed; }
    var rest := ts[1..];
    match ts[0] {
      case ObjectStart =>
        var found: map<string, Value> := map[];
        while More(rest)
          invariant |rest| < |ts|
          invariant Decode(ts, depth, l, nodes) == DecodeMembers(rest, depth, l, count, found)
          decreases |rest|
        {
          if |found| >= l.maxObjectProperties { return Failed; }
          if !rest[0].Text? || |rest[0].text| > l.maxStringBytes { return Failed; }
          var key := rest[0].text;
          if key in found { return Failed; }
          var value := DecodeBoundedJson(rest[1..], depth + 1, l, count);
          if value.Failed? { return Failed; }
          found := found[key := value.value];
          rest, count := value.rest, value.nodes;
        }
        if rest == [] || !rest[0].ObjectEnd? { return Failed; }
        return Decoded(Map(found), rest[1..], count);
      case ArrayStart =>
        var done: seq<Value> := [];
        while More(rest)
          invariant |rest| < |ts|
          invariant Decode(ts, depth, l, nodes) == DecodeItems(rest, depth, l, count, done)
          decreases |rest|
        {
          if |done| >= l.maxArrayItems { return Failed; }
          var value := DecodeBoundedJson(rest, depth + 1, l, count);
          if value.Failed? { return Failed; }
          done := done + [value.value];
          rest, count := value.rest, value.nodes;
        }
        if rest == [] || !rest[0].ArrayEnd? { return Failed; }
        return Decoded(List(done), rest[1..], count);
      case Text(text) =>
        if |text| > l.maxStringBytes { return Failed; }
        return Decoded(Leaf(ts[0]), rest, count);
      case ObjectEnd => return Failed;
      case ArrayEnd => return Failed;
      case _ => return Decoded(Leaf(ts[0]), rest, count);
    }
  }

  // ----- On the tokens of a value

  function Expected(ok: bool, value: Value, rest: seq<Token>, nodes: nat): (r: Result) {
    if ok then Decoded(value, rest, nodes) else Failed
  }

  lemma TokensStart(v: Json)
    requires WellFormed(v)
    ensures Tokens(v) != [] && More(Tokens(v))
  {
  }

  /** The checks on items, one after the other, when `held` items of the array have been read. */
  predicate ItemsPass(items: Items, depth: int, l: Limits, nodes: nat, held: nat)
    decreases items
  {
    items.Item? ==>
      && held < l.maxArrayItems && Fits(items.head, depth, l) && nodes + Size(items.head) <= l.maxTotalNodes
      && ItemsPass(items.tail, depth, l, nodes + Size(items.head), held + 1)
  }

  lemma {:induction false} ItemsPassIff(items: Items, depth: int, l: Limits, nodes: nat, held: nat)
    requires nodes <= l.maxTotalNodes && held <= l.maxArrayItems
    ensures ItemsPass(items, depth, l, nodes, held) <==>
            held + Length(items) <= l.maxArrayItems && ItemsFit(items, depth, l)
              && nodes + ItemsSize(items) <= l.maxTotalNodes
    decreases items
  {
    if items.Item? {
      var tail, size := items.tail, Size(items.head);
      if held < l.maxArrayItems && nodes + size <= l.maxTotalNodes {
        ItemsPassIff(tail, depth, l, nodes + size, held + 1);
      }
      OneAtATime(held, Length(tail), l.maxArrayItems, Fits(items.head, depth, l), ItemsFit(tail, depth, l),
                 nodes, size, ItemsSize(tail), l.maxTotalNodes, ItemsPass(tail, depth, l, nodes + size, held + 1));
    }
  }

  lemma OneAtATime(held: nat, more: nat, room: nat, fits: bool, allFit: bool, nodes: nat, size: nat, sizes: nat,
                   limit: nat, pass: bool)
    requires held < room && nodes + size <= limit ==>
               (pass <==> held + 1 + more <= room && allFit && nodes + size + sizes <= limit)
    ensures held < room && fits && nodes + size <= limit && pass <==>
            held + (1 + more) <= room && (fits && allFit) && nodes + (size + sizes) <= limit
  {
  }

  predicate Fresh(keys: seq<string>, found: map<string, Value>) {
    Distinct(keys) && forall k | k in keys :: k !in found
  }

  /** The first member may be read: there is room for it, and its key is short enough and new. */
  predicate KeyPasses(key: string, l: Limits, found: map<string, Value>) {
    |found| < l.maxObjectProperties && |key| <= l.maxStringBytes && key !in found
  }

  /** The checks on members, one after the other. */
  predicate MembersPass(members: Members, depth: int, l: Limits, nodes: nat, found: map<string, Value>)
    decreases members
  {
    members.Member? ==>
      && KeyPasses(members.key, l, found) && Fits(members.value, depth, l)
         && nodes + Size(members.value) <= l.maxTotalNodes
      && MembersPass(members.others, depth, l, nodes + Size(members.value),
                     found[members.key := Meaning(members.value)])
  }

  /** The same checks on all members together. */
  predicate MembersWithin(members: Members, depth: int, l: Limits, nodes: nat, found: map<string, Value>) {
    && (members.NoMembers? || |found| + |Keys(members)| <= l.maxObjectProperties) && Fresh(Keys(members), found)
    && MembersFit(members, depth, l) && nodes + MembersSize(members) <= l.maxTotalNodes
  }

  ghost predicate Exact(v: Json, rest: seq<Token>, depth: int, l: Limits, nodes: nat) {
    Decode(Tokens(v) + rest, depth, l, nodes) ==
    Expected(Fits(v, depth, l) && nodes + Size(v) <= l.maxTotalNodes, Meaning(v), rest, nodes + Size(v))
  }

  ghost predicate ItemsExact(items: Items, rest: seq<Token>, depth: int, l: Limits, nodes: nat, done: seq<Value>) {
    nodes <= l.maxTotalNodes ==>
      DecodeItems(ItemTokens(items) + ([ArrayEnd] + rest), depth, l, nodes, done) ==
      Expected(ItemsPass(items, depth + 1, l, nodes, |done|), List(done + ItemsMeaning(items)), rest,
               nodes + ItemsSize(items))
  }

  ghost predicate MembersExact(members: Members, rest: seq<Token>, depth: int, l: Limits, nodes: nat, found: map<string,
                               Value>) {
    nodes <= l.maxTotalNodes ==>
      DecodeMembers(MemberTokens(members) + ([ObjectEnd] + rest), depth, l, nodes, found) ==
      Expected(MembersPass(members, depth + 1, l, nodes, found), Map(Joined(found, members)), rest,
               nodes + MembersSize(members))
  }

  /** What has been found together with what the members add, one after the other. */
  function Joined(found: map<string, Value>, members: Members): (r: map<string, Value>)
    decreases members
  {
    if members.NoMembers? then found else Joined(found[members.key := Meaning(members.value)], members.others)
  }

  /**
   On the tokens of a value, whatever follows them, the decoder returns exactly that value and counts
   exactly its values if all limits hold, and fails otherwise.
   */
  lemma {:induction false} DecodesExactly(v: Json, rest: seq<Token>, depth: int, l: Limits, nodes: nat)
    requires WellFormed(v)
    ensures Exact(v, rest, depth, l, nodes)
    decreases v, 0
  {
    match v
    case Scalar(t) => ScalarCase(t, rest, depth, l, nodes);
    case Array(items) =>
      ItemsDecodeExactly(items, rest, depth, l, nodes + 1, []);
      ArrayCase(items, rest, depth, l, nodes);
    case Object(members) =>
      MembersDecodeExactly(members, rest, depth, l, nodes + 1, map[]);
      ObjectCase(members, rest, depth, l, nodes);
  }

  lemma ScalarCase(t: Token, rest: seq<Token>, depth: int, l: Limits, nodes: nat)
    requires IsScalar(t)
    ensures Exact(Scalar(t), rest, depth, l, nodes)
  {
    var ts := Tokens(Scalar(t)) + rest;
    assert ts[0] == t && ts[1..] == rest;
  }

  lemma ArrayCase(items: Items, rest: seq<Token>, depth: int, l: Limits, nodes: nat)
    requires ItemsExact(items, rest, depth, l, nodes + 1, [])
    ensures Exact(Array(items), rest, depth, l, nodes)
  {
    var ts := Tokens(Array(items)) + rest;
    assert ts[0] == ArrayStart && ts[1..] == ItemTokens(items) + ([ArrayEnd] + rest);
    assert [] + ItemsMeaning(items) == ItemsMeaning(items);
    if nodes + 1 <= l.maxTotalNodes { ItemsPassIff(items, depth + 1, l, nodes + 1, 0); }
  }

  lemma ObjectCase(members: Members, rest: seq<Token>, depth: int, l: Limits, nodes: nat)
    requires MembersExact(members, rest, depth, l, nodes + 1, map[])
    ensures Exact(Object(members), rest, depth, l, nodes)
  {
    var ts := Tokens(Object(members)) + rest;
    assert ts[0] == ObjectStart && ts[1..] == MemberTokens(members) + ([ObjectEnd] + rest);
    if nodes + 1 <= l.maxTotalNodes {
      PassIsWithin(members, depth + 1, l, nodes + 1, map[]);
      WithinIsFit(members, depth, l, nodes);
      if MembersPass(members, depth + 1, l, nodes + 1, map[]) { JoinedIsWhole(members); }
    }
  }

  lemma WithinIsFit(members: Members, depth: int, l: Limits, nodes: nat)
    requires nodes + 1 <= l.maxTotalNodes
    ensures depth <= l.maxDepth && MembersWithin(members, depth + 1, l, nodes + 1, map[]) <==>
            Fits(Object(members), depth, l) && nodes + Size(Object(members)) <= l.maxTotalNodes
  {
    assert members.NoMembers? ==> Keys(members) == [];
  }

  lemma JoinedIsWhole(members: Members)
    requires Fresh(Keys(members), map[])
    ensures Joined(map[], members) == MembersMeaning(members)
  {
    JoinedIsMeaning(members, map[]);
    assert map[] + MembersMeaning(members) == MembersMeaning(members);
  }

  lemma {:induction false} PassIsWithin(members: Members, depth: int, l: Limits, nodes: nat, found: map<string, Value>)
    requires nodes <= l.maxTotalNodes
    ensures MembersPass(members, depth, l, nodes, found) <==> MembersWithin(members, depth, l, nodes, found)
    decreases members
  {
    if members.Member? {
      MembersWithinOn(members, depth, l, nodes, found);
      if nodes + Size(members.value) <= l.maxTotalNodes {
        PassIsWithin(members.others, depth, l, nodes + Size(members.value),
                     found[members.key := Meaning(members.value)]);
      }
    }
  }

  lemma {:induction false} JoinedIsMeaning(members: Members, found: map<string, Value>)
    requires Fresh(Keys(members), found)
    ensures Joined(found, members) == found + MembersMeaning(members)
    decreases members
  {
    if members.Member? {
      var found' := found[members.key := Meaning(members.value)];
      KeysAreFresh(members, found, found');
      JoinedIsMeaning(members.others, found');
      MeaningIsJoined(members, found);
    }
  }

  lemma {:induction false} ItemsDecodeExactly(items: Items, rest: seq<Token>, depth: int, l: Limits, nodes: nat,
                                              done: seq<Value>)
    requires AllWellFormed(items)
    ensures ItemsExact(items, rest, depth, l, nodes, done)
    decreases items, 1
  {
    match items
    case NoItems =>
      var ts := ItemTokens(items) + ([ArrayEnd] + rest);
      assert ts[0] == ArrayEnd && ts[1..] == rest;
      assert done + [] == done;
    case Item(head, tail) =>
      DecodesExactly(head, ItemTokens(tail) + ([ArrayEnd] + rest), depth + 1, l, nodes);
      ItemsDecodeExactly(tail, rest, depth, l, nodes + Size(head), done + [Meaning(head)]);
      TokensStart(head);
      ItemCase(items, rest, depth, l, nodes, done);
  }

  lemma ItemCase(items: Items, rest: seq<Token>, depth: int, l: Limits, nodes: nat, done: seq<Value>)
    requires items.Item? && More(Tokens(items.head))
             && Exact(items.head, ItemTokens(items.tail) + ([ArrayEnd] + rest), depth + 1, l, nodes)
    requires ItemsExact(items.tail, rest, depth, l, nodes + Size(items.head), done + [Meaning(items.head)])
    ensures ItemsExact(items, rest, depth, l, nodes, done)
  {
    var after := ItemTokens(items.tail) + ([ArrayEnd] + rest);
    assert ItemTokens(items) + ([ArrayEnd] + rest) == Tokens(items.head) + after;
    FirstItem(Tokens(items.head), after, depth, l, nodes, done);
    MeaningsJoined(items, done);
  }

  lemma MeaningsJoined(items: Items, done: seq<Value>)
    requires items.Item?
    ensures done + [Meaning(items.head)] + ItemsMeaning(items.tail) == done + ItemsMeaning(items)
    ensures |done + [Meaning(items.head)]| == |done| + 1
  {
    var head, tail := [Meaning(items.head)], ItemsMeaning(items.tail);
    assert ItemsMeaning(items) == head + tail;
    assert done + head + tail == done + (head + tail);
  }

  lemma FirstItem(ts: seq<Token>, after: seq<Token>, depth: int, l: Limits, nodes: nat, done: seq<Value>)
    requires More(ts)
    ensures DecodeItems(ts + after, depth, l, nodes, done) ==
            if |done| >= l.maxArrayItems then Failed
            else
              var item := Decode(ts + after, depth + 1, l, nodes);
              if item.Failed? then Failed else DecodeItems(item.rest, depth, l, item.nodes, done + [item.value])
  {
    assert (ts + after)[0] == ts[0];
  }

  lemma {:induction false} MembersDecodeExactly(members: Members, rest: seq<Token>, depth: int, l: Limits, nodes: nat,
                                                found: map<string, Value>)
    requires MembersWellFormed(members)
    ensures MembersExact(members, rest, depth, l, nodes, found)
    decreases members, 1
  {
    match members
    case NoMembers =>
      var ts := MemberTokens(members) + ([ObjectEnd] + rest);
      assert ts[0] == ObjectEnd && ts[1..] == rest;
    case Member(key, value, others) =>
      DecodesExactly(value, MemberTokens(others) + ([ObjectEnd] + rest), depth + 1, l, nodes);
      MembersDecodeExactly(others, rest, depth, l, nodes + Size(value), found[key := Meaning(value)]);
      MemberCase(members, rest, depth, l, nodes, found);
  }

  lemma MemberCase(members: Members, rest: seq<Token>, depth: int, l: Limits, nodes: nat, found: map<string, Value>)
    requires members.Member?
             && Exact(members.value, MemberTokens(members.others) + ([ObjectEnd] + rest), depth + 1, l, nodes)
    requires MembersExact(members.others, rest, depth, l, nodes + Size(members.value),
                          found[members.key := Meaning(members.value)])
    ensures MembersExact(members, rest, depth, l, nodes, found)
  {
    FrontMember(Text(members.key), Tokens(members.value), MemberTokens(members.others), [ObjectEnd] + rest);
    FirstMember(MemberTokens(members) + ([ObjectEnd] + rest), depth, l, nodes, found);
  }

  lemma FrontMember(t: Token, a: seq<Token>, b: seq<Token>, c: seq<Token>)
    ensures var ts := [t] + (a + b) + c; ts[0] == t && ts[1..] == a + (b + c)
  {
  }

  lemma FirstMember(ts: seq<Token>, depth: int, l: Limits, nodes: nat, found: map<string, Value>)
    requires ts != [] && ts[0].Text?
    ensures DecodeMembers(ts, depth, l, nodes, found) ==
            if !KeyPasses(ts[0].text, l, found) then Failed
            else
              var member := Decode(ts[1..], depth + 1, l, nodes);
              if member.Failed? then Failed
              else DecodeMembers(member.rest, depth, l, member.nodes, found[ts[0].text := member.value])
  {
  }

  /** The checks for a list of members are those for the first and then those for the others. */
  lemma MembersWithinOn(members: Members, depth: int, l: Limits, nodes: nat, found: map<string, Value>)
    requires members.Member?
    ensures MembersWithin(members, depth, l, nodes, found) <==>
            && KeyPasses(members.key, l, found) && Fits(members.value, depth, l)
               && nodes + Size(members.value) <= l.maxTotalNodes
            && MembersWithin(members.others, depth, l, nodes + Size(members.value),
                             found[members.key := Meaning(members.value)])
  {
    KeysAreFresh(members, found, found[members.key := Meaning(members.value)]);
  }

  lemma KeysAreFresh(members: Members, found: map<string, Value>, found': map<string, Value>)
    requires members.Member? && found'.Keys == found.Keys + {members.key}
    ensures Fresh(Keys(members), found) <==> members.key !in found && Fresh(Keys(members.others), found')
    ensures members.key !in found ==> |found'| == |found| + 1
    ensures |Keys(members)| == 1 + |Keys(members.others)|
  {
    KeysOf(members);
    assert Keys(members)[0] in Keys(members);
    if members.key !in found {
      KeysApart(members, found, found');
    }
  }

  lemma MeaningIsJoined(members: Members, found: map<string, Value>)
    requires members.Member? && Fresh(Keys(members), found)
    ensures found[members.key := Meaning(members.value)] + MembersMeaning(members.others) ==
            found + MembersMeaning(members)
  {
    KeysOf(members);
    MeaningKeys(members.others);
  }

  lemma KeysOf(members: Members)
    requires members.Member?
    ensures Keys(members)[0] == members.key && Keys(members)[1..] == Keys(members.others)
    ensures Distinct(Keys(members)) <==> members.key !in Keys(members.others) && Distinct(Keys(members.others))
  {
    var keys := Keys(members);
    assert keys[1..] == Keys(members.others);
    if members.key !in Keys(members.others) && Distinct(Keys(members.others)) {
      forall i, j | 0 <= i < j < |keys| ensures keys[i] != keys[j] {
        assert keys[j] == Keys(members.others)[j - 1];
        if i > 0 { assert keys[i] == Keys(members.others)[i - 1]; }
      }
    }
    if Distinct(keys) {
      forall i, j | 0 <= i < j < |Keys(members.others)| ensures Keys(members.others)[i] != Keys(members.others)[j] {
        assert keys[i + 1] != keys[j + 1];
      }
    }
  }

  lemma KeysApart(members: Members, found: map<string, Value>, found': map<string, Value>)
    requires members.Member? && members.key !in found && found'.Keys == found.Keys + {members.key}
    ensures (forall k | k in Keys(members) :: k !in found) && members.key !in Keys(members.others) <==>
            (forall k | k in Keys(members.others) :: k !in found')
    ensures |found'| == |found| + 1
  {
    KeysOf(members);
    assert |found'.Keys| == |found.Keys| + 1;
    forall k ensures k in Keys(members) <==> k == members.key || k in Keys(members.others) {
      if k in Keys(members.others) {
        var j :| 0 <= j < |Keys(members.others)| && Keys(members.others)[j] == k;
        assert Keys(members)[j + 1] == k;
      }
    }
  }

  lemma {:induction false} MeaningKeys(members: Members)
    ensures forall k :: k in MembersMeaning(members) <==> k in Keys(members)
  {
    if members.Member? {
      MeaningKeys(members.others);
      forall k ensures k in MembersMeaning(members) <==> k in Keys(members) {
        if k in Keys(members.others) {
          var j :| 0 <= j < |Keys(members.others)| && Keys(members.others)[j] == k;
          assert Keys(members)[j + 1] == k;
        }
      }
    }
  }

  // ----- On any token stream

  lemma {:induction false} DecodedComesFrom(ts: seq<Token>, depth: int, l: Limits, nodes: nat) returns (v: Json)
    requires Decode(ts, depth, l, nodes).Decoded?
    ensures WellFormed(v) && ts == Tokens(v) + Decode(ts, depth, l, nodes).rest
    decreases |ts|, 0
  {
    var rest := Decode(ts, depth, l, nodes).rest;
    if ts[0].ObjectStart? {
      var members := MembersComeFrom(ts[1..], depth, l, nodes + 1, map[]);
      v := Object(members);
      InFront(ts, ObjectStart, MemberTokens(members), ObjectEnd, rest);
    } else if ts[0].ArrayStart? {
      var items := ItemsComeFrom(ts[1..], depth, l, nodes + 1, []);
      v := Array(items);
      InFront(ts, ArrayStart, ItemTokens(items), ArrayEnd, rest);
    } else {
      v := Scalar(ts[0]);
    }
  }

  lemma InFront(ts: seq<Token>, first: Token, inner: seq<Token>, last: Token, rest: seq<Token>)
    requires ts != [] && ts[0] == first && ts[1..] == inner + ([last] + rest)
    ensures ts == [first] + (inner + [last]) + rest
  {
    assert ts == [ts[0]] + ts[1..];
  }

  lemma {:induction false} ItemsComeFrom(ts: seq<Token>, depth: int, l: Limits, nodes: nat, done: seq<Value>)
    returns (items: Items)
    requires DecodeItems(ts, depth, l, nodes, done).Decoded?
    ensures AllWellFormed(items) && ts == ItemTokens(items) + ([ArrayEnd] + DecodeItems(ts, depth, l, nodes, done).rest)
    decreases |ts|, 1
  {
    if More(ts) {
      var item := Decode(ts, depth + 1, l, nodes);
      var head := DecodedComesFrom(ts, depth + 1, l, nodes);
      var tail := ItemsComeFrom(item.rest, depth, l, item.nodes, done + [item.value]);
      items := Item(head, tail);
    } else {
      items := NoItems;
    }
  }

  lemma {:induction false} MembersComeFrom(ts: seq<Token>, depth: int, l: Limits, nodes: nat, found: map<string, Value>)
    returns (members: Members)
    requires DecodeMembers(ts, depth, l, nodes, found).Decoded?
    ensures MembersWellFormed(members)
            && ts == MemberTokens(members) + ([ObjectEnd] + DecodeMembers(ts, depth, l, nodes, found).rest)
    decreases |ts|, 1
  {
    if More(ts) {
      var member := Decode(ts[1..], depth + 1, l, nodes);
      var value := DecodedComesFrom(ts[1..], depth + 1, l, nodes);
      var others := MembersComeFrom(member.rest, depth, l, member.nodes, found[ts[0].text := member.value]);
      members := Member(ts[0].text, value, others);
      FrontMember(ts[0], Tokens(value), MemberTokens(others),
                  [ObjectEnd] + DecodeMembers(ts, depth, l, nodes, found).rest);
      assert ts == [ts[0]] + ts[1..];
    } else {
      members := NoMembers;
    }
  }

  ghost predicate Reads(ts: seq<Token>, depth: int, l: Limits, nodes: nat, v: Json, rest: seq<Token>) {
    WellFormed(v) && ts == Tokens(v) + rest && Fits(v, depth, l) && nodes + Size(v) <= l.maxTotalNodes
  }

  /**
   On any token stream: the decoder succeeds exactly when the stream starts with the tokens of a value within
   the limits.
   */
  lemma SucceedsIff(ts: seq<Token>, depth: int, l: Limits, nodes: nat)
    ensures Decode(ts, depth, l, nodes).Decoded? <==> exists v, rest :: Reads(ts, depth, l, nodes, v, rest)
  {
    if Decode(ts, depth, l, nodes).Decoded? {
      var v := DecodedComesFrom(ts, depth, l, nodes);
      var rest := Decode(ts, depth, l, nodes).rest;
      DecodesExactly(v, rest, depth, l, nodes);
      assert Reads(ts, depth, l, nodes, v, rest);
    }
    if exists v, rest :: Reads(ts, depth, l, nodes, v, rest) {
      var v, rest :| Reads(ts, depth, l, nodes, v, rest);
      DecodesExactly(v, rest, depth, l, nodes);
    }
  }
}
