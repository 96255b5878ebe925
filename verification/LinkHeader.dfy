/**
 Link header fields as section 3 of RFC 8288 has them: values separated by commas, each a target in
 angle brackets followed by parameters. A field written in any way that grammar allows is either read
 as the section says, or refused; which of the two is decided exactly.
 */
module LinkHeader {
  import opened Wrappers
  import opened Texts

  datatype Link = Link(target: string, relations: seq<string>)

  predicate IsSpace(c: char) {
    || '\t' <= c <= '\r' || c == ' ' || c == '\U{85}' || c == '\U{A0}' || c == '\U{1680}'
      || '\U{2000}' <= c <= '\U{200A}'
    || c == '\U{2028}' || c == '\U{2029}' || c == '\U{202F}' || c == '\U{205F}' || c == '\U{3000}'
  }

  function TrimLeft(s: string): (r: string)
    ensures |r| <= |s|
  {
    if s != "" && IsSpace(s[0]) then TrimLeft(s[1..]) else s
  }

  function TrimRight(s: string): (r: string)
    ensures |r| <= |s|
  {
    if s != "" && IsSpace(s[|s| - 1]) then TrimRight(s[..|s| - 1]) else s
  }

  function Trim(s: string): (r: string)
    ensures |r| <= |s|
  {
    TrimRight(TrimLeft(s))
  }

  // ----- Splitting a header into values

  datatype Scan = Scan(quoted: bool, escaped: bool, angle: bool)

  const NEUTRAL := Scan(false, false, false)

  predicate Cuts(s: Scan, c: char) {
    s == NEUTRAL && c == ','
  }

  function Advance(s: Scan, c: char): (r: Option<Scan>) {
    if s.escaped then Some(s.(escaped := false))
    else if s.quoted && c == '\\' then Some(s.(escaped := true))
    else if c == '"' then Some(s.(quoted := !s.quoted))
    else if !s.quoted && c == '<' then if s.angle then None else Some(s.(angle := true))
    else if !s.quoted && c == '>' then if !s.angle then None else Some(s.(angle := false))
    else Some(s)
  }

  /** Split what remains; `piece` is what has been read of the current value. */
  function Pieces(piece: string, rest: string, s: Scan): (r: Option<seq<string>>)
    decreases |rest|
  {
    if rest == "" then
      if s != NEUTRAL || Trim(piece) == "" then None else Some([Trim(piece)])
    else if Cuts(s, rest[0]) then
      if Trim(piece) == "" then None
      else
        var more := Pieces("", rest[1..], NEUTRAL);
        if more.None? then None else Some([Trim(piece)] + more.value)
    else
      var next := Advance(s, rest[0]);
      if next.None? then None else Pieces(piece + [rest[0]], rest[1..], next.value)
  }

  function Split(header: string): (r: Option<seq<string>>) {
    Pieces("", header, NEUTRAL)
  }

  method SplitLinkHeader(header: string) returns (r: Option<seq<string>>)
    ensures r == Split(header)
  {
    var values: seq<string> := [];
    var start, angle := 0, 0;
    var quoted, escaped := false, false;
    assert header[0..] == header && header[0..0] == "";
    JoinNone(Split(header));
    for index := 0 to |header|
      invariant 0 <= start <= index && 0 <= angle <= 1 && (escaped ==> quoted)
      invariant Split(header) ==
                Join(values, Pieces(header[start..index], header[index..], Scan(quoted, escaped, angle == 1)))
    {
      var character := header[index];
      ghost var before := Scan(quoted, escaped, angle == 1);
      assert header[index..][0] == character && header[index..][1..] == header[index + 1..];
      assert header[start..index] + [character] == header[start..index + 1];
      if escaped {
        escaped := false;
      } else if quoted && character == '\\' {
        escaped := true;
      } else if character == '"' {
        quoted := !quoted;
      } else if !quoted && character == '<' {
        if angle != 0 { return None; }
        angle := 1;
      } else if !quoted && character == '>' {
        if angle != 1 { return None; }
        angle := 0;
      } else if !quoted && angle == 0 && character == ',' {
        var value := Trim(header[start..index]);
        if value == "" { return None; }
        JoinOneMore(values, value, Pieces("", header[index + 1..], NEUTRAL));
        values := values + [value];
        start := index + 1;
        assert header[start..index + 1] == "";
      }
    }
    assert header[|header|..] == "";
    if quoted || escaped || angle != 0 { return None; }
    var value := Trim(header[start..]);
    assert header[start..|header|] == header[start..];
    if value == "" { return None; }
    r := Some(values + [value]);
  }

  function Join(values: seq<string>, more: Option<seq<string>>): (r: Option<seq<string>>) {
    if more.None? then None else Some(values + more.value)
  }

  lemma JoinNone(more: Option<seq<string>>)
    ensures Join([], more) == more
  {
    if more.Some? { assert [] + more.value == more.value; }
  }

  lemma JoinOneMore(values: seq<string>, value: string, more: Option<seq<string>>)
    ensures Join(values, Join([value], more)) == Join(values + [value], more)
  {
    if more.Some? { assert values + ([value] + more.value) == values + [value] + more.value; }
  }

  // ----- Parameters

  predicate TokenChar(c: char) {
    'a' <= c <= 'z' || 'A' <= c <= 'Z' || '0' <= c <= '9' || c in "!#$%&'*+-.^_`|~"
  }

  predicate ValidToken(s: string) {
    s != "" && forall c | c in s :: TokenChar(c)
  }

  predicate ValidParameterToken(s: string) {
    s != "" && forall c | c in s :: c > ' ' && c != '\U{7F}' && c !in "\",;\\"
  }

  datatype Consumed = Consumed(parameter: string, rest: string)

  /** Read a quoted text up to its closing quote. */
  function Unquote(s: string, escaped: bool, read: string): (r: Option<Consumed>)
    ensures r.Some? ==> |r.value.rest| < |s|
    decreases |s|
  {
    if s == "" then None
    else if escaped then Unquote(s[1..], false, read + [s[0]])
    else if s[0] == '\\' then Unquote(s[1..], true, read)
    else if s[0] == '"' then Some(Consumed(read, s[1..]))
    else if s[0] < ' ' || s[0] == '\U{7F}' then None
    else Unquote(s[1..], false, read + [s[0]])
  }

  function Consume(s: string): (r: Option<Consumed>)
    ensures r.Some? ==> |r.value.rest| < |s|
  {
    if s == "" then None
    else if s[0] == '"' then Unquote(s[1..], false, "")
    else
      var end := IndexOf(s, ';');
      if ValidParameterToken(Trim(s[..end])) then Some(Consumed(Trim(s[..end]), s[end..])) else None
  }

  method ConsumeLinkParameter(value: string) returns (r: Option<Consumed>)
    ensures r == Consume(value)
  {
    if value == "" { return None; }
    if value[0] != '"' {
      var end := IndexOf(value, ';');
      var parameter := Trim(value[..end]);
      if !ValidParameterToken(parameter) { return None; }
      return Some(Consumed(parameter, value[end..]));
    }
    var result, escaped := "", false;
    for index := 1 to |value|
      invariant Consume(value) == Unquote(value[index..], escaped, result)
    {
      var character := value[index];
      assert value[index..][0] == character && value[index..][1..] == value[index + 1..];
      if escaped {
        result := result + [character];
        escaped := false;
        continue;
      }
      if character == '\\' {
        escaped := true;
        continue;
      }
      if character == '"' { return Some(Consumed(result, value[index + 1..])); }
      if character < ' ' || character == '\U{7F}' { return None; }
      result := result + [character];
    }
    r := None;
  }

  /** The words of a text. */
  function Fields(s: string): (words: seq<string>)
    decreases |s|
  {
    var t := TrimLeft(s);
    if t == "" then []
    else
      var end := WordEnd(t);
      [t[..end]] + Fields(t[end..])
  }

  function WordEnd(s: string): (i: nat)
    ensures i <= |s| && (s != "" && !IsSpace(s[0]) ==> 0 < i)
  {
    if s == "" || IsSpace(s[0]) then 0 else 1 + WordEnd(s[1..])
  }

  /** Words with white space before, between and after them. */
  function Spaced(words: seq<string>, gaps: seq<string>): (s: string)
    requires |gaps| == |words| + 1
  {
    if words == [] then gaps[0] else gaps[0] + (words[0] + Spaced(words[1..], gaps[1..]))
  }

  predicate Visible(word: string) {
    word != "" && forall c | c in word :: '!' <= c <= '~'
  }

  predicate Gap(s: string) {
    forall c | c in s :: c == ' ' || c == '\t'
  }

  ghost predicate WordsApart(words: seq<string>, gaps: seq<string>) {
    && |gaps| == |words| + 1 && (forall g | g in gaps :: Gap(g)) && (forall w | w in words :: Visible(w))
    && forall i | 0 < i < |words| :: gaps[i] != ""
  }

  lemma {:induction false} GapIsTrimmed(g: string, s: string)
    requires Gap(g) && (s == "" || !IsSpace(s[0]))
    ensures TrimLeft(g + s) == s
    decreases |g|
  {
    if g == "" {
      assert g + s == s;
    } else {
      assert g[0] in g && forall c | c in g[1..] :: c in g;
      assert (g + s)[0] == g[0] && (g + s)[1..] == g[1..] + s;
      GapIsTrimmed(g[1..], s);
    }
  }

  lemma {:induction false} WordEndsAt(word: string, rest: string)
    requires (forall c | c in word :: '!' <= c <= '~') && (rest == "" || IsSpace(rest[0]))
    ensures WordEnd(word + rest) == |word|
    decreases |word|
  {
    if word == "" {
      assert word + rest == rest;
    } else {
      assert word[0] in word && forall c | c in word[1..] :: c in word;
      assert (word + rest)[0] == word[0] && (word + rest)[1..] == word[1..] + rest;
      WordEndsAt(word[1..], rest);
    }
  }

  lemma FieldsStep(g: string, word: string, rest: string)
    requires Gap(g) && Visible(word) && (rest == "" || IsSpace(rest[0]))
    ensures Fields(g + (word + rest)) == [word] + Fields(rest)
  {
    var t := word + rest;
    assert word[0] in word && t[0] == word[0];
    GapIsTrimmed(g, t);
    WordEndsAt(word, rest);
    assert t[..|word|] == word && t[|word|..] == rest;
  }

  /** The words of a text are the words it was written from, in order. */
  lemma {:induction false} FieldsReadBack(words: seq<string>, gaps: seq<string>)
    requires WordsApart(words, gaps)
    ensures Fields(Spaced(words, gaps)) == words
    decreases |words|
  {
    assert gaps[0] in gaps;
    if words == [] {
      GapIsTrimmed(gaps[0], "");
      assert gaps[0] + "" == gaps[0];
    } else {
      var rest := Spaced(words[1..], gaps[1..]);
      TailApart(words, gaps);
      FieldsReadBack(words[1..], gaps[1..]);
      FieldsStep(gaps[0], words[0], rest);
      assert [words[0]] + words[1..] == words;
    }
  }

  lemma TailApart(words: seq<string>, gaps: seq<string>)
    requires WordsApart(words, gaps) && words != []
    ensures WordsApart(words[1..], gaps[1..]) && Visible(words[0]) && Gap(gaps[0])
    ensures var rest := Spaced(words[1..], gaps[1..]); rest == "" || IsSpace(rest[0])
  {
    assert words[0] in words && gaps[0] in gaps && gaps[1] in gaps;
    assert forall g | g in gaps[1..] :: g in gaps;
    assert forall w | w in words[1..] :: w in words;
    forall i | 0 < i < |words[1..]| ensures gaps[1..][i] != "" { assert gaps[i + 1] != ""; }
    if gaps[1] != "" { assert gaps[1][0] in gaps[1]; }
  }

  // ----- A link value

  datatype Taken = Taken(name: string, value: string, rest: string)

  /** The first parameter of what remains. */
  function NextParameter(remainder: string): (r: Option<Taken>)
    requires remainder != ""
    ensures r.Some? ==> |r.value.rest| < |remainder|
  {
    if remainder[0] != ';' then None
    else
      var parameter := Trim(remainder[1..]);
      var nameEnd := IndexOf(parameter, '=');
      if nameEnd == 0 || nameEnd == |parameter| then None
      else
        var name := Trim(parameter[..nameEnd]);
        var consumed := Consume(Trim(parameter[nameEnd + 1..]));
        if !ValidToken(name) || consumed.None? then None
        else Some(Taken(name, consumed.value.parameter, Trim(consumed.value.rest)))
  }

  /** Read the parameters; `relations` is what an earlier `rel` gave. */
  function Parameters(remainder: string, relations: Option<seq<string>>): (r: Option<seq<string>>)
    decreases |remainder|
  {
    if remainder == "" then Some(if relations.Some? then relations.value else [])
    else
      var taken := NextParameter(remainder);
      if taken.None? then None
      else if Folded(taken.value.name) != "rel" then Parameters(taken.value.rest, relations)
      else if relations.Some? || Fields(taken.value.value) == [] then None
      else Parameters(taken.value.rest, Some(Fields(taken.value.value)))
  }

  function ParseValue(value: string): (r: Option<Link>) {
    if value == "" || value[0] != '<' then None else ParseAt(value, IndexOf(value, '>'))
  }

  /** The target ends at `end`; the value starts with an angle bracket, so that is never its first character. */
  function ParseAt(value: string, end: nat): (r: Option<Link>)
    requires end <= |value|
  {
    if end == |value| || end < 1 then None else LinkOf(value[1..end], AfterTarget(value[end + 1..]))
  }

  function AfterTarget(text: string): (r: Option<seq<string>>) {
    Parameters(Trim(text), None)
  }

  function LinkOf(target: string, relations: Option<seq<string>>): (r: Option<Link>) {
    if relations.None? then None else Some(Link(target, relations.value))
  }

  method TakeParameter(remainder: string) returns (r: Option<Taken>)
    requires remainder != ""
    ensures r == NextParameter(remainder)
  {
    if remainder[0] != ';' { return None; }
    var parameter := Trim(remainder[1..]);
    var nameEnd := IndexOf(parameter, '=');
    if nameEnd == 0 || nameEnd == |parameter| { return None; }
    var name := Trim(parameter[..nameEnd]);
    if !ValidToken(name) { return None; }
    var consumed := ConsumeLinkParameter(Trim(parameter[nameEnd + 1..]));
    if consumed.None? { return None; }
    r := Some(Taken(name, consumed.value.parameter, Trim(consumed.value.rest)));
  }

  method ParseLinkParameters(text: string) returns (r: Option<seq<string>>)
    ensures r == AfterTarget(text)
  {
    var remainder := Trim(text);
    var relations: seq<string>, relSeen := [], false;
    while remainder != ""
      invariant !relSeen ==> relations == []
      invariant AfterTarget(text) == Parameters(remainder, if relSeen then Some(relations) else None)
      decreases |remainder|
    {
      var taken := TakeParameter(remainder);
      if taken.None? { return None; }
      remainder := taken.value.rest;
      if Folded(taken.value.name) == "rel" {
        if relSeen { return None; }
        relSeen := true;
        relations := Fields(taken.value.value);
        if relations == [] { return None; }
      }
    }
    r := Some(relations);
  }

  method ParseLinkValue(value: string) returns (r: Option<Link>)
    ensures r == ParseValue(value)
  {
    if value == "" || value[0] != '<' { return None; }
    var end := IndexOf(value, '>');
    if end == |value| || end < 1 { return None; }
    var relations := ParseLinkParameters(value[end + 1..]);
    r := LinkOf(value[1..end], relations);
  }

  function ParseAll(values: seq<string>): (r: Option<seq<Link>>) {
    if values == [] then Some([])
    else
      var first, more := ParseValue(values[0]), ParseAll(values[1..]);
      if first.None? || more.None? then None else Some([first.value] + more.value)
  }

  function ParseHeader(header: string): (r: Option<seq<Link>>) {
    var values := Split(header);
    if values.None? then None else ParseAll(values.value)
  }

  // ----- Everything the grammar allows

  /** A character of a quoted text, by itself or behind a backslash. */
  datatype Quote = Plain(c: char) | Pair(c: char)

  datatype ParameterValue = NoValue | Token(text: string) | Text(chars: seq<Quote>)

  /** White space is free around the semicolon and around the equals sign. */
  datatype Parameter = Parameter(before: string, after: string, name: string, left: string, right: string,
                                 value: ParameterValue)

  datatype Written = Written(target: string, parameters: seq<Parameter>)

  /** An element of the list; the list may have empty ones. */
  datatype Element = Element(before: string, link: Option<Written>, after: string)

  predicate Blank(s: string) {
    forall c | c in s :: c == ' ' || c == '\t'
  }

  function CharText(q: Quote): (r: string) {
    if q.Plain? then [q.c] else ['\\', q.c]
  }

  function WriteChars(cs: seq<Quote>): (r: string) {
    if cs == [] then "" else CharText(cs[0]) + WriteChars(cs[1..])
  }

  function QuotedText(cs: seq<Quote>): (r: string) {
    "\"" + (WriteChars(cs) + "\"")
  }

  function ValueText(v: ParameterValue): (r: string) {
    match v
    case NoValue => ""
    case Token(text) => text
    case Text(chars) => QuotedText(chars)
  }

  function AfterName(p: Parameter): (r: string) {
    if p.value.NoValue? then "" else p.left + ("=" + (p.right + ValueText(p.value)))
  }

  function Body(p: Parameter, more: string): (r: string) {
    p.name + (AfterName(p) + more)
  }

  function WriteParameters(ps: seq<Parameter>): (r: string) {
    if ps == [] then "" else ps[0].before + (";" + (ps[0].after + Body(ps[0], WriteParameters(ps[1..]))))
  }

  /** The parameters without the white space in front of them. */
  function Stripped(ps: seq<Parameter>): (r: string) {
    if ps == [] then "" else ";" + (ps[0].after + Body(ps[0], WriteParameters(ps[1..])))
  }

  function WriteLink(w: Written): (r: string) {
    "<" + (w.target + (">" + WriteParameters(w.parameters)))
  }

  function LinkText(e: Element): (r: string) {
    if e.link.None? then "" else WriteLink(e.link.value)
  }

  function WriteElement(e: Element): (r: string) {
    e.before + (LinkText(e) + e.after)
  }

  function WriteHeader(es: seq<Element>): (r: string)
    requires es != []
  {
    if |es| == 1 then WriteElement(es[0]) else WriteElement(es[0]) + ("," + WriteHeader(es[1..]))
  }

  predicate QuotableChar(c: char) {
    c == '\t' || (c >= ' ' && c != '\U{7F}')
  }

  predicate ValidQuote(q: Quote) {
    QuotableChar(q.c) && (q.Plain? ==> q.c != '"' && q.c != '\\')
  }

  ghost predicate ValidValue(v: ParameterValue) {
    match v
    case NoValue => true
    case Token(text) => ValidToken(text)
    case Text(chars) => forall q | q in chars :: ValidQuote(q)
  }

  ghost predicate ValidParameter(p: Parameter) {
    Blank(p.before) && Blank(p.after) && Blank(p.left) && Blank(p.right) && ValidToken(p.name) && ValidValue(p.value)
  }

  ghost predicate AllValid(ps: seq<Parameter>) {
    forall p | p in ps :: ValidParameter(p)
  }

  ghost predicate ValidLink(w: Written) {
    (forall c | c in w.target :: c != '<' && c != '>' && c != '"') && AllValid(w.parameters)
  }

  ghost predicate ValidElement(e: Element) {
    Blank(e.before) && Blank(e.after) && (e.link.Some? ==> ValidLink(e.link.value))
  }

  // ----- What it means, and what is refused

  function TextOf(cs: seq<Quote>): (r: string) {
    seq(|cs|, i requires 0 <= i < |cs| => cs[i].c)
  }

  function ValueOf(v: ParameterValue): (r: string) {
    match v
    case NoValue => ""
    case Token(text) => text
    case Text(chars) => TextOf(chars)
  }

  predicate IsRel(p: Parameter) {
    Folded(p.name) == "rel"
  }

  /** The relations are the words of the first `rel`; later ones are ignored. */
  function RelWords(ps: seq<Parameter>): (words: seq<string>) {
    if ps == [] then [] else if IsRel(ps[0]) then Fields(ValueOf(ps[0].value)) else RelWords(ps[1..])
  }

  function StandardLink(w: Written): (l: Link) {
    Link(w.target, RelWords(w.parameters))
  }

  /** The links of a list; its empty elements are ignored. */
  function StandardLinks(es: seq<Element>): (links: seq<Link>) {
    if es == [] then []
    else (if es[0].link.None? then [] else [StandardLink(es[0].link.value)]) + StandardLinks(es[1..])
  }

  /** The reader wants a value, and no bare tab in a quoted one. */
  predicate Readable(v: ParameterValue) {
    match v
    case NoValue => false
    case Token(_) => true
    case Text(chars) => Plain('\t') !in chars
  }

  function RelCount(ps: seq<Parameter>): (n: nat) {
    if ps == [] then 0 else (if IsRel(ps[0]) then 1 else 0) + RelCount(ps[1..])
  }

  /** What the reader does not refuse: every value readable, and no second or empty `rel`. */
  ghost predicate ParametersAccepted(ps: seq<Parameter>) {
    && (forall p | p in ps :: Readable(p.value))
    && RelCount(ps) <= 1
    && (forall p | p in ps && IsRel(p) :: Fields(ValueOf(p.value)) != [])
  }

  ghost predicate ElementAccepted(e: Element) {
    e.link.Some? && ParametersAccepted(e.link.value.parameters)
  }

  // ----- Trimming

  predicate EndsSolid(s: string) {
    s != "" && !IsSpace(s[|s| - 1])
  }

  predicate Solid(s: string) {
    EndsSolid(s) && !IsSpace(s[0])
  }

  lemma EndsJoin(a: string, b: string)
    requires EndsSolid(b) || (b == "" && EndsSolid(a))
    ensures EndsSolid(a + b)
  {
    if b == "" { assert a + b == a; }
  }

  lemma TrimKeeps(s: string)
    requires s == "" || Solid(s)
    ensures Trim(s) == s
  {
  }

  lemma {:induction false} TrimLeftBlank(b: string, s: string)
    requires Blank(b) && (s == "" || !IsSpace(s[0]))
    ensures TrimLeft(b + s) == s
    decreases |b|
  {
    if b == "" {
      assert b + s == s;
    } else {
      assert b[0] in b && forall c | c in b[1..] :: c in b;
      assert (b + s)[0] == b[0] && (b + s)[1..] == b[1..] + s;
      TrimLeftBlank(b[1..], s);
    }
  }

  lemma {:induction false} TrimRightBlank(s: string, a: string)
    requires Blank(a) && (s == "" || EndsSolid(s))
    ensures TrimRight(s + a) == s
    decreases |a|
  {
    if a == "" {
      assert s + a == s;
    } else {
      var k := |a| - 1;
      assert a[k] in a && forall c | c in a[..k] :: c in a;
      assert (s + a)[|s + a| - 1] == a[k] && (s + a)[..|s + a| - 1] == s + a[..k];
      TrimRightBlank(s, a[..k]);
    }
  }

  lemma TrimBlank(b: string, s: string)
    requires Blank(b) && (s == "" || Solid(s))
    ensures Trim(b + s) == s
  {
    TrimLeftBlank(b, s);
    TrimKeeps(s);
  }

  lemma TrimAround(b: string, s: string, a: string)
    requires Blank(b) && Blank(a) && (s == "" || Solid(s))
    ensures Trim(b + (s + a)) == s
  {
    if s == "" {
      assert b + (s + a) == (b + a) + "";
      TrimBlank(b + a, "");
    } else {
      assert (s + a)[0] == s[0];
      TrimLeftBlank(b, s + a);
      TrimRightBlank(s, a);
    }
  }

  lemma {:induction false} TrimKeepsChar(s: string, c: char)
    requires c in s && !IsSpace(c)
    ensures c in Trim(s)
  {
    TrimLeftKeepsChar(s, c);
    TrimRightKeepsChar(TrimLeft(s), c);
  }

  lemma {:induction false} TrimLeftKeepsChar(s: string, c: char)
    requires c in s && !IsSpace(c)
    ensures c in TrimLeft(s)
  {
    if IsSpace(s[0]) {
      assert s == [s[0]] + s[1..];
      TrimLeftKeepsChar(s[1..], c);
    }
  }

  lemma {:induction false} TrimRightKeepsChar(s: string, c: char)
    requires c in s && !IsSpace(c)
    ensures c in TrimRight(s)
  {
    var k := |s| - 1;
    if IsSpace(s[k]) {
      assert s == s[..k] + [s[k]];
      TrimRightKeepsChar(s[..k], c);
    }
  }

  lemma Joined(a: string, b: string, c: string)
    ensures a + (b + c) == (a + b) + c
  {
  }

  // ----- Reading a value

  lemma UnquoteOne(q: Quote, after: string, read: string)
    requires ValidQuote(q)
    ensures Unquote(CharText(q) + after, false, read) == if q == Plain('\t') then None
            else Unquote(after, false, read + [q.c])
  {
    var text := CharText(q) + after;
    if q.Pair? {
      assert text[0] == '\\' && text[1..] == [q.c] + after;
      assert ([q.c] + after)[1..] == after;
    } else {
      assert text[0] == q.c && text[1..] == after;
    }
  }

  lemma QuotesTail(cs: seq<Quote>)
    requires cs != [] && forall q | q in cs :: ValidQuote(q)
    ensures ValidQuote(cs[0]) && (forall q | q in cs[1..] :: ValidQuote(q))
    ensures Plain('\t') in cs <==> cs[0] == Plain('\t') || Plain('\t') in cs[1..]
    ensures TextOf(cs) == [cs[0].c] + TextOf(cs[1..])
  {
    assert cs == [cs[0]] + cs[1..];
    assert cs[0] in cs && forall q | q in cs[1..] :: q in cs;
  }

  lemma {:induction false} UnquoteChars(cs: seq<Quote>, end: string, read: string)
    requires forall q | q in cs :: ValidQuote(q)
    ensures Unquote(WriteChars(cs) + end, false, read) ==
            if Plain('\t') in cs then None else Unquote(end, false, read + TextOf(cs))
    decreases |cs|
  {
    if cs == [] {
      assert WriteChars(cs) + end == end && read + TextOf(cs) == read;
    } else {
      QuotesTail(cs);
      UnquoteOne(cs[0], WriteChars(cs[1..]) + end, read);
      UnquoteChars(cs[1..], end, read + [cs[0].c]);
      Joined(CharText(cs[0]), WriteChars(cs[1..]), end);
      Joined(read, [cs[0].c], TextOf(cs[1..]));
    }
  }

  lemma ConsumeText(cs: seq<Quote>, rest: string)
    requires forall q | q in cs :: ValidQuote(q)
    ensures Consume(QuotedText(cs) + rest) == if Plain('\t') in cs then None else Some(Consumed(TextOf(cs), rest))
  {
    var text, end := QuotedText(cs) + rest, "\"" + rest;
    assert text[0] == '"' && text[1..] == WriteChars(cs) + end;
    UnquoteChars(cs, end, "");
    assert "" + TextOf(cs) == TextOf(cs);
    assert end[0] == '"' && end[1..] == rest;
  }

  lemma TokenCharIs(c: char)
    requires TokenChar(c)
    ensures !IsSpace(c) && c > ' ' && c != '\U{7F}' && c != '=' && c != ';' && c != '"' && c !in "\",;\\"
  {
  }

  lemma TokenEnds(name: string)
    requires ValidToken(name)
    ensures Solid(name) && '=' !in name && ';' !in name && name[0] != '"' && ValidParameterToken(name)
  {
    assert name[0] in name && name[|name| - 1] in name;
    forall c | c in name
      ensures !IsSpace(c) && c > ' ' && c != '\U{7F}' && c != '=' && c != ';' && c != '"' && c !in "\",;\\"
    {
      TokenCharIs(c);
    }
  }

  /** What follows a parameter: white space and the next one, or nothing. */
  predicate Follows(b: string, rest: string) {
    Blank(b) && (if rest == "" then b == "" else rest[0] == ';' && Solid(rest))
  }

  lemma FindSemicolon(t: string, b: string, rest: string)
    requires ';' !in t && Follows(b, rest)
    ensures IndexOf(t + (b + rest), ';') == |t| + |b|
  {
    var s, i := t + (b + rest), |t| + |b|;
    assert i < |s| ==> s[i] == rest[0];
    forall k | 0 <= k < i ensures s[k] != ';' {
      if k < |t| { assert s[k] == t[k] && t[k] in t; } else { assert s[k] == b[k - |t|] && b[k - |t|] in b; }
    }
    FirstIndex(s, ';', i);
  }

  lemma Halves(a: string, b: string)
    ensures (a + b)[..|a|] == a && (a + b)[|a|..] == b
    ensures a != "" ==> (a + b)[0] == a[0]
  {
  }

  lemma TrimAfter(s: string, a: string)
    requires Solid(s) && Blank(a)
    ensures Trim(s + a) == s
  {
    assert "" + (s + a) == s + a;
    TrimAround("", s, a);
  }

  lemma ConsumeUpTo(s: string, end: nat, t: string)
    requires s != "" && s[0] != '"' && IndexOf(s, ';') == end && Trim(s[..end]) == t && ValidParameterToken(t)
    ensures Consume(s) == Some(Consumed(t, s[end..]))
  {
  }

  lemma ConsumeToken(t: string, b: string, rest: string)
    requires ValidToken(t) && Follows(b, rest)
    ensures Consume(t + (b + rest)) == Some(Consumed(t, rest))
  {
    TokenEnds(t);
    FindSemicolon(t, b, rest);
    Halves(t, b + rest);
    Joined(t, b, rest);
    Halves(t + b, rest);
    TrimAfter(t, b);
    ConsumeUpTo(t + (b + rest), |t| + |b|, t);
  }

  lemma ConsumeValue(v: ParameterValue, b: string, rest: string)
    requires ValidValue(v) && !v.NoValue? && Follows(b, rest)
    ensures var c := Consume(ValueText(v) + (b + rest));
            if Readable(v) then c.Some? && c.value.parameter == ValueOf(v) && Trim(c.value.rest) == rest else c.None?
  {
    TrimKeeps(rest);
    if v.Token? {
      ConsumeToken(v.text, b, rest);
    } else {
      ConsumeText(v.chars, b + rest);
      TrimBlank(b, rest);
    }
  }

  lemma ValueEnds(v: ParameterValue, b: string, rest: string)
    requires ValidValue(v) && !v.NoValue? && Follows(b, rest)
    ensures Solid(ValueText(v)) && Solid(ValueText(v) + (b + rest))
  {
    if v.Token? { TokenEnds(v.text); }
    var t := ValueText(v);
    assert Solid(t);
    assert (t + (b + rest))[0] == t[0];
    if rest == "" { assert t + (b + rest) == t; }
  }

  // ----- Reading a parameter

  lemma FindEquals(front: string, rest: string)
    requires '=' !in front
    ensures IndexOf(front + ("=" + rest), '=') == |front|
  {
    var text := front + ("=" + rest);
    assert text[|front|] == '=';
    forall k | 0 <= k < |front| ensures text[k] != '=' { assert text[k] == front[k]; }
    FirstIndex(text, '=', |front|);
  }

  lemma NextIs(text: string, body: string, cut: nat, name: string, v: string, rest: string)
    requires text != "" && text[0] == ';' && Trim(text[1..]) == body && 0 < cut < |body| && IndexOf(body, '=') == cut
    requires ValidToken(name) && Trim(body[..cut]) == name && Trim(body[cut + 1..]) == v
    ensures Consume(v).None? ==> NextParameter(text).None?
    ensures Consume(v).Some? && Trim(Consume(v).value.rest) == rest ==>
              NextParameter(text) == Some(Taken(name, Consume(v).value.parameter, rest))
  {
  }

  lemma BodySplits(p: Parameter, more: string)
    requires !p.value.NoValue?
    ensures Body(p, more) == (p.name + p.left) + ("=" + (p.right + (ValueText(p.value) + more)))
  {
  }

  lemma EqualsSplits(front: string, rest: string)
    requires '=' !in front
    ensures var body := front + ("=" + rest);
            |front| < |body| && IndexOf(body, '=') == |front| && body[..|front|] == front && body[|front| + 1..] == rest
  {
    FindEquals(front, rest);
  }

  lemma FrontEnds(name: string, rest: string)
    requires ValidToken(name) && EndsSolid(rest)
    ensures Solid(name + rest)
  {
    TokenEnds(name);
    EndsJoin(name, rest);
    Halves(name, rest);
  }

  lemma EqualsEnds(right: string, v: string)
    requires Solid(v)
    ensures EndsSolid("=" + (right + v))
  {
    EndsJoin(right, v);
    EndsJoin("=", right + v);
  }

  lemma BodySolid(name: string, left: string, right: string, v: string)
    requires ValidToken(name) && Solid(v)
    ensures Solid((name + left) + ("=" + (right + v)))
  {
    EqualsEnds(right, v);
    EndsJoin(left, "=" + (right + v));
    FrontEnds(name, left + ("=" + (right + v)));
    Joined(name, left, "=" + (right + v));
  }

  /** The text behind the semicolon, and the two sides of its equals sign. */
  lemma BodyTrims(p: Parameter, v: string)
    requires ValidParameter(p) && Solid(v)
    ensures var front := p.name + p.left;
            var body := front + ("=" + (p.right + v));
            && Trim(p.after + body) == body && 0 < |front| < |body| && IndexOf(body, '=') == |front|
            && Trim(body[..|front|]) == p.name && Trim(body[|front| + 1..]) == v
  {
    BodySolid(p.name, p.left, p.right, v);
    TrimBlank(p.after, (p.name + p.left) + ("=" + (p.right + v)));
    NoEquals(p);
    EqualsSplits(p.name + p.left, p.right + v);
    TokenEnds(p.name);
    TrimAfter(p.name, p.left);
    TrimBlank(p.right, v);
  }

  lemma NoEquals(p: Parameter)
    requires ValidParameter(p)
    ensures '=' !in p.name + p.left
  {
    TokenEnds(p.name);
    assert forall c | c in p.left :: c != '=';
  }

  lemma TakesValue(p: Parameter, b: string, rest: string)
    requires ValidParameter(p) && !p.value.NoValue? && Follows(b, rest)
    ensures NextParameter(";" + (p.after + Body(p, b + rest))) ==
            if Readable(p.value) then Some(Taken(p.name, ValueOf(p.value), rest)) else None
  {
    var v, body := ValueText(p.value) + (b + rest), Body(p, b + rest);
    ValueEnds(p.value, b, rest);
    BodySplits(p, b + rest);
    BodyTrims(p, v);
    Halves(";", p.after + body);
    ConsumeValue(p.value, b, rest);
    NextIs(";" + (p.after + body), body, |p.name + p.left|, p.name, v, rest);
  }

  lemma NextIsNot(text: string, body: string)
    requires text != "" && text[0] == ';' && Trim(text[1..]) == body
    requires IndexOf(body, '=') == |body| || ';' in body[..IndexOf(body, '=')]
    ensures NextParameter(text).None?
  {
    var cut := IndexOf(body, '=');
    if cut < |body| { NotAName(body[..cut]); }
  }

  lemma NotAName(s: string)
    requires ';' in s
    ensures !ValidToken(Trim(s))
  {
    TrimKeepsChar(s, ';');
  }

  /** A parameter without a value is never read. */
  lemma RefusesNoValue(p: Parameter, b: string, rest: string)
    requires ValidParameter(p) && p.value.NoValue? && Follows(b, rest)
    ensures NextParameter(";" + (p.after + Body(p, b + rest))).None?
  {
    var body := p.name + (b + rest);
    assert "" + (b + rest) == b + rest;
    NameEnds(p.name, b, rest);
    TrimBlank(p.after, body);
    Halves(";", p.after + body);
    SemicolonFirst(p.name, b, rest);
    NextIsNot(";" + (p.after + body), body);
  }

  lemma SemicolonFirst(name: string, b: string, rest: string)
    requires ValidToken(name) && Follows(b, rest)
    ensures var body := name + (b + rest); IndexOf(body, '=') == |body| || ';' in body[..IndexOf(body, '=')]
  {
    var body, i := name + (b + rest), |name| + |b|;
    TokenEnds(name);
    IndexIsFirst(body, '=');
    forall k | 0 <= k < i ensures body[k] != '=' {
      if k < |name| { assert body[k] == name[k]; } else { assert body[k] == b[k - |name|] && b[k - |name|] in b; }
    }
    if IndexOf(body, '=') < |body| {
      assert body[i] == ';';
      assert body[..IndexOf(body, '=')][i] == ';';
    }
  }

  lemma TakesWritten(p: Parameter, b: string, rest: string)
    requires ValidParameter(p) && Follows(b, rest)
    ensures NextParameter(";" + (p.after + Body(p, b + rest))) ==
            if Readable(p.value) then Some(Taken(p.name, ValueOf(p.value), rest)) else None
  {
    if p.value.NoValue? { RefusesNoValue(p, b, rest); } else { TakesValue(p, b, rest); }
  }

  // ----- Reading all parameters

  lemma BodyEnds(p: Parameter, b: string, rest: string)
    requires ValidParameter(p) && Follows(b, rest)
    ensures Solid(Body(p, b + rest))
  {
    if p.value.NoValue? {
      NameEnds(p.name, b, rest);
      assert "" + (b + rest) == b + rest;
    } else {
      ValueEnds(p.value, b, rest);
      BodySplits(p, b + rest);
      BodySolid(p.name, p.left, p.right, ValueText(p.value) + (b + rest));
    }
  }

  lemma NameEnds(name: string, b: string, rest: string)
    requires ValidToken(name) && Follows(b, rest)
    ensures Solid(name + (b + rest))
  {
    TokenEnds(name);
    if rest == "" {
      assert name + (b + rest) == name;
    } else {
      EndsJoin(b, rest);
      FrontEnds(name, b + rest);
    }
  }

  function Front(ps: seq<Parameter>): (b: string) {
    if ps == [] then "" else ps[0].before
  }

  lemma {:induction false} WrittenFollows(ps: seq<Parameter>)
    requires AllValid(ps)
    ensures WriteParameters(ps) == Front(ps) + Stripped(ps) && Follows(Front(ps), Stripped(ps))
    decreases |ps|
  {
    if ps != [] {
      assert ps[0] in ps && forall p | p in ps[1..] :: p in ps;
      WrittenFollows(ps[1..]);
      BodyEnds(ps[0], Front(ps[1..]), Stripped(ps[1..]));
      var body := Body(ps[0], WriteParameters(ps[1..]));
      EndsJoin(ps[0].after, body);
      EndsJoin(";", ps[0].after + body);
    }
  }

  /** What the reader makes of the parameters; `seen` is what an earlier `rel` gave. */
  function Relations(ps: seq<Parameter>, seen: Option<seq<string>>): (r: Option<seq<string>>) {
    if ps == [] then Some(if seen.Some? then seen.value else [])
    else if !Readable(ps[0].value) then None
    else if !IsRel(ps[0]) then Relations(ps[1..], seen)
    else if seen.Some? || Fields(ValueOf(ps[0].value)) == [] then None
    else Relations(ps[1..], Some(Fields(ValueOf(ps[0].value))))
  }

  lemma ParametersStep(text: string, t: Taken, seen: Option<seq<string>>)
    requires text != "" && NextParameter(text) == Some(t)
    ensures Parameters(text, seen) ==
            if Folded(t.name) != "rel" then Parameters(t.rest, seen)
            else if seen.Some? || Fields(t.value) == [] then None
            else Parameters(t.rest, Some(Fields(t.value)))
  {
  }

  lemma ParametersStop(text: string, seen: Option<seq<string>>)
    requires text != "" && NextParameter(text).None?
    ensures Parameters(text, seen).None?
  {
  }

  lemma {:induction false} ParametersReadBack(ps: seq<Parameter>, seen: Option<seq<string>>)
    requires AllValid(ps)
    ensures Parameters(Stripped(ps), seen) == Relations(ps, seen)
    decreases |ps|
  {
    if ps != [] {
      var p, rest := ps[0], ps[1..];
      assert p in ps && forall x | x in rest :: x in ps;
      WrittenFollows(rest);
      TakesWritten(p, Front(rest), Stripped(rest));
      if !Readable(p.value) {
        ParametersStop(Stripped(ps), seen);
      } else {
        ParametersStep(Stripped(ps), Taken(p.name, ValueOf(p.value), Stripped(rest)), seen);
        if !IsRel(p) {
          ParametersReadBack(rest, seen);
        } else {
          ParametersReadBack(rest, Some(Fields(ValueOf(p.value))));
        }
      }
    }
  }

  lemma {:induction false} RelationsAfterRel(ps: seq<Parameter>, words: seq<string>)
    ensures Relations(ps, Some(words)) == if (forall p | p in ps :: Readable(p.value)) && RelCount(ps) == 0 then
              Some(words) else None
    decreases |ps|
  {
    if ps != [] {
      assert ps == [ps[0]] + ps[1..];
      RelationsAfterRel(ps[1..], words);
      assert (forall p | p in ps :: Readable(p.value)) <==>
             Readable(ps[0].value) && forall p | p in ps[1..] :: Readable(p.value);
    }
  }

  lemma {:induction false} NoRelCount(ps: seq<Parameter>)
    ensures RelCount(ps) == 0 <==> forall p | p in ps :: !IsRel(p)
    decreases |ps|
  {
    if ps != [] {
      assert ps == [ps[0]] + ps[1..];
      NoRelCount(ps[1..]);
    }
  }

  lemma AcceptedStep(ps: seq<Parameter>)
    requires ps != []
    ensures ParametersAccepted(ps) <==>
            if !Readable(ps[0].value) then false
            else if !IsRel(ps[0]) then ParametersAccepted(ps[1..])
            else
              && Fields(ValueOf(ps[0].value)) != [] && RelCount(ps[1..]) == 0
              && forall p | p in ps[1..] :: Readable(p.value)
  {
    assert ps == [ps[0]] + ps[1..];
    assert ps[0] in ps;
    NoRelCount(ps[1..]);
  }

  /** The reader refuses exactly what is not accepted, and otherwise finds the words of the first `rel`. */
  lemma {:induction false} RelationsAreStandard(ps: seq<Parameter>)
    ensures Relations(ps, None) == if ParametersAccepted(ps) then Some(RelWords(ps)) else None
    decreases |ps|
  {
    if ps != [] {
      AcceptedStep(ps);
      if Readable(ps[0].value) {
        if IsRel(ps[0]) {
          RelationsAfterRel(ps[1..], Fields(ValueOf(ps[0].value)));
        } else {
          RelationsAreStandard(ps[1..]);
        }
      }
    }
  }

  /**
   A link in any spelling of the grammar is read as the standard has it, or refused exactly over an unreadable
   value or a second or empty `rel`.
   */
  lemma LinkReadsBack(w: Written)
    requires ValidLink(w)
    ensures ParseValue(WriteLink(w)) == if ParametersAccepted(w.parameters) then Some(StandardLink(w)) else None
  {
    var text, more := WriteLink(w), WriteParameters(w.parameters);
    var end := 1 + |w.target|;
    assert text[0] == '<' && text[end] == '>' && text[1..end] == w.target && text[end + 1..] == more;
    forall k | 0 <= k < end ensures text[k] != '>' {
      if k > 0 { assert text[k] == w.target[k - 1] && w.target[k - 1] in w.target; }
    }
    FirstIndex(text, '>', end);
    WrittenFollows(w.parameters);
    TrimBlank(Front(w.parameters), Stripped(w.parameters));
    ParametersReadBack(w.parameters, None);
    RelationsAreStandard(w.parameters);
  }

  // ----- Splitting a written header

  /** The scanner's state after a text, when the text neither ends a value nor is refused. */
  function Scanned(s: Scan, text: string): (r: Option<Scan>)
    decreases |text|
  {
    if text == "" then Some(s)
    else if Cuts(s, text[0]) || Advance(s, text[0]).None? then None
    else Scanned(Advance(s, text[0]).value, text[1..])
  }

  lemma {:induction false} ScannedTwice(s: Scan, a: string, b: string)
    requires Scanned(s, a).Some?
    ensures Scanned(s, a + b) == Scanned(Scanned(s, a).value, b)
    decreases |a|
  {
    if a == "" {
      assert a + b == b;
    } else {
      assert (a + b)[0] == a[0] && (a + b)[1..] == a[1..] + b;
      ScannedTwice(Advance(s, a[0]).value, a[1..], b);
    }
  }

  lemma {:induction false} PiecesSkip(piece: string, text: string, rest: string, s: Scan)
    requires Scanned(s, text).Some?
    ensures Pieces(piece, text + rest, s) == Pieces(piece + text, rest, Scanned(s, text).value)
    decreases |text|
  {
    if text == "" {
      assert text + rest == rest && piece + text == piece;
    } else {
      assert (text + rest)[0] == text[0] && (text + rest)[1..] == text[1..] + rest;
      assert piece + [text[0]] + text[1..] == piece + text;
      PiecesSkip(piece + [text[0]], text[1..], rest, Advance(s, text[0]).value);
    }
  }

  /** The text leaves the scanner outside quotes and brackets. */
  predicate Passes(text: string) {
    Scanned(NEUTRAL, text) == Some(NEUTRAL)
  }

  lemma PassJoin(a: string, b: string)
    requires Passes(a) && Passes(b)
    ensures Passes(a + b)
  {
    ScannedTwice(NEUTRAL, a, b);
  }

  lemma {:induction false} PassPlain(text: string)
    requires forall c | c in text :: c != ',' && c != '"' && c != '<' && c != '>'
    ensures Passes(text)
    decreases |text|
  {
    if text != "" {
      assert text[0] in text && forall c | c in text[1..] :: c in text;
      PassPlain(text[1..]);
    }
  }

  lemma {:induction false} ScanTarget(target: string)
    requires forall c | c in target :: c != '<' && c != '>' && c != '"'
    ensures Scanned(NEUTRAL.(angle := true), target) == Some(NEUTRAL.(angle := true))
    decreases |target|
  {
    if target != "" {
      assert target[0] in target && forall c | c in target[1..] :: c in target;
      ScanTarget(target[1..]);
    }
  }

  lemma ScanChar(s: Scan, c: char, rest: string)
    requires !Cuts(s, c) && Advance(s, c).Some?
    ensures Scanned(s, [c] + rest) == Scanned(Advance(s, c).value, rest)
  {
    assert ([c] + rest)[1..] == rest;
  }

  lemma ScanQuote(q: Quote)
    requires ValidQuote(q)
    ensures Scanned(NEUTRAL.(quoted := true), CharText(q)) == Some(NEUTRAL.(quoted := true))
  {
    var inside := NEUTRAL.(quoted := true);
    assert [q.c] == [q.c] + "";
    if q.Pair? {
      assert CharText(q) == ['\\'] + [q.c];
      ScanChar(inside, '\\', [q.c]);
      ScanChar(inside.(escaped := true), q.c, "");
    } else {
      ScanChar(inside, q.c, "");
    }
  }

  lemma {:induction false} ScanChars(cs: seq<Quote>)
    requires forall q | q in cs :: ValidQuote(q)
    ensures Scanned(NEUTRAL.(quoted := true), WriteChars(cs)) == Some(NEUTRAL.(quoted := true))
    decreases |cs|
  {
    if cs != [] {
      assert cs[0] in cs && forall q | q in cs[1..] :: q in cs;
      ScanQuote(cs[0]);
      ScannedTwice(NEUTRAL.(quoted := true), CharText(cs[0]), WriteChars(cs[1..]));
      ScanChars(cs[1..]);
    }
  }

  lemma PassValue(v: ParameterValue)
    requires ValidValue(v)
    ensures Passes(ValueText(v))
  {
    match v
    case NoValue =>
    case Token(text) => PassPlain(text);
    case Text(cs) =>
      var inside := NEUTRAL.(quoted := true);
      assert QuotedText(cs) == ['"'] + (WriteChars(cs) + ['"']);
      ScanChar(NEUTRAL, '"', WriteChars(cs) + ['"']);
      ScanChars(cs);
      ScannedTwice(inside, WriteChars(cs), ['"']);
      assert ['"'] == ['"'] + "";
      ScanChar(inside, '"', "");
  }

  lemma PassBlank(b: string)
    requires Blank(b)
    ensures Passes(b) && Passes(b + "=") && Passes(";" + b)
  {
    PassPlain(b);
    PassPlain("=");
    PassPlain(";");
    PassJoin(b, "=");
    PassJoin(";", b);
  }

  lemma PassAfterName(p: Parameter)
    requires ValidParameter(p)
    ensures Passes(AfterName(p))
  {
    if !p.value.NoValue? {
      PassBlank(p.left);
      PassBlank(p.right);
      PassValue(p.value);
      PassJoin(p.right, ValueText(p.value));
      PassJoin(p.left + "=", p.right + ValueText(p.value));
      Joined(p.left, "=", p.right + ValueText(p.value));
    }
  }

  lemma PassParameter(p: Parameter, more: string)
    requires ValidParameter(p) && Passes(more)
    ensures Passes(p.before + (";" + (p.after + Body(p, more))))
  {
    PassBlank(p.before);
    PassBlank(p.after);
    PassPlain(p.name);
    PassAfterName(p);
    PassJoin(AfterName(p), more);
    PassJoin(p.name, AfterName(p) + more);
    PassJoin(";" + p.after, Body(p, more));
    Joined(";", p.after, Body(p, more));
    PassJoin(p.before, ";" + (p.after + Body(p, more)));
  }

  lemma {:induction false} PassParameters(ps: seq<Parameter>)
    requires AllValid(ps)
    ensures Passes(WriteParameters(ps))
    decreases |ps|
  {
    if ps != [] {
      assert ps[0] in ps && forall x | x in ps[1..] :: x in ps;
      PassParameters(ps[1..]);
      PassParameter(ps[0], WriteParameters(ps[1..]));
    }
  }

  lemma PassLink(w: Written)
    requires ValidLink(w)
    ensures Passes(WriteLink(w)) && Solid(WriteLink(w))
  {
    var inside, more := NEUTRAL.(angle := true), WriteParameters(w.parameters);
    assert WriteLink(w) == ['<'] + (w.target + (['>'] + more));
    ScanChar(NEUTRAL, '<', w.target + (['>'] + more));
    ScanTarget(w.target);
    ScannedTwice(inside, w.target, ['>'] + more);
    ScanChar(inside, '>', more);
    PassParameters(w.parameters);
    WrittenFollows(w.parameters);
    if w.parameters != [] { EndsJoin(Front(w.parameters), Stripped(w.parameters)); }
    EndsJoin(">", more);
    EndsJoin(w.target, ">" + more);
    EndsJoin("<", w.target + (">" + more));
  }

  lemma PassElement(e: Element)
    requires ValidElement(e)
    ensures Passes(WriteElement(e)) && Trim(WriteElement(e)) == LinkText(e)
  {
    PassBlank(e.before);
    PassBlank(e.after);
    if e.link.Some? { PassLink(e.link.value); } else { PassPlain(""); }
    PassJoin(LinkText(e), e.after);
    PassJoin(e.before, LinkText(e) + e.after);
    TrimAround(e.before, LinkText(e), e.after);
  }

  lemma LastPiece(t: string)
    requires Passes(t)
    ensures Pieces("", t, NEUTRAL) == if Trim(t) == "" then None else Some([Trim(t)])
  {
    PiecesSkip("", t, "", NEUTRAL);
    assert t + "" == t && "" + t == t;
  }

  lemma CutAfter(t: string, rest: string)
    requires Passes(t)
    ensures Pieces("", t + ("," + rest), NEUTRAL) == if Trim(t) == "" then None
            else Join([Trim(t)], Pieces("", rest, NEUTRAL))
  {
    var after := "," + rest;
    PiecesSkip("", t, after, NEUTRAL);
    assert "" + t == t;
    assert after[0] == ',' && after[1..] == rest;
  }

  /** The texts of the links, unless an element is empty. */
  function ElementTexts(es: seq<Element>): (r: Option<seq<string>>) {
    if es == [] then Some([])
    else if es[0].link.None? then None
    else Join([LinkText(es[0])], ElementTexts(es[1..]))
  }

  /** A field splits into its links, and is refused exactly over an empty element. */
  lemma {:induction false} SplitsWritten(es: seq<Element>)
    requires es != [] && forall e | e in es :: ValidElement(e)
    ensures Split(WriteHeader(es)) == ElementTexts(es)
    decreases |es|
  {
    assert es[0] in es;
    PassElement(es[0]);
    if es[0].link.Some? { PassLink(es[0].link.value); }
    if |es| == 1 {
      LastPiece(WriteElement(es[0]));
      assert es[1..] == [];
      assert [LinkText(es[0])] + [] == [LinkText(es[0])];
    } else {
      forall e | e in es[1..] ensures ValidElement(e) { assert e in es; }
      CutAfter(WriteElement(es[0]), WriteHeader(es[1..]));
      SplitsWritten(es[1..]);
    }
  }

  ghost predicate AllAccepted(es: seq<Element>) {
    forall e | e in es :: ElementAccepted(e)
  }

  lemma AllAcceptedStep(es: seq<Element>)
    requires es != []
    ensures AllAccepted(es) <==> ElementAccepted(es[0]) && AllAccepted(es[1..])
  {
    assert es == [es[0]] + es[1..];
  }

  lemma ParseJoin(text: string, more: seq<string>)
    ensures ParseAll([text] + more) ==
            var first, rest := ParseValue(text), ParseAll(more);
            if first.None? || rest.None? then None else Some([first.value] + rest.value)
  {
    assert ([text] + more)[0] == text && ([text] + more)[1..] == more;
  }

  lemma {:induction false} TextsReadBack(es: seq<Element>)
    requires forall e | e in es :: ValidElement(e)
    ensures var texts := ElementTexts(es);
            if AllAccepted(es) then texts.Some? && ParseAll(texts.value) == Some(StandardLinks(es))
            else texts.None? || ParseAll(texts.value).None?
    decreases |es|
  {
    if es != [] {
      assert es[0] in es;
      forall e | e in es[1..] ensures ValidElement(e) { assert e in es; }
      AllAcceptedStep(es);
      TextsReadBack(es[1..]);
      if es[0].link.Some? && ElementTexts(es[1..]).Some? {
        LinkReadsBack(es[0].link.value);
        ParseJoin(LinkText(es[0]), ElementTexts(es[1..]).value);
      }
    }
  }

  /**
   A field in any spelling of the grammar is read as the standard has it, or refused exactly when an
   element is empty, a value is missing or holds a bare tab, or a link has a second or an empty `rel`.
   */
  lemma HeaderReadsBack(es: seq<Element>)
    requires es != [] && forall e | e in es :: ValidElement(e)
    ensures ParseHeader(WriteHeader(es)) == if AllAccepted(es) then Some(StandardLinks(es)) else None
  {
    SplitsWritten(es);
    TextsReadBack(es);
  }

  // ----- Fields the standard has a meaning for and the reader refuses

  function Simple(name: string, value: ParameterValue): (p: Parameter) {
    Parameter("", "", name, "", "", value)
  }

  const NEXT := Simple("rel", Token("next"))

  /** One link on its own. */
  function Alone(ps: seq<Parameter>): (es: seq<Element>) {
    [Element("", Some(Written("p", ps)), "")]
  }

  lemma AloneText(ps: seq<Parameter>)
    ensures WriteHeader(Alone(ps)) == "<p>" + WriteParameters(ps)
  {
    var w, more := Written("p", ps), WriteParameters(ps);
    assert WriteLink(w) == "<p>" + more;
    assert "" + (WriteLink(w) + "") == WriteLink(w);
  }

  lemma AloneIs(ps: seq<Parameter>)
    requires AllValid(ps)
    ensures StandardLinks(Alone(ps)) == [Link("p", RelWords(ps))]
    ensures ParseHeader("<p>" + WriteParameters(ps)) == if ParametersAccepted(ps) then Some([Link("p", RelWords(ps))])
            else None
  {
    var es := Alone(ps);
    AloneText(ps);
    OneElement(es[0]);
    HeaderReadsBack(es);
  }

  lemma OneElement(e: Element)
    requires e.link.Some?
    ensures StandardLinks([e]) == [StandardLink(e.link.value)] && (AllAccepted([e]) <==> ElementAccepted(e))
  {
    assert [e][1..] == [];
  }

  lemma NextIsAccepted()
    ensures ValidParameter(NEXT) && IsRel(NEXT) && Fields("next") == ["next"] && Readable(NEXT.value)
  {
    assert Folded("rel") == "rel";
    assert "next"[1..] == "ext" && "ext"[1..] == "xt" && "xt"[1..] == "t" && "t"[1..] == "";
    assert WordEnd("next") == 4;
    assert "next"[..4] == "next" && "next"[4..] == "";
    assert Fields("") == [];
  }

  lemma NextText(more: string)
    ensures NEXT.before + (";" + (NEXT.after + Body(NEXT, more))) == ";rel=next" + more
  {
    assert AfterName(NEXT) == "=next";
    assert Body(NEXT, more) == "rel=next" + more;
  }

  lemma NextThen(ps: seq<Parameter>)
    ensures WriteParameters([NEXT] + ps) == ";rel=next" + WriteParameters(ps)
    ensures RelWords([NEXT] + ps) == ["next"] && RelCount([NEXT] + ps) == 1 + RelCount(ps)
  {
    NextIsAccepted();
    assert ([NEXT] + ps)[0] == NEXT && ([NEXT] + ps)[1..] == ps;
    NextText(WriteParameters(ps));
  }

  /** With `rel=next` first, the link is a next link by the standard, whatever follows. */
  lemma NextFirst(ps: seq<Parameter>)
    requires AllValid(ps)
    ensures StandardLinks(Alone([NEXT] + ps)) == [Link("p", ["next"])]
    ensures ParseHeader("<p>" + (";rel=next" + WriteParameters(ps))) ==
            if RelCount(ps) == 0 && forall p | p in ps :: Readable(p.value) then Some([Link("p", ["next"])]) else None
  {
    NextIsAccepted();
    NextThen(ps);
    assert ([NEXT] + ps)[0] == NEXT && ([NEXT] + ps)[1..] == ps;
    AcceptedStep([NEXT] + ps);
    AloneIs([NEXT] + ps);
  }

  /** A parameter without a value is refused, */
  lemma MissingValueIsRefused()
    ensures StandardLinks(Alone([NEXT] + [Simple("x", NoValue)])) == [Link("p", ["next"])]
    ensures ParseHeader("<p>" + (";rel=next" + ";x")).None?
  {
    var x := Simple("x", NoValue);
    assert ValidParameter(x);
    assert [x][1..] == [] && WriteParameters([x]) == ";x";
    assert x in [x] && !Readable(x.value);
    NextFirst([x]);
  }

  /** so is a second `rel`, which the standard ignores, */
  lemma SecondRelIsRefused()
    ensures StandardLinks(Alone([NEXT] + [NEXT])) == [Link("p", ["next"])]
    ensures ParseHeader("<p>" + (";rel=next" + ";rel=next")).None?
  {
    NextIsAccepted();
    NextThen([]);
    assert [NEXT] + [] == [NEXT] && ";rel=next" + "" == ";rel=next";
    NextFirst([NEXT]);
  }

  /** and so is an empty element of the list, which the standard ignores too. */
  lemma EmptyElementIsRefused(e: Element, es: seq<Element>)
    requires ValidElement(e) && e.link.None? && es != [] && forall x | x in es :: ValidElement(x)
    ensures StandardLinks([e] + es) == StandardLinks(es) && ParseHeader(WriteHeader([e] + es)).None?
  {
    assert ([e] + es)[0] == e && ([e] + es)[1..] == es;
    assert [] + StandardLinks(es) == StandardLinks(es);
    assert e in [e] + es && !ElementAccepted(e);
    HeaderReadsBack([e] + es);
  }
}
