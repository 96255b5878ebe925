/**
 Following the pages of a claim source: which link is the next one, which links may be followed, and
 what the loop over the pages returns.
 */
module Pagination {
  import opened Wrappers
  import opened BoundedJson
  import opened LinkHeader
  import opened Texts

  const MAX_LINK_BYTES: nat := 16 * 1024
  const MAX_URL_BYTES: nat := 8 * 1024

  /** A parsed URL; `text` is the URL written out again. */
  datatype Url = Url(text: string, scheme: string, opaquePart: string, hasUser: bool, host: string, port: string,
                     path: string, fragment: string)

  function EffectivePort(u: Url): (port: string) {
    if u.port != "" then u.port else "443"
  }

  predicate SafePaginationUrl(candidate: Url, original: Url) {
    && candidate.scheme == "https" && candidate.opaquePart == "" && !candidate.hasUser && candidate.fragment == ""
    && Folded(candidate.host) == Folded(original.host)
    && EffectivePort(candidate) == EffectivePort(original)
    && candidate.path == original.path
  }

  /** Parsing a link target and resolving it against the current URL. */
  type Resolver = (Url, string) -> Option<Url>

  datatype Next = Bad | NoNext | NextPage(url: Url)

  /** A header of links: every link of every field, unless a field is malformed or they are too long together. */
  function LinksOf(headers: seq<string>, used: nat): (r: Option<seq<Link>>)
    decreases |headers|
  {
    if headers == [] then Some([])
    else if used + |headers[0]| > MAX_LINK_BYTES then None
    else Then(ParseHeader(headers[0]), LinksOf(headers[1..], used + |headers[0]|))
  }

  function Then<T>(first: Option<seq<T>>, more: Option<seq<T>>): (r: Option<seq<T>>) {
    if first.None? || more.None? then None else Some(first.value + more.value)
  }

  function NextCount(relations: seq<string>): (n: nat) {
    if relations == [] then 0 else (if Folded(relations[0]) == "next" then 1 else 0) + NextCount(relations[1..])
  }

  /** One target for every time a link says it is the next one. */
  function NextTargets(links: seq<Link>): (targets: seq<string>) {
    if links == [] then [] else seq(NextCount(links[0].relations), _ => links[0].target) + NextTargets(links[1..])
  }

  function Follow(target: string, current: Url, original: Url, resolve: Resolver): (r: Next) {
    if '#' in target || resolve(current, target).None? then Bad
    else
      var candidate := resolve(current, target).value;
      if |candidate.text| > MAX_URL_BYTES || !SafePaginationUrl(candidate, original) then Bad else NextPage(candidate)
  }

  /** The next link among all links: none, or the only one, if it may be followed. */
  function Judge(links: Option<seq<Link>>, current: Url, original: Url, resolve: Resolver): (r: Next) {
    if links.None? then Bad
    else
      var targets := NextTargets(links.value);
      if targets == [] then NoNext else if |targets| > 1 then Bad else Follow(targets[0], current, original, resolve)
  }

  function NextOf(headers: seq<string>, current: Url, original: Url, resolve: Resolver): (r: Next) {
    Judge(LinksOf(headers, 0), current, original, resolve)
  }

  // ----- The loop that looks for the next link

  lemma {:induction false} TargetsJoin(a: seq<Link>, b: seq<Link>)
    ensures NextTargets(a + b) == NextTargets(a) + NextTargets(b)
    decreases |a|
  {
    if a == [] {
      assert a + b == b;
    } else {
      assert (a + b)[1..] == a[1..] + b;
      TargetsJoin(a[1..], b);
    }
  }

  lemma ThenJoins<T>(a: seq<T>, b: Option<seq<T>>, c: Option<seq<T>>)
    ensures Then(Some(a), Then(b, c)) == Then(Then(Some(a), b), c)
  {
    if b.Some? && c.Some? { assert a + (b.value + c.value) == a + b.value + c.value; }
  }

  lemma ParseOneMore(values: seq<string>, k: nat, read: seq<Link>)
    requires k < |values|
    ensures var first := ParseValue(values[k]);
            Then(Some(read), ParseAll(values[k..])) ==
            if first.None? then None else Then(Some(read + [first.value]), ParseAll(values[k + 1..]))
  {
    assert values[k..][0] == values[k] && values[k..][1..] == values[k + 1..];
    var first, more := ParseValue(values[k]), ParseAll(values[k + 1..]);
    if first.Some? && more.Some? { assert read + ([first.value] + more.value) == read + [first.value] + more.value; }
  }

  /** What the links read so far have given. */
  ghost predicate Found(next: Option<Url>, links: seq<Link>, current: Url, original: Url, resolve: Resolver) {
    var targets := NextTargets(links);
    if next.None? then targets == []
    else |targets| == 1 && Follow(targets[0], current, original, resolve) == NextPage(next.value)
  }

  /** Two next links, or one that may not be followed, decide the matter whatever comes after. */
  ghost predicate Refuted(links: seq<Link>, current: Url, original: Url, resolve: Resolver) {
    var targets := NextTargets(links);
    |targets| > 1 || (|targets| == 1 && Follow(targets[0], current, original, resolve) == Bad)
  }

  lemma RefutedIsBad(links: seq<Link>, more: Option<seq<Link>>, current: Url, original: Url, resolve: Resolver)
    requires Refuted(links, current, original, resolve)
    ensures Judge(Then(Some(links), more), current, original, resolve) == Bad
  {
    if more.Some? { TargetsJoin(links, more.value); }
  }

  method CountNext(relations: seq<string>) returns (n: nat)
    ensures n == NextCount(relations)
  {
    n := 0;
    for i := 0 to |relations|
      invariant NextCount(relations) == n + NextCount(relations[i..])
    {
      assert relations[i..][1..] == relations[i + 1..];
      if Folded(relations[i]) == "next" { n := n + 1; }
    }
  }

  /** One link value: keep looking, or refuse. */
  method TakeLink(link: Link, next: Option<Url>, ghost links: seq<Link>, current: Url, original: Url, resolve: Resolver)
    returns (ok: bool, next': Option<Url>)
    requires Found(next, links, current, original, resolve)
    ensures if ok then Found(next', links + [link], current, original, resolve)
            else Refuted(links + [link], current, original, resolve)
  {
    TargetsJoin(links, [link]);
    assert NextTargets([link]) == seq(NextCount(link.relations), _ => link.target) + NextTargets([]);
    var count := CountNext(link.relations);
    next' := next;
    if count == 0 { return true, next; }
    if count != 1 || next.Some? { return false, next; }
    if '#' in link.target { return false, next; }
    var candidate := resolve(current, link.target);
    if candidate.None? { return false, next; }
    if |candidate.value.text| > MAX_URL_BYTES || !SafePaginationUrl(candidate.value, original) { return false, next; }
    return true, candidate;
  }

  lemma ThenNothing<T>(more: Option<seq<T>>)
    ensures Then(Some([]), more) == more && (more.Some? ==> Then(more, Some([])) == more)
  {
    if more.Some? { assert [] + more.value == more.value && more.value + [] == more.value; }
  }

  lemma NextField(headers: seq<string>, i: nat, used: nat, values: seq<string>)
    requires i < |headers| && used + |headers[i]| <= MAX_LINK_BYTES && Split(headers[i]) == Some(values)
    ensures LinksOf(headers[i..], used) == Then(ParseAll(values), LinksOf(headers[i + 1..], used + |headers[i]|))
  {
    assert headers[i..][0] == headers[i] && headers[i..][1..] == headers[i + 1..];
  }

  lemma BadField(headers: seq<string>, i: nat, used: nat)
    requires i < |headers| && (used + |headers[i]| > MAX_LINK_BYTES || Split(headers[i]).None?)
    ensures LinksOf(headers[i..], used).None?
  {
    assert headers[i..][0] == headers[i];
  }

  /** The values of one field; `later` is what the fields after it hold. */
  method TakeValues(ghost whole: Option<seq<Link>>, values: seq<string>, ghost later: Option<seq<Link>>,
                    next: Option<Url>, ghost links: seq<Link>,
                    current: Url, original: Url, resolve: Resolver)
    returns (ok: bool, next': Option<Url>, ghost links': seq<Link>)
    requires Found(next, links, current, original, resolve)
    requires whole == Then(Some(links), Then(ParseAll(values), later))
    ensures ok ==> Found(next', links', current, original, resolve) && whole == Then(Some(links'), later)
    ensures !ok ==> Judge(whole, current, original, resolve) == Bad
  {
    next', links' := next, links;
    ThenJoins(links, ParseAll(values), later);
    assert values[0..] == values;
    for k := 0 to |values|
      invariant Found(next', links', current, original, resolve)
      invariant whole == Then(Then(Some(links'), ParseAll(values[k..])), later)
    {
      ParseOneMore(values, k, links');
      var link := ParseLinkValue(values[k]);
      if link.None? { return false, next', links'; }
      ThenJoins(links' + [link.value], ParseAll(values[k + 1..]), later);
      var taken, found := TakeLink(link.value, next', links', current, original, resolve);
      links' := links' + [link.value];
      if !taken {
        RefutedIsBad(links', Then(ParseAll(values[k + 1..]), later), current, original, resolve);
        return false, next', links';
      }
      next' := found;
    }
    assert values[|values|..] == [];
    ThenNothing(Some(links'));
    ok := true;
  }

  lemma JudgedFound(links: seq<Link>, next: Option<Url>, current: Url, original: Url, resolve: Resolver)
    requires Found(next, links, current, original, resolve)
    ensures Judge(Some(links), current, original, resolve) == if next.Some? then NextPage(next.value) else NoNext
  {
  }

  ghost predicate Shown(k: nat) {
    true
  }

  /** What the search knows before field `i`. Its content is looked at only where `Shown(0)` is mentioned. */
  ghost predicate SoFar(whole: Option<seq<Link>>, headers: seq<string>, i: nat, used: nat, next: Option<Url>,
                        links: seq<Link>,
                        current: Url, original: Url, resolve: Resolver)
    requires i <= |headers|
  {
    forall k {:trigger Shown(k)} | Shown(k) ::
      Found(next, links, current, original, resolve) && whole == Then(Some(links), LinksOf(headers[i..], used))
  }

  /** One field: split it, then take its values. */
  method TakeField(ghost whole: Option<seq<Link>>, headers: seq<string>, i: nat, used: nat, next: Option<Url>,
                   ghost links: seq<Link>,
                   current: Url, original: Url, resolve: Resolver)
    returns (ok: bool, next': Option<Url>, ghost links': seq<Link>)
    requires i < |headers| && used <= MAX_LINK_BYTES
             && SoFar(whole, headers, i, used, next, links, current, original, resolve)
    ensures ok ==> used + |headers[i]| <= MAX_LINK_BYTES
    ensures ok ==> SoFar(whole, headers, i + 1, used + |headers[i]|, next', links', current, original, resolve)
    ensures !ok ==> Judge(whole, current, original, resolve) == Bad
  {
    assert Shown(0);
    var values := SplitLinkHeader(headers[i]);
    if |headers[i]| > MAX_LINK_BYTES - used || values.None? {
      BadField(headers, i, used);
      return false, next, links;
    }
    NextField(headers, i, used, values.value);
    ok, next', links' :=
        TakeValues(whole, values.value, LinksOf(headers[i + 1..], used + |headers[i]|), next, links, current, original,
                   resolve);
  }

  lemma AtFirst(headers: seq<string>, current: Url, original: Url, resolve: Resolver)
    ensures SoFar(LinksOf(headers, 0), headers, 0, 0, None, [], current, original, resolve)
  {
    assert headers[0..] == headers;
    ThenNothing(LinksOf(headers, 0));
  }

  lemma AtLast(whole: Option<seq<Link>>, headers: seq<string>, used: nat, next: Option<Url>, links: seq<Link>,
               current: Url, original: Url, resolve: Resolver)
    requires SoFar(whole, headers, |headers|, used, next, links, current, original, resolve)
    ensures Judge(whole, current, original, resolve) == if next.Some? then NextPage(next.value) else NoNext
  {
    assert Shown(0);
    assert headers[|headers|..] == [];
    ThenNothing(Some(links));
    JudgedFound(links, next, current, original, resolve);
  }

  method NextLink(headers: seq<string>, current: Url, original: Url, resolve: Resolver) returns (r: Next)
    ensures r == NextOf(headers, current, original, resolve)
  {
    AtFirst(headers, current, original, resolve);
    r := TakeFields(LinksOf(headers, 0), headers, current, original, resolve);
  }

  method TakeFields(ghost whole: Option<seq<Link>>, headers: seq<string>, current: Url, original: Url,
                    resolve: Resolver) returns (r: Next)
    requires SoFar(whole, headers, 0, 0, None, [], current, original, resolve)
    ensures r == Judge(whole, current, original, resolve)
  {
    var next: Option<Url> := None;
    var used: nat := 0;
    ghost var links: seq<Link> := [];
    for i := 0 to |headers|
      invariant used <= MAX_LINK_BYTES && SoFar(whole, headers, i, used, next, links, current, original, resolve)
    {
      var ok, found, read := TakeField(whole, headers, i, used, next, links, current, original, resolve);
      if !ok { return Bad; }
      next, links, used := found, read, used + |headers[i]|;
    }
    AtLast(whole, headers, used, next, links, current, original, resolve);
    r := if next.Some? then NextPage(next.value) else NoNext;
  }

  // ----- The loop over the pages

  /**
   What a request comes back with: an error of any kind, or a body of so many bytes, its tokens, and the Link
   fields.
   */
  datatype Response = Failure | Page(bytes: nat, tokens: seq<Token>, links: seq<string>)

  /** The source, its limits, and everything outside the loop: the server, URL resolution, and the check for secrets. */
  datatype Source = Source(
    original: Url,
    maxPages: nat,
    maxBytes: nat,
    limits: Limits,
    server: (nat, Url) -> Response,
    resolve: Resolver,
    sensitive: seq<Value> -> bool)

  /** What is left of the limits: URLs not to visit again, bytes, values read, items collected. */
  datatype Left = Left(seen: set<string>, bytes: nat, nodes: nat, count: nat)

  /**
   A page as it was read: the bytes of its body, its items, the number of values read up to its end, its next
   link.
   */
  datatype PageRead = PageRead(bytes: nat, items: seq<Value>, nodes: nat, next: Next)

  predicate Affordable(p: PageRead, left: Left, maxItems: nat) {
    && p.bytes <= left.bytes && left.count + |p.items| <= maxItems
    && (p.next.NextPage? ==> p.next.url.text !in left.seen)
  }

  function Spend(left: Left, p: PageRead): (left': Left)
    requires p.bytes <= left.bytes
  {
    Left(if p.next.NextPage? then left.seen + {p.next.url.text}
         else left.seen, left.bytes - p.bytes, p.nodes, left.count + |p.items|)
  }

  /**
   A page as the server sends it: an array within the limits, without secrets, and with a proper next link or
   none.
   */
  function ReadPage(src: Source, page: nat, url: Url, nodes: nat): (r: Option<PageRead>) {
    var response := src.server(page, url);
    if response.Failure? then None
    else
      var document := Decode(response.tokens, 1, src.limits, nodes);
      var next := NextOf(response.links, url, src.original, src.resolve);
      if document.Failed? || document.rest != [] || !document.value.List? || src.sensitive(document.value.items)
        || next.Bad? then None
      else Some(PageRead(response.bytes, document.value.items, document.nodes, next))
  }

  /** What the loop knows of its source: how many pages and items it may take, and how to read a page. */
  datatype Paging = Paging(maxPages: nat, maxItems: nat, read: (nat, Url, nat) -> Option<PageRead>)

  function PagingOf(src: Source): (g: Paging) {
    Paging(src.maxPages, src.limits.maxArrayItems, (page: nat, url: Url, nodes: nat) => ReadPage(src, page, url, nodes))
  }

  /** The loop from some page on. */
  function Fetch(g: Paging, page: nat, url: Url, left: Left): (r: Option<seq<Value>>)
    decreases g.maxPages - page
  {
    var read := g.read(page, url, left.nodes);
    if page >= g.maxPages || read.None? || !Affordable(read.value, left, g.maxItems) then None
    else if read.value.next.NoNext? then Some(read.value.items)
    else if read.value.next.Bad? || page + 1 == g.maxPages then None
    else Then(Some(read.value.items), Fetch(g, page + 1, read.value.next.url, Spend(left, read.value)))
  }

  method FetchPaginatedPage(src: Source, page: nat, url: Url, bytes: nat, nodes: nat) returns (r: Option<PageRead>)
    ensures r.Some? <==> ReadPage(src, page, url, nodes).Some? && ReadPage(src, page, url, nodes).value.bytes <= bytes
    ensures r.Some? ==> r == ReadPage(src, page, url, nodes) && !r.value.next.Bad?
  {
    var response := src.server(page, url);
    if response.Failure? || response.bytes > bytes { return None; }
    var document := DecodeBoundedJson(response.tokens, 1, src.limits, nodes);
    if document.Failed? || document.rest != [] { return None; }
    if !document.value.List? || src.sensitive(document.value.items) { return None; }
    var next := NextLink(response.links, url, src.original, src.resolve);
    if next.Bad? { return None; }
    r := Some(PageRead(response.bytes, document.value.items, document.nodes, next));
  }

  lemma FetchFails(g: Paging, page: nat, url: Url, left: Left)
    requires var read := g.read(page, url, left.nodes);
             page >= g.maxPages || read.None? || !Affordable(read.value, left, g.maxItems)
               || (read.value.next.NextPage? && page + 1 == g.maxPages)
    ensures Fetch(g, page, url, left).None?
  {
  }

  lemma FetchStep(g: Paging, page: nat, url: Url, left: Left, p: PageRead)
    requires g.read(page, url, left.nodes) == Some(p) && page < g.maxPages && Affordable(p, left, g.maxItems)
    ensures Fetch(g, page, url, left) ==
            match p.next
            case NoNext => Some(p.items)
            case Bad => None
            case NextPage(next) =>
              if page + 1 == g.maxPages then None else Then(Some(p.items), Fetch(g, page + 1, next, Spend(left, p)))
  {
  }

  /** How a round ends: with the result, or with the next page to fetch. */
  datatype Round = Stop(result: Option<seq<Value>>) | Go(url: Url, left: Left, combined: seq<Value>)

  function Rest(g: Paging, page: nat, round: Round): (r: Option<seq<Value>>) {
    match round
    case Stop(result) => result
    case Go(url, left, combined) => Then(Some(combined), Fetch(g, page, url, left))
  }

  /** One round of the loop; `read` is the page as it was fetched within `left.bytes`. */
  method TakePage(g: Paging, page: nat, url: Url, left: Left, combined: seq<Value>, read: Option<PageRead>)
    returns (round: Round)
    requires page < g.maxPages && left.count == |combined|
    requires read.Some? <==>
             g.read(page, url, left.nodes).Some? && g.read(page, url, left.nodes).value.bytes <= left.bytes
    requires read.Some? ==> read == g.read(page, url, left.nodes) && !read.value.next.Bad?
    ensures Rest(g, page + 1, round) == Then(Some(combined), Fetch(g, page, url, left))
    ensures round.Go? ==> round.left.count == |round.combined| && page + 1 < g.maxPages
  {
    if read.None? || |read.value.items| > g.maxItems - |combined| {
      FetchFails(g, page, url, left);
      return Stop(None);
    }
    var p := read.value;
    if p.next.NoNext? {
      FetchStep(g, page, url, left, p);
      return Stop(Some(combined + p.items));
    }
    if page + 1 == g.maxPages || p.next.url.text in left.seen {
      FetchFails(g, page, url, left);
      return Stop(None);
    }
    FetchStep(g, page, url, left, p);
    ThenJoins(combined, Some(p.items), Fetch(g, page + 1, p.next.url, Spend(left, p)));
    round := Go(p.next.url, Spend(left, p), combined + p.items);
  }

  method FetchRound(src: Source, page: nat, url: Url, left: Left, combined: seq<Value>) returns (round: Round)
    requires page < src.maxPages && left.count == |combined|
    ensures Rest(PagingOf(src), page + 1, round) == Then(Some(combined), Fetch(PagingOf(src), page, url, left))
    ensures round.Go? ==> round.left.count == |round.combined|
  {
    var read := FetchPaginatedPage(src, page, url, left.bytes, left.nodes);
    round := TakePage(PagingOf(src), page, url, left, combined, read);
  }

  method FetchPaginatedClaim(src: Source) returns (r: Option<seq<Value>>)
    ensures r == Fetch(PagingOf(src), 0, src.original, Left({src.original.text}, src.maxBytes, 0, 0))
  {
    var current, left, combined := src.original, Left({src.original.text}, src.maxBytes, 0, 0), [];
    ghost var whole := Fetch(PagingOf(src), 0, current, left);
    assert whole.Some? ==> [] + whole.value == whole.value;
    for page := 0 to src.maxPages
      invariant left.count == |combined|
      invariant whole == Then(Some(combined), Fetch(PagingOf(src), page, current, left))
    {
      var round := FetchRound(src, page, current, left, combined);
      if round.Stop? { return round.result; }
      current, left, combined := round.url, round.left, round.combined;
    }
    r := None;
  }

  // ----- What the loop returns

  /** A page of a chain and where it was. */
  datatype Visit = Visit(url: Url, page: PageRead)

  function AllItems(visits: seq<Visit>): (items: seq<Value>) {
    if visits == [] then [] else visits[0].page.items + AllItems(visits[1..])
  }

  function AllBytes(visits: seq<Visit>): (n: nat) {
    if visits == [] then 0 else visits[0].page.bytes + AllBytes(visits[1..])
  }

  function NodesBefore(visits: seq<Visit>, i: nat, nodes: nat): (n: nat)
    requires i < |visits|
  {
    if i == 0 then nodes else visits[i - 1].page.nodes
  }

  /** Page number `n` is what the server sent for its URL, and its next link is this one. */
  ghost predicate PageAt(g: Paging, n: nat, v: Visit, nodes: nat, next: Next) {
    g.read(n, v.url, nodes) == Some(v.page) && v.page.next == next
  }

  function NextIn(visits: seq<Visit>, i: nat): (next: Next) {
    if i + 1 < |visits| then NextPage(visits[i + 1].url) else NoNext
  }

  /** The next link of a page of the chain is the next page of the chain, if there is one. */
  ghost predicate Visited(g: Paging, page: nat, visits: seq<Visit>, nodes: nat, i: nat)
    requires i < |visits|
  {
    PageAt(g, page + i, visits[i], NodesBefore(visits, i, nodes), NextIn(visits, i))
  }

  ghost predicate AllVisited(g: Paging, page: nat, visits: seq<Visit>, nodes: nat) {
    forall i {:trigger Visited(g, page, visits, nodes, i)} | 0 <= i < |visits| :: Visited(g, page, visits, nodes, i)
  }

  ghost predicate NewUrls(visits: seq<Visit>, seen: set<string>) {
    && (forall i | 0 < i < |visits| :: visits[i].url.text !in seen)
    && (forall i, j | 0 < i < j < |visits| :: visits[i].url.text != visits[j].url.text)
  }

  /**
   A whole chain of pages, from `url` to a page without a next link, that stays within what is left of every
   limit.
   */
  ghost predicate Chain(g: Paging, page: nat, url: Url, left: Left, visits: seq<Visit>) {
    && visits != [] && visits[0].url == url && page + |visits| <= g.maxPages
    && AllVisited(g, page, visits, left.nodes) && NewUrls(visits, left.seen)
    && AllBytes(visits) <= left.bytes && left.count + |AllItems(visits)| <= g.maxItems
  }

  lemma AllVisitedTail(g: Paging, page: nat, visits: seq<Visit>, nodes: nat)
    requires visits != [] && AllVisited(g, page, visits, nodes)
    ensures AllVisited(g, page + 1, visits[1..], visits[0].page.nodes)
  {
    var rest, page', nodes' := visits[1..], page + 1, visits[0].page.nodes;
    forall i | 0 <= i < |rest| ensures Visited(g, page', rest, nodes', i) {
      assert Visited(g, page, visits, nodes, i + 1);
      assert NodesBefore(rest, i, nodes') == NodesBefore(visits, i + 1, nodes);
    }
  }

  lemma VisitedCons(g: Paging, page: nat, v: Visit, rest: seq<Visit>, nodes: nat, i: nat)
    requires i < |rest| && Visited(g, page + 1, rest, v.page.nodes, i)
    ensures Visited(g, page, [v] + rest, nodes, i + 1)
  {
    var visits, n := [v] + rest, page + 1 + i;
    assert NodesBefore(rest, i, v.page.nodes) == NodesBefore(visits, i + 1, nodes)
           && NextIn(rest, i) == NextIn(visits, i + 1);
    assert visits[i + 1] == rest[i];
    assert PageAt(g, n, rest[i], NodesBefore(rest, i, v.page.nodes), NextIn(rest, i));
    assert page + (i + 1) == n;
  }

  lemma AllVisitedCons(g: Paging, page: nat, v: Visit, rest: seq<Visit>, nodes: nat)
    requires g.read(page, v.url, nodes) == Some(v.page)
    requires v.page.next == if rest != [] then NextPage(rest[0].url) else NoNext
    requires AllVisited(g, page + 1, rest, v.page.nodes)
    ensures AllVisited(g, page, [v] + rest, nodes)
  {
    var visits, page', nodes' := [v] + rest, page + 1, v.page.nodes;
    assert Visited(g, page, visits, nodes, 0);
    forall i | 0 <= i < |visits| ensures Visited(g, page, visits, nodes, i) {
      if i > 0 {
        assert Visited(g, page', rest, nodes', i - 1);
        VisitedCons(g, page, v, rest, nodes, i - 1);
      }
    }
  }

  lemma NewUrlsIff(v: Visit, rest: seq<Visit>, seen: set<string>)
    requires rest != []
    ensures NewUrls([v] + rest, seen) <==> rest[0].url.text !in seen && NewUrls(rest, seen + {rest[0].url.text})
  {
    var visits, seen' := [v] + rest, seen + {rest[0].url.text};
    if NewUrls(visits, seen) {
      assert visits[1] == rest[0];
      forall i | 0 < i < |rest| ensures rest[i].url.text !in seen' {
        assert visits[i + 1].url.text !in seen && visits[1].url.text != visits[i + 1].url.text;
      }
      forall i, j | 0 < i < j < |rest| ensures rest[i].url.text != rest[j].url.text {
        assert visits[i + 1].url.text != visits[j + 1].url.text;
      }
    }
    if rest[0].url.text !in seen && NewUrls(rest, seen') {
      forall i | 0 < i < |visits| ensures visits[i].url.text !in seen {
        if i > 1 { assert rest[i - 1].url.text !in seen'; }
      }
      forall i, j | 0 < i < j < |visits| ensures visits[i].url.text != visits[j].url.text {
        assert rest[j - 1].url.text !in seen';
        if i > 1 { assert rest[i - 1].url.text != rest[j - 1].url.text; }
      }
    }
  }

  /** A chain is a page one can afford and, when it has a next link, a chain from there on. */
  lemma ChainCons(g: Paging, page: nat, left: Left, v: Visit, rest: seq<Visit>)
    requires rest != [] && g.read(page, v.url, left.nodes) == Some(v.page) && v.page.next == NextPage(rest[0].url)
    requires Affordable(v.page, left, g.maxItems) && Chain(g, page + 1, rest[0].url, Spend(left, v.page), rest)
    ensures Chain(g, page, v.url, left, [v] + rest) && AllItems([v] + rest) == v.page.items + AllItems(rest)
  {
    var visits := [v] + rest;
    assert visits[1..] == rest;
    AllVisitedCons(g, page, v, rest, left.nodes);
    NewUrlsIff(v, rest, left.seen);
  }

  lemma ChainHead(g: Paging, page: nat, url: Url, left: Left, visits: seq<Visit>)
    requires Chain(g, page, url, left, visits) && |visits| > 1
    ensures visits[0].page.next == NextPage(visits[1].url) && g.read(page, url, left.nodes) == Some(visits[0].page)
  {
    assert Visited(g, page, visits, left.nodes, 0);
  }

  lemma HeadIsAffordable(g: Paging, page: nat, url: Url, left: Left, visits: seq<Visit>)
    requires Chain(g, page, url, left, visits) && |visits| > 1 && visits[0].page.next == NextPage(visits[1].url)
    ensures Affordable(visits[0].page, left, g.maxItems)
            && AllItems(visits) == visits[0].page.items + AllItems(visits[1..])
  {
  }

  lemma ChainTail(g: Paging, page: nat, url: Url, left: Left, visits: seq<Visit>)
    requires Chain(g, page, url, left, visits) && |visits| > 1 && visits[0].page.next == NextPage(visits[1].url)
    requires Affordable(visits[0].page, left, g.maxItems)
    ensures Chain(g, page + 1, visits[1].url, Spend(left, visits[0].page), visits[1..])
  {
    AllVisitedTail(g, page, visits, left.nodes);
    assert visits == [visits[0]] + visits[1..];
    NewUrlsIff(visits[0], visits[1..], left.seen);
  }

  lemma ChainOfOne(g: Paging, page: nat, left: Left, v: Visit)
    requires g.read(page, v.url, left.nodes) == Some(v.page) && v.page.next == NoNext
    requires Affordable(v.page, left, g.maxItems) && page < g.maxPages
    ensures Chain(g, page, v.url, left, [v]) && AllItems([v]) == v.page.items
  {
    assert [v][1..] == [] && v.page.items + [] == v.page.items;
    assert [v] + [] == [v];
    AllVisitedCons(g, page, v, [], left.nodes);
  }

  lemma OneIsAffordable(g: Paging, page: nat, url: Url, left: Left, v: Visit)
    requires Chain(g, page, url, left, [v])
    ensures g.read(page, url, left.nodes) == Some(v.page) && v.page.next == NoNext
            && Affordable(v.page, left, g.maxItems)
    ensures AllItems([v]) == v.page.items
  {
    assert Visited(g, page, [v], left.nodes, 0);
    assert [v][1..] == [] && v.page.items + [] == v.page.items;
  }

  lemma FetchNeeds(g: Paging, page: nat, url: Url, left: Left) returns (p: PageRead)
    requires Fetch(g, page, url, left).Some?
    ensures g.read(page, url, left.nodes) == Some(p) && page < g.maxPages && Affordable(p, left, g.maxItems)
            && !p.next.Bad?
    ensures p.next.NextPage? ==> page + 1 < g.maxPages
  {
    p := g.read(page, url, left.nodes).value;
  }

  /** Whatever the loop returns is the concatenation of a whole chain. */
  lemma {:induction false} FetchedIsAChain(g: Paging, page: nat, url: Url, left: Left) returns (visits: seq<Visit>)
    requires Fetch(g, page, url, left).Some?
    ensures Chain(g, page, url, left, visits) && Fetch(g, page, url, left) == Some(AllItems(visits))
    decreases g.maxPages - page
  {
    var p := FetchNeeds(g, page, url, left);
    var v := Visit(url, p);
    FetchStep(g, page, url, left, p);
    if p.next.NoNext? {
      ChainOfOne(g, page, left, v);
      visits := [v];
    } else {
      var rest := FetchedIsAChain(g, page + 1, p.next.url, Spend(left, p));
      ChainCons(g, page, left, v, rest);
      visits := [v] + rest;
    }
  }

  /** And whenever there is a whole chain within the limits, the loop returns it. */
  lemma {:induction false} ChainIsFetched(g: Paging, page: nat, url: Url, left: Left, visits: seq<Visit>)
    requires Chain(g, page, url, left, visits)
    ensures Fetch(g, page, url, left) == Some(AllItems(visits))
    decreases |visits|
  {
    if |visits| == 1 {
      assert visits == [visits[0]];
      OneIsAffordable(g, page, url, left, visits[0]);
      FetchStep(g, page, url, left, visits[0].page);
    } else {
      ChainHead(g, page, url, left, visits);
      HeadIsAffordable(g, page, url, left, visits);
      ChainTail(g, page, url, left, visits);
      FetchStep(g, page, url, left, visits[0].page);
      ChainIsFetched(g, page + 1, visits[1].url, Spend(left, visits[0].page), visits[1..]);
    }
  }

  function Everything(src: Source): (left: Left) {
    Left({src.original.text}, src.maxBytes, 0, 0)
  }

  ghost predicate WholeChain(src: Source, visits: seq<Visit>) {
    Chain(PagingOf(src), 0, src.original, Everything(src), visits)
  }

  /**
   Pagination succeeds exactly when the whole chain exists within the limits, and then returns the items of
   all its pages in order.
   */
  lemma PaginationIsComplete(src: Source)
    ensures Fetch(PagingOf(src), 0, src.original, Everything(src)).Some? <==> exists visits :: WholeChain(src, visits)
    ensures forall visits | WholeChain(src, visits) ::
              Fetch(PagingOf(src), 0, src.original, Everything(src)) == Some(AllItems(visits))
  {
    if Fetch(PagingOf(src), 0, src.original, Everything(src)).Some? {
      var visits := FetchedIsAChain(PagingOf(src), 0, src.original, Everything(src));
      assert WholeChain(src, visits);
    }
    forall visits | WholeChain(src, visits)
      ensures Fetch(PagingOf(src), 0, src.original, Everything(src)) == Some(AllItems(visits))
    {
      ChainIsFetched(PagingOf(src), 0, src.original, Everything(src), visits);
    }
  }

  lemma NextIsSafe(headers: seq<string>, current: Url, original: Url, resolve: Resolver)
    requires NextOf(headers, current, original, resolve).NextPage?
    ensures SafePaginationUrl(NextOf(headers, current, original, resolve).url, original)
  {
  }

  /** Whatever page is read, its next link stays on the original host, port and path. */
  ghost predicate SafeReads(g: Paging, original: Url) {
    forall page: nat, url, nodes: nat :: SafeRead(g.read(page, url, nodes), original)
  }

  predicate SafeRead(r: Option<PageRead>, original: Url) {
    r.Some? && r.value.next.NextPage? ==> SafePaginationUrl(r.value.next.url, original)
  }

  lemma SourceReadsSafely(src: Source)
    ensures SafeReads(PagingOf(src), src.original)
  {
    forall page: nat, url, nodes: nat ensures SafeRead(PagingOf(src).read(page, url, nodes), src.original) {
      var r := ReadPage(src, page, url, nodes);
      if r.Some? && r.value.next.NextPage? { PageNextIsSafe(src, page, url, nodes); }
    }
  }

  lemma ChainIsSafe(g: Paging, original: Url, visits: seq<Visit>, nodes: nat, i: nat)
    requires SafeReads(g, original) && i + 1 < |visits| && AllVisited(g, 0, visits, nodes)
    ensures SafePaginationUrl(visits[i + 1].url, original)
  {
    assert Visited(g, 0, visits, nodes, i);
    assert SafeRead(g.read(0 + i, visits[i].url, NodesBefore(visits, i, nodes)), original);
  }

  lemma ChainStays(g: Paging, original: Url, left: Left, visits: seq<Visit>, i: nat, j: nat)
    requires Chain(g, 0, original, left, visits) && SafeReads(g, original) && left.seen == {original.text}
             && i < j < |visits|
    ensures visits[i].url.text != visits[j].url.text && SafePaginationUrl(visits[j].url, original)
  {
    ChainIsSafe(g, original, visits, left.nodes, j - 1);
    DistinctUrls(visits, original.text, i, j);
  }

  /** Every page of a chain is at another URL, and all of them are on the original host, port and path. */
  lemma ChainStaysHome(src: Source, visits: seq<Visit>, i: nat, j: nat)
    requires WholeChain(src, visits) && i < j < |visits|
    ensures visits[i].url.text != visits[j].url.text
    ensures visits[j].url.scheme == "https" && visits[j].url.opaquePart == ""
    ensures !visits[j].url.hasUser && visits[j].url.fragment == ""
    ensures SameUpToCase(visits[j].url.host, src.original.host) && visits[j].url.path == src.original.path
    ensures SamePort(visits[j].url.port, src.original.port)
  {
    SourceReadsSafely(src);
    ChainStays(PagingOf(src), src.original, Everything(src), visits, i, j);
    SafeIff(visits[j].url, src.original);
  }

  /** The same port, when a missing one counts as 443. */
  predicate SamePort(a: string, b: string) {
    a == b || (a == "" && b == "443") || (a == "443" && b == "")
  }

  /** What may be followed, field by field. */
  ghost predicate AtHome(u: Url, original: Url) {
    && u.scheme == "https" && u.opaquePart == "" && !u.hasUser && u.fragment == ""
    && SameUpToCase(u.host, original.host) && SamePort(u.port, original.port) && u.path == original.path
  }

  lemma SafeIff(u: Url, original: Url)
    ensures SafePaginationUrl(u, original) <==> AtHome(u, original)
  {
    FoldedIff(u.host, original.host);
  }

  lemma DistinctUrls(visits: seq<Visit>, first: string, i: nat, j: nat)
    requires i < j < |visits| && NewUrls(visits, {first}) && visits[0].url.text == first
    ensures visits[i].url.text != visits[j].url.text
  {
  }

  lemma PageNextIsSafe(src: Source, page: nat, url: Url, nodes: nat)
    requires ReadPage(src, page, url, nodes).Some? && ReadPage(src, page, url, nodes).value.next.NextPage?
    ensures SafePaginationUrl(ReadPage(src, page, url, nodes).value.next.url, src.original)
  {
    NextIsSafe(src.server(page, url).links, url, src.original, src.resolve);
  }

  /** Each page is the text of a JSON array with exactly the items returned, and its values are added to the count. */
  lemma PageIsAnArray(src: Source, page: nat, url: Url, nodes: nat) returns (v: Json)
    requires ReadPage(src, page, url, nodes).Some?
    ensures var p := ReadPage(src, page, url, nodes).value;
            && WellFormed(v) && src.server(page, url).Page? && src.server(page, url).tokens == Tokens(v)
            && Meaning(v) == List(p.items) && p.nodes == nodes + Size(v) <= src.limits.maxTotalNodes
            && p.bytes == src.server(page, url).bytes && !src.sensitive(p.items) && !p.next.Bad?
  {
    var tokens := src.server(page, url).tokens;
    v := DecodedComesFrom(tokens, 1, src.limits, nodes);
    assert Tokens(v) + [] == Tokens(v);
    DecodesExactly(v, [], 1, src.limits, nodes);
  }

  // ----- Which links are followed

  ghost predicate SaysNext(relation: string) {
    SameUpToCase(relation, "next")
  }

  ghost predicate NextAt(links: seq<Link>, i: nat, r: nat) {
    i < |links| && r < |links[i].relations| && SaysNext(links[i].relations[r])
  }

  lemma NextWord(relation: string)
    ensures Folded(relation) == "next" <==> SaysNext(relation)
  {
    FoldedWord("next");
    FoldedIff(relation, "next");
  }

  lemma {:induction false} NoneCounted(relations: seq<string>)
    requires forall r | 0 <= r < |relations| :: !SaysNext(relations[r])
    ensures NextCount(relations) == 0
  {
    if relations != [] {
      NextWord(relations[0]);
      forall r | 0 <= r < |relations[1..]| ensures !SaysNext(relations[1..][r]) { assert !SaysNext(relations[r + 1]); }
      NoneCounted(relations[1..]);
    }
  }

  lemma {:induction false} OneCounted(relations: seq<string>, r: nat)
    requires r < |relations| && SaysNext(relations[r])
    ensures NextCount(relations) >= 1
    ensures (forall q | 0 <= q < |relations| && q != r :: !SaysNext(relations[q])) ==> NextCount(relations) == 1
    ensures forall q | 0 <= q < |relations| && q != r && SaysNext(relations[q]) :: NextCount(relations) >= 2
    decreases |relations|
  {
    var tail := relations[1..];
    NextWord(relations[0]);
    assert forall q | 0 <= q < |tail| :: tail[q] == relations[q + 1];
    if r == 0 {
      if forall q | 0 <= q < |tail| :: !SaysNext(tail[q]) {
        NoneCounted(tail);
      } else {
        var q :| 0 <= q < |tail| && SaysNext(tail[q]);
        OneCounted(tail, q);
      }
    } else {
      OneCounted(tail, r - 1);
      forall q | 0 <= q < |relations| && q != r && SaysNext(relations[q]) ensures NextCount(relations) >= 2 {
        if q > 0 { assert SaysNext(tail[q - 1]); }
      }
      if forall q | 0 <= q < |relations| && q != r :: !SaysNext(relations[q]) {
        forall q | 0 <= q < |tail| && q != r - 1 ensures !SaysNext(tail[q]) { assert !SaysNext(relations[q + 1]); }
      }
    }
  }

  lemma {:induction false} NoTargets(links: seq<Link>)
    requires forall i: nat, r: nat :: !NextAt(links, i, r)
    ensures NextTargets(links) == []
    decreases |links|
  {
    if links != [] {
      forall r | 0 <= r < |links[0].relations| ensures !SaysNext(links[0].relations[r]) { assert !NextAt(links, 0, r); }
      NoneCounted(links[0].relations);
      forall i: nat, r: nat ensures !NextAt(links[1..], i, r) { assert !NextAt(links, i + 1, r); }
      NoTargets(links[1..]);
    }
  }

  lemma {:induction false} OneTarget(links: seq<Link>, k: nat, n: nat)
    requires NextAt(links, k, n) && forall i: nat, r: nat | NextAt(links, i, r) :: i == k && r == n
    ensures NextTargets(links) == [links[k].target]
    decreases |links|
  {
    if k == 0 {
      forall q | 0 <= q < |links[0].relations| && q != n ensures !SaysNext(links[0].relations[q]) {
        assert !NextAt(links, 0, q);
      }
      OneCounted(links[0].relations, n);
      forall i: nat, r: nat ensures !NextAt(links[1..], i, r) { assert !NextAt(links, i + 1, r); }
      NoTargets(links[1..]);
    } else {
      forall r | 0 <= r < |links[0].relations| ensures !SaysNext(links[0].relations[r]) { assert !NextAt(links, 0, r); }
      NoneCounted(links[0].relations);
      assert NextAt(links[1..], k - 1, n);
      forall i: nat, r: nat | NextAt(links[1..], i, r) ensures i == k - 1 && r == n { assert NextAt(links, i + 1, r); }
      OneTarget(links[1..], k - 1, n);
    }
  }

  lemma {:induction false} SomeTarget(links: seq<Link>, k: nat, n: nat)
    requires NextAt(links, k, n)
    ensures |NextTargets(links)| >= 1
    decreases |links|
  {
    if k == 0 {
      OneCounted(links[0].relations, n);
    } else {
      assert NextAt(links[1..], k - 1, n);
      SomeTarget(links[1..], k - 1, n);
    }
  }

  lemma {:induction false} TwoTargets(links: seq<Link>, i: nat, r: nat, j: nat, q: nat)
    requires NextAt(links, i, r) && NextAt(links, j, q) && (i < j || (i == j && r != q))
    ensures |NextTargets(links)| >= 2
    decreases |links|
  {
    if i == 0 {
      OneCounted(links[0].relations, r);
      if j > 0 {
        assert NextAt(links[1..], j - 1, q);
        SomeTarget(links[1..], j - 1, q);
      }
    } else {
      assert NextAt(links[1..], i - 1, r) && NextAt(links[1..], j - 1, q);
      TwoTargets(links[1..], i - 1, r, j - 1, q);
    }
  }

  /** A field that is not too long and is accepted, in any spelling. */
  ghost predicate GoodField(es: seq<Element>) {
    es != [] && (forall e | e in es :: ValidElement(e)) && AllAccepted(es) && |WriteHeader(es)| <= MAX_LINK_BYTES
  }

  lemma FieldIsRead(es: seq<Element>)
    requires GoodField(es)
    ensures LinksOf([WriteHeader(es)], 0) == Some(StandardLinks(es))
  {
    HeaderReadsBack(es);
    OneField(WriteHeader(es), StandardLinks(es));
  }

  /**
   The only next link of a field is followed exactly when it has no fragment, can be resolved, is not too
   long and stays on the original scheme, host, port and path; otherwise the pagination is refused.
   */
  lemma OnlyNextLink(es: seq<Element>, k: nat, n: nat, current: Url, original: Url, resolve: Resolver)
    requires GoodField(es) && NextAt(StandardLinks(es), k, n)
    requires forall i: nat, r: nat | NextAt(StandardLinks(es), i, r) :: i == k && r == n
    ensures var target := StandardLinks(es)[k].target;
            var u := resolve(current, target);
            NextOf([WriteHeader(es)], current, original, resolve) ==
            if '#' !in target && u.Some? && |u.value.text| <= MAX_URL_BYTES && AtHome(u.value, original)
            then NextPage(u.value) else Bad
  {
    FieldIsRead(es);
    OneTarget(StandardLinks(es), k, n);
    var u := resolve(current, StandardLinks(es)[k].target);
    if u.Some? { SafeIff(u.value, original); }
  }

  /** Without a next link the pages end, and with two of them the pagination is refused. */
  lemma NoneOrTwoNextLinks(es: seq<Element>, current: Url, original: Url, resolve: Resolver)
    requires GoodField(es)
    ensures (forall i: nat, r: nat :: !NextAt(StandardLinks(es), i, r)) ==>
              NextOf([WriteHeader(es)], current, original, resolve) == NoNext
    ensures forall i: nat, r: nat, j: nat, q: nat ::
              NextAt(StandardLinks(es), i, r) && NextAt(StandardLinks(es), j, q) && (i < j || (i == j && r != q)) ==>
                NextOf([WriteHeader(es)], current, original, resolve) == Bad
  {
    FieldIsRead(es);
    if forall i: nat, r: nat :: !NextAt(StandardLinks(es), i, r) { NoTargets(StandardLinks(es)); }
    forall i: nat, r: nat, j: nat, q: nat |
      NextAt(StandardLinks(es), i, r) && NextAt(StandardLinks(es), j, q) && (i < j || (i == j && r != q))
      ensures NextOf([WriteHeader(es)], current, original, resolve) == Bad
    {
      TwoTargets(StandardLinks(es), i, r, j, q);
    }
  }

  // ----- A chain of two pages

  const SMALL_LIMITS := Limits(2, 4, 1, 8, 8)
  const NEXT_HEADER := "<p>" + (";rel=next" + "")

  function OnePage(n: string): (v: Json) {
    Array(Item(Scalar(Number(n)), NoItems))
  }

  /** A server that answers with a page, a next link, and a page without one. */
  predicate HasTwoPages(src: Source, second: Url) {
    && src.maxPages == 2 && src.maxBytes >= 6 && src.limits == SMALL_LIMITS
    && src.server(0, src.original) == Page(3, Tokens(OnePage("1")), [NEXT_HEADER])
    && src.server(1, second) == Page(3, Tokens(OnePage("2")), [])
    && src.resolve(src.original, "p") == Some(second)
    && !src.sensitive([Leaf(Number("1"))]) && !src.sensitive([Leaf(Number("2"))])
  }

  lemma NextLinkIsRead()
    ensures LinksOf([NEXT_HEADER], 0) == Some([Link("p", ["next"])]) && NextTargets([Link("p", ["next"])]) == ["p"]
  {
    NextFirst([]);
    assert RelCount([]) == 0;
    OneField(NEXT_HEADER, [Link("p", ["next"])]);
    NextIsNext();
  }

  lemma OneField(header: string, links: seq<Link>)
    requires |header| <= MAX_LINK_BYTES && ParseHeader(header) == Some(links)
    ensures LinksOf([header], 0) == Some(links)
  {
    assert [header][1..] == [] && LinksOf([], |header|) == Some([]);
    ThenNothing(Some(links));
  }

  lemma NextIsNext()
    ensures NextTargets([Link("p", ["next"])]) == ["p"]
  {
    assert Folded("next") == "next";
    assert ["next"][1..] == [] && NextCount(["next"]) == 1;
    assert [Link("p", ["next"])][1..] == [];
  }

  lemma OnePageDecodes(n: string, nodes: nat)
    requires nodes <= 2
    ensures Decode(Tokens(OnePage(n)), 1, SMALL_LIMITS, nodes) == Decoded(List([Leaf(Number(n))]), [], nodes + 2)
  {
    var item := Scalar(Number(n));
    var items := Item(item, NoItems);
    var v := Array(items);
    DecodesExactly(v, [], 1, SMALL_LIMITS, nodes);
    assert Tokens(v) + [] == Tokens(v);
    assert Fits(item, 2, SMALL_LIMITS) && ItemsFit(NoItems, 2, SMALL_LIMITS);
    assert ItemsFit(items, 2, SMALL_LIMITS) && Length(items) == 1 + Length(NoItems);
    assert ItemsSize(items) == Size(item) + ItemsSize(NoItems);
    assert ItemsMeaning(items) == [Meaning(item)] + ItemsMeaning(NoItems);
    assert ItemsMeaning(items) == [Leaf(Number(n))];
  }

  lemma PageIsRead(src: Source, page: nat, url: Url, nodes: nat, response: Response, items: seq<Value>, nodes': nat,
                   next: Next)
    requires src.server(page, url) == response && response.Page? && !src.sensitive(items) && next != Bad
    requires Decode(response.tokens, 1, src.limits, nodes) == Decoded(List(items), [], nodes')
    requires NextOf(response.links, url, src.original, src.resolve) == next
    ensures ReadPage(src, page, url, nodes) == Some(PageRead(response.bytes, items, nodes', next))
  {
  }

  lemma FirstPage(src: Source, second: Url)
    requires HasTwoPages(src, second) && SafePaginationUrl(second, src.original) && |second.text| <= MAX_URL_BYTES
    ensures ReadPage(src, 0, src.original, 0) == Some(PageRead(3, [Leaf(Number("1"))], 2, NextPage(second)))
  {
    NextLinkIsRead();
    OnePageDecodes("1", 0);
    PageIsRead(src, 0, src.original, 0, src.server(0, src.original), [Leaf(Number("1"))], 2, NextPage(second));
  }

  lemma SecondPage(src: Source, second: Url)
    requires HasTwoPages(src, second)
    ensures ReadPage(src, 1, second, 2) == Some(PageRead(3, [Leaf(Number("2"))], 4, NoNext))
  {
    OnePageDecodes("2", 2);
    PageIsRead(src, 1, second, 2, src.server(1, second), [Leaf(Number("2"))], 4, NoNext);
  }

  /** Any safe second URL can be the next page: both pages are then returned. */
  lemma TwoPagesAreJoined(src: Source, second: Url)
    requires HasTwoPages(src, second) && SafePaginationUrl(second, src.original) && |second.text| <= MAX_URL_BYTES
             && second.text != src.original.text
    ensures Fetch(PagingOf(src), 0, src.original, Everything(src)) == Some([Leaf(Number("1"))] + [Leaf(Number("2"))])
  {
    FirstPage(src, second);
    SecondPage(src, second);
    JoinSource(src, second, PageRead(3, [Leaf(Number("1"))], 2, NextPage(second)),
               PageRead(3, [Leaf(Number("2"))], 4, NoNext));
  }

  lemma JoinSource(src: Source, second: Url, p1: PageRead, p2: PageRead)
    requires src.maxPages == 2 && ReadPage(src, 0, src.original, 0) == Some(p1)
             && ReadPage(src, 1, second, p1.nodes) == Some(p2)
    requires p1.next == NextPage(second) && p2.next == NoNext && second.text != src.original.text
    requires p1.bytes + p2.bytes <= src.maxBytes && |p1.items| + |p2.items| <= src.limits.maxArrayItems
    ensures Fetch(PagingOf(src), 0, src.original, Everything(src)) == Some(p1.items + p2.items)
  {
    JoinTwo(PagingOf(src), src.original, second, Everything(src), p1, p2);
  }

  lemma JoinTwo(g: Paging, first: Url, second: Url, left: Left, p1: PageRead, p2: PageRead)
    requires g.maxPages == 2 && g.read(0, first, left.nodes) == Some(p1) && g.read(1, second, p1.nodes) == Some(p2)
    requires p1.next == NextPage(second) && p2.next == NoNext && second.text !in left.seen
    requires p1.bytes + p2.bytes <= left.bytes && left.count + |p1.items| + |p2.items| <= g.maxItems
    ensures Fetch(g, 0, first, left) == Some(p1.items + p2.items)
  {
    FetchStep(g, 0, first, left, p1);
    FetchStep(g, 1, second, Spend(left, p1), p2);
  }
}
