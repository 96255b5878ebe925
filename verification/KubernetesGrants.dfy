/**
 Kubernetes grants: a profile may ask for all contexts of a provider. Compiling leaves such a grant open,
 and a later pass fills it from the provider's catalogue. The result renders as if the contexts had been
 listed by hand, and the broker's and the controller's copies of the grants stay the same.
 */
module KubernetesGrants {
  import opened Wrappers
  import opened Names

  const MAX_ITEMS: nat := 256
  const MAX_STRING_BYTES: nat := 4096

  datatype Rule = Rule(operation: string, target: string)

  datatype Policy = Observe | Custom(defaultAction: string, rules: seq<Rule>)

  datatype Authorization = Authorization(defaultAction: string, rules: seq<Rule>)

  /** What a profile asks of one kubeconfig provider. */
  datatype Access = Access(provider: string, allContexts: bool, contexts: seq<string>, policy: Option<Policy>)

  datatype Grant =
    | Catalog(provider: string, resources: seq<string>, allContexts: bool, authorization: Option<Authorization>)
    | Other(provider: string, content: string)

  function SortStrings(names: seq<string>): (r: seq<string>) {
    if names == [] then [] else Insert(names[0], SortStrings(names[1..]))
  }

  function Observations(contexts: seq<string>): (rules: seq<Rule>) {
    seq(|contexts|, i requires 0 <= i < |contexts| => Rule("observe", "context/" + contexts[i]))
  }

  function ResolveAuthorization(policy: Option<Policy>, contexts: seq<string>): (r: Option<Authorization>) {
    match policy
    case None => None
    case Some(Observe) => Some(Authorization("deny", Observations(contexts)))
    case Some(Custom(defaultAction, rules)) => Some(Authorization(defaultAction, rules))
  }

  // ----- Compiling

  function CompileAccess(a: Access): (g: Grant) {
    var contexts := SortStrings(a.contexts);
    Catalog(a.provider, contexts, a.allContexts, if a.allContexts then None
            else ResolveAuthorization(a.policy, contexts))
  }

  function CompileAll(accesses: seq<Access>): (grants: seq<Grant>) {
    if accesses == [] then [] else [CompileAccess(accesses[0])] + CompileAll(accesses[1..])
  }

  /** The grants of a profile that are not Kubernetes grants come before and after them. */
  datatype Profile = Profile(name: string, accesses: seq<Access>, before: seq<Grant>, after: seq<Grant>)

  function CompileGrants(p: Profile): (grants: seq<Grant>) {
    p.before + CompileAll(p.accesses) + p.after
  }

  /** What validation guarantees of a profile. */
  ghost predicate ValidProfile(p: Profile) {
    && (forall i, j | 0 <= i < j < |p.accesses| :: p.accesses[i].provider != p.accesses[j].provider)
    && (forall a | a in p.accesses && a.allContexts :: a.contexts == [])
    && (forall g | g in p.before + p.after :: g.Other?)
  }

  // ----- Filling in the catalogues

  type Catalogs = map<string, seq<string>>

  predicate UniqueStrings(names: seq<string>) {
    && |names| <= MAX_ITEMS && (forall n | n in names :: n != "" && |n| <= MAX_STRING_BYTES)
    && forall i, j | 0 <= i < j < |names| :: names[i] != names[j]
  }

  predicate ValidContext(name: string) {
    name != "" && |name| <= MAX_STRING_BYTES && forall c | c in name :: c !in ['*', '\0', '\r', '\n']
  }

  predicate ValidCatalog(catalogs: Catalogs, provider: string) {
    && provider in catalogs && catalogs[provider] != [] && UniqueStrings(catalogs[provider])
    && forall n | n in catalogs[provider] :: ValidContext(n)
  }

  /** Fill the first Kubernetes grant of a provider; it has to be there and still open. */
  function Fill(grants: seq<Grant>, provider: string, contexts: seq<string>,
                authorization: Option<Authorization>): (r: Option<seq<Grant>>) {
    if grants == [] then None
    else if grants[0].Catalog? && grants[0].provider == provider then
      if !grants[0].allContexts || grants[0].resources != [] || grants[0].authorization.Some? then None
      else Some([Catalog(provider, contexts, true, authorization)] + grants[1..])
    else
      var rest := Fill(grants[1..], provider, contexts, authorization);
      if rest.None? then None else Some([grants[0]] + rest.value)
  }

  method ResolveKubernetesGrant(grants: seq<Grant>, provider: string, contexts: seq<string>,
                                authorization: Option<Authorization>)
    returns (r: Option<seq<Grant>>)
    ensures r == Fill(grants, provider, contexts, authorization)
  {
    ghost var whole := Fill(grants, provider, contexts, authorization);
    assert grants[0..] == grants;
    PrependNone(whole);
    for index := 0 to |grants|
      invariant whole == Prepend(grants[..index], Fill(grants[index..], provider, contexts, authorization))
    {
      var grant := grants[index];
      FillHere(grants, index, provider, contexts, authorization);
      if !grant.Catalog? || grant.provider != provider {
        PassedBy(grants, index, Fill(grants[index + 1..], provider, contexts, authorization));
        continue;
      }
      if !grant.allContexts || grant.resources != [] || grant.authorization.Some? { return None; }
      var filled := Catalog(provider, contexts, true, authorization);
      ReplacedAt(grants, index, filled);
      return Some(grants[index := filled]);
    }
    assert grants[|grants|..] == [];
    r := None;
  }

  lemma FillHere(grants: seq<Grant>, index: nat, provider: string, contexts: seq<string>,
                 authorization: Option<Authorization>)
    requires index < |grants|
    ensures var grant := grants[index];
            Fill(grants[index..], provider, contexts, authorization) ==
            if !grant.Catalog? || grant.provider != provider then
                Prepend([grant], Fill(grants[index + 1..], provider, contexts, authorization))
            else if !grant.allContexts || grant.resources != [] || grant.authorization.Some? then None
            else Some([Catalog(provider, contexts, true, authorization)] + grants[index + 1..])
  {
    assert grants[index..][0] == grants[index] && grants[index..][1..] == grants[index + 1..];
  }

  lemma PassedBy(grants: seq<Grant>, index: nat, rest: Option<seq<Grant>>)
    requires index < |grants|
    ensures Prepend(grants[..index], Prepend([grants[index]], rest)) == Prepend(grants[..index + 1], rest)
  {
    assert grants[..index + 1] == grants[..index] + [grants[index]];
    PrependOne(grants[..index], grants[index], rest);
  }

  lemma ReplacedAt(grants: seq<Grant>, index: nat, filled: Grant)
    requires index < |grants|
    ensures Prepend(grants[..index], Some([filled] + grants[index + 1..])) == Some(grants[index := filled])
  {
    assert grants[..index] + ([filled] + grants[index + 1..]) == grants[index := filled];
  }

  lemma PrependNone(rest: Option<seq<Grant>>)
    ensures Prepend([], rest) == rest
  {
    if rest.Some? { assert [] + rest.value == rest.value; }
  }

  function Prepend(front: seq<Grant>, rest: Option<seq<Grant>>): (r: Option<seq<Grant>>) {
    if rest.None? then None else Some(front + rest.value)
  }

  lemma PrependOne(front: seq<Grant>, g: Grant, rest: Option<seq<Grant>>)
    ensures Prepend(front, Prepend([g], rest)) == Prepend(front + [g], rest)
  {
    if rest.Some? { assert front + ([g] + rest.value) == front + [g] + rest.value; }
  }

  /** Fill every open grant of a profile, in the order of its accesses. */
  function Resolve(grants: seq<Grant>, accesses: seq<Access>, catalogs: Catalogs): (r: Option<seq<Grant>>)
    decreases |accesses|
  {
    if accesses == [] then Some(grants)
    else if !accesses[0].allContexts then Resolve(grants, accesses[1..], catalogs)
    else if !ValidCatalog(catalogs, accesses[0].provider) then None
    else
      var contexts := SortStrings(catalogs[accesses[0].provider]);
      var filled := Fill(grants, accesses[0].provider, contexts, ResolveAuthorization(accesses[0].policy, contexts));
      if filled.None? then None else Resolve(filled.value, accesses[1..], catalogs)
  }

  // ----- Rendering

  datatype Rendered =
    | Kubeconfig(provider: string, resources: seq<string>, hosts: seq<(string, string)>,
                 authorization: Option<Authorization>)
    | Plain(provider: string, content: string)

  /** The host of a context is derived from a digest of provider and context, which is taken to be injective. */
  function RenderGrant(g: Grant): (r: Option<Rendered>) {
    match g
    case Other(provider, content) => Some(Plain(provider, content))
    case Catalog(provider, resources, allContexts, authorization) =>
      if allContexts && resources == [] then None
      else Some(Kubeconfig(provider, resources,
                           seq(|resources|,
                               i requires 0 <= i < |resources| => (provider, resources[i])), authorization))
  }

  function Render(grants: seq<Grant>): (r: Option<seq<Rendered>>) {
    if grants == [] then Some([])
    else
      var first, rest := RenderGrant(grants[0]), Render(grants[1..]);
      if first.None? || rest.None? then None else Some([first.value] + rest.value)
  }

  // ----- The same contexts listed by hand

  function ListAccess(a: Access, catalogs: Catalogs): (a': Access) {
    if a.allContexts && a.provider in catalogs then a.(allContexts := false, contexts := catalogs[a.provider]) else a
  }

  function ListAll(accesses: seq<Access>, catalogs: Catalogs): (r: seq<Access>) {
    if accesses == [] then [] else [ListAccess(accesses[0], catalogs)] + ListAll(accesses[1..], catalogs)
  }

  /** The profile as someone would write it who knows the catalogues. */
  function Listed(p: Profile, catalogs: Catalogs): (p': Profile) {
    p.(accesses := ListAll(p.accesses, catalogs))
  }

  /** A grant as the filling pass leaves it, when the providers in `done` have been filled. */
  function Filled(a: Access, catalogs: Catalogs, done: set<string>): (g: Grant) {
    if a.allContexts && a.provider in done && a.provider in catalogs then
      var contexts := SortStrings(catalogs[a.provider]);
      Catalog(a.provider, contexts, true, ResolveAuthorization(a.policy, contexts))
    else CompileAccess(a)
  }

  function FilledAll(accesses: seq<Access>, catalogs: Catalogs, done: set<string>): (grants: seq<Grant>) {
    if accesses == [] then [] else [Filled(accesses[0], catalogs, done)] + FilledAll(accesses[1..], catalogs, done)
  }

  ghost predicate Distinct(accesses: seq<Access>) {
    forall i, j | 0 <= i < j < |accesses| :: accesses[i].provider != accesses[j].provider
  }

  lemma {:induction false} FillSkips(front: seq<Grant>, rest: seq<Grant>, provider: string, contexts: seq<string>,
                                     authorization: Option<Authorization>)
    requires forall g | g in front :: g.Other?
    ensures Fill(front + rest, provider, contexts, authorization) ==
            Prepend(front, Fill(rest, provider, contexts, authorization))
    decreases |front|
  {
    if front == [] {
      assert front + rest == rest;
      var r := Fill(rest, provider, contexts, authorization);
      assert r.Some? ==> [] + r.value == r.value;
    } else {
      assert front[0] in front && forall g | g in front[1..] :: g in front;
      assert (front + rest)[1..] == front[1..] + rest;
      FillSkips(front[1..], rest, provider, contexts, authorization);
      var r := Fill(rest, provider, contexts, authorization);
      assert r.Some? ==> [front[0]] + (front[1..] + r.value) == front + r.value;
    }
  }

  lemma {:induction false} NotDone(accesses: seq<Access>, catalogs: Catalogs, done: set<string>, provider: string)
    requires forall a | a in accesses :: a.provider != provider
    ensures FilledAll(accesses, catalogs, done + {provider}) == FilledAll(accesses, catalogs, done)
    decreases |accesses|
  {
    if accesses != [] {
      assert accesses[0] in accesses && forall a | a in accesses[1..] :: a in accesses;
      NotDone(accesses[1..], catalogs, done, provider);
    }
  }

  lemma DistinctTail(accesses: seq<Access>)
    requires Distinct(accesses) && accesses != []
    ensures Distinct(accesses[1..]) && forall a | a in accesses[1..] :: a.provider != accesses[0].provider
  {
    var tail := accesses[1..];
    forall i, j | 0 <= i < j < |tail| ensures tail[i].provider != tail[j].provider {
      assert accesses[i + 1].provider != accesses[j + 1].provider;
    }
    forall a | a in tail ensures a.provider != accesses[0].provider {
      var j :| 0 <= j < |tail| && tail[j] == a;
      assert accesses[j + 1] == a;
    }
  }

  lemma FillCons(g: Grant, more: seq<Grant>, provider: string, contexts: seq<string>,
                 authorization: Option<Authorization>)
    ensures Fill([g] + more, provider, contexts, authorization) ==
            if g.Catalog? && g.provider == provider then
              if !g.allContexts || g.resources != [] || g.authorization.Some? then None
              else Some([Catalog(provider, contexts, true, authorization)] + more)
            else Prepend([g], Fill(more, provider, contexts, authorization))
  {
    assert ([g] + more)[0] == g && ([g] + more)[1..] == more;
  }

  lemma FillsHere(g: Grant, more: seq<Grant>, rest: seq<Grant>, provider: string, contexts: seq<string>,
                  authorization: Option<Authorization>)
    requires g == Catalog(provider, [], true, None)
    ensures Fill([g] + more + rest, provider, contexts, authorization) ==
            Some([Catalog(provider, contexts, true, authorization)] + more + rest)
  {
    var filled := Catalog(provider, contexts, true, authorization);
    FillCons(g, more + rest, provider, contexts, authorization);
    assert [g] + more + rest == [g] + (more + rest) && [filled] + more + rest == [filled] + (more + rest);
  }

  lemma FillsLater(g: Grant, more: seq<Grant>, filled: seq<Grant>, rest: seq<Grant>,
                   provider: string, contexts: seq<string>, authorization: Option<Authorization>)
    requires !(g.Catalog? && g.provider == provider)
    requires Fill(more + rest, provider, contexts, authorization) == Some(filled + rest)
    ensures Fill([g] + more + rest, provider, contexts, authorization) == Some([g] + filled + rest)
  {
    FillCons(g, more + rest, provider, contexts, authorization);
    assert [g] + more + rest == [g] + (more + rest) && [g] + filled + rest == [g] + (filled + rest);
  }

  /** Filling one provider fills exactly its own grant. */
  lemma {:induction false} FillsItsOwn(accesses: seq<Access>, rest: seq<Grant>, catalogs: Catalogs, done: set<string>,
                                       k: nat)
    requires Distinct(accesses) && k < |accesses| && accesses[k].allContexts && accesses[k].contexts == []
    requires accesses[k].provider !in done && accesses[k].provider in catalogs
    ensures var contexts := SortStrings(catalogs[accesses[k].provider]);
            Fill(FilledAll(accesses, catalogs, done) + rest, accesses[k].provider, contexts,
                 ResolveAuthorization(accesses[k].policy, contexts))
            == Some(FilledAll(accesses, catalogs, done + {accesses[k].provider}) + rest)
    decreases |accesses|
  {
    var provider, contexts := accesses[k].provider, SortStrings(catalogs[accesses[k].provider]);
    var authorization := ResolveAuthorization(accesses[k].policy, contexts);
    var tail := accesses[1..];
    var more, filled := FilledAll(tail, catalogs, done), FilledAll(tail, catalogs, done + {provider});
    DistinctTail(accesses);
    if k == 0 {
      NotDone(tail, catalogs, done, provider);
      FillsHere(Filled(accesses[0], catalogs, done), more, rest, provider, contexts, authorization);
    } else {
      assert tail[k - 1] == accesses[k] && accesses[0].provider != provider;
      FillsItsOwn(tail, rest, catalogs, done, k - 1);
      FillsLater(Filled(accesses[0], catalogs, done), more, filled, rest, provider, contexts, authorization);
    }
  }

  function OpenProviders(accesses: seq<Access>): (r: set<string>) {
    set a | a in accesses && a.allContexts :: a.provider
  }

  ghost predicate CatalogsValid(accesses: seq<Access>, catalogs: Catalogs) {
    forall a | a in accesses && a.allContexts :: ValidCatalog(catalogs, a.provider)
  }

  lemma OpenProvidersOfMore(accesses: seq<Access>, k: nat)
    requires k < |accesses|
    ensures OpenProviders(accesses[..k + 1]) == OpenProviders(accesses[..k]) + if accesses[k].allContexts then
              {accesses[k].provider} else {}
  {
    assert accesses[..k + 1] == accesses[..k] + [accesses[k]];
  }

  lemma CatalogsValidFrom(accesses: seq<Access>, k: nat, catalogs: Catalogs)
    requires k < |accesses|
    ensures CatalogsValid(accesses[k..], catalogs) <==>
            (accesses[k].allContexts ==> ValidCatalog(catalogs, accesses[k].provider))
              && CatalogsValid(accesses[k + 1..], catalogs)
  {
    assert accesses[k..] == [accesses[k]] + accesses[k + 1..];
  }

  function Between(p: Profile, middle: seq<Grant>): (grants: seq<Grant>) {
    p.before + (middle + p.after)
  }

  lemma FillInProfile(p: Profile, catalogs: Catalogs, done: set<string>, k: nat)
    requires ValidProfile(p) && k < |p.accesses| && p.accesses[k].allContexts
    requires p.accesses[k].provider !in done && p.accesses[k].provider in catalogs
    ensures var a := p.accesses[k];
            var contexts := SortStrings(catalogs[a.provider]);
            Fill(Between(p, FilledAll(p.accesses, catalogs, done)), a.provider, contexts,
                 ResolveAuthorization(a.policy, contexts))
            == Some(Between(p, FilledAll(p.accesses, catalogs, done + {a.provider})))
  {
    var a := p.accesses[k];
    var contexts := SortStrings(catalogs[a.provider]);
    assert a in p.accesses;
    assert forall g | g in p.before :: g in p.before + p.after;
    FillSkips(p.before, FilledAll(p.accesses, catalogs, done) + p.after, a.provider, contexts,
              ResolveAuthorization(a.policy, contexts));
    FillsItsOwn(p.accesses, p.after, catalogs, done, k);
  }

  lemma NotYetDone(p: Profile, k: nat)
    requires ValidProfile(p) && k < |p.accesses|
    ensures p.accesses[k].provider !in OpenProviders(p.accesses[..k])
  {
  }

  /** The pass succeeds exactly when every catalogue it needs is valid, and then every open grant has been filled. */
  lemma {:induction false} ResolveFills(p: Profile, catalogs: Catalogs, k: nat)
    requires ValidProfile(p) && k <= |p.accesses|
    ensures Resolve(Between(p, FilledAll(p.accesses, catalogs, OpenProviders(p.accesses[..k]))), p.accesses[k..],
                    catalogs) ==
            if CatalogsValid(p.accesses[k..], catalogs) then
                Some(Between(p, FilledAll(p.accesses, catalogs, OpenProviders(p.accesses)))) else None
    decreases |p.accesses| - k
  {
    if k == |p.accesses| {
      assert p.accesses[..k] == p.accesses && p.accesses[k..] == [];
    } else {
      var a := p.accesses[k];
      assert p.accesses[k..][0] == a && p.accesses[k..][1..] == p.accesses[k + 1..];
      OpenProvidersOfMore(p.accesses, k);
      CatalogsValidFrom(p.accesses, k, catalogs);
      ResolveFills(p, catalogs, k + 1);
      if a.allContexts && ValidCatalog(catalogs, a.provider) {
        NotYetDone(p, k);
        FillInProfile(p, catalogs, OpenProviders(p.accesses[..k]), k);
      } else if !a.allContexts {
        assert OpenProviders(p.accesses[..k + 1]) == OpenProviders(p.accesses[..k]);
      }
    }
  }

  lemma {:induction false} NothingFilled(accesses: seq<Access>, catalogs: Catalogs)
    ensures FilledAll(accesses, catalogs, {}) == CompileAll(accesses)
    decreases |accesses|
  {
    if accesses != [] { NothingFilled(accesses[1..], catalogs); }
  }

  lemma ResolvedProfile(p: Profile, catalogs: Catalogs)
    requires ValidProfile(p)
    ensures Resolve(CompileGrants(p), p.accesses, catalogs) ==
            if CatalogsValid(p.accesses, catalogs) then
                Some(Between(p, FilledAll(p.accesses, catalogs, OpenProviders(p.accesses)))) else None
  {
    ResolveFills(p, catalogs, 0);
    NothingFilled(p.accesses, catalogs);
    assert p.accesses[..0] == [] && p.accesses[0..] == p.accesses;
    assert OpenProviders([]) == {};
    assert CompileGrants(p) == Between(p, CompileAll(p.accesses));
  }

  // ----- Filled and listed grants are the same grants

  /** The resources a provider is asked for. */
  function Resources(grants: seq<Grant>, provider: string): (r: set<string>) {
    if grants == [] then {}
    else
      var own := if grants[0].Catalog? && grants[0].provider == provider then set x | x in grants[0].resources else {};
      own + Resources(grants[1..], provider)
  }

  lemma InsertIsNotEmpty(names: seq<string>)
    requires names != []
    ensures SortStrings(names) != []
  {
  }

  lemma {:induction false} RenderJoin(a: seq<Grant>, b: seq<Grant>, provider: string)
    ensures Render(a + b) == if Render(a).None? || Render(b).None? then None
            else Some(Render(a).value + Render(b).value)
    ensures Resources(a + b, provider) == Resources(a, provider) + Resources(b, provider)
    decreases |a|
  {
    if a == [] {
      assert a + b == b;
      assert Render(b).Some? ==> [] + Render(b).value == Render(b).value;
    } else {
      assert (a + b)[1..] == a[1..] + b;
      RenderJoin(a[1..], b, provider);
      if Render(a + b).Some? {
        assert [RenderGrant(a[0]).value] + (Render(a[1..]).value + Render(b).value) ==
               Render(a).value + Render(b).value;
      }
    }
  }

  lemma {:induction false} FilledIsListed(accesses: seq<Access>, catalogs: Catalogs, done: set<string>,
                                          provider: string)
    requires CatalogsValid(accesses, catalogs) && OpenProviders(accesses) <= done
    ensures Render(FilledAll(accesses, catalogs, done)) == Render(CompileAll(ListAll(accesses, catalogs)))
    ensures Resources(FilledAll(accesses, catalogs, done), provider) ==
            Resources(CompileAll(ListAll(accesses, catalogs)), provider)
    decreases |accesses|
  {
    if accesses != [] {
      var a, tail := accesses[0], accesses[1..];
      assert a in accesses && forall x | x in tail :: x in accesses;
      FilledIsListed(tail, catalogs, done, provider);
      if a.allContexts {
        assert a.provider in done;
        InsertIsNotEmpty(catalogs[a.provider]);
      }
      assert RenderGrant(Filled(a, catalogs, done)) == RenderGrant(CompileAccess(ListAccess(a, catalogs)));
      assert FilledAll(accesses, catalogs, done)[1..] == FilledAll(tail, catalogs, done);
      assert ListAll(accesses, catalogs)[1..] == ListAll(tail, catalogs);
    }
  }

  /**
   Filling in the catalogues after compiling, and then rendering, gives what listing the contexts by hand
   gives: the same rendered grants, and the same resources asked of every provider.
   */
  lemma ExpandingIsListing(p: Profile, catalogs: Catalogs, provider: string)
    requires ValidProfile(p) && CatalogsValid(p.accesses, catalogs)
    ensures Resolve(CompileGrants(p), p.accesses, catalogs).Some?
    ensures var expanded := Resolve(CompileGrants(p), p.accesses, catalogs).value;
            var listed := CompileGrants(Listed(p, catalogs));
            Render(expanded) == Render(listed) && Resources(expanded, provider) == Resources(listed, provider)
  {
    ResolvedProfile(p, catalogs);
    var filled, listed :=
        FilledAll(p.accesses, catalogs, OpenProviders(p.accesses)), CompileAll(ListAll(p.accesses, catalogs));
    FilledIsListed(p.accesses, catalogs, OpenProviders(p.accesses), provider);
    assert CompileGrants(Listed(p, catalogs)) == Between(p, listed);
    RenderJoin(filled, p.after, provider);
    RenderJoin(listed, p.after, provider);
    RenderJoin(p.before, filled + p.after, provider);
    RenderJoin(p.before, listed + p.after, provider);
  }

  // ----- What is granted in the end

  /** The contexts an access asks for. */
  function Asked(a: Access, catalogs: Catalogs): (contexts: seq<string>) {
    if a.allContexts && a.provider in catalogs then catalogs[a.provider] else a.contexts
  }

  ghost predicate NoRepeats(names: seq<string>) {
    forall i, j | 0 <= i < j < |names| :: names[i] != names[j]
  }

  /**
   A rendered grant gives what was asked for: the contexts in order, each with its own host, and the rights
   of the declared policy. To observe is to deny everything but one observation of each context.
   */
  ghost predicate GrantedAsAsked(r: Rendered, a: Access, asked: seq<string>) {
    && r.Kubeconfig? && r.provider == a.provider
    && Sorted(r.resources) && multiset(r.resources) == multiset(asked)
    && |r.hosts| == |r.resources| && (forall i | 0 <= i < |r.hosts| :: r.hosts[i] == (a.provider, r.resources[i]))
    && match a.policy
       case None => r.authorization.None?
       case Some(Observe) => r.authorization.Some? && OnlyObserves(r.authorization.value, r.resources)
       case Some(Custom(action, rules)) =>
         r.authorization.Some? && r.authorization.value.defaultAction == action && r.authorization.value.rules == rules
  }

  ghost predicate OnlyObserves(granted: Authorization, contexts: seq<string>) {
    && granted.defaultAction == "deny" && |granted.rules| == |contexts|
    && forall i | 0 <= i < |contexts| ::
      granted.rules[i].operation == "observe" && granted.rules[i].target == "context/" + contexts[i]
  }

  lemma {:induction false} InsertAdds(name: string, names: seq<string>)
    requires name !in names
    ensures multiset(Insert(name, names)) == multiset(names) + multiset{name}
    decreases |names|
  {
    if names != [] {
      assert names == [names[0]] + names[1..];
      if !Less(name, names[0]) { InsertAdds(name, names[1..]); }
    }
  }

  lemma {:induction false} SortIsPermutation(names: seq<string>)
    requires NoRepeats(names)
    ensures Sorted(SortStrings(names)) && multiset(SortStrings(names)) == multiset(names)
    decreases |names|
  {
    if names != [] {
      var tail := names[1..];
      assert names == [names[0]] + tail;
      SortIsPermutation(tail);
      assert names[0] !in tail;
      assert forall n | n in SortStrings(tail) :: n in multiset(SortStrings(tail));
      InsertAdds(names[0], SortStrings(tail));
      InsertSorts(names[0], SortStrings(tail));
    }
  }

  lemma FilledIsAsAsked(a: Access, catalogs: Catalogs, done: set<string>)
    requires NoRepeats(a.contexts) && (a.allContexts ==> a.provider in done && ValidCatalog(catalogs, a.provider))
    ensures RenderGrant(Filled(a, catalogs, done)).Some?
    ensures GrantedAsAsked(RenderGrant(Filled(a, catalogs, done)).value, a, Asked(a, catalogs))
  {
    SortIsPermutation(Asked(a, catalogs));
    if a.allContexts { InsertIsNotEmpty(catalogs[a.provider]); }
  }

  lemma {:induction false} RenderEach(grants: seq<Grant>)
    requires forall g | g in grants :: RenderGrant(g).Some?
    ensures Render(grants).Some? && |Render(grants).value| == |grants|
    ensures forall i | 0 <= i < |grants| :: Render(grants).value[i] == RenderGrant(grants[i]).value
    decreases |grants|
  {
    if grants != [] {
      assert grants[0] in grants && forall g | g in grants[1..] :: g in grants;
      RenderEach(grants[1..]);
    }
  }

  lemma {:induction false} FilledEach(accesses: seq<Access>, catalogs: Catalogs, done: set<string>)
    ensures |FilledAll(accesses, catalogs, done)| == |accesses|
    ensures forall i | 0 <= i < |accesses| :: FilledAll(accesses, catalogs, done)[i] ==
                                              Filled(accesses[i], catalogs, done)
    decreases |accesses|
  {
    if accesses != [] { FilledEach(accesses[1..], catalogs, done); }
  }

  lemma {:induction false} ResourcesAre(grants: seq<Grant>, provider: string, c: string)
    ensures c in Resources(grants, provider) <==>
            exists g | g in grants :: g.Catalog? && g.provider == provider && c in g.resources
    decreases |grants|
  {
    if grants != [] {
      assert grants == [grants[0]] + grants[1..];
      ResourcesAre(grants[1..], provider, c);
    }
  }

  /** Every grant of a filled profile, in its place. */
  ghost predicate AsWritten(grants: seq<Grant>, rendered: seq<Rendered>) {
    && |grants| == |rendered|
    && forall i | 0 <= i < |grants| ::
      grants[i].Other? && rendered[i] == Plain(grants[i].provider, grants[i].content)
  }

  ghost predicate AllAsAsked(rendered: seq<Rendered>, accesses: seq<Access>, catalogs: Catalogs) {
    && |rendered| == |accesses|
    && forall i | 0 <= i < |accesses| :: GrantedAsAsked(rendered[i], accesses[i], Asked(accesses[i], catalogs))
  }

  ghost predicate RendersAsAsked(grants: seq<Grant>, p: Profile, catalogs: Catalogs) {
    exists first, middle, last ::
      && Render(grants) == Some(first + (middle + last))
      && AsWritten(p.before, first) && AllAsAsked(middle, p.accesses, catalogs) && AsWritten(p.after, last)
  }

  lemma MiddleAsAsked(accesses: seq<Access>, catalogs: Catalogs)
    requires CatalogsValid(accesses, catalogs) && forall a | a in accesses :: NoRepeats(a.contexts)
    ensures var filled := FilledAll(accesses, catalogs, OpenProviders(accesses));
            Render(filled).Some? && AllAsAsked(Render(filled).value, accesses, catalogs)
  {
    var filled := FilledAll(accesses, catalogs, OpenProviders(accesses));
    FilledEach(accesses, catalogs, OpenProviders(accesses));
    forall i | 0 <= i < |accesses|
      ensures RenderGrant(filled[i]).Some?
      ensures GrantedAsAsked(RenderGrant(filled[i]).value, accesses[i], Asked(accesses[i], catalogs))
    {
      assert accesses[i] in accesses;
      FilledIsAsAsked(accesses[i], catalogs, OpenProviders(accesses));
    }
    RenderEach(filled);
  }

  lemma OthersAsWritten(grants: seq<Grant>)
    requires forall g | g in grants :: g.Other?
    ensures Render(grants).Some? && AsWritten(grants, Render(grants).value)
  {
    RenderEach(grants);
  }

  /**
   A filled profile renders to what its accesses ask for, between the grants written around them; listing
   the contexts by hand renders to the same.
   */
  lemma RenderedAsAsked(p: Profile, catalogs: Catalogs)
    requires ValidProfile(p) && CatalogsValid(p.accesses, catalogs)
    requires forall a | a in p.accesses :: NoRepeats(a.contexts)
    ensures Resolve(CompileGrants(p), p.accesses, catalogs).Some?
    ensures RendersAsAsked(Resolve(CompileGrants(p), p.accesses, catalogs).value, p, catalogs)
    ensures RendersAsAsked(CompileGrants(Listed(p, catalogs)), p, catalogs)
  {
    var filled := FilledAll(p.accesses, catalogs, OpenProviders(p.accesses));
    ResolvedProfile(p, catalogs);
    ExpandingIsListing(p, catalogs, "");
    assert forall g | g in p.before :: g in p.before + p.after;
    assert forall g | g in p.after :: g in p.before + p.after;
    OthersAsWritten(p.before);
    OthersAsWritten(p.after);
    MiddleAsAsked(p.accesses, catalogs);
    RenderJoin(filled, p.after, "");
    RenderJoin(p.before, filled + p.after, "");
    var first, middle, last := Render(p.before).value, Render(filled).value, Render(p.after).value;
    assert Render(Resolve(CompileGrants(p), p.accesses, catalogs).value) == Some(first + (middle + last));
  }

  /** The resources asked of a provider are the contexts that the accesses to it ask for. */
  lemma ResourcesAsAsked(p: Profile, catalogs: Catalogs, provider: string, c: string)
    requires ValidProfile(p) && CatalogsValid(p.accesses, catalogs)
    requires forall a | a in p.accesses :: NoRepeats(a.contexts)
    ensures Resolve(CompileGrants(p), p.accesses, catalogs).Some?
    ensures c in Resources(Resolve(CompileGrants(p), p.accesses, catalogs).value, provider) <==>
            exists a | a in p.accesses :: a.provider == provider && c in Asked(a, catalogs)
  {
    var done := OpenProviders(p.accesses);
    var filled := FilledAll(p.accesses, catalogs, done);
    ResolvedProfile(p, catalogs);
    FilledEach(p.accesses, catalogs, done);
    OthersAskNothing(p, filled, provider, c);
    forall i | 0 <= i < |filled|
      ensures filled[i].Catalog? && filled[i].provider == p.accesses[i].provider
      ensures c in filled[i].resources <==> c in Asked(p.accesses[i], catalogs)
    {
      assert p.accesses[i] in p.accesses;
      FilledIsAsAsked(p.accesses[i], catalogs, done);
      SameElements(filled[i].resources, Asked(p.accesses[i], catalogs), c);
    }
    if exists g | g in filled :: g.Catalog? && g.provider == provider && c in g.resources {
      var i :| 0 <= i < |filled| && filled[i].provider == provider && c in filled[i].resources;
      assert p.accesses[i] in p.accesses;
    }
    if exists a | a in p.accesses :: a.provider == provider && c in Asked(a, catalogs) {
      var i :| 0 <= i < |p.accesses| && p.accesses[i].provider == provider && c in Asked(p.accesses[i], catalogs);
      assert filled[i] in filled;
    }
  }

  lemma SameElements(a: seq<string>, b: seq<string>, c: string)
    requires multiset(a) == multiset(b)
    ensures c in a <==> c in b
  {
    assert c in a <==> c in multiset(a);
    assert c in b <==> c in multiset(b);
  }

  lemma OthersAskNothing(p: Profile, middle: seq<Grant>, provider: string, c: string)
    requires ValidProfile(p)
    ensures c in Resources(Between(p, middle), provider) <==>
            exists g | g in middle :: g.Catalog? && g.provider == provider && c in g.resources
  {
    ResourcesAre(Between(p, middle), provider, c);
    assert forall g | g in p.before :: g in p.before + p.after;
    assert forall g | g in p.after :: g in p.before + p.after;
    assert forall g | g in middle :: g in Between(p, middle);
  }

  /** A context name that may not be in a catalogue. */
  predicate Forbidden(name: string) {
    name == "" || |name| > 4096 || '*' in name || '\0' in name || '\r' in name || '\n' in name
  }

  /** The pass fails exactly when a catalogue it needs is missing, empty, too long, repeats a name or has a bad one. */
  lemma RefusedCatalogs(p: Profile, catalogs: Catalogs)
    requires ValidProfile(p)
    ensures Resolve(CompileGrants(p), p.accesses, catalogs).None? <==>
            exists a | a in p.accesses && a.allContexts ::
              || a.provider !in catalogs || !(0 < |catalogs[a.provider]| <= 256) || !NoRepeats(catalogs[a.provider])
              || exists n | n in catalogs[a.provider] :: Forbidden(n)
  {
    ResolvedProfile(p, catalogs);
    forall a | a in p.accesses && a.allContexts
      ensures ValidCatalog(catalogs, a.provider) <==>
              && a.provider in catalogs && 0 < |catalogs[a.provider]| <= 256 && NoRepeats(catalogs[a.provider])
              && forall n | n in catalogs[a.provider] :: !Forbidden(n)
    {
      if a.provider in catalogs {
        forall n ensures Forbidden(n) <==> !ValidContext(n) {}
      }
    }
  }

  // ----- The whole pass

  /** A profile as compiled for the controller; the broker has its own copy of the grants under the same name. */
  datatype Compiled = Compiled(controller: seq<ControllerProfile>, broker: map<string, seq<Grant>>)
  datatype ControllerProfile = ControllerProfile(name: string, accesses: seq<Access>, grants: seq<Grant>)

  ghost predicate DistinctNames(profiles: seq<ControllerProfile>) {
    forall i, j | 0 <= i < j < |profiles| :: profiles[i].name != profiles[j].name
  }

  /** Fill both copies of the grants of a profile, one access after the other. */
  method ResolveProfile(p: ControllerProfile, copy: seq<Grant>, catalogs: Catalogs, used: set<string>)
    returns (ok: bool, controller: seq<Grant>, broker: seq<Grant>, used': set<string>)
    ensures ok <==> Resolve(p.grants, p.accesses, catalogs).Some? && Resolve(copy, p.accesses, catalogs).Some?
    ensures ok ==>
              Resolve(p.grants, p.accesses, catalogs) == Some(controller)
                && Resolve(copy, p.accesses, catalogs) == Some(broker)
    ensures ok ==> used' == used + OpenProviders(p.accesses)
  {
    controller, broker, used' := p.grants, copy, used;
    assert p.accesses[0..] == p.accesses && p.accesses[..0] == [];
    for i := 0 to |p.accesses|
      invariant Resolve(p.grants, p.accesses, catalogs) == Resolve(controller, p.accesses[i..], catalogs)
      invariant Resolve(copy, p.accesses, catalogs) == Resolve(broker, p.accesses[i..], catalogs)
      invariant used' == used + OpenProviders(p.accesses[..i])
    {
      var access := p.accesses[i];
      assert p.accesses[i..][0] == access && p.accesses[i..][1..] == p.accesses[i + 1..];
      OpenProvidersOfMore(p.accesses, i);
      if !access.allContexts { continue; }
      if !ValidCatalog(catalogs, access.provider) { return false, controller, broker, used'; }
      var contexts := SortStrings(catalogs[access.provider]);
      used' := used' + {access.provider};
      var authorization := ResolveAuthorization(access.policy, contexts);
      var first := ResolveKubernetesGrant(controller, access.provider, contexts, authorization);
      if first.None? { return false, controller, broker, used'; }
      var second := ResolveKubernetesGrant(broker, access.provider, contexts, authorization);
      if second.None? { return false, controller, broker, used'; }
      controller, broker := first.value, second.value;
    }
    assert p.accesses[|p.accesses|..] == [] && p.accesses[..|p.accesses|] == p.accesses;
    ok := true;
  }

  function AllOpen(profiles: seq<ControllerProfile>): (r: set<string>) {
    if profiles == [] then {}
    else AllOpen(profiles[..|profiles| - 1]) + OpenProviders(profiles[|profiles| - 1].accesses)
  }

  /** What the pass makes of one profile of the controller and its copy at the broker. */
  ghost predicate Expanded(p: ControllerProfile, copy: seq<Grant>, p': ControllerProfile, copy': seq<Grant>,
                           catalogs: Catalogs) {
    && p'.name == p.name && p'.accesses == p.accesses
    && Resolve(p.grants, p.accesses, catalogs) == Some(p'.grants) && Resolve(copy, p.accesses, catalogs) == Some(copy')
  }

  ghost predicate Resolvable(p: ControllerProfile, broker: map<string, seq<Grant>>, catalogs: Catalogs) {
    p.name in broker && Resolve(p.grants, p.accesses, catalogs).Some?
      && Resolve(broker[p.name], p.accesses, catalogs).Some?
  }

  /**
   It succeeds exactly when every profile can be filled and every catalogue is used, and then every profile is
   filled.
   */
  method ResolveKubernetesSelections(compiled: Compiled, catalogs: Catalogs) returns (r: Option<Compiled>)
    requires DistinctNames(compiled.controller)
    ensures r.Some? <==>
            (forall p | p in compiled.controller :: Resolvable(p, compiled.broker, catalogs))
              && catalogs.Keys <= AllOpen(compiled.controller)
    ensures r.Some? ==> |r.value.controller| == |compiled.controller| && r.value.broker.Keys == compiled.broker.Keys
    ensures r.Some? ==> forall i | 0 <= i < |compiled.controller| ::
              var p := compiled.controller[i];
              p.name in compiled.broker
                && Expanded(p, compiled.broker[p.name], r.value.controller[i], r.value.broker[p.name], catalogs)
  {
    var controller: seq<ControllerProfile>, broker, used := [], compiled.broker, {};
    for i := 0 to |compiled.controller|
      invariant |controller| == i && broker.Keys == compiled.broker.Keys && used == AllOpen(compiled.controller[..i])
      invariant forall k | 0 <= k < i :: Resolvable(compiled.controller[k], compiled.broker, catalogs)
      invariant forall k | 0 <= k < i ::
                  var p := compiled.controller[k];
                  Expanded(p, compiled.broker[p.name], controller[k], broker[p.name], catalogs)
      invariant forall k | i <= k < |compiled.controller| ::
                  var p := compiled.controller[k]; p.name in broker ==> broker[p.name] == compiled.broker[p.name]
    {
      var p := compiled.controller[i];
      assert compiled.controller[..i + 1][..i] == compiled.controller[..i];
      assert p in compiled.controller;
      if p.name !in broker {
        assert !Resolvable(p, compiled.broker, catalogs);
        return None;
      }
      var ok, first, second, used' := ResolveProfile(p, broker[p.name], catalogs, used);
      if !ok { return None; }
      controller := controller + [p.(grants := first)];
      broker := broker[p.name := second];
      used := used';
    }
    assert compiled.controller[..|compiled.controller|] == compiled.controller;
    if !(catalogs.Keys <= used) { return None; }
    r := Some(Compiled(controller, broker));
  }

  /** Whenever the pass accepts a compiled profile, the copies agree and render as the hand-written list does. */
  lemma PassIsListing(p: Profile, p': ControllerProfile, copy': seq<Grant>, catalogs: Catalogs)
    requires ValidProfile(p)
    requires Expanded(ControllerProfile(p.name, p.accesses, CompileGrants(p)), CompileGrants(p), p', copy', catalogs)
    ensures p'.grants == copy' && Render(copy') == Render(CompileGrants(Listed(p, catalogs)))
    ensures forall provider :: Resources(copy', provider) == Resources(CompileGrants(Listed(p, catalogs)), provider)
    ensures (forall a | a in p.accesses :: NoRepeats(a.contexts)) ==> RendersAsAsked(copy', p, catalogs)
  {
    ResolvedProfile(p, catalogs);
    if forall a | a in p.accesses :: NoRepeats(a.contexts) { RenderedAsAsked(p, catalogs); }
    forall provider ensures Resources(copy', provider) == Resources(CompileGrants(Listed(p, catalogs)), provider) {
      ExpandingIsListing(p, catalogs, provider);
    }
    ExpandingIsListing(p, catalogs, "");
  }
}
