/**
 Repository grants: the repositories a profile uses are grouped by credential provider and permissions,
 and rendered under the provider's final name. Validation makes sure that each provider of a profile
 ends up in a single grant.
 */
module RepositoryGrants {
  import opened Wrappers
  import opened Texts

  type Permissions = map<string, string>

  const GITHUB_APP := "github-app"
  const DEFAULT_PERMISSIONS: Permissions := map["contents" := "write", "pull_requests" := "write"]

  datatype Account = Account(preset: string, installations: nat)

  /** A repository as compiled; `broker` is its identity at the broker, owner and name for an account. */
  datatype Repository = Repository(account: string, credentialProvider: string, broker: string,
                                   access: Option<Permissions>)

  datatype BrokerProvider = BrokerProvider(plugin: string, materialization: string, git: bool)

  datatype Manifest = Manifest(accounts: map<string, Account>, providers: map<string, BrokerProvider>,
                               repositories: map<string, Repository>)

  function ProviderOf(r: Repository): (p: string) {
    if r.credentialProvider != "" then r.credentialProvider else r.account
  }

  predicate Credentialed(r: Repository) {
    ProviderOf(r) != "" && r.broker != ""
  }

  predicate IsApp(m: Manifest, account: string) {
    account != "" && account in m.accounts && m.accounts[account].preset == GITHUB_APP
  }

  function PermissionsOf(m: Manifest, r: Repository): (p: Option<Permissions>) {
    if r.access.Some? then r.access
    else if IsApp(m, r.account) then Some(DEFAULT_PERMISSIONS)
    else None
  }

  function OwnerOf(broker: string): (owner: string) {
    Folded(broker[..IndexOf(broker, '/')])
  }

  predicate ManyInstallations(m: Manifest, account: string) {
    IsApp(m, account) && m.accounts[account].installations > 1
  }

  /** What validation guarantees of a repository. Accounts and other providers have different names. */
  predicate ValidRepository(m: Manifest, r: Repository) {
    && (r.account != "" ==> IsApp(m, r.account) && r.credentialProvider == "")
    && (r.credentialProvider != "" ==>
          r.credentialProvider !in m.accounts && r.credentialProvider in m.providers
            && m.providers[r.credentialProvider].git)
    && (r.access.Some? ==> r.account != "")
  }

  ghost predicate ValidUses(m: Manifest, uses: seq<string>) {
    forall u | u in uses :: u in m.repositories && ValidRepository(m, m.repositories[u])
  }

  // ----- The check on access declarations

  datatype AccessKey = AccessKey(account: string, owner: string)

  function KeyOf(m: Manifest, r: Repository): (k: AccessKey) {
    AccessKey(r.account, if ManyInstallations(m, r.account) then OwnerOf(r.broker) else "")
  }

  predicate Agree(m: Manifest, r: Repository, s: Repository) {
    IsApp(m, r.account) && IsApp(m, s.account) && KeyOf(m, r) == KeyOf(m, s) ==>
        PermissionsOf(m, r) == PermissionsOf(m, s)
  }

  /** No two repositories that end up with one provider declare different access. */
  ghost predicate AccessConsistent(m: Manifest, uses: seq<string>) {
    forall u, v | u in uses && v in uses && u in m.repositories && v in m.repositories ::
        Agree(m, m.repositories[u], m.repositories[v])
  }

  method CheckAccess(m: Manifest, uses: seq<string>) returns (ok: bool)
    requires ValidUses(m, uses)
    ensures ok <==> AccessConsistent(m, uses)
  {
    var accessByProvider: map<AccessKey, Option<Permissions>> := map[];
    for i := 0 to |uses|
      invariant forall k | 0 <= k < i && IsApp(m, m.repositories[uses[k]].account) ::
                  var r := m.repositories[uses[k]];
                    KeyOf(m, r) in accessByProvider && accessByProvider[KeyOf(m, r)] == PermissionsOf(m, r)
      invariant forall key | key in accessByProvider ::
                  exists k :: 0 <= k < i && IsApp(m, m.repositories[uses[k]].account)
                    && KeyOf(m, m.repositories[uses[k]]) == key
    {
      assert uses[i] in uses;
      var r := m.repositories[uses[i]];
      if !IsApp(m, r.account) { continue; }
      var key, permissions := KeyOf(m, r), PermissionsOf(m, r);
      if key in accessByProvider && accessByProvider[key] != permissions {
        ghost var k :| 0 <= k < i && IsApp(m, m.repositories[uses[k]].account)
          && KeyOf(m, m.repositories[uses[k]]) == key;
        assert uses[k] in uses && !Agree(m, m.repositories[uses[k]], r);
        return false;
      }
      accessByProvider := accessByProvider[key := permissions];
    }
    ok := true;
  }

  // ----- Grouping

  datatype Group = Group(provider: string, permissions: Option<Permissions>)

  predicate Belongs(m: Manifest, use: string, g: Group, broker: string) {
    && use in m.repositories && Credentialed(m.repositories[use]) && m.repositories[use].broker == broker
    && g == Group(ProviderOf(m.repositories[use]), PermissionsOf(m, m.repositories[use]))
  }

  ghost predicate GroupedAt(m: Manifest, uses: seq<string>, groups: map<Group, set<string>>, g: Group, b: string) {
    g in groups && b in groups[g] <==> exists u :: u in uses && Belongs(m, u, g, b)
  }

  /** A repository is in a group exactly when some use of it belongs there. */
  ghost predicate Grouped(m: Manifest, uses: seq<string>, groups: map<Group, set<string>>) {
    forall g, b {:trigger GroupedAt(m, uses, groups, g, b)} :: GroupedAt(m, uses, groups, g, b)
  }

  method CompileRepositoryGrants(m: Manifest, uses: seq<string>) returns (groups: map<Group, set<string>>)
    requires forall u | u in uses :: u in m.repositories
    ensures Grouped(m, uses, groups)
    ensures forall g | g in groups :: groups[g] != {}
  {
    groups := map[];
    for i := 0 to |uses|
      invariant Grouped(m, uses[..i], groups)
      invariant forall g | g in groups :: groups[g] != {}
    {
      var name := uses[i];
      assert name in uses;
      var r := m.repositories[name];
      assert uses[..i + 1] == uses[..i] + [name];
      ghost var before := groups;
      if Credentialed(r) {
        var g := Group(ProviderOf(r), PermissionsOf(m, r));
        var members := if g in groups then groups[g] else {};
        groups := groups[g := members + {r.broker}];
      }
      GroupedMore(m, uses[..i], name, before, groups);
    }
    assert uses[..|uses|] == uses;
  }

  lemma GroupedMore(m: Manifest, uses: seq<string>, name: string, before: map<Group, set<string>>, after: map<Group,
                    set<string>>)
    requires Grouped(m, uses, before) && name in m.repositories
    requires var r := m.repositories[name];
             var g := Group(ProviderOf(r), PermissionsOf(m, r));
             after == if Credentialed(r) then before[g := (if g in before then before[g] else {}) + {r.broker}]
             else before
    ensures Grouped(m, uses + [name], after)
  {
    var longer := uses + [name];
    forall g, b ensures GroupedAt(m, longer, after, g, b) {
      assert GroupedAt(m, uses, before, g, b);
      if g in before && b in before[g] {
        var u :| u in uses && Belongs(m, u, g, b);
        assert u in longer;
      }
      assert name in longer;
      if u :| u in longer && Belongs(m, u, g, b) {
        assert u in uses || u == name;
      }
    }
  }

  // ----- Rendering

  /**
   A provider's final name: an app with several installations has one name per owner. Derived names are taken
   not to collide.
   */
  datatype ProviderName = Direct(name: string) | Derived(account: string, owner: string)

  function ProviderFor(m: Manifest, provider: string, broker: string): (n: ProviderName) {
    if ManyInstallations(m, provider) then Derived(provider, OwnerOf(broker)) else Direct(provider)
  }

  datatype RenderKey = RenderKey(provider: ProviderName, permissions: Option<Permissions>)

  function RenderKeyOf(m: Manifest, g: Group, broker: string): (k: RenderKey) {
    RenderKey(ProviderFor(m, g.provider, broker), g.permissions)
  }

  /** The final name determines the group: nothing is regrouped across providers. */
  lemma KeyDeterminesGroup(m: Manifest, g: Group, h: Group, broker: string)
    ensures RenderKeyOf(m, g, broker) == RenderKeyOf(m, h, broker) ==> g == h
  {
  }

  predicate Source(m: Manifest, groups: map<Group, set<string>>, todo: set<(Group, string)>, k: RenderKey, b: string,
                   g: Group) {
    g in groups && b in groups[g] && (g, b) !in todo && RenderKeyOf(m, g, b) == k
  }

  ghost predicate RenderedAt(m: Manifest, groups: map<Group, set<string>>, todo: set<(Group, string)>,
                             grants: map<RenderKey, seq<string>>, k: RenderKey, b: string) {
    k in grants && b in grants[k] <==> exists g :: Source(m, groups, todo, k, b, g)
  }

  /** A repository is in a grant exactly when some group puts it there, and no grant names it twice. */
  ghost predicate RenderedFrom(m: Manifest, groups: map<Group, set<string>>, todo: set<(Group, string)>,
                               grants: map<RenderKey, seq<string>>) {
    && (forall k, b {:trigger RenderedAt(m, groups, todo, grants, k, b)} :: RenderedAt(m, groups, todo, grants, k, b))
    && (forall k | k in grants :: NoRepeats(grants[k]) && grants[k] != [])
  }

  predicate NoRepeats(names: seq<string>) {
    forall i, j | 0 <= i < j < |names| :: names[i] != names[j]
  }

  /** Put every repository of every group under its provider's final name, in any order. */
  method RenderRepositoryGrants(m: Manifest, groups: map<Group, set<string>>)
    returns (grants: map<RenderKey, seq<string>>)
    ensures RenderedFrom(m, groups, {}, grants)
  {
    grants := map[];
    var todo := set g, b | g in groups && b in groups[g] :: (g, b);
    while todo != {}
      invariant forall x | x in todo :: x.0 in groups && x.1 in groups[x.0]
      invariant RenderedFrom(m, groups, todo, grants)
      decreases |todo|
    {
      var x :| x in todo;
      var key := RenderKeyOf(m, x.0, x.1);
      var entry := if key in grants then grants[key] else [];
      ghost var before := grants;
      grants := grants[key := entry + [x.1]];
      RenderedMore(m, groups, todo, before, x);
      todo := todo - {x};
    }
  }

  lemma RenderedMore(m: Manifest, groups: map<Group, set<string>>, todo: set<(Group, string)>, grants: map<RenderKey,
                     seq<string>>, x: (Group, string))
    requires x in todo && x.0 in groups && x.1 in groups[x.0] && RenderedFrom(m, groups, todo, grants)
    ensures var key := RenderKeyOf(m, x.0, x.1);
            RenderedFrom(m, groups, todo - {x}, grants[key := (if key in grants then grants[key] else []) + [x.1]])
  {
    var key := RenderKeyOf(m, x.0, x.1);
    var entry := if key in grants then grants[key] else [];
    var after := grants[key := entry + [x.1]];
    var todo' := todo - {x};
    assert Source(m, groups, todo', key, x.1, x.0);
    forall k, b ensures RenderedAt(m, groups, todo', after, k, b) {
      assert RenderedAt(m, groups, todo, grants, k, b);
      if k in grants && b in grants[k] {
        var g :| Source(m, groups, todo, k, b, g);
        assert Source(m, groups, todo', k, b, g);
      }
      if g :| Source(m, groups, todo', k, b, g) {
        assert (g, b) == x || Source(m, groups, todo, k, b, g);
      }
    }
    NotThereYet(m, groups, todo, grants, x);
  }

  lemma NotThereYet(m: Manifest, groups: map<Group, set<string>>, todo: set<(Group, string)>, grants: map<RenderKey,
                    seq<string>>, x: (Group, string))
    requires x in todo && RenderedFrom(m, groups, todo, grants)
    ensures var key := RenderKeyOf(m, x.0, x.1); key in grants ==> x.1 !in grants[key]
  {
    var key := RenderKeyOf(m, x.0, x.1);
    assert RenderedAt(m, groups, todo, grants, key, x.1);
    forall g | Source(m, groups, todo, key, x.1, g) ensures g == x.0 { KeyDeterminesGroup(m, g, x.0, x.1); }
  }

  // ----- Main results

  function FinalKey(m: Manifest, r: Repository): (k: RenderKey) {
    RenderKeyOf(m, Group(ProviderOf(r), PermissionsOf(m, r)), r.broker)
  }

  /** The name is a repository with credentials, known to the broker as `b` and rendered under `k`. */
  predicate UsedAs(m: Manifest, u: string, b: string, k: RenderKey) {
    u in m.repositories && Credentialed(m.repositories[u]) && m.repositories[u].broker == b
      && FinalKey(m, m.repositories[u]) == k
  }

  /**
   A rendered grant names a repository exactly when the profile uses it, with credentials, under that provider
   and those permissions.
   */
  lemma GrantsAreExactlyTheUses(m: Manifest, uses: seq<string>, groups: map<Group, set<string>>, grants: map<RenderKey,
                                seq<string>>, k: RenderKey, b: string)
    requires Grouped(m, uses, groups) && RenderedFrom(m, groups, {}, grants)
    ensures k in grants && b in grants[k] <==>
            exists u :: u in uses && UsedAs(m, u, b, k)
  {
    assert RenderedAt(m, groups, {}, grants, k, b);
    if k in grants && b in grants[k] {
      var g :| Source(m, groups, {}, k, b, g);
      assert GroupedAt(m, uses, groups, g, b);
      var u :| u in uses && Belongs(m, u, g, b);
      assert UsedAs(m, u, b, k);
    }
    if u :| u in uses && UsedAs(m, u, b, k) {
      var r := m.repositories[u];
      var g := Group(ProviderOf(r), PermissionsOf(m, r));
      assert Belongs(m, u, g, b);
      assert GroupedAt(m, uses, groups, g, b);
      assert Source(m, groups, {}, k, b, g);
    }
  }

  /** What a repository is granted: the access it declares, or the default of an app, or none to speak of. */
  ghost predicate HasDeclaredAccess(m: Manifest, r: Repository, granted: Option<Permissions>) {
    && (r.access.Some? ==> granted == r.access)
    && (r.access.None? && r.account != "" ==>
          granted.Some? && granted.value.Keys == {"contents", "pull_requests"}
            && granted.value["contents"] == "write" && granted.value["pull_requests"] == "write")
    && (r.access.None? && r.account == "" ==> granted.None?)
  }

  /** `owner` is the part of the name before the first slash, in small letters. */
  ghost predicate IsOwner(owner: string, broker: string) {
    && |owner| <= |broker| && '/' !in owner && NoCapitals(owner) && SameUpToCase(broker[..|owner|], owner)
    && (|owner| < |broker| ==> broker[|owner|] == '/')
  }

  /** Under which name: the provider itself, or one name per owner for an app with several installations. */
  ghost predicate HasProviderName(m: Manifest, r: Repository, name: ProviderName) {
    if r.credentialProvider != "" then name == Direct(r.credentialProvider)
    else if r.account in m.accounts && m.accounts[r.account].installations > 1 then
      name.Derived? && name.account == r.account && IsOwner(name.owner, r.broker)
    else name == Direct(r.account)
  }

  lemma OwnerIff(owner: string, broker: string)
    ensures owner == OwnerOf(broker) <==> IsOwner(owner, broker)
  {
    IndexIsFirst(broker, '/');
    var i := IndexOf(broker, '/');
    FoldedIs(broker[..i], owner);
    if owner == OwnerOf(broker) {
      SlashStays(broker[..i], owner);
    }
    if IsOwner(owner, broker) {
      SlashStays(owner, broker[..|owner|]);
      forall k | 0 <= k < |owner| ensures broker[k] != '/' { assert broker[k] == broker[..|owner|][k]; }
      FirstIndex(broker, '/', |owner|);
    }
  }

  lemma SlashStays(a: string, b: string)
    requires |a| == |b| && (SameUpToCase(a, b) || SameUpToCase(b, a)) && '/' !in a
    ensures '/' !in b
  {
    forall i | 0 <= i < |b| ensures b[i] != '/' { assert a[i] in a; }
  }

  /** The final key of a repository, without the functions that compute it. */
  lemma FinalKeyIs(m: Manifest, r: Repository, k: RenderKey)
    requires ValidRepository(m, r) && Credentialed(r)
    ensures k == FinalKey(m, r) <==> HasDeclaredAccess(m, r, k.permissions) && HasProviderName(m, r, k.provider)
  {
    if k.provider.Derived? { OwnerIff(k.provider.owner, r.broker); }
    assert r.credentialProvider == "" ==> r.account != "" && r.account in m.accounts;
    if HasDeclaredAccess(m, r, k.permissions) && r.access.None? && r.account != "" {
      assert k.permissions.value == DEFAULT_PERMISSIONS;
    }
  }

  ghost predicate GrantedAs(m: Manifest, u: string, b: string, k: RenderKey) {
    && u in m.repositories && m.repositories[u].broker == b && b != ""
    && (m.repositories[u].account != "" || m.repositories[u].credentialProvider != "")
    && HasDeclaredAccess(m, m.repositories[u], k.permissions) && HasProviderName(m, m.repositories[u], k.provider)
  }

  /** Every use with credentials is granted the access it declares, under its provider, and nothing more is granted. */
  lemma GrantedAsDeclared(m: Manifest, uses: seq<string>, groups: map<Group, set<string>>,
                          grants: map<RenderKey, seq<string>>, k: RenderKey, b: string)
    requires ValidUses(m, uses) && Grouped(m, uses, groups) && RenderedFrom(m, groups, {}, grants)
    ensures k in grants && b in grants[k] <==> exists u :: u in uses && GrantedAs(m, u, b, k)
  {
    GrantsAreExactlyTheUses(m, uses, groups, grants, k, b);
    forall u | u in uses ensures UsedAs(m, u, b, k) <==> GrantedAs(m, u, b, k) {
      if Credentialed(m.repositories[u]) { FinalKeyIs(m, m.repositories[u], k); }
    }
  }

  /** Uses that end up with one provider have one set of permissions. */
  lemma OneProviderOnePermission(m: Manifest, r: Repository, s: Repository)
    requires ValidRepository(m, r) && ValidRepository(m, s) && Credentialed(r) && Credentialed(s) && Agree(m, r, s)
    requires FinalKey(m, r).provider == FinalKey(m, s).provider
    ensures PermissionsOf(m, r) == PermissionsOf(m, s)
  {
  }

  /** No provider occurs in two repository grants of a profile that passed the check. */
  lemma NoRepositoryProviderTwice(m: Manifest, uses: seq<string>, groups: map<Group, set<string>>,
                                  grants: map<RenderKey, seq<string>>, k: RenderKey, l: RenderKey)
    requires ValidUses(m, uses) && AccessConsistent(m, uses) && Grouped(m, uses, groups)
             && RenderedFrom(m, groups, {}, grants)
    requires k in grants && l in grants && k.provider == l.provider
    ensures k == l
  {
    GrantsAreExactlyTheUses(m, uses, groups, grants, k, grants[k][0]);
    GrantsAreExactlyTheUses(m, uses, groups, grants, l, grants[l][0]);
    var u :| u in uses && u in m.repositories && Credentialed(m.repositories[u]) && FinalKey(m, m.repositories[u]) == k;
    var v :| v in uses && v in m.repositories && Credentialed(m.repositories[v]) && FinalKey(m, m.repositories[v]) == l;
    OneProviderOnePermission(m, m.repositories[u], m.repositories[v]);
  }

  // ----- All grants of a profile

  /** The providers a profile uses for other purposes than repositories; the runtime account may be empty. */
  datatype Profile = Profile(http: seq<string>, azure: seq<string>, runtime: string, kubernetes: seq<string>)

  /** What validation guarantees of broker providers: no account has their name, and some plugins mediate nothing. */
  predicate ValidProviders(m: Manifest) {
    forall n | n in m.providers ::
      n !in m.accounts
        && (m.providers[n].plugin in {"azure", "kubeconfig"} ==>
              m.providers[n].materialization == "" && !m.providers[n].git)
  }

  ghost predicate Unique(names: seq<string>) {
    forall i, j | 0 <= i < j < |names| :: names[i] != names[j]
  }

  predicate ForHttp(m: Manifest, n: string) {
    n in m.providers && m.providers[n].materialization == "header-inject" && !m.providers[n].git
  }

  predicate HasPlugin(m: Manifest, n: string, plugin: string) {
    n in m.providers && m.providers[n].plugin == plugin
  }

  predicate IsRuntime(m: Manifest, n: string) {
    n in m.accounts && m.accounts[n].preset in {"codex-oauth", "claude-oauth"}
  }

  /** What validation guarantees of a profile. */
  ghost predicate ValidProfile(m: Manifest, p: Profile) {
    && Unique(p.http) && (forall n | n in p.http :: ForHttp(m, n))
    && Unique(p.azure) && (forall n | n in p.azure :: HasPlugin(m, n, "azure"))
    && Unique(p.kubernetes) && (forall n | n in p.kubernetes :: HasPlugin(m, n, "kubeconfig"))
    && (p.runtime != "" ==> IsRuntime(m, p.runtime))
  }

  function RuntimeOf(p: Profile): (names: seq<string>) {
    if p.runtime == "" then [] else [p.runtime]
  }

  /** The providers of the grants for other purposes, one per grant. */
  function OtherProviders(p: Profile): (names: seq<string>) {
    p.http + p.azure + RuntimeOf(p) + p.kubernetes
  }

  lemma UniqueJoin(a: seq<string>, b: seq<string>)
    requires Unique(a) && Unique(b) && forall n | n in a :: n !in b
    ensures Unique(a + b)
  {
    var both := a + b;
    forall i, j | 0 <= i < j < |both| ensures both[i] != both[j] {
      if i < |a| <= j { assert both[i] in a && both[j] in b; }
    }
  }

  lemma OthersAreUnique(m: Manifest, p: Profile)
    requires ValidProviders(m) && ValidProfile(m, p)
    ensures Unique(OtherProviders(p))
  {
    UniqueJoin(p.http, p.azure);
    UniqueJoin(p.http + p.azure, RuntimeOf(p));
    UniqueJoin(p.http + p.azure + RuntimeOf(p), p.kubernetes);
  }

  /** A provider used for another purpose is not the provider of a repository. */
  lemma OtherIsNotRepository(m: Manifest, p: Profile, n: string, r: Repository)
    requires ValidProviders(m) && ValidProfile(m, p) && n in OtherProviders(p) && ValidRepository(m, r)
             && Credentialed(r)
    ensures FinalKey(m, r).provider != Direct(n)
  {
    assert n in p.http || n in p.azure || n == p.runtime != "" || n in p.kubernetes;
  }

  /** No provider occurs in two grants of a profile that passed the check, whatever the grants are for. */
  lemma NoProviderTwice(m: Manifest, p: Profile, uses: seq<string>, groups: map<Group, set<string>>,
                        grants: map<RenderKey, seq<string>>)
    requires ValidProviders(m) && ValidProfile(m, p) && ValidUses(m, uses) && AccessConsistent(m, uses)
    requires Grouped(m, uses, groups) && RenderedFrom(m, groups, {}, grants)
    ensures Unique(OtherProviders(p))
    ensures forall k, l | k in grants && l in grants && k.provider == l.provider :: k == l
    ensures forall k, n | k in grants && n in OtherProviders(p) :: k.provider != Direct(n)
  {
    OthersAreUnique(m, p);
    forall k, l | k in grants && l in grants && k.provider == l.provider ensures k == l {
      NoRepositoryProviderTwice(m, uses, groups, grants, k, l);
    }
    forall k, n | k in grants && n in OtherProviders(p) ensures k.provider != Direct(n) {
      GrantsAreExactlyTheUses(m, uses, groups, grants, k, grants[k][0]);
      var u :| u in uses && u in m.repositories && Credentialed(m.repositories[u])
        && FinalKey(m, m.repositories[u]) == k;
      OtherIsNotRepository(m, p, n, m.repositories[u]);
    }
  }

  /** And without the check two repositories of one app would land in two grants of one provider. */
  lemma ContradictionSplitsProvider(m: Manifest, uses: seq<string>, groups: map<Group, set<string>>,
                                    grants: map<RenderKey, seq<string>>, u: string, v: string)
    requires ValidUses(m, uses) && Grouped(m, uses, groups) && RenderedFrom(m, groups, {}, grants)
    requires u in uses && v in uses && Credentialed(m.repositories[u]) && Credentialed(m.repositories[v])
             && !Agree(m, m.repositories[u], m.repositories[v])
    ensures var k, l := FinalKey(m, m.repositories[u]), FinalKey(m, m.repositories[v]);
            k in grants && l in grants && k.provider == l.provider && k != l
  {
    GrantsAreExactlyTheUses(m, uses, groups, grants, FinalKey(m, m.repositories[u]), m.repositories[u].broker);
    GrantsAreExactlyTheUses(m, uses, groups, grants, FinalKey(m, m.repositories[v]), m.repositories[v].broker);
  }
}
