/** What the plans of buildComponents guarantee: closed references, agreement of install and
    teardown, and agreement with the secret watch. */
module PlanLaws {
  import opened Types
  import opened Resolver
  import opened Components
  import opened SecretRefs
  import opened Planner

  // ---------------------------------------------------------------- the sections of a plan

  function PullSecretNames(spec: Spec, pc: ProviderConfig): seq<string> {
    Dedup(Dedup(ImageSecrets(spec.version, pc.versions)) + pc.providerSecrets + FunctionSecrets(pc))
  }

  lemma SecretSectionIs(env: Env, spec: Spec, pc: ProviderConfig, enabled: bool)
    ensures SecretSection(Dedup(ImageSecrets(spec.version, pc.versions)), pc, env, enabled)
         == SecretComponents(PullSecretNames(spec, pc), env.podNs, enabled)
  {
    ThreeAppendsDeduplicate(Dedup(ImageSecrets(spec.version, pc.versions)), pc.providerSecrets, FunctionSecrets(pc), env.podNs, enabled);
  }

  /** A name survives as a secret exactly when Crossplane, the providers or the functions pull with it. */
  lemma PullSecretNamesContents(spec: Spec, pc: ProviderConfig, name: string)
    ensures name in PullSecretNames(spec, pc) <==>
      && name != ""
      && (name in Dedup(ImageSecrets(spec.version, pc.versions)) || name in pc.providerSecrets || name in FunctionSecrets(pc))
  {
    var images := Dedup(ImageSecrets(spec.version, pc.versions));
    DedupContents(images + pc.providerSecrets + FunctionSecrets(pc));
  }

  lemma {:induction false} SecretComponentsCount(names: seq<string>, name: string, podNs: string, enabled: bool)
    requires forall i, j | 0 <= i < j < |names| :: names[i] != names[j]
    requires "" !in names
    ensures multiset(SecretComponents(names, podNs, enabled))[SecretFor(name, podNs, enabled)] == if name in names then 1 else 0
  {
    if names != [] {
      var init, last := names[..|names| - 1], names[|names| - 1];
      assert names == init + [last];
      assert last in names;
      SecretComponentsCount(init, name, podNs, enabled);
      SecretComponentsSnoc(init, last, podNs, enabled);
    }
  }

  lemma {:induction false} ProviderPairsMembers(list: seq<Package>, pc: ProviderConfig, enabled: bool, c: Component)
    ensures c in ProviderPairs(list, pc, enabled) <==>
      exists p :: p in list && (c == RuntimeConfigFor(p.name, pc, enabled) || c == ProviderFor(p, pc, enabled))
  {
    if list != [] {
      var init, last := list[..|list| - 1], list[|list| - 1];
      assert list == init + [last];
      assert last in list;
      ProviderPairsMembers(init, pc, enabled, c);
    }
  }

  lemma {:induction false} FunctionPairsMembers(list: seq<Package>, pc: ProviderConfig, enabled: bool, c: Component)
    ensures c in FunctionPairs(list, pc, enabled) <==>
      exists p :: p in list && (c == RuntimeConfigFor(p.name, pc, enabled) || c == FunctionFor(p, pc, enabled))
  {
    if list != [] {
      var init, last := list[..|list| - 1], list[|list| - 1];
      assert list == init + [last];
      assert last in list;
      FunctionPairsMembers(init, pc, enabled, c);
    }
  }

  /** A plan is its sections in this order. */
  function Assemble(xp: Component, secrets: seq<Component>, chart: seq<Component>, ca: seq<Component>, drc: Component,
                    providers: seq<Component>, functions: seq<Component>): seq<Component> {
    [xp] + secrets + chart + ca + [drc] + providers + functions
  }

  lemma AssembleMembers(xp: Component, secrets: seq<Component>, chart: seq<Component>, ca: seq<Component>, drc: Component,
                        providers: seq<Component>, functions: seq<Component>, c: Component)
    ensures var comps := Assemble(xp, secrets, chart, ca, drc, providers, functions);
      && (c in comps <==> c == xp || c in secrets || c in chart || c in ca || c == drc || c in providers || c in functions)
      && multiset(comps)[c] == (if c == xp then 1 else 0) + multiset(secrets)[c] + multiset(chart)[c] + multiset(ca)[c]
           + (if c == drc then 1 else 0) + multiset(providers)[c] + multiset(functions)[c]
  {
  }

  function Prefixed(env: Env, spec: Spec, pc: ProviderConfig): string {
    var r := PrefixedChartSecret(env, EffectiveChartSecret(spec, pc));
    if r.Some? then r.value else ""
  }

  lemma PlanAssembled(env: Env, spec: Spec, pc: ProviderConfig, enabled: bool)
    requires PlanError(env, spec, pc, enabled).None?
    ensures PlanList(env, spec, pc, enabled) == Assemble(
      CrossplaneFor(spec, pc, Prefixed(env, spec, pc), enabled),
      SecretComponents(PullSecretNames(spec, pc), env.podNs, enabled),
      ChartSection(EffectiveChartSecret(spec, pc), Prefixed(env, spec, pc), env, enabled),
      CASection(pc, env, enabled),
      DefaultRuntimeConfig(pc, enabled),
      ProviderPairs(Items(spec.providers), pc, enabled),
      FunctionPairs(Items(spec.functions), pc, enabled))
  {
    SecretSectionIs(env, spec, pc, enabled);
  }

  /** Where a member of a plan comes from. */
  ghost predicate Belongs(env: Env, spec: Spec, pc: ProviderConfig, enabled: bool, c: Component) {
    || c == CrossplaneFor(spec, pc, Prefixed(env, spec, pc), enabled)
    || (exists name :: name in PullSecretNames(spec, pc) && c == SecretFor(name, env.podNs, enabled))
    || c in ChartSection(EffectiveChartSecret(spec, pc), Prefixed(env, spec, pc), env, enabled)
    || c in CASection(pc, env, enabled)
    || c == DefaultRuntimeConfig(pc, enabled)
    || (exists p :: p in Items(spec.providers) && (c == RuntimeConfigFor(p.name, pc, enabled) || c == ProviderFor(p, pc, enabled)))
    || (exists p :: p in Items(spec.functions) && (c == RuntimeConfigFor(p.name, pc, enabled) || c == FunctionFor(p, pc, enabled)))
  }

  lemma PlanMembers(env: Env, spec: Spec, pc: ProviderConfig, enabled: bool, c: Component)
    requires PlanError(env, spec, pc, enabled).None?
    ensures c in PlanList(env, spec, pc, enabled) <==> Belongs(env, spec, pc, enabled, c)
  {
    hide PlanList, Assemble, Dedup, SecretComponents, ProviderPairs, FunctionPairs, ChartSection, CASection, PullSecretNames, Prefixed;
    var names := PullSecretNames(spec, pc);
    NamesClean(spec, pc);
    SecretMembers(names, env.podNs, enabled, c);
    ProviderPairsMembers(Items(spec.providers), pc, enabled, c);
    FunctionPairsMembers(Items(spec.functions), pc, enabled, c);
    PlanAssembled(env, spec, pc, enabled);
    AssembleMembers(CrossplaneFor(spec, pc, Prefixed(env, spec, pc), enabled), SecretComponents(names, env.podNs, enabled),
      ChartSection(EffectiveChartSecret(spec, pc), Prefixed(env, spec, pc), env, enabled), CASection(pc, env, enabled),
      DefaultRuntimeConfig(pc, enabled), ProviderPairs(Items(spec.providers), pc, enabled),
      FunctionPairs(Items(spec.functions), pc, enabled), c);
  }

  lemma NamesClean(spec: Spec, pc: ProviderConfig)
    ensures "" !in PullSecretNames(spec, pc)
    ensures forall i, j | 0 <= i < j < |PullSecretNames(spec, pc)| :: PullSecretNames(spec, pc)[i] != PullSecretNames(spec, pc)[j]
  {
    DedupContents(Dedup(ImageSecrets(spec.version, pc.versions)) + pc.providerSecrets + FunctionSecrets(pc));
  }

  lemma SecretMembers(names: seq<string>, podNs: string, enabled: bool, c: Component)
    requires "" !in names
    ensures c in SecretComponents(names, podNs, enabled) <==>
      exists name :: name in names && c == SecretFor(name, podNs, enabled)
  {
    SecretComponentsPointwise(names, podNs, enabled);
    var comps := SecretComponents(names, podNs, enabled);
    forall name | name in names ensures SecretFor(name, podNs, enabled) in comps {
      var i :| 0 <= i < |names| && names[i] == name;
      assert comps[i] == SecretFor(name, podNs, enabled);
    }
  }

  // ---------------------------------------------------------------- closed references

  /** Exactly one Secret is copied to the Crossplane namespace under this name. */
  ghost predicate HasSecret(comps: seq<Component>, name: string) {
    exists c: Component :: c.Secret? && c.target == NamespacedName(CROSSPLANE_NAMESPACE, name) && Only(comps, c)
  }

  /** `c` occurs once and no other component stands for the same object. */
  ghost predicate Only(comps: seq<Component>, c: Component) {
    && multiset(comps)[c] == 1
    && forall d | d in comps && KeyOf(d) == KeyOf(c) :: d == c
  }

  function PullSecretsOf(c: Component): seq<string> {
    if c.Crossplane? then c.imageSecrets else if c.Provider? || c.Function? then c.pullSecrets else []
  }

  /** Every non-empty pull secret of Crossplane, a provider or a function has its one Secret. */
  ghost predicate PullSecretsClosed(comps: seq<Component>) {
    forall c, name | c in comps && name in PullSecretsOf(c) && name != "" :: HasSecret(comps, name)
  }

  /** The chart secret has its one PlatformSecret in the tenant namespace. */
  ghost predicate ChartSecretClosed(comps: seq<Component>, env: Env) {
    forall c | c in comps && c.Crossplane? && c.chartSecret != "" ::
      exists d: Component :: d.PlatformSecret? && d.target == NamespacedName(env.tenantNs, c.chartSecret) && Only(comps, d)
  }

  /** Every package has a runtime config of its own name. */
  ghost predicate RuntimeConfigsClosed(comps: seq<Component>) {
    forall c | c in comps && (c.Provider? || c.Function?) ::
      exists d :: d in comps && d.RuntimeConfig? && d.name == c.config.name && d.serviceAccount == Some(c.config.name)
  }

  /** The CA config map is planned exactly when Crossplane refers to it, and then every runtime
      config mounts it under the same key. */
  ghost predicate CAClosed(comps: seq<Component>) {
    forall c | c in comps && c.Crossplane? ::
      && (c.caBundle.Some? <==>
            exists d :: d in comps && d.ConfigMap? && d.target == NamespacedName(CROSSPLANE_NAMESPACE, CA_CONFIG_MAP))
      && forall d | d in comps && d.RuntimeConfig? ::
           d.caMount == if c.caBundle.Some? then Some(CAMount(CA_CONFIG_MAP, c.caBundle.value.key)) else None
  }

  lemma PlannedSecret(env: Env, spec: Spec, pc: ProviderConfig, enabled: bool, name: string)
    requires PlanError(env, spec, pc, enabled).None?
    requires name in PullSecretNames(spec, pc)
    ensures HasSecret(PlanList(env, spec, pc, enabled), name)
  {
    var comps, secret := PlanList(env, spec, pc, enabled), SecretFor(name, env.podNs, enabled);
    forall d | d in comps && KeyOf(d) == KeyOf(secret) ensures d == secret {
      MemberWithSecretKey(env, spec, pc, enabled, name, d);
    }
    PlannedSecretOnce(env, spec, pc, enabled, name);
    assert secret.Secret? && secret.target == NamespacedName(CROSSPLANE_NAMESPACE, name) && Only(comps, secret);
  }

  lemma MemberWithSecretKey(env: Env, spec: Spec, pc: ProviderConfig, enabled: bool, name: string, d: Component)
    requires PlanError(env, spec, pc, enabled).None?
    requires d in PlanList(env, spec, pc, enabled) && KeyOf(d) == KeyOf(SecretFor(name, env.podNs, enabled))
    ensures d == SecretFor(name, env.podNs, enabled)
  {
    hide PlanList, PullSecretNames, Prefixed;
    PlanMembers(env, spec, pc, enabled, d);
  }

  lemma PlannedSecretOnce(env: Env, spec: Spec, pc: ProviderConfig, enabled: bool, name: string)
    requires PlanError(env, spec, pc, enabled).None?
    requires name in PullSecretNames(spec, pc)
    ensures multiset(PlanList(env, spec, pc, enabled))[SecretFor(name, env.podNs, enabled)] == 1
  {
    hide PlanList, Assemble, PullSecretNames, Prefixed, SecretComponents, ProviderPairs, FunctionPairs;
    var secret, names := SecretFor(name, env.podNs, enabled), PullSecretNames(spec, pc);
    NamesClean(spec, pc);
    SecretComponentsCount(names, name, env.podNs, enabled);
    PairsHoldNoSecret(env, spec, pc, enabled, secret);
    PlanAssembled(env, spec, pc, enabled);
    AssembleMembers(CrossplaneFor(spec, pc, Prefixed(env, spec, pc), enabled), SecretComponents(names, env.podNs, enabled),
      ChartSection(EffectiveChartSecret(spec, pc), Prefixed(env, spec, pc), env, enabled), CASection(pc, env, enabled),
      DefaultRuntimeConfig(pc, enabled), ProviderPairs(Items(spec.providers), pc, enabled),
      FunctionPairs(Items(spec.functions), pc, enabled), secret);
  }

  lemma PairsHoldNoSecret(env: Env, spec: Spec, pc: ProviderConfig, enabled: bool, c: Component)
    requires c.Secret? || c.PlatformSecret?
    ensures c !in ProviderPairs(Items(spec.providers), pc, enabled)
    ensures c !in FunctionPairs(Items(spec.functions), pc, enabled)
  {
    ProviderPairsMembers(Items(spec.providers), pc, enabled, c);
    FunctionPairsMembers(Items(spec.functions), pc, enabled, c);
  }

  function ChartComponent(env: Env, spec: Spec, pc: ProviderConfig, enabled: bool): Component {
    PlatformSecret(NamespacedName(env.podNs, EffectiveChartSecret(spec, pc)),
                   NamespacedName(env.tenantNs, Prefixed(env, spec, pc)), enabled)
  }

  lemma MemberWithChartKey(env: Env, spec: Spec, pc: ProviderConfig, enabled: bool, d: Component)
    requires PlanError(env, spec, pc, enabled).None?
    requires d in PlanList(env, spec, pc, enabled) && KeyOf(d) == KeyOf(ChartComponent(env, spec, pc, enabled))
    ensures d == ChartComponent(env, spec, pc, enabled)
  {
    hide PlanList, PullSecretNames, Prefixed, EffectiveChartSecret;
    PlanMembers(env, spec, pc, enabled, d);
  }

  lemma PlannedChartSecret(env: Env, spec: Spec, pc: ProviderConfig, enabled: bool)
    requires PlanError(env, spec, pc, enabled).None?
    requires EffectiveChartSecret(spec, pc) != ""
    ensures Only(PlanList(env, spec, pc, enabled), ChartComponent(env, spec, pc, enabled))
  {
    hide PlanList, Assemble, PullSecretNames, Prefixed, SecretComponents, ProviderPairs, FunctionPairs, EffectiveChartSecret;
    var comps, secret, names := PlanList(env, spec, pc, enabled), ChartComponent(env, spec, pc, enabled), PullSecretNames(spec, pc);
    forall d | d in comps && KeyOf(d) == KeyOf(secret) ensures d == secret {
      MemberWithChartKey(env, spec, pc, enabled, d);
    }
    NamesClean(spec, pc);
    SecretMembers(names, env.podNs, enabled, secret);
    PairsHoldNoSecret(env, spec, pc, enabled, secret);
    PlanAssembled(env, spec, pc, enabled);
    AssembleMembers(CrossplaneFor(spec, pc, Prefixed(env, spec, pc), enabled), SecretComponents(names, env.podNs, enabled),
      ChartSection(EffectiveChartSecret(spec, pc), Prefixed(env, spec, pc), env, enabled), CASection(pc, env, enabled),
      DefaultRuntimeConfig(pc, enabled), ProviderPairs(Items(spec.providers), pc, enabled),
      FunctionPairs(Items(spec.functions), pc, enabled), secret);
    assert secret in comps;
  }

  /** Every list buildComponents returns is closed under references. */
  lemma PlanIsClosed(env: Env, spec: Spec, pc: ProviderConfig, enabled: bool)
    requires Plan(env, spec, pc, enabled).Ok?
    ensures var comps := Plan(env, spec, pc, enabled).value;
      PullSecretsClosed(comps) && ChartSecretClosed(comps, env) && RuntimeConfigsClosed(comps) && CAClosed(comps)
  {
    hide PlanList, PlanError, PullSecretsClosed, ChartSecretClosed, RuntimeConfigsClosed, CAClosed;
    ClosesPullSecrets(env, spec, pc, enabled);
    ClosesChartSecret(env, spec, pc, enabled);
    ClosesRuntimeConfigs(env, spec, pc, enabled);
    ClosesCA(env, spec, pc, enabled);
  }

  lemma ClosesPullSecrets(env: Env, spec: Spec, pc: ProviderConfig, enabled: bool)
    requires PlanError(env, spec, pc, enabled).None?
    ensures PullSecretsClosed(PlanList(env, spec, pc, enabled))
  {
    hide PlanList, PlanError, HasSecret, PullSecretNames, Prefixed, EffectiveChartSecret, FunctionSecrets, Dedup, ImageSecrets;
    var comps := PlanList(env, spec, pc, enabled);
    forall c, name | c in comps && name in PullSecretsOf(c) && name != "" ensures HasSecret(comps, name) {
      PlanMembers(env, spec, pc, enabled, c);
      PullSecretNamesContents(spec, pc, name);
      PlannedSecret(env, spec, pc, enabled, name);
    }
  }

  lemma ClosesChartSecret(env: Env, spec: Spec, pc: ProviderConfig, enabled: bool)
    requires PlanError(env, spec, pc, enabled).None?
    ensures ChartSecretClosed(PlanList(env, spec, pc, enabled), env)
  {
    hide PlanList, PlanError, Only, PullSecretNames, Prefixed, EffectiveChartSecret, FunctionSecrets, Dedup, ImageSecrets;
    var comps, d := PlanList(env, spec, pc, enabled), ChartComponent(env, spec, pc, enabled);
    forall c | c in comps && c.Crossplane? && c.chartSecret != ""
      ensures Only(comps, d) && d.target == NamespacedName(env.tenantNs, c.chartSecret)
    {
      PlanMembers(env, spec, pc, enabled, c);
      ChartSecretNamed(env, spec, pc);
      PlannedChartSecret(env, spec, pc, enabled);
    }
  }

  lemma ClosesRuntimeConfigs(env: Env, spec: Spec, pc: ProviderConfig, enabled: bool)
    requires PlanError(env, spec, pc, enabled).None?
    ensures RuntimeConfigsClosed(PlanList(env, spec, pc, enabled))
  {
    hide PlanList, PlanError, PullSecretNames, Prefixed, EffectiveChartSecret;
    var comps := PlanList(env, spec, pc, enabled);
    forall c | c in comps && (c.Provider? || c.Function?)
      ensures RuntimeConfigFor(c.config.name, pc, enabled) in comps
    {
      PlanMembers(env, spec, pc, enabled, c);
      PlanMembers(env, spec, pc, enabled, RuntimeConfigFor(c.config.name, pc, enabled));
    }
  }

  /** What a member of a plan says about the custom CA. */
  ghost predicate CAConsistent(env: Env, pc: ProviderConfig, enabled: bool, c: Component) {
    && (c.Crossplane? ==> c.caBundle == pc.caBundle)
    && (c.ConfigMap? ==> c in CASection(pc, env, enabled))
    && (c.RuntimeConfig? ==> c.caMount == CAMountOf(pc))
  }

  lemma MemberCA(env: Env, spec: Spec, pc: ProviderConfig, enabled: bool, c: Component)
    requires PlanError(env, spec, pc, enabled).None? && c in PlanList(env, spec, pc, enabled)
    ensures CAConsistent(env, pc, enabled, c)
  {
    hide PlanList, PlanError, PullSecretNames, Prefixed, EffectiveChartSecret, Dedup, ImageSecrets;
    PlanMembers(env, spec, pc, enabled, c);
  }

  lemma ClosesCA(env: Env, spec: Spec, pc: ProviderConfig, enabled: bool)
    requires PlanError(env, spec, pc, enabled).None?
    ensures CAClosed(PlanList(env, spec, pc, enabled))
  {
    hide PlanList, PlanError, PullSecretNames, Prefixed, EffectiveChartSecret, Dedup, ImageSecrets;
    var comps := PlanList(env, spec, pc, enabled);
    forall c | c in comps ensures CAConsistent(env, pc, enabled, c) {
      MemberCA(env, spec, pc, enabled, c);
    }
    if pc.caBundle.Some? {
      PlanMembers(env, spec, pc, enabled, CASection(pc, env, enabled)[0]);
    }
  }

  lemma ChartSecretNamed(env: Env, spec: Spec, pc: ProviderConfig)
    ensures Prefixed(env, spec, pc) != "" ==> EffectiveChartSecret(spec, pc) != ""
  {
  }

  // ---------------------------------------------------------------- what the members carry

  /** Every package of a plan, and of the first phase of a teardown, is a package of the spec and carries
      the pull secrets of its kind; functions without secrets of their own carry those of the providers. */
  lemma PackagesCarry(env: Env, spec: Spec, pc: ProviderConfig, enabled: bool, c: Component)
    requires c in Phase1List(spec, pc) || (Plan(env, spec, pc, enabled).Ok? && c in Plan(env, spec, pc, enabled).value)
    ensures c.Provider? ==> c.config in Items(spec.providers) && c.pullSecrets == pc.providerSecrets
    ensures c.Function? ==>
      && c.config in Items(spec.functions)
      && c.pullSecrets == if pc.functionSecrets != [] then pc.functionSecrets else pc.providerSecrets
  {
    hide PlanList, PlanError, PullSecretNames, Prefixed, EffectiveChartSecret, Dedup, ImageSecrets;
    if PlanError(env, spec, pc, enabled).None? {
      PlanMembers(env, spec, pc, enabled, c);
    }
  }

  /** The packages of a plan are those of the spec, none is left out. */
  lemma PackagesPlanned(env: Env, spec: Spec, pc: ProviderConfig, enabled: bool, p: Package)
    requires Plan(env, spec, pc, enabled).Ok?
    ensures var comps := Plan(env, spec, pc, enabled).value;
      && (p in Items(spec.providers) <==> exists c :: c in comps && c.Provider? && c.config == p)
      && (p in Items(spec.functions) <==> exists c :: c in comps && c.Function? && c.config == p)
  {
    hide PlanList, PlanError, PullSecretNames, Prefixed, EffectiveChartSecret, Dedup, ImageSecrets;
    var comps := PlanList(env, spec, pc, enabled);
    forall c | c in comps
      ensures c.Provider? ==> c.config in Items(spec.providers)
      ensures c.Function? ==> c.config in Items(spec.functions)
    {
      PackagesCarry(env, spec, pc, enabled, c);
    }
    if p in Items(spec.providers) {
      PlanMembers(env, spec, pc, enabled, ProviderFor(p, pc, enabled));
    }
    if p in Items(spec.functions) {
      PlanMembers(env, spec, pc, enabled, FunctionFor(p, pc, enabled));
    }
  }

  /** The entry Crossplane is installed from: the first of its version. */
  ghost predicate FirstEntry(pc: ProviderConfig, version: string, i: nat) {
    i < |pc.versions| && pc.versions[i].version == version && forall k | 0 <= k < i :: pc.versions[k].version != version
  }

  /** Crossplane comes first in every plan, once, with the spec, the CA bundle, the prefixed chart secret
      of its entry and the image secrets of its version. */
  lemma CrossplaneCarries(env: Env, spec: Spec, pc: ProviderConfig, enabled: bool)
    requires Plan(env, spec, pc, enabled).Ok?
    ensures var comps := Plan(env, spec, pc, enabled).value;
      && comps != [] && comps[0].Crossplane? && comps[0].enabled == enabled && (forall c | c in comps && c.Crossplane? :: c == comps[0])
      && comps[0].spec == spec && comps[0].caBundle == pc.caBundle
      && (forall i: nat | FirstEntry(pc, spec.version, i) ::
            if pc.versions[i].chartSecret == "" then comps[0].chartSecret == ""
            else env.shorten("sp-crossplane-" + pc.versions[i].chartSecret) == Some(comps[0].chartSecret))
      && ((forall i: nat :: !FirstEntry(pc, spec.version, i)) ==> comps[0].chartSecret == "")
      && (forall name :: name in comps[0].imageSecrets <==>
            name != "" && exists i | 0 <= i < |pc.versions| ::
              pc.versions[i].version == spec.version && pc.versions[i].image.Some? && pc.versions[i].image.value.secret == name)
      && (forall i, j | 0 <= i < j < |comps[0].imageSecrets| :: comps[0].imageSecrets[i] != comps[0].imageSecrets[j])
  {
    var comps := PlanList(env, spec, pc, enabled);
    var xp := CrossplaneFor(spec, pc, Prefixed(env, spec, pc), enabled);
    FirstOfPlan(env, spec, pc, enabled);
    OneCrossplane(env, spec, pc, enabled);
    EntrySecret(env, spec, pc, enabled);
    hide PlanList, Plan, PlanError, Prefixed, Dedup, ImageSecrets, FirstEntry;
    DedupContents(ImageSecrets(spec.version, pc.versions));
    ImageSecretsContents(spec.version, pc.versions);
  }

  lemma FirstOfPlan(env: Env, spec: Spec, pc: ProviderConfig, enabled: bool)
    requires PlanError(env, spec, pc, enabled).None?
    ensures var comps := PlanList(env, spec, pc, enabled);
      comps != [] && comps[0] == CrossplaneFor(spec, pc, Prefixed(env, spec, pc), enabled)
  {
    hide CrossplaneFor, SecretSection, ChartSection, CASection, ProviderPairs, FunctionPairs, ImageSecrets, Dedup;
  }

  lemma OneCrossplane(env: Env, spec: Spec, pc: ProviderConfig, enabled: bool)
    requires PlanError(env, spec, pc, enabled).None?
    ensures forall c | c in PlanList(env, spec, pc, enabled) && c.Crossplane? :: c == CrossplaneFor(spec, pc, Prefixed(env, spec, pc), enabled)
  {
    hide PlanList, PlanError, PullSecretNames, Prefixed, EffectiveChartSecret, Dedup, ImageSecrets;
    forall c | c in PlanList(env, spec, pc, enabled) && c.Crossplane?
      ensures c == CrossplaneFor(spec, pc, Prefixed(env, spec, pc), enabled)
    {
      PlanMembers(env, spec, pc, enabled, c);
    }
  }

  lemma EntrySecret(env: Env, spec: Spec, pc: ProviderConfig, enabled: bool)
    requires PlanError(env, spec, pc, enabled).None?
    ensures forall i: nat | FirstEntry(pc, spec.version, i) ::
      && EffectiveChartSecret(spec, pc) == pc.versions[i].chartSecret
      && if pc.versions[i].chartSecret == "" then Prefixed(env, spec, pc) == ""
         else env.shorten("sp-crossplane-" + pc.versions[i].chartSecret) == Some(Prefixed(env, spec, pc))
    ensures (forall i: nat :: !FirstEntry(pc, spec.version, i)) ==>
      EffectiveChartSecret(spec, pc) == "" && Prefixed(env, spec, pc) == ""
  {
    FindCrossplaneBounds(pc.versions, spec.version);
    var r := FindCrossplane(pc.versions, spec.version);
    assert r.Some? ==> FirstEntry(pc, spec.version, r.value);
  }

  /** Where the copied objects come from and go to: everything comes from the pod namespace; pull secrets
      keep their names and go to the Crossplane namespace, the chart secret of Crossplane's entry goes to
      the tenant namespace, the CA bundle goes to the Crossplane namespace under a fixed name. */
  lemma CopiesCarry(env: Env, spec: Spec, pc: ProviderConfig, enabled: bool, c: Component)
    requires Plan(env, spec, pc, enabled).Ok? && c in Plan(env, spec, pc, enabled).value
    ensures c.enabled == enabled
    ensures c.Secret? ==>
      && c.source == NamespacedName(env.podNs, c.target.name) && c.target.namespace == "crossplane-system"
      && c.target.name != ""
    ensures c.PlatformSecret? ==>
      && c.source.namespace == env.podNs && c.target.namespace == env.tenantNs
      && c.source.name != "" && env.shorten("sp-crossplane-" + c.source.name) == Some(c.target.name)
      && exists i: nat :: FirstEntry(pc, spec.version, i) && c.source.name == pc.versions[i].chartSecret
    ensures c.ConfigMap? ==>
      && pc.caBundle.Some? && c.source == NamespacedName(env.podNs, pc.caBundle.value.name)
      && c.target == NamespacedName("crossplane-system", "custom-ca-bundle")
    ensures c.RuntimeConfig? ==>
      (c.name == "default" && c.serviceAccount == None) || c.serviceAccount == Some(c.name)
  {
    hide PlanList, PullSecretNames, Prefixed, EffectiveChartSecret, Dedup, ImageSecrets, FirstEntry, PlanError;
    PlanMembers(env, spec, pc, enabled, c);
    NamesClean(spec, pc);
    EntrySecret(env, spec, pc, enabled);
  }

  /** Behind the first component stand the Secrets of these names in this order, and no other. */
  predicate SecretsAre(comps: seq<Component>, names: seq<string>) {
    && |comps| > |names|
    && (forall i | 0 <= i < |names| :: comps[1 + i].Secret? && comps[1 + i].target.name == names[i])
    && (forall i | |names| < i < |comps| :: !comps[i].Secret?)
  }

  /** The Secrets stand right behind Crossplane, for the image secrets of its version, those of the providers
      and those of the functions, in this order and without repeats. */
  lemma SecretsFollowCrossplane(env: Env, spec: Spec, pc: ProviderConfig, enabled: bool)
    requires Plan(env, spec, pc, enabled).Ok?
    ensures var comps := Plan(env, spec, pc, enabled).value;
      && comps != [] && comps[0].Crossplane?
      && SecretsAre(comps, Dedup(comps[0].imageSecrets + pc.providerSecrets
                                 + (if pc.functionSecrets != [] then pc.functionSecrets else pc.providerSecrets)))
  {
    hide *;
    PlanOk(env, spec, pc, enabled);
    NamesOfPlan(env, spec, pc, enabled);
    SecretsPlaced(env, spec, pc, enabled);
  }

  lemma PlanOk(env: Env, spec: Spec, pc: ProviderConfig, enabled: bool)
    requires Plan(env, spec, pc, enabled).Ok?
    ensures PlanError(env, spec, pc, enabled).None? && Plan(env, spec, pc, enabled).value == PlanList(env, spec, pc, enabled)
  {
  }

  lemma NamesOfPlan(env: Env, spec: Spec, pc: ProviderConfig, enabled: bool)
    ensures CrossplaneFor(spec, pc, Prefixed(env, spec, pc), enabled).Crossplane?
    ensures PullSecretNames(spec, pc)
         == Dedup(CrossplaneFor(spec, pc, Prefixed(env, spec, pc), enabled).imageSecrets + pc.providerSecrets
                  + (if pc.functionSecrets != [] then pc.functionSecrets else pc.providerSecrets))
  {
    hide Dedup, ImageSecrets, Prefixed;
  }

  lemma SecretsPlaced(env: Env, spec: Spec, pc: ProviderConfig, enabled: bool)
    requires PlanError(env, spec, pc, enabled).None?
    ensures var comps := PlanList(env, spec, pc, enabled);
      && comps != [] && comps[0] == CrossplaneFor(spec, pc, Prefixed(env, spec, pc), enabled)
      && SecretsAre(comps, PullSecretNames(spec, pc))
  {
    var names, rest := PullSecretNames(spec, pc), BehindSecrets(env, spec, pc, enabled);
    hide PlanList, PlanError, PullSecretNames, Prefixed, SecretComponents, BehindSecrets, CrossplaneFor;
    PlanAroundSecrets(env, spec, pc, enabled);
    NamesClean(spec, pc);
    NothingBehindSecrets(env, spec, pc, enabled);
    SecretComponentsPointwise(names, env.podNs, enabled);
    Around(CrossplaneFor(spec, pc, Prefixed(env, spec, pc), enabled), SecretComponents(names, env.podNs, enabled), rest);
  }

  function BehindSecrets(env: Env, spec: Spec, pc: ProviderConfig, enabled: bool): seq<Component> {
    ChartSection(EffectiveChartSecret(spec, pc), Prefixed(env, spec, pc), env, enabled) + CASection(pc, env, enabled)
    + [DefaultRuntimeConfig(pc, enabled)] + ProviderPairs(Items(spec.providers), pc, enabled) + FunctionPairs(Items(spec.functions), pc, enabled)
  }

  lemma PlanAroundSecrets(env: Env, spec: Spec, pc: ProviderConfig, enabled: bool)
    requires PlanError(env, spec, pc, enabled).None?
    ensures PlanList(env, spec, pc, enabled)
         == [CrossplaneFor(spec, pc, Prefixed(env, spec, pc), enabled)]
          + SecretComponents(PullSecretNames(spec, pc), env.podNs, enabled) + BehindSecrets(env, spec, pc, enabled)
  {
    hide PlanList, PlanError, PullSecretNames, Prefixed, EffectiveChartSecret, ProviderPairs, FunctionPairs, SecretComponents, CrossplaneFor, ChartSection, CASection, DefaultRuntimeConfig;
    PlanAssembled(env, spec, pc, enabled);
    var x := [CrossplaneFor(spec, pc, Prefixed(env, spec, pc), enabled)] + SecretComponents(PullSecretNames(spec, pc), env.podNs, enabled);
    var chart := ChartSection(EffectiveChartSecret(spec, pc), Prefixed(env, spec, pc), env, enabled);
    var ca, drc := CASection(pc, env, enabled), [DefaultRuntimeConfig(pc, enabled)];
    var p, f := ProviderPairs(Items(spec.providers), pc, enabled), FunctionPairs(Items(spec.functions), pc, enabled);
    Regroup(x, chart, ca);
    Regroup(x, chart + ca, drc);
    Regroup(x, chart + ca + drc, p);
    Regroup(x, chart + ca + drc + p, f);
  }

  lemma Regroup(a: seq<Component>, b: seq<Component>, c: seq<Component>)
    ensures (a + b) + c == a + (b + c)
  {
  }

  lemma NothingBehindSecrets(env: Env, spec: Spec, pc: ProviderConfig, enabled: bool)
    ensures forall c | c in BehindSecrets(env, spec, pc, enabled) :: !c.Secret?
  {
    hide ProviderPairs, FunctionPairs, EffectiveChartSecret, Prefixed;
    forall c | c in BehindSecrets(env, spec, pc, enabled) ensures !c.Secret? {
      ProviderPairsMembers(Items(spec.providers), pc, enabled, c);
      FunctionPairsMembers(Items(spec.functions), pc, enabled, c);
    }
  }

  lemma Around(a: Component, b: seq<Component>, c: seq<Component>)
    ensures var s := [a] + b + c;
      && |s| > |b| && s[0] == a
      && (forall i | 0 <= i < |b| :: s[1 + i] == b[i])
      && (forall i | |b| < i < |s| :: s[i] in c)
  {
    var s := [a] + b + c;
    forall i | |b| < i < |s| ensures s[i] in c {
      assert s[i] == c[i - 1 - |b|];
    }
  }

  /** These are the packages of the list in its order, each right behind the runtime config of its name. */
  predicate InPairs(section: seq<Component>, list: seq<Package>, functions: bool) {
    && |section| == 2 * |list|
    && forall i | 0 <= i < |list| ::
         && section[2 * i].RuntimeConfig? && section[2 * i].name == list[i].name
         && (if functions then section[2 * i + 1].Function? else section[2 * i + 1].Provider?)
         && section[2 * i + 1].config == list[i]
  }

  /** A plan ends with the default runtime config, the providers and the functions of the spec. */
  lemma PlanFollowsSpec(env: Env, spec: Spec, pc: ProviderConfig, enabled: bool)
    requires Plan(env, spec, pc, enabled).Ok?
    ensures var comps, p, f := Plan(env, spec, pc, enabled).value, Items(spec.providers), Items(spec.functions);
      var n := |comps| - 2 * |f| - 2 * |p|;
      && n >= 2 && comps[n - 1].RuntimeConfig? && comps[n - 1].name == "default"
      && InPairs(comps[n..n + 2 * |p|], p, false) && InPairs(comps[n + 2 * |p|..], f, true)
  {
    var p, f := Items(spec.providers), Items(spec.functions);
    PlanParts(env, spec, pc, enabled);
    ProviderPairsAt(p, pc, enabled);
    FunctionPairsAt(f, pc, enabled);
    hide PlanList, PlanError, ProviderPairs, FunctionPairs, InPairs, PlanBase;
    Sections(PlanBase(env, spec, pc, enabled), ProviderPairs(p, pc, enabled), FunctionPairs(f, pc, enabled));
  }

  lemma Sections(a: seq<Component>, b: seq<Component>, c: seq<Component>)
    requires a != []
    ensures var s := a + b + c;
      s[|a| - 1] == a[|a| - 1] && s[|a|..|a| + |b|] == b && s[|a| + |b|..] == c
  {
  }

  function PlanBase(env: Env, spec: Spec, pc: ProviderConfig, enabled: bool): seq<Component>
    requires PlanError(env, spec, pc, enabled).None?
  {
    var chartSecret := EffectiveChartSecret(spec, pc);
    BasePlan(env, spec, pc, chartSecret, PrefixedChartSecret(env, chartSecret).value, enabled)
  }

  lemma PlanParts(env: Env, spec: Spec, pc: ProviderConfig, enabled: bool)
    requires PlanError(env, spec, pc, enabled).None?
    ensures var base := PlanBase(env, spec, pc, enabled);
      && PlanList(env, spec, pc, enabled) == base + ProviderPairs(Items(spec.providers), pc, enabled) + FunctionPairs(Items(spec.functions), pc, enabled)
      && |base| >= 2 && base[|base| - 1] == DefaultRuntimeConfig(pc, enabled)
  {
    hide CrossplaneFor, SecretSection, ChartSection, CASection, ProviderPairs, FunctionPairs, EffectiveChartSecret, PrefixedChartSecret;
  }

  lemma {:induction false} ProviderPairsAt(list: seq<Package>, pc: ProviderConfig, enabled: bool)
    ensures InPairs(ProviderPairs(list, pc, enabled), list, false)
  {
    if list != [] {
      ProviderPairsAt(list[..|list| - 1], pc, enabled);
    }
  }

  lemma {:induction false} FunctionPairsAt(list: seq<Package>, pc: ProviderConfig, enabled: bool)
    ensures InPairs(FunctionPairs(list, pc, enabled), list, true)
  {
    if list != [] {
      FunctionPairsAt(list[..|list| - 1], pc, enabled);
    }
  }

  // ---------------------------------------------------------------- install and teardown agree

  function Disabled(comps: seq<Component>): seq<Component> {
    seq(|comps|, i requires 0 <= i < |comps| => comps[i].(enabled := false))
  }

  lemma {:induction false} DisabledProviderPairs(list: seq<Package>, pc: ProviderConfig)
    ensures Disabled(ProviderPairs(list, pc, true)) == ProviderPairs(list, pc, false)
  {
    if list != [] {
      DisabledProviderPairs(list[..|list| - 1], pc);
    }
  }

  lemma {:induction false} DisabledFunctionPairs(list: seq<Package>, pc: ProviderConfig)
    ensures Disabled(FunctionPairs(list, pc, true)) == FunctionPairs(list, pc, false)
  {
    if list != [] {
      DisabledFunctionPairs(list[..|list| - 1], pc);
    }
  }

  lemma DisabledSecrets(names: seq<string>, podNs: string)
    requires "" !in names
    ensures Disabled(SecretComponents(names, podNs, true)) == SecretComponents(names, podNs, false)
  {
    SecretComponentsPointwise(names, podNs, true);
    SecretComponentsPointwise(names, podNs, false);
  }

  lemma DisabledAssembly(xp: Component, secrets: seq<Component>, chart: seq<Component>, ca: seq<Component>, drc: Component,
                         providers: seq<Component>, functions: seq<Component>)
    ensures Disabled(Assemble(xp, secrets, chart, ca, drc, providers, functions))
         == Assemble(xp.(enabled := false), Disabled(secrets), Disabled(chart), Disabled(ca), drc.(enabled := false),
                     Disabled(providers), Disabled(functions))
  {
  }

  /** What can be installed can be torn down: the same components in the same order, disabled. */
  lemma TeardownPlanAgrees(env: Env, spec: Spec, pc: ProviderConfig)
    requires Plan(env, spec, pc, true).Ok?
    ensures Plan(env, spec, pc, false) == Ok(Disabled(Plan(env, spec, pc, true).value))
  {
    hide PlanList, Assemble, PullSecretNames, Prefixed, SecretComponents, ProviderPairs, FunctionPairs, Disabled;
    hide EffectiveChartSecret, Dedup, ImageSecrets;
    var names := PullSecretNames(spec, pc);
    NamesClean(spec, pc);
    DisabledSecrets(names, env.podNs);
    DisabledProviderPairs(Items(spec.providers), pc);
    DisabledFunctionPairs(Items(spec.functions), pc);
    DisabledSections(env, spec, pc);
    PlanAssembled(env, spec, pc, true);
    PlanAssembled(env, spec, pc, false);
    DisabledAssembly(CrossplaneFor(spec, pc, Prefixed(env, spec, pc), true), SecretComponents(names, env.podNs, true),
      ChartSection(EffectiveChartSecret(spec, pc), Prefixed(env, spec, pc), env, true), CASection(pc, env, true),
      DefaultRuntimeConfig(pc, true), ProviderPairs(Items(spec.providers), pc, true),
      FunctionPairs(Items(spec.functions), pc, true));
  }

  lemma DisabledSections(env: Env, spec: Spec, pc: ProviderConfig)
    ensures var chart, prefixed := EffectiveChartSecret(spec, pc), Prefixed(env, spec, pc);
      && Disabled(ChartSection(chart, prefixed, env, true)) == ChartSection(chart, prefixed, env, false)
      && Disabled(CASection(pc, env, true)) == CASection(pc, env, false)
  {
    hide EffectiveChartSecret, Prefixed;
  }

  function Packages(comps: seq<Component>): seq<Component> {
    if comps == [] then []
    else
      var init, last := Packages(comps[..|comps| - 1]), comps[|comps| - 1];
      if last.Provider? || last.Function? then init + [last] else init
  }

  lemma {:induction false} PackagesConcat(a: seq<Component>, b: seq<Component>)
    ensures Packages(a + b) == Packages(a) + Packages(b)
  {
    if b == [] {
      assert a + b == a;
    } else {
      PackagesConcat(a, b[..|b| - 1]);
      assert (a + b)[..|a + b| - 1] == a + b[..|b| - 1];
    }
  }

  lemma {:induction false} PackagesNone(comps: seq<Component>)
    requires forall c | c in comps :: !c.Provider? && !c.Function?
    ensures Packages(comps) == []
  {
    if comps != [] {
      PackagesNone(comps[..|comps| - 1]);
      assert comps[|comps| - 1] in comps;
    }
  }

  lemma PackagesPair(drc: Component, package: Component)
    requires drc.RuntimeConfig? && (package.Provider? || package.Function?)
    ensures Packages([drc, package]) == [package]
  {
    assert [drc, package][..1] == [drc];
    assert [drc][..0] == [];
    assert Packages([drc]) == [];
    assert [] + [package] == [package];
  }

  lemma {:induction false} PackagesOfProviders(list: seq<Package>, pc: ProviderConfig)
    ensures Packages(ProviderPairs(list, pc, false)) == ProviderComponents(list, pc)
  {
    if list != [] {
      var init, last := list[..|list| - 1], list[|list| - 1];
      PackagesOfProviders(init, pc);
      PackagesConcat(ProviderPairs(init, pc, false), [RuntimeConfigFor(last.name, pc, false), ProviderFor(last, pc, false)]);
      PackagesPair(RuntimeConfigFor(last.name, pc, false), ProviderFor(last, pc, false));
    }
  }

  lemma {:induction false} PackagesOfFunctions(list: seq<Package>, pc: ProviderConfig)
    ensures Packages(FunctionPairs(list, pc, false)) == FunctionComponents(list, pc)
  {
    if list != [] {
      var init, last := list[..|list| - 1], list[|list| - 1];
      PackagesOfFunctions(init, pc);
      PackagesConcat(FunctionPairs(init, pc, false), [RuntimeConfigFor(last.name, pc, false), FunctionFor(last, pc, false)]);
      PackagesPair(RuntimeConfigFor(last.name, pc, false), FunctionFor(last, pc, false));
    }
  }

  /** Phase 1 of a teardown hands over exactly the providers and functions of the full plan. */
  lemma Phase1IsPackagesOfPlan(env: Env, spec: Spec, pc: ProviderConfig)
    requires Plan(env, spec, pc, false).Ok?
    ensures Phase1List(spec, pc) == Packages(Plan(env, spec, pc, false).value)
  {
    hide BasePlan, ProviderPairs, FunctionPairs, Packages, Phase1List, EffectiveChartSecret, PrefixedChartSecret;
    var chart := EffectiveChartSecret(spec, pc);
    var prefixed := PrefixedChartSecret(env, chart).value;
    var base := BasePlan(env, spec, pc, chart, prefixed, false);
    var p := ProviderPairs(Items(spec.providers), pc, false);
    var f := FunctionPairs(Items(spec.functions), pc, false);
    BaseHasNoPackages(env, spec, pc, chart, prefixed);
    PackagesConcat(base + p, f);
    PackagesConcat(base, p);
    PackagesOfProviders(Items(spec.providers), pc);
    PackagesOfFunctions(Items(spec.functions), pc);
    Phase1Lists(spec, pc);
  }

  lemma Phase1Lists(spec: Spec, pc: ProviderConfig)
    ensures Phase1List(spec, pc) == ProviderComponents(Items(spec.providers), pc) + FunctionComponents(Items(spec.functions), pc)
  {
  }

  lemma BaseHasNoPackages(env: Env, spec: Spec, pc: ProviderConfig, chart: string, prefixed: string)
    ensures Packages(BasePlan(env, spec, pc, chart, prefixed, false)) == []
  {
    hide BasePlan, Packages;
    var base := BasePlan(env, spec, pc, chart, prefixed, false);
    forall c | c in base ensures !c.Provider? && !c.Function? {
      BaseMemberIsNoPackage(env, spec, pc, chart, prefixed, c);
    }
    PackagesNone(base);
  }

  lemma BaseMemberIsNoPackage(env: Env, spec: Spec, pc: ProviderConfig, chart: string, prefixed: string, c: Component)
    requires c in BasePlan(env, spec, pc, chart, prefixed, false)
    ensures !c.Provider? && !c.Function?
  {
    hide PullSecretNames, Dedup, ImageSecrets, SecretSection, SecretComponents;
    SecretSectionIs(env, spec, pc, false);
    NamesClean(spec, pc);
    SecretMembers(PullSecretNames(spec, pc), env.podNs, false, c);
  }

  /** A teardown build fails for these reasons only; which versions are allowed is not among them. */
  lemma TeardownBuildFailsExactly(env: Env, spec: Spec, pc: ProviderConfig)
    ensures Plan(env, spec, pc, false).Err? <==>
      || env.podNs == ""
      || (exists i | 0 <= i < |pc.versions| ::
            && pc.versions[i].version == spec.version
            && (forall k | 0 <= k < i :: pc.versions[k].version != spec.version)
            && pc.versions[i].chartSecret != ""
            && env.shorten(SECRET_NAME_PREFIX + pc.versions[i].chartSecret).None?)
      || (spec.providers.Some? && pc.providers == [])
      || (spec.functions.Some? && pc.functions == [])
  {
    hide PlanList;
    FindCrossplaneBounds(pc.versions, spec.version);
  }

  /** An install build fails for one more reason: the Crossplane version is not in the allow-list. */
  lemma OnlyAnUnknownVersionSeparatesThem(env: Env, spec: Spec, pc: ProviderConfig)
    ensures Plan(env, spec, pc, true).Ok? <==>
      && Plan(env, spec, pc, false).Ok?
      && exists i | 0 <= i < |pc.versions| :: pc.versions[i].version == spec.version
  {
    hide PlanList;
    FindCrossplaneBounds(pc.versions, spec.version);
  }

  /** An install build blames the user exactly for a version that is not listed. */
  lemma UserErrorExactly(env: Env, spec: Spec, pc: ProviderConfig)
    ensures Plan(env, spec, pc, true) == Err(InvalidUserInput) <==>
      env.podNs != "" && forall v | v in pc.versions :: v.version != spec.version
  {
    hide PlanList;
    FindCrossplaneBounds(pc.versions, spec.version);
    if v :| v in pc.versions && v.version == spec.version {
      assert FindCrossplane(pc.versions, spec.version).Some?;
    }
    if FindCrossplane(pc.versions, spec.version).Some? {
      assert pc.versions[FindCrossplane(pc.versions, spec.version).value] in pc.versions;
    }
  }

  /** Which error a build gives: the checks in their order. */
  lemma BuildErrorsExactly(env: Env, spec: Spec, pc: ProviderConfig, enabled: bool)
    ensures var refused := exists i: nat ::
        && FirstEntry(pc, spec.version, i)
        && pc.versions[i].chartSecret != "" && env.shorten("sp-crossplane-" + pc.versions[i].chartSecret).None?;
      var unlisted := enabled && forall i: nat :: !FirstEntry(pc, spec.version, i);
      var noProviders, noFunctions := spec.providers.Some? && pc.providers == [], spec.functions.Some? && pc.functions == [];
      var early := env.podNs == "" || unlisted || refused;
      && (Plan(env, spec, pc, enabled) == Err(PodNamespaceUnset) <==> env.podNs == "")
      && (Plan(env, spec, pc, enabled) == Err(InvalidUserInput) <==> env.podNs != "" && unlisted)
      && (Plan(env, spec, pc, enabled) == Err(SecretNameRejected) <==> env.podNs != "" && refused)
      && (Plan(env, spec, pc, enabled) == Err(NoProvidersAvailable) <==> !early && noProviders)
      && (Plan(env, spec, pc, enabled) == Err(NoFunctionsAvailable) <==> !early && !noProviders && noFunctions)
      && (Plan(env, spec, pc, enabled).Ok? <==> !early && !noProviders && !noFunctions)
  {
    hide PlanList;
    FindCrossplaneBounds(pc.versions, spec.version);
    var r := FindCrossplane(pc.versions, spec.version);
    assert r.Some? ==> FirstEntry(pc, spec.version, r.value);
  }

  /** The allow-list admits a package: a provider entry of its name lists the version, or no provider
      entry of its name lists any and a function entry does; the name of the Crossplane release is
      looked up among the Crossplane versions. */
  ghost predicate PackageAllowed(pc: ProviderConfig, p: Package) {
    if p.name == CROSSPLANE_RELEASE then Listed(pc, p.version)
    else
      || (exists i: nat, j: nat :: Match(pc.providers, p.name, p.version, i, j))
      || (&& (forall k | 0 <= k < |pc.providers| && pc.providers[k].name == p.name :: pc.providers[k].versions == [])
          && exists i: nat, j: nat :: Match(pc.functions, p.name, p.version, i, j))
  }

  lemma ResolvedExactly(pc: ProviderConfig, p: Package)
    ensures Resolve(pc, p.name, p.version).Ok? <==> PackageAllowed(pc, p)
  {
    FindCrossplaneBounds(pc.versions, p.version);
    FindPackageIsFirst(pc.providers, p.name, p.version);
    FindPackageIsFirst(pc.functions, p.name, p.version);
    MatchIsOffered(pc.providers, p.name, p.version);
  }

  /** Once a teardown is built, nothing the allow-list says stops a component from being torn down;
      an install goes through the strict resolver and can be stopped. */
  lemma TeardownIsAlwaysInstallable(pc: ProviderConfig, c: Component)
    ensures IsInstallable(c, TolerantResolver(StrictResolver(pc)))
    ensures IsInstallable(c, StrictResolver(pc)) <==>
      match c
      case Crossplane(s, _, _, _, _) => Listed(pc, s.version)
      case Provider(p, _, _) => PackageAllowed(pc, p)
      case Function(p, _, _) => PackageAllowed(pc, p)
      case _ => true
  {
    match c {
      case Crossplane(s, _, _, _, _) => FindCrossplaneBounds(pc.versions, s.version);
      case Provider(p, _, _) => ResolvedExactly(pc, p);
      case Function(p, _, _) => ResolvedExactly(pc, p);
      case _ =>
    }
  }

  /** Writes the object of a planned package: building it, resolving its version, filling it in. What
      the written object refers to is planned too. */
  method WritePlannedPackage(env: Env, spec: Spec, pc: ProviderConfig, enabled: bool, comps: seq<Component>, c: Component)
    returns (o: PackageObject, ok: bool)
    requires Plan(env, spec, pc, enabled) == Ok(comps)
    requires c in comps && (c.Provider? || c.Function?)
    ensures fresh(o) && o.name == c.config.name
    ensures ok <==> !enabled || PackageAllowed(pc, c.config)
    ensures ok ==>
      && o.runtimeConfig.Some?
      && (exists d :: d in comps && d.RuntimeConfig? && d.name == o.runtimeConfig.value && d.serviceAccount == Some(o.name))
      && forall name | name in o.pullSecrets && name != "" :: HasSecret(comps, name)
  {
    hide Plan, PackageAllowed, HasSecret, ChartSecretClosed, CAClosed;
    var resolve := if enabled then StrictResolver(pc) else TolerantResolver(StrictResolver(pc));
    o := new PackageObject(c);
    ok := o.Reconcile(c, resolve);
    TeardownIsAlwaysInstallable(pc, c);
    PlanIsClosed(env, spec, pc, enabled);
  }

  /** A nil list needs no allow-list, an empty one does. Otherwise the two give the same components
      behind Crossplane, which carries the spec, and the same phase 1. */
  lemma NilAndEmptyProvidersDiffer(env: Env, spec: Spec, pc: ProviderConfig, enabled: bool)
    ensures var nil, empty := spec.(providers := None), spec.(providers := Some([]));
      && (Plan(env, empty, pc, enabled).Ok? <==> Plan(env, nil, pc, enabled).Ok? && pc.providers != [])
      && (Plan(env, nil, pc, enabled).Ok? && pc.providers == [] ==> Plan(env, empty, pc, enabled) == Err(NoProvidersAvailable))
      && (Plan(env, empty, pc, enabled).Ok? ==> Plan(env, empty, pc, enabled).value[1..] == Plan(env, nil, pc, enabled).value[1..])
      && Phase1List(empty, pc) == Phase1List(nil, pc)
  {
    hide SecretSection, ChartSection, CASection, FunctionPairs, ImageSecrets, Dedup, PrefixedChartSecret;
    assert EffectiveChartSecret(spec.(providers := None), pc) == EffectiveChartSecret(spec.(providers := Some([])), pc);
  }

  lemma NilAndEmptyFunctionsDiffer(env: Env, spec: Spec, pc: ProviderConfig, enabled: bool)
    ensures var nil, empty := spec.(functions := None), spec.(functions := Some([]));
      && (Plan(env, empty, pc, enabled).Ok? <==> Plan(env, nil, pc, enabled).Ok? && pc.functions != [])
      && (Plan(env, nil, pc, enabled).Ok? && pc.functions == [] ==> Plan(env, empty, pc, enabled) == Err(NoFunctionsAvailable))
      && (Plan(env, empty, pc, enabled).Ok? ==> Plan(env, empty, pc, enabled).value[1..] == Plan(env, nil, pc, enabled).value[1..])
      && Phase1List(empty, pc) == Phase1List(nil, pc)
  {
    hide SecretSection, ChartSection, CASection, ProviderPairs, ImageSecrets, Dedup, PrefixedChartSecret;
    assert EffectiveChartSecret(spec.(functions := None), pc) == EffectiveChartSecret(spec.(functions := Some([])), pc);
  }

  // ---------------------------------------------------------------- chart and credentials

  /** The chart URL and the chart credentials come from the same allow-list entry, and the image
      secret of that entry is among the discovered ones. */
  lemma ChartAndCredentialsAgree(pc: ProviderConfig, version: string)
    ensures ChartSecret(version, pc.versions).Ok? <==> Resolve(pc, CROSSPLANE_RELEASE, version).Ok?
    ensures ChartSecret(version, pc.versions).Ok? ==>
      exists i | 0 <= i < |pc.versions| ::
        && pc.versions[i].version == version
        && (forall k | 0 <= k < i :: pc.versions[k].version != version)
        && ChartSecret(version, pc.versions).value == pc.versions[i].chartSecret
        && Resolve(pc, CROSSPLANE_RELEASE, version).value.ociUrl == pc.versions[i].chartUrl
        && (pc.versions[i].image.Some? && pc.versions[i].image.value.secret != "" ==>
              pc.versions[i].image.value.secret in Dedup(ImageSecrets(version, pc.versions)))
  {
    FindCrossplaneBounds(pc.versions, version);
    ImageSecretsContents(version, pc.versions);
    DedupContents(ImageSecrets(version, pc.versions));
  }

  // ---------------------------------------------------------------- the secret watch

  /** Some secret component of the plan names this secret as its source. */
  ghost predicate Sources(comps: seq<Component>, name: string) {
    exists c :: c in comps && (c.Secret? || c.PlatformSecret?) && c.source.name == name
  }

  /** Some secret component of the plan fetches this secret. */
  ghost predicate Reads(comps: seq<Component>, name: string) {
    exists c :: c in comps && (c.Secret? || c.PlatformSecret?) && FetchedSource(c).Some? && FetchedSource(c).value.name == name
  }

  /** The sources of a plan in terms of its inputs; an install fetches all of them, a teardown none. */
  lemma PlanSources(env: Env, spec: Spec, pc: ProviderConfig, enabled: bool, name: string)
    requires Plan(env, spec, pc, enabled).Ok?
    ensures Sources(Plan(env, spec, pc, enabled).value, name) <==>
      name != "" && (name in PullSecretNames(spec, pc) || name == EffectiveChartSecret(spec, pc))
    ensures Reads(Plan(env, spec, pc, enabled).value, name) <==> enabled && Sources(Plan(env, spec, pc, enabled).value, name)
  {
    hide PlanList, PullSecretNames, Prefixed, EffectiveChartSecret, Dedup, ImageSecrets, Belongs;
    var comps := Plan(env, spec, pc, enabled).value;
    PullSecretNamesContents(spec, pc, name);
    forall c | c in comps && (c.Secret? || c.PlatformSecret?)
      ensures c.enabled == enabled
      ensures c.source.name == name ==> name != "" && (name in PullSecretNames(spec, pc) || name == EffectiveChartSecret(spec, pc))
    {
      SourceOfMember(env, spec, pc, enabled, c);
    }
    if name in PullSecretNames(spec, pc) {
      SecretIsMember(env, spec, pc, enabled, name);
    }
    if name != "" && name == EffectiveChartSecret(spec, pc) {
      ChartIsMember(env, spec, pc, enabled);
    }
  }

  lemma SourceOfMember(env: Env, spec: Spec, pc: ProviderConfig, enabled: bool, c: Component)
    requires PlanError(env, spec, pc, enabled).None?
    requires c in PlanList(env, spec, pc, enabled) && (c.Secret? || c.PlatformSecret?)
    ensures c.enabled == enabled && c.source.name != ""
    ensures c.source.name in PullSecretNames(spec, pc) || c.source.name == EffectiveChartSecret(spec, pc)
  {
    hide PlanList, PlanError, PullSecretNames, Prefixed, EffectiveChartSecret, Dedup, ImageSecrets;
    PlanMembers(env, spec, pc, enabled, c);
    NamesClean(spec, pc);
  }

  lemma SecretIsMember(env: Env, spec: Spec, pc: ProviderConfig, enabled: bool, name: string)
    requires PlanError(env, spec, pc, enabled).None? && name in PullSecretNames(spec, pc)
    ensures Sources(PlanList(env, spec, pc, enabled), name)
  {
    hide PlanList, PlanError, PullSecretNames, Prefixed, EffectiveChartSecret, Dedup, ImageSecrets;
    PlanMembers(env, spec, pc, enabled, SecretFor(name, env.podNs, enabled));
  }

  lemma ChartIsMember(env: Env, spec: Spec, pc: ProviderConfig, enabled: bool)
    requires PlanError(env, spec, pc, enabled).None? && EffectiveChartSecret(spec, pc) != ""
    ensures Sources(PlanList(env, spec, pc, enabled), EffectiveChartSecret(spec, pc))
  {
    hide PlanList, PlanError, PullSecretNames, Prefixed, EffectiveChartSecret, Dedup, ImageSecrets;
    PlanMembers(env, spec, pc, enabled, ChartComponent(env, spec, pc, enabled));
  }

  /** Soundness: every secret any plan reads, or only names as a source, is watched. */
  lemma WatchIsSound(env: Env, spec: Spec, pc: ProviderConfig, enabled: bool, name: string)
    requires Plan(env, spec, pc, enabled).Ok?
    requires Reads(Plan(env, spec, pc, enabled).value, name) || Sources(Plan(env, spec, pc, enabled).value, name)
    ensures name != "" && IsReferenced(pc, name)
  {
    PlanSources(env, spec, pc, enabled, name);
    PullSecretNamesContents(spec, pc, name);
    DedupContents(ImageSecrets(spec.version, pc.versions));
    ImageSecretsContents(spec.version, pc.versions);
    FindCrossplaneBounds(pc.versions, spec.version);
  }

  /** Some install succeeds and reads the secret. */
  ghost predicate ReadBySomeInstall(env: Env, pc: ProviderConfig, name: string) {
    exists spec :: ReadBy(env, spec, pc, name)
  }

  ghost predicate ReadBy(env: Env, spec: Spec, pc: ProviderConfig, name: string) {
    var plan := Plan(env, spec, pc, true);
    plan.Ok? && Reads(plan.value, name)
  }

  /** An entry hidden behind an earlier one of the same version. */
  ghost predicate Shadowed(pc: ProviderConfig, i: nat) {
    i < |pc.versions| && exists k | 0 <= k < i :: pc.versions[k].version == pc.versions[i].version
  }

  /** No build of this entry's version succeeds: the chart secret of the version gets no name. */
  ghost predicate Refused(env: Env, pc: ProviderConfig, i: nat) {
    i < |pc.versions| && exists k | 0 <= k < |pc.versions| ::
      && pc.versions[k].version == pc.versions[i].version && !Shadowed(pc, k)
      && pc.versions[k].chartSecret != "" && env.shorten(SECRET_NAME_PREFIX + pc.versions[k].chartSecret).None?
  }

  /** The entry names the secret, as its image secret or as the chart secret of its version. */
  ghost predicate Names(pc: ProviderConfig, i: nat, name: string) {
    && i < |pc.versions|
    && (|| (pc.versions[i].chartSecret == name && !Shadowed(pc, i))
        || (pc.versions[i].image.Some? && pc.versions[i].image.value.secret == name))
  }

  /** Exactly the secrets some install reads: those the packages pull with and those an entry names,
      chart secrets of shadowed entries excepted, as far as an entry's version can be installed. */
  lemma WatchIsExact(env: Env, pc: ProviderConfig, name: string)
    ensures ReadBySomeInstall(env, pc, name) <==>
      && env.podNs != "" && name != ""
      && exists i | 0 <= i < |pc.versions| ::
           !Refused(env, pc, i) && (Names(pc, i, name) || name in pc.providerSecrets || name in FunctionSecrets(pc))
  {
    hide ReadBy, Names, Refused;
    forall spec | ReadBy(env, spec, pc, name)
      ensures env.podNs != "" && name != ""
      ensures exists i | 0 <= i < |pc.versions| ::
        !Refused(env, pc, i) && (Names(pc, i, name) || name in pc.providerSecrets || name in FunctionSecrets(pc))
    {
      ReadNames(env, spec, pc, name);
    }
    if env.podNs != "" && name != "" {
      forall i | 0 <= i < |pc.versions| && !Refused(env, pc, i)
                 && (Names(pc, i, name) || name in pc.providerSecrets || name in FunctionSecrets(pc))
        ensures ReadBySomeInstall(env, pc, name)
      {
        EntryRead(env, pc, i, name);
      }
    }
  }

  /** The pull secrets of a plan by their origin. */
  lemma PullSecretOrigins(spec: Spec, pc: ProviderConfig, name: string)
    ensures name in PullSecretNames(spec, pc) <==>
      && name != ""
      && (|| (exists i | 0 <= i < |pc.versions| ::
                pc.versions[i].version == spec.version && pc.versions[i].image.Some? && pc.versions[i].image.value.secret == name)
          || name in pc.providerSecrets
          || name in FunctionSecrets(pc))
  {
    hide PullSecretNames, Dedup, ImageSecrets;
    PullSecretNamesContents(spec, pc, name);
    DedupContents(ImageSecrets(spec.version, pc.versions));
    ImageSecretsContents(spec.version, pc.versions);
  }

  /** What an install reads is named by an entry of its own version or by the packages. */
  lemma ReadNames(env: Env, spec: Spec, pc: ProviderConfig, name: string)
    requires ReadBy(env, spec, pc, name)
    ensures env.podNs != "" && name != ""
    ensures exists i | 0 <= i < |pc.versions| ::
      !Refused(env, pc, i) && (Names(pc, i, name) || name in pc.providerSecrets || name in FunctionSecrets(pc))
  {
    hide PlanList, PullSecretNames, Reads, Sources;
    PlanSources(env, spec, pc, true, name);
    PullSecretOrigins(spec, pc, name);
    FindCrossplaneBounds(pc.versions, spec.version);
    forall i | 0 <= i < |pc.versions| && pc.versions[i].version == spec.version ensures !Refused(env, pc, i) {
    }
    var first := FindCrossplane(pc.versions, spec.version).value;
    if name == EffectiveChartSecret(spec, pc) {
      assert Names(pc, first, name);
    } else if i :| 0 <= i < |pc.versions| && pc.versions[i].version == spec.version
                   && pc.versions[i].image.Some? && pc.versions[i].image.value.secret == name {
      assert Names(pc, i, name);
    } else {
      assert !Refused(env, pc, first);
    }
  }

  /** An install of an entry's version reads what the entry names and what the packages pull with. */
  lemma EntryRead(env: Env, pc: ProviderConfig, i: nat, name: string)
    requires env.podNs != "" && name != "" && i < |pc.versions| && !Refused(env, pc, i)
    requires Names(pc, i, name) || name in pc.providerSecrets || name in FunctionSecrets(pc)
    ensures ReadBySomeInstall(env, pc, name)
  {
    hide PlanList, PullSecretNames, Reads, Sources;
    var spec := Spec(pc.versions[i].version, None, None);
    FindCrossplaneBounds(pc.versions, spec.version);
    PlanSources(env, spec, pc, true, name);
    PullSecretOrigins(spec, pc, name);
    assert ReadBy(env, spec, pc, name);
  }

  /** With pairwise distinct versions nothing is shadowed: the watch fires in vain only for secrets that
      no version which can be installed needs. */
  lemma WatchIsExactWhenDistinct(env: Env, pc: ProviderConfig, name: string)
    requires env.podNs != "" && name != ""
    requires forall i, k | 0 <= k < i < |pc.versions| :: pc.versions[k].version != pc.versions[i].version
    ensures IsReferenced(pc, name) <==>
      || ReadBySomeInstall(env, pc, name)
      || (exists i | 0 <= i < |pc.versions| :: Names(pc, i, name) && Refused(env, pc, i))
      || ((name in pc.providerSecrets || name in FunctionSecrets(pc)) && forall i | 0 <= i < |pc.versions| :: Refused(env, pc, i))
    ensures pc.versions != [] && (forall i | 0 <= i < |pc.versions| :: !Refused(env, pc, i)) ==>
      (ReadBySomeInstall(env, pc, name) <==> IsReferenced(pc, name))
  {
    hide ReadBySomeInstall, Refused;
    WatchIsExact(env, pc, name);
    forall i | 0 <= i < |pc.versions|
      ensures Names(pc, i, name) <==>
        pc.versions[i].chartSecret == name || (pc.versions[i].image.Some? && pc.versions[i].image.value.secret == name)
    {
    }
    if pc.versions != [] && forall i | 0 <= i < |pc.versions| :: !Refused(env, pc, i) {
      assert !Refused(env, pc, 0);
    }
  }

  /** With a repeated version it need not be: the second entry's chart secret is watched, never read. */
  lemma ShadowedSecretIsWatchedInVain(env: Env)
    ensures var entry := (secret: string) => CrossplaneVersion("v1.0.0", "charts/crossplane", secret, None);
      var pc := ProviderConfig([entry("first"), entry("second")], [], [], [], [], None);
      IsReferenced(pc, "second") && !ReadBySomeInstall(env, pc, "second")
  {
    var entry := (secret: string) => CrossplaneVersion("v1.0.0", "charts/crossplane", secret, None);
    var pc := ProviderConfig([entry("first"), entry("second")], [], [], [], [], None);
    hide ReadBySomeInstall;
    assert pc.versions[1].chartSecret == "second";
    assert pc.versions[0].version == pc.versions[1].version;
    assert pc.versions[0].chartSecret == "first" && "first"[0] != "second"[0];
    WatchIsExact(env, pc, "second");
  }
}
