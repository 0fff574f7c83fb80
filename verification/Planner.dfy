/** The component planner: buildComponents, its helpers, the phase-1 lists of a teardown and the
    filter that decides which secrets the controller watches. */
module Planner {
  import opened Types
  import opened Resolver
  import opened Components
  import opened SecretRefs

  const SECRET_NAME_PREFIX := "sp-crossplane-"

  /** What the planner takes from outside: the pod namespace, the tenant namespace and the library
      that shortens a name to at most 63 characters. */
  datatype Env = Env(podNs: string, tenantNs: string, shorten: string -> Option<string>)

  // ---------------------------------------------------------------- secrets of a Crossplane version

  /** extractHelmChartPullSecretForVersion: the chart secret of the first entry of that version. */
  function ChartSecret(version: string, versions: seq<CrossplaneVersion>): Result<string> {
    var i := FindCrossplane(versions, version);
    FindCrossplaneBounds(versions, version);
    if i.Some? then Ok(versions[i.value].chartSecret) else Err(InvalidUserInput)
  }

  method ExtractChartSecret(version: string, versions: seq<CrossplaneVersion>) returns (r: Result<string>)
    ensures r == ChartSecret(version, versions)
  {
    FindCrossplaneBounds(versions, version);
    for i := 0 to |versions|
      invariant forall k | 0 <= k < i :: versions[k].version != version
    {
      if version == versions[i].version {
        return Ok(versions[i].chartSecret);
      }
    }
    return Err(InvalidUserInput);
  }

  /** The image secrets of every entry of that version, in order. */
  function ImageSecrets(version: string, versions: seq<CrossplaneVersion>): seq<string> {
    if versions == [] then []
    else
      var init, last := ImageSecrets(version, versions[..|versions| - 1]), versions[|versions| - 1];
      if last.version == version && last.image.Some? then init + [last.image.value.secret] else init
  }

  method DiscoverImageSecrets(version: string, versions: seq<CrossplaneVersion>) returns (r: seq<string>)
    ensures r == Dedup(ImageSecrets(version, versions))
  {
    var secrets := [];
    for i := 0 to |versions|
      invariant secrets == ImageSecrets(version, versions[..i])
    {
      assert versions[..i + 1][..i] == versions[..i];
      var v := versions[i];
      if version == v.version && v.image.Some? {
        secrets := secrets + [v.image.value.secret];
      }
    }
    assert versions[..|versions|] == versions;
    r := DeduplicateSecretRefs(secrets);
  }

  lemma {:induction false} ImageSecretsContents(version: string, versions: seq<CrossplaneVersion>)
    ensures forall name :: name in ImageSecrets(version, versions) <==>
      exists i | 0 <= i < |versions| ::
        versions[i].version == version && versions[i].image.Some? && versions[i].image.value.secret == name
  {
    if versions != [] {
      var init := versions[..|versions| - 1];
      ImageSecretsContents(version, init);
      assert forall i | 0 <= i < |init| :: versions[i] == init[i];
    }
  }

  /** In the order of the entries. */
  lemma {:induction false} ImageSecretsConcat(version: string, a: seq<CrossplaneVersion>, b: seq<CrossplaneVersion>)
    ensures ImageSecrets(version, a + b) == ImageSecrets(version, a) + ImageSecrets(version, b)
  {
    if b == [] {
      assert a + b == a;
    } else {
      ImageSecretsConcat(version, a, b[..|b| - 1]);
      assert (a + b)[..|a + b| - 1] == a + b[..|b| - 1];
    }
  }

  /** Functions use their own pull secrets when there are any, else those of the providers. */
  function FunctionSecrets(pc: ProviderConfig): seq<string> {
    if |pc.functionSecrets| > 0 then pc.functionSecrets else pc.providerSecrets
  }

  function PrefixedChartSecret(env: Env, chartSecret: string): Option<string> {
    if chartSecret == "" then Some("") else env.shorten(SECRET_NAME_PREFIX + chartSecret)
  }

  // ---------------------------------------------------------------- the plan

  function CAMountOf(pc: ProviderConfig): Option<CAMount> {
    if pc.caBundle.Some? then Some(CAMount(CA_CONFIG_MAP, pc.caBundle.value.key)) else None
  }

  function RuntimeConfigFor(name: string, pc: ProviderConfig, enabled: bool): Component {
    RuntimeConfig(name, Some(name), CAMountOf(pc), enabled)
  }

  function ProviderFor(p: Package, pc: ProviderConfig, enabled: bool): Component {
    Provider(p, pc.providerSecrets, enabled)
  }

  function FunctionFor(p: Package, pc: ProviderConfig, enabled: bool): Component {
    Function(p, FunctionSecrets(pc), enabled)
  }

  /** Each provider preceded by the runtime config of its name. */
  function ProviderPairs(list: seq<Package>, pc: ProviderConfig, enabled: bool): seq<Component> {
    if list == [] then []
    else
      var last := list[|list| - 1];
      ProviderPairs(list[..|list| - 1], pc, enabled)
      + [RuntimeConfigFor(last.name, pc, enabled), ProviderFor(last, pc, enabled)]
  }

  function FunctionPairs(list: seq<Package>, pc: ProviderConfig, enabled: bool): seq<Component> {
    if list == [] then []
    else
      var last := list[|list| - 1];
      FunctionPairs(list[..|list| - 1], pc, enabled)
      + [RuntimeConfigFor(last.name, pc, enabled), FunctionFor(last, pc, enabled)]
  }

  function SecretSection(images: seq<string>, pc: ProviderConfig, env: Env, enabled: bool): seq<Component> {
    Distinct(Distinct(Distinct([],
      SecretComponents(images, env.podNs, enabled)),
      SecretComponents(pc.providerSecrets, env.podNs, enabled)),
      SecretComponents(FunctionSecrets(pc), env.podNs, enabled))
  }

  function ChartSection(chartSecret: string, prefixed: string, env: Env, enabled: bool): seq<Component> {
    if chartSecret == "" then []
    else [PlatformSecret(NamespacedName(env.podNs, chartSecret), NamespacedName(env.tenantNs, prefixed), enabled)]
  }

  function CASection(pc: ProviderConfig, env: Env, enabled: bool): seq<Component> {
    if pc.caBundle.None? then []
    else [ConfigMap(NamespacedName(env.podNs, pc.caBundle.value.name),
                    NamespacedName(CROSSPLANE_NAMESPACE, CA_CONFIG_MAP), enabled)]
  }

  function CrossplaneFor(spec: Spec, pc: ProviderConfig, prefixed: string, enabled: bool): Component {
    Crossplane(spec, prefixed, Dedup(ImageSecrets(spec.version, pc.versions)), pc.caBundle, enabled)
  }

  function DefaultRuntimeConfig(pc: ProviderConfig, enabled: bool): Component {
    RuntimeConfig("default", None, CAMountOf(pc), enabled)
  }

  /** Everything in front of the packages. */
  function BasePlan(env: Env, spec: Spec, pc: ProviderConfig, chartSecret: string, prefixed: string, enabled: bool): seq<Component> {
    [CrossplaneFor(spec, pc, prefixed, enabled)]
    + SecretSection(Dedup(ImageSecrets(spec.version, pc.versions)), pc, env, enabled)
    + ChartSection(chartSecret, prefixed, env, enabled)
    + CASection(pc, env, enabled)
    + [DefaultRuntimeConfig(pc, enabled)]
  }

  /** The chart secret name a build works with: an unknown version has none. */
  function EffectiveChartSecret(spec: Spec, pc: ProviderConfig): string {
    var r := ChartSecret(spec.version, pc.versions);
    if r.Ok? then r.value else ""
  }

  /** Why a build fails, in the order of the checks; `None` when it succeeds. */
  function PlanError(env: Env, spec: Spec, pc: ProviderConfig, enabled: bool): Option<Error> {
    if env.podNs == "" then Some(PodNamespaceUnset)
    else if enabled && ChartSecret(spec.version, pc.versions).Err? then Some(InvalidUserInput)
    else if PrefixedChartSecret(env, EffectiveChartSecret(spec, pc)).None? then Some(SecretNameRejected)
    else if spec.providers.Some? && pc.providers == [] then Some(NoProvidersAvailable)
    else if spec.functions.Some? && pc.functions == [] then Some(NoFunctionsAvailable)
    else None
  }

  /** The list a successful build returns. */
  function PlanList(env: Env, spec: Spec, pc: ProviderConfig, enabled: bool): seq<Component>
    requires PlanError(env, spec, pc, enabled).None?
  {
    var chartSecret := EffectiveChartSecret(spec, pc);
    BasePlan(env, spec, pc, chartSecret, PrefixedChartSecret(env, chartSecret).value, enabled)
    + ProviderPairs(Items(spec.providers), pc, enabled)
    + FunctionPairs(Items(spec.functions), pc, enabled)
  }

  function Plan(env: Env, spec: Spec, pc: ProviderConfig, enabled: bool): Result<seq<Component>> {
    var error := PlanError(env, spec, pc, enabled);
    if error.Some? then Err(error.value) else Ok(PlanList(env, spec, pc, enabled))
  }

  /** buildComponents. */
  method BuildComponents(env: Env, spec: Spec, pc: ProviderConfig, enabled: bool) returns (r: Result<seq<Component>>)
    ensures r == Plan(env, spec, pc, enabled)
  {
    hide BasePlan, ChartSecret;
    if env.podNs == "" {
      return Err(PodNamespaceUnset);
    }
    var chart := ExtractChartSecret(spec.version, pc.versions);
    if chart.Err? && enabled {
      return Err(InvalidUserInput);
    }
    var chartSecret := if chart.Ok? then chart.value else "";
    var prefixed := PrefixedChartSecret(env, chartSecret);
    if prefixed.None? {
      return Err(SecretNameRejected);
    }
    var comps := BuildBaseComponents(env, spec, pc, chartSecret, prefixed.value, enabled);
    if spec.providers.Some? {
      if |pc.providers| == 0 {
        return Err(NoProvidersAvailable);
      }
      comps := AppendProviders(comps, spec.providers.value, pc, enabled);
    } else {
      assert comps + ProviderPairs([], pc, enabled) == comps;
    }
    if spec.functions.Some? {
      if |pc.functions| == 0 {
        return Err(NoFunctionsAvailable);
      }
      comps := AppendFunctions(comps, spec.functions.value, pc, enabled);
    } else {
      assert comps + FunctionPairs([], pc, enabled) == comps;
    }
    return Ok(comps);
  }

  /** Crossplane, the secrets, the CA config map and the default runtime config. */
  method BuildBaseComponents(env: Env, spec: Spec, pc: ProviderConfig, chartSecret: string, prefixed: string, enabled: bool)
    returns (comps: seq<Component>)
    ensures comps == BasePlan(env, spec, pc, chartSecret, prefixed, enabled)
  {
    hide SecretSection, ChartSection, ImageSecrets, Dedup;
    var images := DiscoverImageSecrets(spec.version, pc.versions);
    var xp := Crossplane(spec, prefixed, images, pc.caBundle, enabled);
    comps := [xp];
    var secrets := BuildAllSecretComponents(env, pc, images, chartSecret, prefixed, xp.enabled);
    comps := comps + secrets;
    if pc.caBundle.Some? {
      comps := comps + [ConfigMap(NamespacedName(env.podNs, pc.caBundle.value.name),
                                  NamespacedName(CROSSPLANE_NAMESPACE, CA_CONFIG_MAP), xp.enabled)];
    }
    comps := comps + [RuntimeConfig("default", None, CAMountOf(pc), xp.enabled)];
  }

  method AppendProviders(before: seq<Component>, list: seq<Package>, pc: ProviderConfig, enabled: bool)
    returns (comps: seq<Component>)
    ensures comps == before + ProviderPairs(list, pc, enabled)
  {
    comps := before;
    for i := 0 to |list|
      invariant comps == before + ProviderPairs(list[..i], pc, enabled)
    {
      assert list[..i + 1][..i] == list[..i];
      var drc := RuntimeConfig(list[i].name, Some(list[i].name), None, enabled);
      drc := ConfigureForCustomCA(drc, pc);
      comps := comps + [drc, Provider(list[i], pc.providerSecrets, enabled)];
    }
    assert list[..|list|] == list;
  }

  method AppendFunctions(before: seq<Component>, list: seq<Package>, pc: ProviderConfig, enabled: bool)
    returns (comps: seq<Component>)
    ensures comps == before + FunctionPairs(list, pc, enabled)
  {
    comps := before;
    for i := 0 to |list|
      invariant comps == before + FunctionPairs(list[..i], pc, enabled)
    {
      assert list[..i + 1][..i] == list[..i];
      var drc := RuntimeConfig(list[i].name, Some(list[i].name), None, enabled);
      drc := ConfigureForCustomCA(drc, pc);
      comps := comps + [drc, Function(list[i], FunctionSecrets(pc), enabled)];
    }
    assert list[..|list|] == list;
  }

  /** configureDRCForCustomCA. */
  function ConfigureForCustomCA(drc: Component, pc: ProviderConfig): Component
    requires drc.RuntimeConfig?
  {
    if pc.caBundle.Some? then drc.(caMount := Some(CAMount(CA_CONFIG_MAP, pc.caBundle.value.key))) else drc
  }

  method BuildAllSecretComponents(env: Env, pc: ProviderConfig, images: seq<string>, chartSecret: string, prefixed: string, enabled: bool)
    returns (comps: seq<Component>)
    ensures comps == SecretSection(images, pc, env, enabled) + ChartSection(chartSecret, prefixed, env, enabled)
  {
    comps := [];
    var s := BuildSecretsComponents(images, env.podNs, enabled);
    comps := AppendDistinct(comps, s);
    s := BuildSecretsComponents(pc.providerSecrets, env.podNs, enabled);
    comps := AppendDistinct(comps, s);
    s := BuildSecretsComponents(FunctionSecrets(pc), env.podNs, enabled);
    comps := AppendDistinct(comps, s);
    if chartSecret != "" {
      comps := comps + [PlatformSecret(NamespacedName(env.podNs, chartSecret), NamespacedName(env.tenantNs, prefixed), enabled)];
    }
  }

  // ---------------------------------------------------------------- teardown, phase 1

  function ProviderComponents(list: seq<Package>, pc: ProviderConfig): seq<Component> {
    seq(|list|, i requires 0 <= i < |list| => ProviderFor(list[i], pc, false))
  }

  function FunctionComponents(list: seq<Package>, pc: ProviderConfig): seq<Component> {
    seq(|list|, i requires 0 <= i < |list| => FunctionFor(list[i], pc, false))
  }

  /** buildProviderComponents followed by buildFunctionComponents. */
  function Phase1List(spec: Spec, pc: ProviderConfig): seq<Component> {
    ProviderComponents(Items(spec.providers), pc) + FunctionComponents(Items(spec.functions), pc)
  }

  method BuildPhase1Components(spec: Spec, pc: ProviderConfig) returns (comps: seq<Component>)
    ensures comps == Phase1List(spec, pc)
  {
    comps := [];
    var providers, functions := Items(spec.providers), Items(spec.functions);
    for i := 0 to |providers|
      invariant comps == ProviderComponents(providers, pc)[..i]
    {
      comps := comps + [Provider(providers[i], pc.providerSecrets, false)];
    }
    for i := 0 to |functions|
      invariant comps == ProviderComponents(providers, pc) + FunctionComponents(functions, pc)[..i]
    {
      comps := comps + [Function(functions[i], FunctionSecrets(pc), false)];
    }
  }

  // ---------------------------------------------------------------- the secret watch

  /** isSecretReferencedInProviderConfig, as a property of the ProviderConfig. */
  ghost predicate IsReferenced(pc: ProviderConfig, name: string) {
    || (exists i | 0 <= i < |pc.versions| ::
          || pc.versions[i].chartSecret == name
          || (pc.versions[i].image.Some? && pc.versions[i].image.value.secret == name))
    || name in pc.providerSecrets
    || name in FunctionSecrets(pc)
  }

  method IsSecretReferencedInProviderConfig(pc: ProviderConfig, name: string) returns (found: bool)
    ensures found <==> IsReferenced(pc, name)
  {
    for i := 0 to |pc.versions|
      invariant forall k | 0 <= k < i ::
        && pc.versions[k].chartSecret != name
        && (pc.versions[k].image.Some? ==> pc.versions[k].image.value.secret != name)
    {
      if pc.versions[i].chartSecret == name {
        return true;
      }
      if pc.versions[i].image.Some? && pc.versions[i].image.value.secret == name {
        return true;
      }
    }
    for i := 0 to |pc.providerSecrets|
      invariant name !in pc.providerSecrets[..i]
    {
      if pc.providerSecrets[i] == name {
        return true;
      }
    }
    assert pc.providerSecrets[..|pc.providerSecrets|] == pc.providerSecrets;
    var functions := FunctionSecrets(pc);
    for i := 0 to |functions|
      invariant name !in functions[..i]
    {
      if functions[i] == name {
        return true;
      }
    }
    assert functions[..|functions|] == functions;
    return false;
  }
}
