/** The components handed to the juggler: their identity, their names, the conversion of an object
    found in a cluster back into a component, and the writing of a package object. */
module Components {
  import opened Types
  import opened Resolver
  import Naming

  const CROSSPLANE_NAMESPACE := "crossplane-system"
  const CA_CONFIG_MAP := "custom-ca-bundle"
  const MANAGED_BY := "service-provider-crossplane"

  /** The config map and key a deployment template mounts as custom CA. */
  datatype CAMount = CAMount(configMap: string, key: string)

  datatype Component =
    | Crossplane(spec: Spec, chartSecret: string, imageSecrets: seq<string>, caBundle: Option<CABundle>, enabled: bool)
    | Secret(source: NamespacedName, target: NamespacedName, enabled: bool)
    | PlatformSecret(source: NamespacedName, target: NamespacedName, enabled: bool)
    | ConfigMap(source: NamespacedName, target: NamespacedName, enabled: bool)
    | RuntimeConfig(name: string, serviceAccount: Option<string>, caMount: Option<CAMount>, enabled: bool)
    | Provider(config: Package, pullSecrets: seq<string>, enabled: bool)
    | Function(config: Package, pullSecrets: seq<string>, enabled: bool)

  /** The object a component stands for in the clusters. */
  datatype Key =
    | ReleaseKey
    | SecretKey(target: NamespacedName)
    | PlatformSecretKey(target: NamespacedName)
    | ConfigMapKey(target: NamespacedName)
    | RuntimeConfigKey(name: string)
    | ProviderKey(name: string)
    | FunctionKey(name: string)

  function KeyOf(c: Component): Key {
    match c
    case Crossplane(_, _, _, _, _) => ReleaseKey
    case Secret(_, target, _) => SecretKey(target)
    case PlatformSecret(_, target, _) => PlatformSecretKey(target)
    case ConfigMap(_, target, _) => ConfigMapKey(target)
    case RuntimeConfig(name, _, _, _) => RuntimeConfigKey(name)
    case Provider(config, _, _) => ProviderKey(config.name)
    case Function(config, _, _) => FunctionKey(config.name)
  }

  function GetName(c: Component): string {
    match c
    case Crossplane(_, _, _, _, _) => "Crossplane"
    case Secret(_, target, _) => "Secret" + Naming.CamelCase(target.name)
    case PlatformSecret(_, target, _) => "PlatformSecret" + Naming.CamelCase(target.name)
    case ConfigMap(_, target, _) => "ConfigMap" + Naming.CamelCase(target.name)
    case RuntimeConfig(name, _, _, _) => "DeploymentRuntimeConfig" + TitleWords(name)
    case Provider(config, _, _) => Naming.CamelCase(config.name)
    case Function(config, _, _) => Naming.CamelCase(config.name)
  }

  /** Title case of a whole hyphenated name; the hyphens stay. */
  function TitleWords(name: string): string {
    var words := Naming.Hyphenated(Naming.Titles(Naming.Split(name)));
    if words == "" then "" else words[1..]
  }

  /** GetName of every kind, with the loops that format the names. */
  method NameOf(c: Component) returns (name: string)
    ensures name == GetName(c)
  {
    match c {
      case Crossplane(_, _, _, _, _) => name := "Crossplane";
      case Secret(_, target, _) => name := Naming.FormatPrefixedName("Secret", target.name);
      case PlatformSecret(_, target, _) => name := Naming.FormatPrefixedName("PlatformSecret", target.name);
      case ConfigMap(_, target, _) => name := Naming.FormatPrefixedName("ConfigMap", target.name);
      case RuntimeConfig(drc, _, _, _) => name := "DeploymentRuntimeConfig" + TitleWords(drc);
      case Provider(config, _, _) => name := Naming.FormatName(config.name);
      case Function(config, _, _) => name := Naming.FormatName(config.name);
    }
  }

  // ---------------------------------------------------------------- when names are shared

  /** The object's own name, behind the words of the kind's prefix. */
  function FullName(c: Component): string {
    match c
    case Crossplane(_, _, _, _, _) => "crossplane"
    case Secret(_, target, _) => "secret" + "-" + target.name
    case PlatformSecret(_, target, _) => "platform-secret" + "-" + target.name
    case ConfigMap(_, target, _) => "config-map" + "-" + target.name
    case RuntimeConfig(name, _, _, _) => "deployment-runtime-config" + "-" + name
    case Provider(config, _, _) => config.name
    case Function(config, _, _) => config.name
  }

  function OwnName(c: Component): string {
    match c
    case Crossplane(_, _, _, _, _) => "crossplane"
    case Secret(_, target, _) => target.name
    case PlatformSecret(_, target, _) => target.name
    case ConfigMap(_, target, _) => target.name
    case RuntimeConfig(name, _, _, _) => name
    case Provider(config, _, _) => config.name
    case Function(config, _, _) => config.name
  }

  predicate ModelledComponent(c: Component) {
    Naming.ModelledName(OwnName(c))
  }

  /** Only runtime configs keep the hyphens of their names. */
  predicate KeepsHyphens(c: Component) {
    c.RuntimeConfig? && '-' in c.name
  }

  /** Runtime configs share a name only when they are the same. Other components share one when their
      full names merge to the same; so a provider `secret-x` goes by the name of the secret `x`, and a
      function by the name of the provider it is called after. */
  predicate SharesName(c: Component, d: Component) {
    if c.RuntimeConfig? && d.RuntimeConfig? then c.name == d.name
    else !KeepsHyphens(c) && !KeepsHyphens(d) && Naming.Merged(FullName(c)) == Naming.Merged(FullName(d))
  }

  lemma Capitalized(word: string, capitalized: string)
    requires Naming.WellFormedPart(word) && |capitalized| == |word|
    requires capitalized[0] == Naming.ToUpper(word[0]) && forall i | 1 <= i < |word| :: capitalized[i] == word[i]
    ensures Naming.ModelledName(word) && Naming.CamelCase(word) == capitalized
  {
    OneWord(word);
    hide Naming.CamelCase, Naming.ToUpper;
    assert capitalized[1..] == word[1..];
    assert capitalized == [capitalized[0]] + capitalized[1..];
  }

  lemma OneWord(word: string)
    requires Naming.WellFormedPart(word)
    ensures Naming.CamelCase(word) == [Naming.ToUpper(word[0])] + word[1..]
  {
    assert '-' !in word;
    assert forall i | 0 <= i < |word[1..]| :: word[1..][i] == word[i + 1];
    Naming.LoweredTail(word[1..]);
    assert Naming.Title(word) == [Naming.ToUpper(word[0])] + word[1..];
    hide Naming.Title, Naming.Titles, Naming.Join, Naming.Split;
    Naming.SplitWord(word);
    Naming.JoinTitlesOne(word);
  }

  lemma Behind(prefix: string, name: string)
    requires Naming.ModelledName(prefix)
    ensures Naming.CamelCase(prefix + "-" + name) == Naming.CamelCase(prefix) + Naming.CamelCase(name)
    ensures Naming.ModelledName(name) ==> Naming.ModelledName(prefix + "-" + name)
  {
    Naming.CamelCaseHyphen(prefix, name);
    Naming.SplitHyphen(prefix, name);
  }

  lemma Words()
    ensures Naming.ModelledName("crossplane") && Naming.CamelCase("crossplane") == "Crossplane"
    ensures Naming.ModelledName("secret") && Naming.CamelCase("secret") == "Secret"
    ensures Naming.ModelledName("platform") && Naming.CamelCase("platform") == "Platform"
    ensures Naming.ModelledName("config") && Naming.CamelCase("config") == "Config"
    ensures Naming.ModelledName("map") && Naming.CamelCase("map") == "Map"
    ensures Naming.ModelledName("deployment") && Naming.CamelCase("deployment") == "Deployment"
    ensures Naming.ModelledName("runtime") && Naming.CamelCase("runtime") == "Runtime"
  {
    hide Naming.CamelCase, Naming.ModelledName;
    assert Naming.ModelledName("crossplane") && Naming.CamelCase("crossplane") == "Crossplane" by { Capitalized("crossplane", "Crossplane"); }
    assert Naming.ModelledName("secret") && Naming.CamelCase("secret") == "Secret" by { Capitalized("secret", "Secret"); }
    assert Naming.ModelledName("platform") && Naming.CamelCase("platform") == "Platform" by { Capitalized("platform", "Platform"); }
    assert Naming.ModelledName("config") && Naming.CamelCase("config") == "Config" by { Capitalized("config", "Config"); }
    assert Naming.ModelledName("map") && Naming.CamelCase("map") == "Map" by { Capitalized("map", "Map"); }
    assert Naming.ModelledName("deployment") && Naming.CamelCase("deployment") == "Deployment" by { Capitalized("deployment", "Deployment"); }
    assert Naming.ModelledName("runtime") && Naming.CamelCase("runtime") == "Runtime" by { Capitalized("runtime", "Runtime"); }
  }

  lemma Prefixes()
    ensures Naming.ModelledName("crossplane") && Naming.CamelCase("crossplane") == "Crossplane"
    ensures Naming.ModelledName("secret") && Naming.CamelCase("secret") == "Secret"
    ensures Naming.ModelledName("platform-secret") && Naming.CamelCase("platform-secret") == "PlatformSecret"
    ensures Naming.ModelledName("config-map") && Naming.CamelCase("config-map") == "ConfigMap"
    ensures Naming.ModelledName("deployment-runtime-config")
      && Naming.CamelCase("deployment-runtime-config") == "DeploymentRuntimeConfig"
  {
    hide Naming.CamelCase, Naming.ModelledName;
    Words();
    Behind("platform", "secret");
    assert "platform-secret" == "platform" + "-" + "secret" && "PlatformSecret" == "Platform" + "Secret";
    Behind("config", "map");
    assert "config-map" == "config" + "-" + "map" && "ConfigMap" == "Config" + "Map";
    Behind("runtime", "config");
    Behind("deployment", "runtime" + "-" + "config");
    assert "deployment-runtime-config" == "deployment" + "-" + ("runtime" + "-" + "config");
    assert "DeploymentRuntimeConfig" == "Deployment" + ("Runtime" + "Config");
  }

  /** The full name says what a component is called. */
  lemma CalledByFullName(c: Component)
    requires ModelledComponent(c)
    ensures Naming.ModelledName(FullName(c))
    ensures !KeepsHyphens(c) ==> GetName(c) == Naming.CamelCase(FullName(c))
  {
    hide Naming.CamelCase, Naming.ModelledName;
    Prefixes();
    match c {
      case Crossplane(_, _, _, _, _) =>
      case Secret(_, target, _) => Behind("secret", target.name);
      case PlatformSecret(_, target, _) => Behind("platform-secret", target.name);
      case ConfigMap(_, target, _) => Behind("config-map", target.name);
      case RuntimeConfig(name, _, _, _) =>
        Behind("deployment-runtime-config", name);
        if '-' !in name {
          OneTitleWord(name);
        }
      case Provider(_, _, _) =>
      case Function(_, _, _) =>
    }
  }

  lemma OneTitleWord(name: string)
    requires '-' !in name
    ensures TitleWords(name) == Naming.CamelCase(name)
  {
    Naming.SplitWord(name);
    Naming.JoinTitlesOne(name);
    assert Naming.Titles([name]) == [Naming.Title(name)];
    Naming.HyphenatedCons(Naming.Title(name), []);
    assert [Naming.Title(name)] + [] == [Naming.Title(name)];
    assert ("-" + Naming.Title(name) + "")[1..] == Naming.Title(name);
  }

  lemma {:induction false} LoweredTitles(parts: seq<string>)
    requires forall i | 0 <= i < |parts| :: Naming.LabelPart(parts[i])
    ensures Naming.Lowered(Naming.Hyphenated(Naming.Titles(parts))) == Naming.Hyphenated(parts)
  {
    hide Naming.LabelPart, Naming.Title, Naming.Lowered;
    if parts == [] {
      LoweredNothing();
    } else {
      var part, rest := parts[0], parts[1..];
      LoweredTitles(rest);
      assert Naming.Titles(parts)[1..] == Naming.Titles(rest);
      LoweredTitle(part);
      var title, tail := Naming.Title(part), Naming.Hyphenated(Naming.Titles(rest));
      LoweredBehindHyphen(title, tail);
    }
  }

  lemma LoweredNothing()
    ensures Naming.Lowered("") == ""
  {
  }

  lemma LoweredBehindHyphen(a: string, b: string)
    ensures Naming.Lowered("-" + a + b) == "-" + Naming.Lowered(a) + Naming.Lowered(b)
  {
    assert Naming.Lowered("-") == "-";
    LoweredConcat("-", a);
    LoweredConcat("-" + a, b);
  }

  lemma LoweredConcat(a: string, b: string)
    ensures Naming.Lowered(a + b) == Naming.Lowered(a) + Naming.Lowered(b)
  {
  }

  lemma LoweredDrop(s: string)
    requires s != ""
    ensures Naming.Lowered(s)[1..] == Naming.Lowered(s[1..])
  {
  }

  lemma {:induction false} LoweredTitle(part: string)
    requires Naming.LabelPart(part)
    ensures Naming.Lowered(Naming.Title(part)) == part
  {
    if part != "" {
      var c, rest := part[0], part[1..];
      assert forall i | 0 <= i < |rest| :: rest[i] == part[i + 1];
      assert part == [c] + rest;
      if Naming.TITLES_BEHIND_DIGITS && Naming.IsDigit(c) {
        LoweredTitle(rest);
        LoweredConcat([c], Naming.Title(rest));
      } else {
        Naming.LoweredTail(rest);
        LoweredConcat([Naming.ToUpper(c)], rest);
        assert Naming.ToLower(Naming.ToUpper(c)) == c;
      }
    }
  }

  /** Title case with the hyphens kept can be undone. */
  lemma TitleWordsRoundTrip(name: string)
    requires Naming.ModelledName(name)
    ensures Naming.Lowered(TitleWords(name)) == name
  {
    Naming.SplitLabels(name);
    LoweredTitles(Naming.Split(name));
    Naming.HyphenatedSplit(name);
    var words := Naming.Hyphenated(Naming.Titles(Naming.Split(name)));
    assert |words| == |Naming.Lowered(words)| == |"-" + name|;
    hide Naming.Lowered, Naming.Hyphenated, Naming.Titles, Naming.Split;
    LoweredDrop(words);
  }

  lemma HyphenStays(name: string)
    requires Naming.ModelledName(name) && '-' in name
    ensures '-' in TitleWords(name)
  {
    TitleWordsRoundTrip(name);
    var words := TitleWords(name);
    var i :| 0 <= i < |name| && name[i] == '-';
    assert Naming.Lowered(words)[i] == Naming.ToLower(words[i]) == '-';
    assert words[i] == '-';
  }

  lemma NoHyphen(name: string)
    requires Naming.ModelledName(name)
    ensures '-' !in Naming.CamelCase(name)
  {
    Naming.SplitLabels(name);
    Naming.JoinAlphanumeric(Naming.Split(name));
  }

  /** Exactly which components share a name, and with it their condition. */
  lemma NamesCollideExactly(c: Component, d: Component)
    requires ModelledComponent(c) && ModelledComponent(d)
    ensures GetName(c) == GetName(d) <==> SharesName(c, d)
  {
    hide Naming.CamelCase, Naming.ModelledName, Naming.Merged, TitleWords;
    CalledByFullName(c);
    CalledByFullName(d);
    if c.RuntimeConfig? && d.RuntimeConfig? {
      TitleWordsRoundTrip(c.name);
      TitleWordsRoundTrip(d.name);
      var prefix := "DeploymentRuntimeConfig";
      assert (prefix + TitleWords(c.name))[|prefix|..] == TitleWords(c.name);
      assert (prefix + TitleWords(d.name))[|prefix|..] == TitleWords(d.name);
    } else if KeepsHyphens(c) {
      HyphenStays(c.name);
      NoHyphen(FullName(d));
    } else if KeepsHyphens(d) {
      HyphenStays(d.name);
      NoHyphen(FullName(c));
    } else {
      Naming.CollideExactly(FullName(c), FullName(d));
    }
  }

  /** What the juggler asks before it installs or removes a component. */
  function IsInstallable(c: Component, resolve: ResolverFn): bool {
    match c
    case Crossplane(spec, _, _, _, _) => resolve(CROSSPLANE_RELEASE, spec.version).Ok?
    case Provider(config, _, _) => resolve(config.name, config.version).Ok?
    case Function(config, _, _) => resolve(config.name, config.version).Ok?
    case _ => true
  }

  /** The object a component copies from: fetched when the component is enabled, left alone when it is
      to be removed. */
  function FetchedSource(c: Component): Option<NamespacedName> {
    if (c.Secret? || c.PlatformSecret? || c.ConfigMap?) && c.enabled then Some(c.source) else None
  }

  // ---------------------------------------------------------------- orphan detection

  /** ConvertFunc, for one object found in a cluster: a component that is not enabled. */
  function FromObject(k: Key): Component
    requires k != ReleaseKey
  {
    match k
    case SecretKey(target) => Secret(NamespacedName("", ""), target, false)
    case PlatformSecretKey(target) => PlatformSecret(NamespacedName("", ""), target, false)
    case ConfigMapKey(target) => ConfigMap(NamespacedName("", ""), target, false)
    case RuntimeConfigKey(name) => RuntimeConfig(name, None, None, false)
    case ProviderKey(name) => Provider(Package(name, ""), [], false)
    case FunctionKey(name) => Function(Package(name, ""), [], false)
  }

  /** ConvertFunc over the listed items. */
  method ConvertItems(items: seq<Key>) returns (comps: seq<Component>)
    requires ReleaseKey !in items
    ensures |comps| == |items|
    ensures forall i | 0 <= i < |items| ::
      comps[i] == FromObject(items[i]) && KeyOf(comps[i]) == items[i] && !comps[i].enabled
  {
    comps := [];
    for n := 0 to |items|
      invariant |comps| == n
      invariant forall i | 0 <= i < n ::
        comps[i] == FromObject(items[i]) && KeyOf(comps[i]) == items[i] && !comps[i].enabled
    {
      assert items[n] in items;
      comps := comps + [FromObject(items[n])];
    }
  }

  predicate SameKind(a: Component, b: Component) {
    match a
    case Crossplane(_, _, _, _, _) => b.Crossplane?
    case Secret(_, _, _) => b.Secret?
    case PlatformSecret(_, _, _) => b.PlatformSecret?
    case ConfigMap(_, _, _) => b.ConfigMap?
    case RuntimeConfig(_, _, _, _) => b.RuntimeConfig?
    case Provider(_, _, _) => b.Provider?
    case Function(_, _, _) => b.Function?
  }

  /** SameFunc: only ever called within one kind. */
  predicate Same(configured: Component, detected: Component)
    requires !configured.Crossplane? && SameKind(configured, detected)
  {
    match configured
    case Secret(_, target, _) => target == detected.target
    case PlatformSecret(_, target, _) => target == detected.target
    case ConfigMap(_, target, _) => target == detected.target
    case RuntimeConfig(name, _, _, _) => name == detected.name
    case Provider(config, _, _) => config.name == detected.config.name
    case Function(config, _, _) => config.name == detected.config.name
  }

  /** The object a component builds, found again as an orphan, is the same component as far as
      identity, SameFunc and the condition name go, and it is not enabled. */
  lemma OrphanRoundTrip(c: Component, configured: Component)
    requires !c.Crossplane? && SameKind(configured, c)
    ensures var orphan := FromObject(KeyOf(c));
      && SameKind(c, orphan) && KeyOf(orphan) == KeyOf(c) && GetName(orphan) == GetName(c) && !orphan.enabled
      && (Same(configured, orphan) <==> KeyOf(configured) == KeyOf(c))
      && (Same(configured, orphan) ==> GetName(configured) == GetName(orphan))
  {
  }

  // ---------------------------------------------------------------- package objects

  /** A Provider or Function object of Crossplane's package manager. */
  class PackageObject {
    const name: string
    var managedBy: string
    var package: string
    var pullIfNotPresent: bool
    var pullSecrets: seq<string>
    var runtimeConfig: Option<string>

    /** BuildObjectToReconcile: an empty object under the component's name. */
    constructor (c: Component)
      requires c.Provider? || c.Function?
      ensures name == c.config.name
    {
      name := c.config.name;
      managedBy, package, pullIfNotPresent, pullSecrets, runtimeConfig := "", "", false, [], None;
    }

    /** ReconcileObject: resolves the version and writes the object, or leaves it untouched. */
    method Reconcile(c: Component, resolve: ResolverFn) returns (ok: bool)
      requires c.Provider? || c.Function?
      modifies this
      ensures ok <==> IsInstallable(c, resolve)
      ensures ok ==>
        && package == resolve(c.config.name, c.config.version).value.dockerRef
        && runtimeConfig == Some(name)
        && pullSecrets == c.pullSecrets
        && managedBy == MANAGED_BY && pullIfNotPresent
      ensures !ok ==> unchanged(this)
    {
      var version := resolve(c.config.name, c.config.version);
      if version.Err? {
        return false;
      }
      managedBy := MANAGED_BY;
      package := version.value.dockerRef;
      pullIfNotPresent := true;
      pullSecrets := c.pullSecrets;
      runtimeConfig := Some(name);
      return true;
    }
  }
}
