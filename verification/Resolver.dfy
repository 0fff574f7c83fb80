/** The version resolver (GetResolverFunc) and its tolerant variant used during deletion. */
module Resolver {
  import opened Types

  datatype ComponentVersion = ComponentVersion(ociUrl: string, dockerRef: string, version: string)

  type ResolverFn = (string, string) -> Result<ComponentVersion>

  const CROSSPLANE_RELEASE := "crossplane"
  const PLACEHOLDER := "placeholder:deletion"

  /** Strips one leading 'v'. */
  function NormalizeVersion(version: string): string {
    if |version| > 0 && version[0] == 'v' then version[1..] else version
  }

  /** Two versions are the same up to 'v' exactly when they are equal or one is the other, which starts
      with no 'v' itself, behind a 'v'. */
  lemma SameUpToV(a: string, b: string)
    ensures NormalizeVersion(a) == NormalizeVersion(b) <==>
      || a == b
      || (a == "v" + b && (b == "" || b[0] != 'v'))
      || (b == "v" + a && (a == "" || a[0] != 'v'))
  {
    if |a| > 0 && a[0] == 'v' {
      assert a == "v" + a[1..];
    }
    if |b| > 0 && b[0] == 'v' {
      assert b == "v" + b[1..];
    }
  }

  // ---------------------------------------------------------------- what the resolver computes

  /** Index of the first configured Crossplane version equal to `version`. */
  function FindCrossplane(versions: seq<CrossplaneVersion>, version: string): Option<nat> {
    if versions == [] then None
    else if versions[0].version == version then Some(0)
    else
      match FindCrossplane(versions[1..], version)
      case Some(i) => Some(i + 1)
      case None => None
  }

  /** Index of the first version equal to `version` up to a leading 'v'. */
  function FindVersion(versions: seq<string>, version: string): Option<nat> {
    if versions == [] then None
    else if NormalizeVersion(versions[0]) == NormalizeVersion(version) then Some(0)
    else
      match FindVersion(versions[1..], version)
      case Some(j) => Some(j + 1)
      case None => None
  }

  /** Entry and version index of the first match in an allow-list. */
  function FindPackage(entries: seq<Available>, name: string, version: string): Option<(nat, nat)> {
    if entries == [] then None
    else
      var here := if entries[0].name == name then FindVersion(entries[0].versions, version) else None;
      if here.Some? then Some((0, here.value))
      else
        match FindPackage(entries[1..], name, version)
        case Some(p) => Some((p.0 + 1, p.1))
        case None => None
  }

  /** Some entry of this name offers at least one version, whichever it is. */
  predicate Offered(entries: seq<Available>, name: string) {
    exists i | 0 <= i < |entries| :: entries[i].name == name && entries[i].versions != []
  }

  lemma {:induction false} FindCrossplaneBounds(versions: seq<CrossplaneVersion>, version: string)
    ensures var r := FindCrossplane(versions, version);
      if r.Some? then
        && r.value < |versions|
        && versions[r.value].version == version
        && forall k | 0 <= k < r.value :: versions[k].version != version
      else forall k | 0 <= k < |versions| :: versions[k].version != version
  {
    if versions != [] && versions[0].version != version {
      FindCrossplaneBounds(versions[1..], version);
      assert forall k | 1 <= k < |versions| :: versions[k] == versions[1..][k - 1];
    }
  }

  lemma {:induction false} FindVersionBounds(versions: seq<string>, version: string)
    ensures var r := FindVersion(versions, version);
      if r.Some? then
        && r.value < |versions|
        && NormalizeVersion(versions[r.value]) == NormalizeVersion(version)
        && forall k | 0 <= k < r.value :: NormalizeVersion(versions[k]) != NormalizeVersion(version)
      else forall k | 0 <= k < |versions| :: NormalizeVersion(versions[k]) != NormalizeVersion(version)
  {
    if versions != [] && NormalizeVersion(versions[0]) != NormalizeVersion(version) {
      FindVersionBounds(versions[1..], version);
      assert forall k | 1 <= k < |versions| :: versions[k] == versions[1..][k - 1];
    }
  }

  /** Position (i, j) of an allow-list names the component in a version equal up to 'v'. */
  ghost predicate Match(entries: seq<Available>, name: string, version: string, i: nat, j: nat) {
    && i < |entries| && j < |entries[i].versions|
    && entries[i].name == name
    && NormalizeVersion(entries[i].versions[j]) == NormalizeVersion(version)
  }

  /** The lexicographically first matching position. */
  ghost predicate FirstMatch(entries: seq<Available>, name: string, version: string, i: nat, j: nat) {
    && Match(entries, name, version, i, j)
    && forall i': nat, j': nat | Match(entries, name, version, i', j') :: i < i' || (i == i' && j <= j')
  }

  lemma {:induction false} FindPackageIsFirst(entries: seq<Available>, name: string, version: string)
    ensures var r := FindPackage(entries, name, version);
      if r.Some? then FirstMatch(entries, name, version, r.value.0, r.value.1)
      else forall i: nat, j: nat :: !Match(entries, name, version, i, j)
  {
    if entries != [] {
      FindVersionBounds(entries[0].versions, version);
      FindPackageIsFirst(entries[1..], name, version);
      forall i: nat, j: nat | Match(entries, name, version, i, j) && i > 0
        ensures Match(entries[1..], name, version, i - 1, j)
      {
      }
      var r := FindPackage(entries[1..], name, version);
      if r.Some? {
        assert Match(entries, name, version, r.value.0 + 1, r.value.1);
      }
    }
  }

  function PackageVersion(entries: seq<Available>, p: (nat, nat)): ComponentVersion
    requires p.0 < |entries| && p.1 < |entries[p.0].versions|
  {
    var version := entries[p.0].versions[p.1];
    ComponentVersion("", entries[p.0].package + ":" + version, version)
  }

  function CrossplaneRef(v: CrossplaneVersion): ComponentVersion {
    ComponentVersion(v.chartUrl, if v.image.Some? then v.image.value.url else "", v.version)
  }

  /** What the resolver closure returns for a component name and a version. */
  function Resolve(pc: ProviderConfig, name: string, version: string): Result<ComponentVersion> {
    if name == CROSSPLANE_RELEASE then
      var i := FindCrossplane(pc.versions, version);
      FindCrossplaneBounds(pc.versions, version);
      if i.Some? then Ok(CrossplaneRef(pc.versions[i.value])) else Err(InvalidUserInput)
    else
      var p := FindPackage(pc.providers, name, version);
      FindPackageIsFirst(pc.providers, name, version);
      if p.Some? then Ok(PackageVersion(pc.providers, p.value))
      else if Offered(pc.providers, name) then Err(InvalidUserInput)
      else
        var f := FindPackage(pc.functions, name, version);
        FindPackageIsFirst(pc.functions, name, version);
        if f.Some? then Ok(PackageVersion(pc.functions, f.value)) else Err(InvalidUserInput)
  }

  function StrictResolver(pc: ProviderConfig): ResolverFn {
    (name, version) => Resolve(pc, name, version)
  }

  function TolerantResolver(fn: ResolverFn): ResolverFn {
    (name: string, version: string) =>
      match fn(name, version)
      case Ok(v) => Ok(v)
      case Err(_) => Ok(ComponentVersion(PLACEHOLDER, PLACEHOLDER, version))
  }

  // ---------------------------------------------------------------- the loops of the source

  /** The search in one allow-list: the first match, and the versions collected for the error text. */
  method SearchPackages(entries: seq<Available>, name: string, version: string)
    returns (found: Option<ComponentVersion>, collected: seq<string>)
    ensures found == (
      var p := FindPackage(entries, name, version);
      FindPackageIsFirst(entries, name, version);
      if p.Some? then Some(PackageVersion(entries, p.value)) else None)
    ensures found.None? ==> (|collected| > 0 <==> Offered(entries, name))
  {
    collected := [];
    FindPackageIsFirst(entries, name, version);
    for i := 0 to |entries|
      invariant forall i': nat, j': nat | i' < i :: !Match(entries, name, version, i', j')
      invariant |collected| > 0 <==> exists k | 0 <= k < i :: entries[k].name == name && entries[k].versions != []
    {
      if name == entries[i].name {
        for j := 0 to |entries[i].versions|
          invariant forall i': nat, j': nat | i' < i || (i' == i && j' < j) :: !Match(entries, name, version, i', j')
        {
          var configured := entries[i].versions[j];
          if NormalizeVersion(configured) == NormalizeVersion(version) {
            assert Match(entries, name, version, i, j);
            return Some(ComponentVersion("", entries[i].package + ":" + configured, configured)), collected;
          }
        }
        collected := collected + entries[i].versions;
      }
    }
    return None, collected;
  }

  /** The resolver closure, loop by loop. */
  method ResolveByLoops(pc: ProviderConfig, name: string, version: string) returns (r: Result<ComponentVersion>)
    ensures r == Resolve(pc, name, version)
  {
    if name == CROSSPLANE_RELEASE {
      FindCrossplaneBounds(pc.versions, version);
      for i := 0 to |pc.versions|
        invariant forall k | 0 <= k < i :: pc.versions[k].version != version
      {
        var available := pc.versions[i];
        if available.version == version {
          var dockerRef := "";
          if available.image.Some? {
            dockerRef := available.image.value.url;
          }
          return Ok(ComponentVersion(available.chartUrl, dockerRef, version));
        }
      }
      return Err(InvalidUserInput);
    }
    var provider, providerVersions := SearchPackages(pc.providers, name, version);
    if provider.Some? {
      return Ok(provider.value);
    }
    if |providerVersions| > 0 {
      return Err(InvalidUserInput);
    }
    var fn, functionVersions := SearchPackages(pc.functions, name, version);
    if fn.Some? {
      return Ok(fn.value);
    }
    return Err(InvalidUserInput);
  }

  // ---------------------------------------------------------------- what it guarantees

  /** The declarative reading of the resolver: `r` is the answer for (name, version). */
  ghost predicate Answers(pc: ProviderConfig, name: string, version: string, r: Result<ComponentVersion>) {
    if name == "crossplane" then
      || (exists i | 0 <= i < |pc.versions| ::
            && pc.versions[i].version == version
            && (forall k | 0 <= k < i :: pc.versions[k].version != version)
            && r == Ok(ComponentVersion(pc.versions[i].chartUrl,
                                        if pc.versions[i].image.Some? then pc.versions[i].image.value.url else "", version)))
      || (r == Err(InvalidUserInput) && forall k | 0 <= k < |pc.versions| :: pc.versions[k].version != version)
    else
      || (exists i: nat, j: nat ::
            FirstMatch(pc.providers, name, version, i, j) && r == Ok(Reference(pc.providers[i].package, pc.providers[i].versions[j])))
      || (exists i: nat, j: nat ::
            && FirstMatch(pc.functions, name, version, i, j)
            && (forall k | 0 <= k < |pc.providers| && pc.providers[k].name == name :: pc.providers[k].versions == [])
            && r == Ok(Reference(pc.functions[i].package, pc.functions[i].versions[j])))
      || (&& r == Err(InvalidUserInput)
          && (forall i: nat, j: nat :: !Match(pc.providers, name, version, i, j))
          && ((exists k | 0 <= k < |pc.providers| :: pc.providers[k].name == name && pc.providers[k].versions != []) || forall i: nat, j: nat :: !Match(pc.functions, name, version, i, j)))
  }

  /** The image of a package in a version as the allow-list spells it. */
  function Reference(package: string, version: string): (r: ComponentVersion)
    ensures r.ociUrl == "" && r.version == version
    ensures |r.dockerRef| == |package| + 1 + |version|
    ensures package <= r.dockerRef && r.dockerRef[|package|] == ':' && r.dockerRef[|package| + 1..] == version
  {
    ComponentVersion("", package + ":" + version, version)
  }

  /** The resolver gives the declared answer, and the declared answer is unique. */
  lemma ResolveRefinesSpec(pc: ProviderConfig, name: string, version: string, r: Result<ComponentVersion>)
    ensures Answers(pc, name, version, r) <==> r == Resolve(pc, name, version)
  {
    if name == CROSSPLANE_RELEASE {
      FindCrossplaneBounds(pc.versions, version);
    } else {
      FindPackageIsFirst(pc.providers, name, version);
      FindPackageIsFirst(pc.functions, name, version);
      MatchIsOffered(pc.providers, name, version);
      FirstMatchUnique(pc.providers, name, version);
      FirstMatchUnique(pc.functions, name, version);
    }
  }

  lemma MatchIsOffered(entries: seq<Available>, name: string, version: string)
    ensures forall i: nat, j: nat :: Match(entries, name, version, i, j) ==> Offered(entries, name)
  {
    forall i: nat, j: nat | Match(entries, name, version, i, j) ensures Offered(entries, name) {
      assert entries[i].name == name && entries[i].versions != [];
    }
  }

  lemma FirstMatchUnique(entries: seq<Available>, name: string, version: string)
    ensures forall i: nat, j: nat, i': nat, j': nat ::
      FirstMatch(entries, name, version, i, j) && FirstMatch(entries, name, version, i', j') ==> i == i' && j == j'
  {
  }

  /** Two versions equal up to one leading 'v' find the same position. */
  lemma {:induction false} FindPackageNormalizes(entries: seq<Available>, name: string, v: string, v': string)
    requires NormalizeVersion(v) == NormalizeVersion(v')
    ensures FindPackage(entries, name, v) == FindPackage(entries, name, v')
  {
    if entries != [] {
      FindVersionNormalizes(entries[0].versions, v, v');
      FindPackageNormalizes(entries[1..], name, v, v');
    }
  }

  lemma {:induction false} FindVersionNormalizes(versions: seq<string>, v: string, v': string)
    requires NormalizeVersion(v) == NormalizeVersion(v')
    ensures FindVersion(versions, v) == FindVersion(versions, v')
  {
    if versions != [] {
      FindVersionNormalizes(versions[1..], v, v');
    }
  }

  /** Resolving again with the version just returned changes nothing. */
  lemma ResolveFixedPoint(pc: ProviderConfig, name: string, version: string)
    requires Resolve(pc, name, version).Ok?
    ensures Resolve(pc, name, Resolve(pc, name, version).value.version) == Resolve(pc, name, version)
  {
    if name == CROSSPLANE_RELEASE {
      FindCrossplaneBounds(pc.versions, version);
    } else {
      var configured := Resolve(pc, name, version).value.version;
      FindPackageIsFirst(pc.providers, name, version);
      FindPackageIsFirst(pc.functions, name, version);
      assert NormalizeVersion(configured) == NormalizeVersion(version);
      FindPackageNormalizes(pc.providers, name, version, configured);
      FindPackageNormalizes(pc.functions, name, version, configured);
    }
  }

  /** For packages a leading 'v' in the request is immaterial. */
  lemma ResolveIgnoresV(pc: ProviderConfig, name: string, version: string)
    requires name != CROSSPLANE_RELEASE
    requires version == "" || version[0] != 'v'
    ensures Resolve(pc, name, "v" + version) == Resolve(pc, name, version)
  {
    assert NormalizeVersion("v" + version) == version == NormalizeVersion(version);
    FindPackageNormalizes(pc.providers, name, "v" + version, version);
    FindPackageNormalizes(pc.functions, name, "v" + version, version);
  }

  ghost predicate Listed(pc: ProviderConfig, version: string) {
    exists i | 0 <= i < |pc.versions| :: pc.versions[i].version == version
  }

  /** For Crossplane itself the versions are compared as they stand: a leading 'v' is immaterial only
      when neither spelling is listed. */
  lemma CrossplaneVersionsAreExact(pc: ProviderConfig, version: string)
    ensures Resolve(pc, CROSSPLANE_RELEASE, version).Ok? <==> Listed(pc, version)
    ensures Resolve(pc, CROSSPLANE_RELEASE, "v" + version) == Resolve(pc, CROSSPLANE_RELEASE, version)
      <==> !Listed(pc, "v" + version) && !Listed(pc, version)
  {
    FindCrossplaneBounds(pc.versions, version);
    FindCrossplaneBounds(pc.versions, "v" + version);
    assert |"v" + version| != |version|;
  }

  /** The reference `v` is that of entry `a` in version `x`, as the entry spells it. */
  ghost predicate IsEntryOf(a: Available, x: string, name: string, version: string, v: ComponentVersion) {
    && a.name == name && x in a.versions
    && (x == version || x == "v" + version || version == "v" + x)
    && v == ComponentVersion("", a.package + ":" + x, x)
  }

  /** Nothing outside the allow-list is ever returned: a package resolves to an entry of its name, with
      the version as the entry spells it; Crossplane to the chart and the image of an entry. */
  lemma ResolvedIsAllowed(pc: ProviderConfig, name: string, version: string)
    requires Resolve(pc, name, version).Ok?
    ensures var v := Resolve(pc, name, version).value;
      if name == CROSSPLANE_RELEASE then
        exists i | 0 <= i < |pc.versions| ::
          && pc.versions[i].version == version == v.version
          && (forall k | 0 <= k < i :: pc.versions[k].version != version)
          && v.ociUrl == pc.versions[i].chartUrl
          && v.dockerRef == (if pc.versions[i].image.Some? then pc.versions[i].image.value.url else "")
      else
        exists a, x :: (a in pc.providers || a in pc.functions) && IsEntryOf(a, x, name, version, v)
  {
    if name == CROSSPLANE_RELEASE {
      FindCrossplaneBounds(pc.versions, version);
    } else {
      FindPackageIsFirst(pc.providers, name, version);
      FindPackageIsFirst(pc.functions, name, version);
      var p, f := FindPackage(pc.providers, name, version), FindPackage(pc.functions, name, version);
      var list := if p.Some? then pc.providers else pc.functions;
      var (i, j) := if p.Some? then p.value else f.value;
      EntryIsAllowed(list, name, version, i, j);
      assert Resolve(pc, name, version).value == PackageVersion(list, (i, j));
      assert IsEntryOf(list[i], list[i].versions[j], name, version, Resolve(pc, name, version).value);
    }
  }

  lemma EntryIsAllowed(entries: seq<Available>, name: string, version: string, i: nat, j: nat)
    requires Match(entries, name, version, i, j)
    ensures entries[i] in entries
    ensures IsEntryOf(entries[i], entries[i].versions[j], name, version, PackageVersion(entries, (i, j)))
  {
    SameUpToV(entries[i].versions[j], version);
  }

  /** A deleted allow-list entry never blocks a teardown: the tolerant resolver always answers, and
      agrees with the strict one wherever that one does. */
  lemma TolerantIsTotalExtension(pc: ProviderConfig, name: string, version: string)
    ensures var strict := StrictResolver(pc)(name, version);
      var tolerant := TolerantResolver(StrictResolver(pc))(name, version);
      && tolerant.Ok?
      && (strict.Ok? ==> tolerant == strict)
      && (strict.Err? ==> tolerant.value == ComponentVersion("placeholder:deletion", "placeholder:deletion", version))
      && (tolerant != strict ==> forall r: Result<ComponentVersion> | r.Ok? :: !Answers(pc, name, version, r))
  {
    forall r: Result<ComponentVersion> | r.Ok?
      ensures Answers(pc, name, version, r) ==> StrictResolver(pc)(name, version).Ok?
    {
      ResolveRefinesSpec(pc, name, version, r);
    }
  }
}
