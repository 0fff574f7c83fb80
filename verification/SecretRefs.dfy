/** The two ways the controller removes duplicate secrets: by name over references
    (deduplicateSecretRefs) and by target over components (appendDistinct). */
module SecretRefs {
  import opened Types
  import opened Components

  // ---------------------------------------------------------------- by name

  /** The non-empty names of a list, first occurrences only, in order. */
  function Dedup(refs: seq<string>): seq<string> {
    if refs == [] then []
    else
      var init, last := Dedup(refs[..|refs| - 1]), refs[|refs| - 1];
      if last == "" || last in init then init else init + [last]
  }

  method DeduplicateSecretRefs(refs: seq<string>) returns (result: seq<string>)
    ensures result == Dedup(refs)
  {
    var seen: map<string, bool> := map[];
    result := [];
    for i := 0 to |refs|
      invariant result == Dedup(refs[..i])
      invariant forall name :: (name in seen && seen[name]) <==> name in result
    {
      assert refs[..i + 1][..i] == refs[..i];
      if refs[i] != "" && !(refs[i] in seen && seen[refs[i]]) {
        seen := seen[refs[i] := true];
        result := result + [refs[i]];
      }
    }
    assert refs[..|refs|] == refs;
  }

  /** Nothing lost, nothing empty, nothing twice. */
  lemma {:induction false} DedupContents(refs: seq<string>)
    ensures forall name :: name in Dedup(refs) <==> name in refs && name != ""
    ensures forall i, j | 0 <= i < j < |Dedup(refs)| :: Dedup(refs)[i] != Dedup(refs)[j]
  {
    if refs != [] {
      var init, last := refs[..|refs| - 1], refs[|refs| - 1];
      DedupContents(init);
      assert refs == init + [last];
    }
  }

  function FirstIndex(refs: seq<string>, name: string): (i: nat)
    requires name in refs
    ensures i < |refs| && refs[i] == name
    ensures forall k | 0 <= k < i :: refs[k] != name
  {
    if refs[0] == name then 0 else
      assert refs == [refs[0]] + refs[1..];
      FirstIndex(refs[1..], name) + 1
  }

  /** The survivors stand in the order of their first occurrences. */
  lemma {:induction false} DedupOrder(refs: seq<string>, i: nat, j: nat)
    requires i < j < |Dedup(refs)|
    ensures Dedup(refs)[i] in refs && Dedup(refs)[j] in refs
    ensures FirstIndex(refs, Dedup(refs)[i]) < FirstIndex(refs, Dedup(refs)[j])
  {
    DedupContents(refs);
    var init := refs[..|refs| - 1];
    DedupContents(init);
    if j < |Dedup(init)| {
      DedupOrder(init, i, j);
      FirstIndexPrefix(refs, Dedup(refs)[i]);
      FirstIndexPrefix(refs, Dedup(refs)[j]);
    } else {
      FirstIndexPrefix(refs, Dedup(refs)[i]);
      assert Dedup(refs)[j] == refs[|refs| - 1] && refs[|refs| - 1] !in init;
      assert forall k | 0 <= k < |init| :: refs[k] == init[k] && init[k] in init;
    }
  }

  lemma FirstIndexPrefix(refs: seq<string>, name: string)
    requires refs != [] && name in refs[..|refs| - 1]
    ensures name in refs && FirstIndex(refs, name) == FirstIndex(refs[..|refs| - 1], name)
  {
    var init := refs[..|refs| - 1];
    var k := FirstIndex(init, name);
    assert refs[k] == name;
    assert forall i | 0 <= i < k :: refs[i] == init[i];
  }

  // ---------------------------------------------------------------- by target

  function GetComponentKey(c: Component): string {
    match c
    case Secret(_, target, _) => target.namespace + "/" + target.name
    case PlatformSecret(_, target, _) => target.namespace + "/" + target.name
    case _ => GetName(c)
  }

  function FirstSlash(s: string): nat {
    if s == "" || s[0] == '/' then 0 else 1 + FirstSlash(s[1..])
  }

  lemma {:induction false} FirstSlashBehind(namespace: string, name: string)
    requires '/' !in namespace
    ensures FirstSlash(namespace + "/" + name) == |namespace|
  {
    if namespace != "" {
      FirstSlashBehind(namespace[1..], name);
      assert (namespace + "/" + name)[1..] == namespace[1..] + "/" + name;
    }
  }

  /** Two secrets have the same key exactly when they have the same target; no namespace has a slash. */
  lemma KeyIsTarget(a: Component, b: Component)
    requires (a.Secret? || a.PlatformSecret?) && (b.Secret? || b.PlatformSecret?)
    requires '/' !in a.target.namespace && '/' !in b.target.namespace
    ensures GetComponentKey(a) == GetComponentKey(b) <==> a.target == b.target
  {
    var s, t := a.target.namespace, b.target.namespace;
    var x, y := s + "/" + a.target.name, t + "/" + b.target.name;
    FirstSlashBehind(s, a.target.name);
    FirstSlashBehind(t, b.target.name);
    assert s == x[..|s|] && t == y[..|t|];
    assert a.target.name == x[|s| + 1..] && b.target.name == y[|t| + 1..];
  }

  predicate HasComponentKey(slice: seq<Component>, key: string) {
    exists i | 0 <= i < |slice| :: GetComponentKey(slice[i]) == key
  }

  function Distinct(slice: seq<Component>, elems: seq<Component>): seq<Component> {
    if elems == [] then slice
    else
      var init, last := Distinct(slice, elems[..|elems| - 1]), elems[|elems| - 1];
      if HasComponentKey(init, GetComponentKey(last)) then init else init + [last]
  }

  method AppendDistinct(slice: seq<Component>, elems: seq<Component>) returns (result: seq<Component>)
    ensures result == Distinct(slice, elems)
  {
    result := slice;
    for i := 0 to |elems|
      invariant result == Distinct(slice, elems[..i])
    {
      assert elems[..i + 1][..i] == elems[..i];
      var found := false;
      for j := 0 to |result|
        invariant !found
        invariant forall k | 0 <= k < j :: GetComponentKey(result[k]) != GetComponentKey(elems[i])
      {
        if GetComponentKey(result[j]) == GetComponentKey(elems[i]) {
          found := true;
          break;
        }
      }
      assert found <==> HasComponentKey(result, GetComponentKey(elems[i]));
      if !found {
        result := result + [elems[i]];
      }
    }
    assert elems[..|elems|] == elems;
  }

  /** One Secret component per non-empty reference, in order. */
  function SecretComponents(refs: seq<string>, podNs: string, enabled: bool): seq<Component> {
    if refs == [] then []
    else
      var init, last := SecretComponents(refs[..|refs| - 1], podNs, enabled), refs[|refs| - 1];
      if last == "" then init else init + [SecretFor(last, podNs, enabled)]
  }

  function SecretFor(name: string, podNs: string, enabled: bool): Component {
    Secret(NamespacedName(podNs, name), NamespacedName(CROSSPLANE_NAMESPACE, name), enabled)
  }

  method BuildSecretsComponents(refs: seq<string>, podNs: string, enabled: bool) returns (secrets: seq<Component>)
    ensures secrets == SecretComponents(refs, podNs, enabled)
  {
    secrets := [];
    for i := 0 to |refs|
      invariant secrets == SecretComponents(refs[..i], podNs, enabled)
    {
      assert refs[..i + 1][..i] == refs[..i];
      if refs[i] == "" {
        continue;
      }
      secrets := secrets + [SecretFor(refs[i], podNs, enabled)];
    }
    assert refs[..|refs|] == refs;
  }

  /** Secrets with different names have different keys. */
  lemma SecretKeyInjective(a: string, b: string, podNs: string, enabled: bool)
    ensures GetComponentKey(SecretFor(a, podNs, enabled)) == GetComponentKey(SecretFor(b, podNs, enabled)) <==> a == b
  {
    var prefix := CROSSPLANE_NAMESPACE + "/";
    assert (prefix + a)[|prefix|..] == a;
    assert (prefix + b)[|prefix|..] == b;
  }

  /** On non-empty references the components are the images of the names. */
  lemma {:induction false} SecretComponentsPointwise(refs: seq<string>, podNs: string, enabled: bool)
    requires "" !in refs
    ensures var comps := SecretComponents(refs, podNs, enabled);
      |comps| == |refs| && forall i | 0 <= i < |refs| :: comps[i] == SecretFor(refs[i], podNs, enabled)
  {
    if refs != [] {
      assert refs[|refs| - 1] in refs;
      SecretComponentsPointwise(refs[..|refs| - 1], podNs, enabled);
    }
  }

  /** One more name: its component has a new key exactly when the name is new. */
  lemma DistinctStep(names: seq<string>, last: string, podNs: string, enabled: bool)
    requires "" !in names
    ensures HasComponentKey(SecretComponents(names, podNs, enabled), GetComponentKey(SecretFor(last, podNs, enabled)))
            <==> last in names
  {
    var comps := SecretComponents(names, podNs, enabled);
    SecretComponentsPointwise(names, podNs, enabled);
    forall i | 0 <= i < |names|
      ensures GetComponentKey(comps[i]) == GetComponentKey(SecretFor(last, podNs, enabled)) <==> names[i] == last
    {
      SecretKeyInjective(names[i], last, podNs, enabled);
    }
  }

  lemma SecretComponentsSnoc(init: seq<string>, last: string, podNs: string, enabled: bool)
    requires last != ""
    ensures SecretComponents(init + [last], podNs, enabled)
         == SecretComponents(init, podNs, enabled) + [SecretFor(last, podNs, enabled)]
  {
    assert (init + [last])[..|init|] == init;
  }

  lemma DistinctSnoc(slice: seq<Component>, init: seq<Component>, last: Component)
    ensures Distinct(slice, init + [last]) ==
      var d := Distinct(slice, init);
      if HasComponentKey(d, GetComponentKey(last)) then d else d + [last]
  {
    assert (init + [last])[..|init|] == init;
  }

  lemma DedupSnoc(init: seq<string>, last: string)
    ensures Dedup(init + [last]) == if last == "" || last in Dedup(init) then Dedup(init) else Dedup(init) + [last]
  {
    assert (init + [last])[..|init|] == init;
  }

  /** Appending secrets by target to the secrets of deduplicated names deduplicates the names. */
  lemma {:induction false} DistinctIsDedup(a: seq<string>, b: seq<string>, podNs: string, enabled: bool)
    ensures Distinct(SecretComponents(Dedup(a), podNs, enabled), SecretComponents(b, podNs, enabled))
         == SecretComponents(Dedup(a + b), podNs, enabled)
  {
    hide Distinct, SecretComponents, Dedup;
    if b == [] {
      DistinctOfNone(SecretComponents(Dedup(a), podNs, enabled), podNs, enabled);
      assert a + b == a;
    } else {
      var init, last := b[..|b| - 1], b[|b| - 1];
      DistinctIsDedup(a, init, podNs, enabled);
      DistinctIsDedupSnoc(a, init, last, podNs, enabled);
      assert b == init + [last] && a + b == a + init + [last];
    }
  }

  lemma DistinctOfNone(slice: seq<Component>, podNs: string, enabled: bool)
    ensures Distinct(slice, SecretComponents([], podNs, enabled)) == slice
  {
  }

  lemma DistinctIsDedupSnoc(a: seq<string>, init: seq<string>, last: string, podNs: string, enabled: bool)
    requires Distinct(SecretComponents(Dedup(a), podNs, enabled), SecretComponents(init, podNs, enabled))
          == SecretComponents(Dedup(a + init), podNs, enabled)
    ensures Distinct(SecretComponents(Dedup(a), podNs, enabled), SecretComponents(init + [last], podNs, enabled))
         == SecretComponents(Dedup(a + init + [last]), podNs, enabled)
  {
    var names, secret := Dedup(a + init), SecretFor(last, podNs, enabled);
    DedupSnoc(a + init, last);
    if last == "" {
      assert (init + [last])[..|init|] == init;
    } else {
      hide Distinct, SecretComponents, Dedup, HasComponentKey;
      DedupContents(a + init);
      DistinctStep(names, last, podNs, enabled);
      SecretComponentsSnoc(init, last, podNs, enabled);
      SecretComponentsSnoc(names, last, podNs, enabled);
      DistinctSnoc(SecretComponents(Dedup(a), podNs, enabled), SecretComponents(init, podNs, enabled), secret);
    }
  }

  /** Three successive appends by target equal one deduplication of the concatenated names. */
  lemma ThreeAppendsDeduplicate(a: seq<string>, b: seq<string>, c: seq<string>, podNs: string, enabled: bool)
    ensures var s := (refs: seq<string>) => SecretComponents(refs, podNs, enabled);
      Distinct(Distinct(Distinct([], s(a)), s(b)), s(c)) == s(Dedup(a + b + c))
  {
    DistinctIsDedup([], a, podNs, enabled);
    assert [] + a == a;
    DistinctIsDedup(a, b, podNs, enabled);
    DistinctIsDedup(a + b, c, podNs, enabled);
  }
}
