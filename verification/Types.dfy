/** The values the controller reads: the Crossplane spec, the ProviderConfig allow-list, and the
    small result types its helpers return. */
module Types {

  datatype Option<+T> = None | Some(value: T)

  datatype Result<+T> = Ok(value: T) | Err(error: Error)

  /** The kinds of error the controller tells apart; message texts are not modelled. */
  datatype Error =
    | InvalidUserInput       // the spec names a version or component that is not allowed
    | PodNamespaceUnset      // POD_NAMESPACE is empty
    | SecretNameRejected     // the prefixed chart secret name could not be formed
    | NoProvidersAvailable   // providers requested, none allowed
    | NoFunctionsAvailable   // functions requested, none allowed

  datatype NamespacedName = NamespacedName(namespace: string, name: string)

  /** A provider or a function requested by the user. */
  datatype Package = Package(name: string, version: string)

  /** `None` is a nil list and `Some([])` an empty one: the planner tells them apart. */
  datatype Spec = Spec(version: string, providers: Option<seq<Package>>, functions: Option<seq<Package>>)

  /** Secret references are names; the empty name means "no secret". */
  datatype Image = Image(url: string, secret: string)

  datatype CrossplaneVersion = CrossplaneVersion(version: string, chartUrl: string, chartSecret: string, image: Option<Image>)

  datatype Available = Available(name: string, versions: seq<string>, package: string)

  datatype CABundle = CABundle(name: string, key: string)

  datatype ProviderConfig = ProviderConfig(
    versions: seq<CrossplaneVersion>,
    providers: seq<Available>,
    providerSecrets: seq<string>,
    functions: seq<Available>,
    functionSecrets: seq<string>,
    caBundle: Option<CABundle>)

  /** A list that may be nil, read the way Go's `len` and `range` read it. */
  function Items<T>(list: Option<seq<T>>): seq<T> {
    if list.Some? then list.value else []
  }
}
