/**
 * `get_provider`, `get_user_provider` and `get_client_provider`
 * (app/auth/factory.py): a provider name or one of its aliases selects a
 * provider class, and one instance per class is kept in the module-level
 * `_provider_cache` and handed out on every later lookup.
 */
module AuthFactory {
  import opened Text

  datatype ProviderKind = Azure | Cognito

  /** A provider instance; what it does with tokens is not part of this model. */
  class Provider {
    const kind: ProviderKind

    constructor(kind: ProviderKind)
      ensures this.kind == kind
    {
      this.kind := kind;
    }
  }

  /** `(name or "").lower()`. */
  function NormalName(name: Option<string>): string {
    match name
    case None => ""
    case Some(n) => Lower(n)
  }

  /** The cache slot a normalised name selects: azure and entra share one, cognito and aws_cognito the other. */
  function CacheKeyOf(name: string): Option<string> {
    if name == "azure" || name == "entra" then Some("azure")
    else if name == "cognito" || name == "aws_cognito" then Some("cognito")
    else None
  }

  /** The provider class behind a cache slot. */
  function KindOfKey(key: string): ProviderKind {
    if key == "azure" then Azure else Cognito
  }

  /** The message of the ValueError for a name no provider answers to. */
  function UnknownProvider(name: Option<string>): string {
    "Unknown auth provider: " + NormalName(name)
  }

  /** The slots are the two canonical names, and a canonical name selects its own slot. */
  lemma CacheKeysCanonical(name: string)
    ensures CacheKeyOf(name).Some? ==> CacheKeyOf(name).value in {"azure", "cognito"}
    ensures CacheKeyOf(name).Some? ==> CacheKeyOf(CacheKeyOf(name).value) == CacheKeyOf(name)
  {
  }

  /**
   * The auth settings a lookup reads: the two provider names, and the
   * settings each provider's constructor needs.
   */
  datatype AuthSettings = AuthSettings(
    userProvider: Option<string>,
    clientProvider: Option<string>,
    azureAuthority: Option<string>,
    cognitoUserPoolId: Option<string>,
    cognitoRegion: Option<string>)

  /** A setting Python finds truthy: set and not empty. */
  predicate Filled(v: Option<string>) {
    v.Some? && v.value != ""
  }

  /** The RuntimeError a provider's constructor raises when its settings are missing, if any. */
  function ConstructionError(settings: AuthSettings, kind: ProviderKind): Option<string> {
    match kind
    case Azure =>
      if Filled(settings.azureAuthority) then None else Some("AZURE_AUTHORITY not configured")
    case Cognito =>
      if Filled(settings.cognitoUserPoolId) && Filled(settings.cognitoRegion) then None
      else Some("Cognito config missing")
  }

  /** Why `get_provider(name)` raises under these settings, if it does. */
  function LookupError(settings: AuthSettings, name: Option<string>): Option<string> {
    match CacheKeyOf(NormalName(name))
    case None => Some(UnknownProvider(name))
    case Some(key) => ConstructionError(settings, KindOfKey(key))
  }

  /** A name's case does not matter: spellings equal up to case select the same slot and fail alike. */
  lemma CaseDoesNotMatter(settings: AuthSettings, a: string, b: string)
    requires Lower(a) == Lower(b)
    ensures CacheKeyOf(NormalName(Some(a))) == CacheKeyOf(NormalName(Some(b)))
    ensures LookupError(settings, Some(a)) == LookupError(settings, Some(b))
  {
  }

  /** `_provider_cache`, with the settings the module reads. */
  class ProviderRegistry {
    const settings: AuthSettings
    var cache: map<string, Provider>

    /**
     * Only the two canonical slots are ever filled, each with an instance
     * of its own class, whose constructor succeeded under the settings.
     */
    ghost predicate Valid()
      reads this
    {
      && cache.Keys <= {"azure", "cognito"}
      && forall k :: k in cache ==> cache[k].kind == KindOfKey(k) && ConstructionError(settings, KindOfKey(k)).None?
    }

    constructor(settings: AuthSettings)
      ensures Valid() && cache == map[] && this.settings == settings
    {
      this.settings := settings;
      cache := map[];
    }

    /**
     * `get_provider(name)`: the cached instance of the selected class,
     * created on the first lookup. An unknown name, or a provider whose
     * constructor raises, raises and leaves the cache alone.
     */
    method GetProvider(name: Option<string>) returns (r: Result<Provider, string>)
      requires Valid()
      modifies this
      ensures Valid()
      ensures r.Err? <==> LookupError(settings, name).Some?
      ensures r.Err? ==> r.error == LookupError(settings, name).value && cache == old(cache)
      ensures r.Ok? ==>
        var key := CacheKeyOf(NormalName(name)).value;
        && key in cache && r.value == cache[key] && r.value.kind == KindOfKey(key)
        && (key in old(cache) ==> cache == old(cache))
        && (key !in old(cache) ==> fresh(r.value) && cache == old(cache)[key := r.value])
    {
      var n := NormalName(name);
      if n == "azure" || n == "entra" {
        if "azure" !in cache {
          if !Filled(settings.azureAuthority) {
            return Err("AZURE_AUTHORITY not configured");
          }
          var p := new Provider(Azure);
          cache := cache["azure" := p];
        }
        return Ok(cache["azure"]);
      }
      if n == "cognito" || n == "aws_cognito" {
        if "cognito" !in cache {
          if !Filled(settings.cognitoUserPoolId) || !Filled(settings.cognitoRegion) {
            return Err("Cognito config missing");
          }
          var p := new Provider(Cognito);
          cache := cache["cognito" := p];
        }
        return Ok(cache["cognito"]);
      }
      return Err(UnknownProvider(name));
    }

    /** `get_user_provider()`: the provider `AUTH_USER_PROVIDER` names. */
    method GetUserProvider() returns (r: Result<Provider, string>)
      requires Valid()
      modifies this
      ensures Valid()
      ensures r.Err? <==> LookupError(settings, settings.userProvider).Some?
      ensures r.Err? ==> r.error == LookupError(settings, settings.userProvider).value && cache == old(cache)
      ensures r.Ok? ==> r.value.kind == KindOfKey(CacheKeyOf(NormalName(settings.userProvider)).value)
    {
      r := GetProvider(settings.userProvider);
    }

    /** `get_client_provider()`: the provider `AUTH_CLIENT_PROVIDER` names. */
    method GetClientProvider() returns (r: Result<Provider, string>)
      requires Valid()
      modifies this
      ensures Valid()
      ensures r.Err? <==> LookupError(settings, settings.clientProvider).Some?
      ensures r.Err? ==> r.error == LookupError(settings, settings.clientProvider).value && cache == old(cache)
      ensures r.Ok? ==> r.value.kind == KindOfKey(CacheKeyOf(NormalName(settings.clientProvider)).value)
    {
      r := GetProvider(settings.clientProvider);
    }

    /**
     * Two lookups of names that select the same slot both fail, with the
     * same error, or both hand out the same instance.
     */
    method LookupTwice(a: Option<string>, b: Option<string>) returns (first: Result<Provider, string>, second: Result<Provider, string>)
      requires Valid()
      requires CacheKeyOf(NormalName(a)) == CacheKeyOf(NormalName(b))
      modifies this
      ensures Valid()
      ensures first.Ok? <==> LookupError(settings, a).None?
      ensures first.Ok? <==> second.Ok?
      ensures first.Ok? ==> first.value == second.value
      ensures CacheKeyOf(NormalName(a)).Some? && first.Err? ==> first == second
    {
      first := GetProvider(a);
      second := GetProvider(b);
    }
  }
}
