/**
 * `validate_bearer_token` (app/auth/validate.py): up to four validation
 * attempts in a fixed order; the first one that does not raise decides.
 * What a provider's own validator does with the token (signatures, key
 * sets, the network) is not modelled: the answer each attempt's call gives
 * is an input. The one call whose answer the code fixes is Cognito's
 * client check, which CognitoProvider inherits from BaseAuthProvider
 * (app/auth/providers.py:25-27): it returns the `NotImplementedError`
 * class instead of raising.
 */
module AuthValidate {
  import opened Text
  import opened AuthFactory

  datatype TokenType = User | Client

  type Claims = seq<(string, string)>

  /** What a validator call returned: a claims dictionary, or the `NotImplementedError` class itself. */
  datatype Returned = ClaimsDict(claims: Claims) | NotImplementedErrorClass

  /** `{"provider": ..., "type": ..., "claims": ...}`. */
  datatype Validation = Validation(provider: string, tokenType: TokenType, claims: Returned)

  /** What a provider's own validator does with the token: return claims, or raise. */
  datatype Answer = Accepted(claims: Claims) | Rejected(error: string)

  /**
   * Why the function raises: a provider lookup outside any `try` (an
   * unknown name, or a provider constructor's RuntimeError), or the final 401.
   */
  datatype Failure = LookupFailed(error: string) | Unauthorized(status: nat, detail: string)

  /** The attempts in order: the tag each one reports and the kind of token it tries. */
  const ATTEMPTS: seq<(string, TokenType)> := [("azure", User), ("azure", Client), ("cognito", User), ("cognito", Client)]

  const UNAUTHORIZED := Unauthorized(401, "Invalid or unsupported Bearer token")

  /** The setting the getter of an attempt reads. */
  function ProviderSetting(settings: AuthSettings, t: TokenType): Option<string> {
    match t
    case User => settings.userProvider
    case Client => settings.clientProvider
  }

  /** The class of the provider the getter for `t` hands out, when its lookup succeeds. */
  function AttemptKind(settings: AuthSettings, t: TokenType): ProviderKind
    requires LookupError(settings, ProviderSetting(settings, t)).None?
  {
    KindOfKey(CacheKeyOf(NormalName(ProviderSetting(settings, t))).value)
  }

  /**
   * The call is BaseAuthProvider's `validate_client_token`: a client
   * attempt on a Cognito provider, which does not define its own.
   */
  predicate InheritedClientCheck(settings: AuthSettings, t: TokenType)
    requires LookupError(settings, ProviderSetting(settings, t)).None?
  {
    t == Client && AttemptKind(settings, t) == Cognito
  }

  /**
   * The outcome from attempt i on. A failed lookup in the first two
   * attempts propagates; in the last two it is caught like a rejection.
   * The inherited client check returns, so its attempt succeeds.
   */
  function AttemptsFrom(settings: AuthSettings, answers: seq<Answer>, i: nat): Result<Validation, Failure>
    requires |answers| == |ATTEMPTS|
    decreases |ATTEMPTS| - i
  {
    if i >= |ATTEMPTS| then Err(UNAUTHORIZED)
    else
      var (tag, t) := ATTEMPTS[i];
      var lookup := LookupError(settings, ProviderSetting(settings, t));
      if lookup.Some? then
        if i < 2 then Err(LookupFailed(lookup.value)) else AttemptsFrom(settings, answers, i + 1)
      else if InheritedClientCheck(settings, t) then Ok(Validation(tag, t, NotImplementedErrorClass))
      else if answers[i].Accepted? then Ok(Validation(tag, t, ClaimsDict(answers[i].claims)))
      else AttemptsFrom(settings, answers, i + 1)
  }

  /** The function's outcome: all four attempts from the first. */
  function ValidateSpec(settings: AuthSettings, answers: seq<Answer>): Result<Validation, Failure>
    requires |answers| == |ATTEMPTS|
  {
    AttemptsFrom(settings, answers, 0)
  }

  /**
   * `validate_bearer_token(token)`, where `answers[i]` is what the
   * validator call of attempt i gives. Lookups may fill the provider cache.
   */
  method ValidateBearerToken(registry: ProviderRegistry, answers: seq<Answer>)
    returns (r: Result<Validation, Failure>)
    requires |answers| == |ATTEMPTS|
    requires registry.Valid()
    modifies registry
    ensures registry.Valid()
    ensures r == ValidateSpec(registry.settings, answers)
  {
    var i := 0;
    while i < |ATTEMPTS|
      invariant 0 <= i <= |ATTEMPTS|
      invariant registry.Valid()
      invariant AttemptsFrom(registry.settings, answers, i) == ValidateSpec(registry.settings, answers)
      decreases |ATTEMPTS| - i
    {
      var (tag, t) := ATTEMPTS[i];
      var provider;
      if t == User {
        provider := registry.GetUserProvider();
      } else {
        provider := registry.GetClientProvider();
      }
      if provider.Err? {
        if i < 2 {
          return Err(LookupFailed(provider.error));
        }
      } else if t == Client && provider.value.kind == Cognito {
        return Ok(Validation(tag, t, NotImplementedErrorClass));
      } else if answers[i].Accepted? {
        return Ok(Validation(tag, t, ClaimsDict(answers[i].claims)));
      }
      i := i + 1;
    }
    return Err(UNAUTHORIZED);
  }

  // ---------- properties ----------

  /**
   * A success is one attempt's: either its validator accepted, and the
   * result carries the attempt's tag and token type with the claims
   * unchanged, or the call was the inherited client check.
   */
  lemma {:induction false} SuccessIsAnAttempt(settings: AuthSettings, answers: seq<Answer>, i: nat)
    requires |answers| == |ATTEMPTS|
    requires AttemptsFrom(settings, answers, i).Ok?
    ensures exists j :: (i <= j < |ATTEMPTS| && LookupError(settings, ProviderSetting(settings, ATTEMPTS[j].1)).None?
      && (InheritedClientCheck(settings, ATTEMPTS[j].1) ==>
            AttemptsFrom(settings, answers, i).value == Validation(ATTEMPTS[j].0, Client, NotImplementedErrorClass))
      && (!InheritedClientCheck(settings, ATTEMPTS[j].1) ==>
            answers[j].Accepted?
            && AttemptsFrom(settings, answers, i).value == Validation(ATTEMPTS[j].0, ATTEMPTS[j].1, ClaimsDict(answers[j].claims))))
    decreases |ATTEMPTS| - i
  {
    var t := ATTEMPTS[i].1;
    if LookupError(settings, ProviderSetting(settings, t)).Some? {
      SuccessIsAnAttempt(settings, answers, i + 1);
    } else if !InheritedClientCheck(settings, t) && answers[i].Rejected? {
      SuccessIsAnAttempt(settings, answers, i + 1);
    }
  }

  /**
   * When every validator call raises, the outcome is the 401, unless a
   * lookup in the first two attempts fails, which gives that lookup's
   * error (an unknown name or a provider constructor's RuntimeError), or
   * a client attempt reaches the inherited client check, which succeeds.
   */
  lemma {:induction false} AllRejected(settings: AuthSettings, answers: seq<Answer>, i: nat)
    requires |answers| == |ATTEMPTS| && i <= |ATTEMPTS|
    requires forall j :: 0 <= j < |answers| ==> answers[j].Rejected?
    ensures AttemptsFrom(settings, answers, i) == Err(UNAUTHORIZED)
      || (exists j :: (i <= j < 2 && LookupError(settings, ProviderSetting(settings, ATTEMPTS[j].1)).Some?
            && AttemptsFrom(settings, answers, i)
               == Err(LookupFailed(LookupError(settings, ProviderSetting(settings, ATTEMPTS[j].1)).value))))
      || (exists j :: (i <= j < |ATTEMPTS| && ATTEMPTS[j].1 == Client
            && LookupError(settings, settings.clientProvider).None? && InheritedClientCheck(settings, Client)
            && AttemptsFrom(settings, answers, i) == Ok(Validation(ATTEMPTS[j].0, Client, NotImplementedErrorClass))))
    decreases |ATTEMPTS| - i
  {
    if i < |ATTEMPTS| {
      var t := ATTEMPTS[i].1;
      var lookup := LookupError(settings, ProviderSetting(settings, t));
      if lookup.Some? && i < 2 {
      } else if lookup.None? && InheritedClientCheck(settings, t) {
        assert ATTEMPTS[i].1 == Client;
      } else {
        AllRejected(settings, answers, i + 1);
      }
    }
  }

  /**
   * With a configured Cognito provider as the client provider, a token
   * that the user provider rejects is still accepted, by the second
   * attempt, tagged Azure and client, with the `NotImplementedError`
   * class as its claims: no validator ever looked at the token.
   */
  lemma CognitoClientAcceptsAnyToken(settings: AuthSettings, answers: seq<Answer>)
    requires |answers| == |ATTEMPTS|
    requires LookupError(settings, settings.userProvider).None? && answers[0].Rejected?
    requires LookupError(settings, settings.clientProvider).None? && AttemptKind(settings, Client) == Cognito
    ensures ValidateSpec(settings, answers) == Ok(Validation("azure", Client, NotImplementedErrorClass))
  {
  }

  /**
   * The attempts with BaseAuthProvider's `validate_client_token` raising
   * NotImplementedError like the base class's other methods: the
   * inherited check is then caught like a rejection.
   */
  function AttemptsFromCorrected(settings: AuthSettings, answers: seq<Answer>, i: nat): Result<Validation, Failure>
    requires |answers| == |ATTEMPTS|
    decreases |ATTEMPTS| - i
  {
    if i >= |ATTEMPTS| then Err(UNAUTHORIZED)
    else
      var (tag, t) := ATTEMPTS[i];
      var lookup := LookupError(settings, ProviderSetting(settings, t));
      if lookup.Some? then
        if i < 2 then Err(LookupFailed(lookup.value)) else AttemptsFromCorrected(settings, answers, i + 1)
      else if InheritedClientCheck(settings, t) || answers[i].Rejected? then AttemptsFromCorrected(settings, answers, i + 1)
      else Ok(Validation(tag, t, ClaimsDict(answers[i].claims)))
  }

  /**
   * Corrected, a token is accepted only by a validator that accepted it,
   * with its claims; when every validator rejects, the outcome is an error.
   */
  lemma {:induction false} CorrectedNeedsAcceptance(settings: AuthSettings, answers: seq<Answer>, i: nat)
    requires |answers| == |ATTEMPTS|
    ensures AttemptsFromCorrected(settings, answers, i).Ok? ==>
      exists j :: (i <= j < |ATTEMPTS| && answers[j].Accepted?
        && AttemptsFromCorrected(settings, answers, i).value == Validation(ATTEMPTS[j].0, ATTEMPTS[j].1, ClaimsDict(answers[j].claims)))
    ensures (forall j :: 0 <= j < |answers| ==> answers[j].Rejected?) ==> AttemptsFromCorrected(settings, answers, i).Err?
    decreases |ATTEMPTS| - i
  {
    if i < |ATTEMPTS| {
      var t := ATTEMPTS[i].1;
      var lookup := LookupError(settings, ProviderSetting(settings, t));
      if lookup.Some? || InheritedClientCheck(settings, t) || answers[i].Rejected? {
        CorrectedNeedsAcceptance(settings, answers, i + 1);
      }
    }
  }

  /**
   * A failing user-provider lookup (an unknown name, or a provider that is
   * not configured) raises from the first lookup, before any validation.
   */
  lemma UserLookupFailurePropagates(settings: AuthSettings, answers: seq<Answer>)
    requires |answers| == |ATTEMPTS|
    requires LookupError(settings, settings.userProvider).Some?
    ensures ValidateSpec(settings, answers) == Err(LookupFailed(LookupError(settings, settings.userProvider).value))
  {
  }

  /**
   * The default settings name Azure for users but leave `AZURE_AUTHORITY`
   * unset: every token is refused with the constructor's RuntimeError,
   * whatever the validators would answer.
   */
  lemma UnconfiguredAzureRaises(answers: seq<Answer>, client: Option<string>, pool: Option<string>, region: Option<string>)
    requires |answers| == |ATTEMPTS|
    ensures ValidateSpec(AuthSettings(Some("azure"), client, None, pool, region), answers)
         == Err(LookupFailed("AZURE_AUTHORITY not configured"))
  {
  }

  /**
   * With Cognito named for users and its user pool or region unset or
   * empty, every token is refused with the constructor's RuntimeError.
   */
  lemma UnconfiguredCognitoRaises(answers: seq<Answer>, client: Option<string>, authority: Option<string>,
                                  pool: Option<string>, region: Option<string>)
    requires |answers| == |ATTEMPTS|
    requires !Filled(pool) || !Filled(region)
    ensures ValidateSpec(AuthSettings(Some("aws_cognito"), client, authority, pool, region), answers)
         == Err(LookupFailed("Cognito config missing"))
  {
  }

  /**
   * The last two attempts repeat the first two: the same getters and the
   * same validator methods. When each call answers the same as its earlier
   * twin, a result tagged "cognito" cannot be reached.
   */
  lemma CognitoUnreachable(settings: AuthSettings, answers: seq<Answer>)
    requires |answers| == |ATTEMPTS|
    requires answers[2] == answers[0] && answers[3] == answers[1]
    ensures ValidateSpec(settings, answers).Ok? ==> ValidateSpec(settings, answers).value.provider == "azure"
  {
    var user := LookupError(settings, settings.userProvider).None?;
    var client := LookupError(settings, settings.clientProvider).None?;
    if user && answers[0].Accepted? {
      assert ValidateSpec(settings, answers).value.provider == "azure";
    } else if user && client && (InheritedClientCheck(settings, Client) || answers[1].Accepted?) {
      assert ValidateSpec(settings, answers).value.provider == "azure";
    } else if user && client {
      assert AttemptsFrom(settings, answers, 3) == Err(UNAUTHORIZED);
      assert AttemptsFrom(settings, answers, 2) == Err(UNAUTHORIZED);
    }
  }
}
