/** `createAdSamlStrategy` (api-gateway/src/auth/saml/index.ts:218-324): the
    login and logout verification callbacks the SAML protocol engine calls
    after it has checked an assertion's signature.

    The external collaborators are parameters: `userLogin` (the user
    directory) is a function from the login input to the internal user id or
    an error, `createLogoutToken` a function from the (nameID, sessionIndex)
    pair to a token, and `sessions.logoutWithToken` a map from tokens to what
    the lookup gives.  The zod schemas are predicates and partial parses. */
module AdStrategy {
  import opened Wrappers
  import opened JsValues

  datatype AdConfig = AdConfig(userIdKey: string, externalIdPrefix: string)

  const AdGivenNameKey: string := "http://schemas.xmlsoap.org/ws/2005/05/identity/claims/givenname"
  const AdFamilyNameKey: string := "http://schemas.xmlsoap.org/ws/2005/05/identity/claims/surname"
  const AdEmailKey: string := "http://schemas.xmlsoap.org/ws/2005/05/identity/claims/emailaddress"

  const NoUserIdError: string := "No user ID in SAML data"

  /** The SAML fields copied from the profile into the session user. */
  const LinkageKeys: seq<string> := ["issuer", "nameID", "nameIDFormat", "nameQualifier", "spNameQualifier", "sessionIndex"]

  // ---------------------------------------------------------------------
  // Login
  // ---------------------------------------------------------------------

  /** What `userLogin` is called with. */
  datatype LoginInput = LoginInput(externalId: string, firstName: string, lastName: string, email: Option<string>)

  /** The zod `Profile` schema (index.ts:237-242): a required or an optional
      string per key.  The keys are computed, so when `userIdKey` equals one
      of the claim keys the later entry of the object literal wins. */
  datatype FieldSchema = RequiredString | OptionalString

  function ProfileSchema(config: AdConfig): (schema: map<string, FieldSchema>)
    ensures schema.Keys == {config.userIdKey, AdGivenNameKey, AdFamilyNameKey, AdEmailKey}
    ensures schema[AdGivenNameKey] == RequiredString && schema[AdFamilyNameKey] == RequiredString
    ensures schema[AdEmailKey] == OptionalString
    ensures config.userIdKey != AdEmailKey ==> schema[config.userIdKey] == RequiredString
  {
    map[config.userIdKey := RequiredString][AdGivenNameKey := RequiredString]
       [AdFamilyNameKey := RequiredString][AdEmailKey := OptionalString]
  }

  /** `Profile.safeParse(profile).success` */
  predicate ConformsTo(profile: JsObject, schema: map<string, FieldSchema>) {
    forall k :: k in schema ==> Get(profile, k).Str? || (schema[k] == OptionalString && Get(profile, k).Undefined?)
  }

  /** `asString`: `null` and `undefined` stay absent, anything else is
      converted with `String`. */
  function AsString(v: JsValue): (r: Option<string>)
    ensures r.None? <==> v.Undefined? || v.Null?
    ensures v.Str? ==> r == Some(v.s)
  {
    if v.Undefined? || v.Null? then None else Some(ToJsString(v))
  }

  function OrEmpty(s: Option<string>): string {
    if s.Some? then s.value else ""
  }

  /** The argument `login` builds for `userLogin` (index.ts:248-255), or the
      error it throws before calling it. */
  function UserLoginInput(profile: JsObject, config: AdConfig): (r: Result<LoginInput, string>)
    ensures !Truthy(Get(profile, config.userIdKey)) <==> r == Err(NoUserIdError)
    ensures r.Ok? ==> r.value.externalId == config.externalIdPrefix + ":" + ToJsString(Get(profile, config.userIdKey))
    ensures r.Ok? && AsString(Get(profile, AdGivenNameKey)).None? ==> r.value.firstName == ""
    ensures r.Ok? && AsString(Get(profile, AdFamilyNameKey)).None? ==> r.value.lastName == ""
    ensures r.Ok? && Get(profile, AdGivenNameKey).Str? ==> r.value.firstName == Get(profile, AdGivenNameKey).s
    ensures r.Ok? && Get(profile, AdFamilyNameKey).Str? ==> r.value.lastName == Get(profile, AdFamilyNameKey).s
    ensures r.Ok? ==> r.value.email == AsString(Get(profile, AdEmailKey))
  {
    var aad := Get(profile, config.userIdKey);
    if !Truthy(aad) then Err(NoUserIdError)
    else Ok(LoginInput(
      externalId := config.externalIdPrefix + ":" + ToJsString(aad),
      firstName := OrEmpty(AsString(Get(profile, AdGivenNameKey))),
      lastName := OrEmpty(AsString(Get(profile, AdFamilyNameKey))),
      email := AsString(Get(profile, AdEmailKey))))
  }

  /** The session user `loginVerify` completes with (index.ts:279-287): the
      internal id plus the linkage fields, copied as they are. */
  function SamlUser(id: string, profile: JsObject): JsObject {
    map["id" := Str(id),
        "issuer" := Get(profile, "issuer"),
        "nameID" := Get(profile, "nameID"),
        "nameIDFormat" := Get(profile, "nameIDFormat"),
        "nameQualifier" := Get(profile, "nameQualifier"),
        "spNameQualifier" := Get(profile, "spNameQualifier"),
        "sessionIndex" := Get(profile, "sessionIndex")]
  }

  /** What `loginVerify` does: whether it logged the schema warning, and
      what it hands to `done` -- an error, no user (`undefined`), or the
      session user. */
  datatype LoginVerdict = LoginVerdict(warned: bool, outcome: Result<Option<JsObject>, string>)

  /** `loginVerify` (index.ts:261-291) with `login` (index.ts:244-259). */
  function LoginVerify(profile: Option<JsObject>, config: AdConfig, userLogin: LoginInput -> Result<string, string>): (v: LoginVerdict)
    ensures profile.None? ==> !v.warned && v.outcome == Ok(None)
    ensures profile.Some? && v.outcome.Ok? ==> v.outcome.value.Some?
  {
    if profile.None? then LoginVerdict(false, Ok(None))
    else
      var p := profile.value;
      var warned := !ConformsTo(p, ProfileSchema(config));
      var input := UserLoginInput(p, config);
      if input.Err? then LoginVerdict(warned, Err(input.error))
      else
        var person := userLogin(input.value);
        if person.Err? then LoginVerdict(warned, Err(person.error))
        else LoginVerdict(warned, Ok(Some(SamlUser(person.value, p))))
  }

  /** A missing or empty user-id attribute fails the login with "No user ID in
      SAML data" before the user directory is consulted: the outcome is the
      same whatever `userLogin` would do. */
  lemma MissingUserIdFailsLogin(profile: JsObject, config: AdConfig,
                                userLogin: LoginInput -> Result<string, string>,
                                otherLogin: LoginInput -> Result<string, string>)
    requires !Truthy(Get(profile, config.userIdKey))
    ensures LoginVerify(Some(profile), config, userLogin).outcome == Err(NoUserIdError)
    ensures LoginVerify(Some(profile), config, userLogin) == LoginVerify(Some(profile), config, otherLogin)
  {
  }

  /** Login succeeds exactly when the user id is present and the directory
      accepts the login; otherwise `done` receives the error `login` threw or
      the directory rejected with, unchanged.  The session user then carries the directory's id
      and exactly the profile's linkage fields, unchanged.  The schema check
      only decides the warning, never the outcome. */
  lemma LoginLinkage(profile: JsObject, config: AdConfig, userLogin: LoginInput -> Result<string, string>)
    ensures var v := LoginVerify(Some(profile), config, userLogin);
            var input := UserLoginInput(profile, config);
            && v.warned == !ConformsTo(profile, ProfileSchema(config))
            && (v.outcome.Ok? <==> input.Ok? && userLogin(input.value).Ok?)
            && (input.Err? ==> v.outcome == Err(input.error))
            && (input.Ok? && userLogin(input.value).Err? ==> v.outcome == Err(userLogin(input.value).error))
            && (v.outcome.Ok? ==>
                  v.outcome.value.Some? &&
                  var u := v.outcome.value.value;
                  && u.Keys == {"id", "issuer", "nameID", "nameIDFormat", "nameQualifier", "spNameQualifier", "sessionIndex"}
                  && u["id"] == Str(userLogin(input.value).value)
                  && forall i :: 0 <= i < |LinkageKeys| ==> u[LinkageKeys[i]] == Get(profile, LinkageKeys[i]))
  {
    var v := LoginVerify(Some(profile), config, userLogin);
    var input := UserLoginInput(profile, config);
    if v.outcome.Ok? {
      var u := SamlUser(userLogin(input.value).value, profile);
      assert v.outcome.value.value == u;
      forall i | 0 <= i < |LinkageKeys| ensures u[LinkageKeys[i]] == Get(profile, LinkageKeys[i]) {
        SamlUserCopies(userLogin(input.value).value, profile, i);
      }
    }
  }

  lemma SamlUserCopies(id: string, profile: JsObject, i: nat)
    requires i < |LinkageKeys|
    ensures LinkageKeys[i] in SamlUser(id, profile)
    ensures SamlUser(id, profile)[LinkageKeys[i]] == Get(profile, LinkageKeys[i])
  {
    var u := SamlUser(id, profile);
    if i == 0 { assert u["issuer"] == Get(profile, "issuer"); }
    else if i == 1 { assert u["nameID"] == Get(profile, "nameID"); }
    else if i == 2 { assert u["nameIDFormat"] == Get(profile, "nameIDFormat"); }
    else if i == 3 { assert u["nameQualifier"] == Get(profile, "nameQualifier"); }
    else if i == 4 { assert u["spNameQualifier"] == Get(profile, "spNameQualifier"); }
    else { assert u["sessionIndex"] == Get(profile, "sessionIndex"); }
  }

  // ---------------------------------------------------------------------
  // Logout
  // ---------------------------------------------------------------------

  /** The `sessionIndex` entry of a parsed `SamlProfileId`: zod keeps a key
      that the input has (even one holding `undefined`) and leaves out one it
      does not, and lodash `isEqual` tells the two apart. */
  datatype SessionIndexField = Missing | ExplicitUndefined | Given(s: string)

  datatype ProfileId = ProfileId(nameID: string, sessionIndex: SessionIndexField)

  /** `SamlProfileId.safeParse(o)` (index.ts:220-223): nameID must be a
      string, sessionIndex a string or undefined. */
  function ParseProfileId(o: JsObject): (r: Option<ProfileId>)
    ensures r.Some? <==> Get(o, "nameID").Str? && (Get(o, "sessionIndex").Str? || Get(o, "sessionIndex").Undefined?)
    ensures r.Some? ==> r.value.nameID == Get(o, "nameID").s
    ensures r.Some? ==> (r.value.sessionIndex.Given? <==> Get(o, "sessionIndex").Str?)
    ensures r.Some? && r.value.sessionIndex.Given? ==> r.value.sessionIndex.s == Get(o, "sessionIndex").s
    ensures r.Some? ==> (r.value.sessionIndex.Missing? <==> "sessionIndex" !in o)
  {
    var nameID := Get(o, "nameID");
    if !nameID.Str? then None
    else if "sessionIndex" !in o then Some(ProfileId(nameID.s, Missing))
    else match o["sessionIndex"]
      case Undefined => Some(ProfileId(nameID.s, ExplicitUndefined))
      case Str(s) => Some(ProfileId(nameID.s, Given(s)))
      case _ => None
  }

  /** What `sessions.logoutWithToken` gives for a token. */
  datatype LookupOutcome = Found(user: JsObject) | LookupFailed(error: string)

  /** `profile.sessionIndex` as `createLogoutToken` receives it. */
  function SessionIndexArg(profile: JsObject): Option<string> {
    if Get(profile, "sessionIndex").Str? then Some(Get(profile, "sessionIndex").s) else None
  }

  /** `req.user` once the session recovery step (index.ts:298-313) has run,
      or the error that ended it.  A token absent from `sessions` finds no
      session. */
  function RecoverUser(reqUser: Option<JsObject>, profile: JsObject,
                       createLogoutToken: (string, Option<string>) -> string,
                       sessions: map<string, LookupOutcome>, loginFailure: Option<string>): (r: Result<Option<JsObject>, string>)
    requires Get(profile, "nameID").Str?
    ensures reqUser.Some? ==> r == Ok(reqUser)
    ensures reqUser.None? && r.Ok? && r.value.Some? ==>
              var token := createLogoutToken(Get(profile, "nameID").s, SessionIndexArg(profile));
              token in sessions && sessions[token] == Found(r.value.value) && loginFailure.None?
  {
    if reqUser.Some? then Ok(reqUser)
    else
      var token := createLogoutToken(Get(profile, "nameID").s, SessionIndexArg(profile));
      if token !in sessions then Ok(None)
      else match sessions[token]
        case LookupFailed(e) => Err(e)
        case Found(u) => if loginFailure.Some? then Err(loginFailure.value) else Ok(Some(u))
  }

  /** What `logoutVerify` (index.ts:293-321) hands to `done`. */
  function LogoutOutcome(reqUser: Option<JsObject>, profile: Option<JsObject>,
                         createLogoutToken: (string, Option<string>) -> string,
                         sessions: map<string, LookupOutcome>, loginFailure: Option<string>): (r: Result<Option<JsObject>, string>)
    ensures r.Ok? && r.value.Some? ==>
              profile.Some? && ParseProfileId(r.value.value).Some? && ParseProfileId(r.value.value) == ParseProfileId(profile.value)
    ensures r.Err? ==> profile.Some? && reqUser.None?
  {
    if profile.None? || ParseProfileId(profile.value).None? then Ok(None)
    else
      var recovered := RecoverUser(reqUser, profile.value, createLogoutToken, sessions, loginFailure);
      if recovered.Err? then Err(recovered.error)
      else
        var user: JsObject := if recovered.value.Some? then recovered.value.value else map[];
        if ParseProfileId(user) == ParseProfileId(profile.value) then Ok(Some(user)) else Ok(None)
  }

  /** The incoming HTTP request: `req.user` is the only state the logout
      callback changes.  `loginFailure` is what passport's `req.login`
      reports, decided outside this code. */
  class Request {
    var user: Option<JsObject>
    const loginFailure: Option<string>

    constructor(user: Option<JsObject>, loginFailure: Option<string>)
      ensures this.user == user && this.loginFailure == loginFailure
    {
      this.user := user;
      this.loginFailure := loginFailure;
    }

    /** `req.login(user, { session: false, keepSessionInfo: false }, cb)`: the
        user becomes `req.user` for this request only; nothing is persisted. */
    method Login(u: JsObject) returns (error: Option<string>)
      modifies this
      ensures error == loginFailure
      ensures user == if loginFailure.None? then Some(u) else old(user)
    {
      error := loginFailure;
      if loginFailure.None? {
        user := Some(u);
      }
    }
  }

  /** `logoutVerify`: the session lookup runs only when `req.user` is absent;
      the outcome is LogoutOutcome and `req.user` is the recovered user. */
  method LogoutVerify(req: Request, profile: Option<JsObject>,
                      createLogoutToken: (string, Option<string>) -> string,
                      sessions: map<string, LookupOutcome>) returns (r: Result<Option<JsObject>, string>)
    modifies req
    ensures r == LogoutOutcome(old(req.user), profile, createLogoutToken, sessions, req.loginFailure)
    ensures old(req.user).Some? ==> req.user == old(req.user)
    ensures old(req.user).None? && profile.Some? && ParseProfileId(profile.value).Some? &&
            RecoverUser(None, profile.value, createLogoutToken, sessions, req.loginFailure).Ok?
            ==> req.user == RecoverUser(None, profile.value, createLogoutToken, sessions, req.loginFailure).value
    ensures old(req.user).None? && (profile.None? || ParseProfileId(profile.value).None?) ==> req.user == None
    ensures r.Err? ==> req.user == old(req.user)
  {
    if profile.None? {
      return Ok(None);
    }
    var profileId := ParseProfileId(profile.value);
    if profileId.None? {
      return Ok(None);
    }
    if req.user.None? {
      var logoutToken := createLogoutToken(Get(profile.value, "nameID").s, SessionIndexArg(profile.value));
      if logoutToken in sessions {
        match sessions[logoutToken] {
          case LookupFailed(e) =>
            return Err(e);
          case Found(u) =>
            var error := req.Login(u);
            if error.Some? {
              return Err(error.value);
            }
        }
      }
    }
    var reqUser: JsObject := if req.user.Some? then req.user.value else map[];
    var reqId := ParseProfileId(reqUser);
    if reqId.Some? && reqId == profileId {
      return Ok(Some(reqUser));
    }
    return Ok(None);
  }

  // ---------------------------------------------------------------------
  // Properties of logout
  // ---------------------------------------------------------------------

  /** An absent profile, or one without a string nameID, is "no match". */
  lemma UnidentifiedProfileIsNoMatch(reqUser: Option<JsObject>, profile: Option<JsObject>,
                                     createLogoutToken: (string, Option<string>) -> string,
                                     sessions: map<string, LookupOutcome>, loginFailure: Option<string>)
    requires profile.None? || !Get(profile.value, "nameID").Str?
    ensures LogoutOutcome(reqUser, profile, createLogoutToken, sessions, loginFailure) == Ok(None)
  {
  }

  /** Logout is authorised, handing back the request user, if and only if
      that user's (nameID, sessionIndex) pair equals the profile's. */
  lemma LogoutAuthorisedIffPairsMatch(reqUser: Option<JsObject>, profile: Option<JsObject>,
                                      createLogoutToken: (string, Option<string>) -> string,
                                      sessions: map<string, LookupOutcome>, loginFailure: Option<string>,
                                      u: JsObject)
    ensures LogoutOutcome(reqUser, profile, createLogoutToken, sessions, loginFailure) == Ok(Some(u))
            <==>
            && profile.Some?
            && ParseProfileId(profile.value).Some?
            && RecoverUser(reqUser, profile.value, createLogoutToken, sessions, loginFailure) == Ok(Some(u))
            && ParseProfileId(u) == ParseProfileId(profile.value)
  {
    if profile.Some? && ParseProfileId(profile.value).Some? {
      var recovered := RecoverUser(reqUser, profile.value, createLogoutToken, sessions, loginFailure);
      if recovered == Ok(None) {
        // the empty object `{}` has no nameID, so it never matches
        assert ParseProfileId(map[]).None?;
      }
    }
  }

  /** Pairs that differ in either component never authorise logout. */
  lemma DifferentPairIsNoMatch(reqUser: JsObject, profile: JsObject,
                               createLogoutToken: (string, Option<string>) -> string,
                               sessions: map<string, LookupOutcome>, loginFailure: Option<string>)
    requires ParseProfileId(profile).Some? && ParseProfileId(reqUser).Some?
    requires ParseProfileId(reqUser).value.nameID != ParseProfileId(profile).value.nameID
          || ParseProfileId(reqUser).value.sessionIndex != ParseProfileId(profile).value.sessionIndex
    ensures LogoutOutcome(Some(reqUser), Some(profile), createLogoutToken, sessions, loginFailure) == Ok(None)
  {
  }

  /** With a user already on the request, neither the session lookup nor
      `req.login` is consulted. */
  lemma ExistingUserSkipsLookup(reqUser: JsObject, profile: Option<JsObject>,
                                createLogoutToken: (string, Option<string>) -> string,
                                sessions: map<string, LookupOutcome>, loginFailure: Option<string>,
                                otherSessions: map<string, LookupOutcome>, otherFailure: Option<string>)
    ensures LogoutOutcome(Some(reqUser), profile, createLogoutToken, sessions, loginFailure)
         == LogoutOutcome(Some(reqUser), profile, createLogoutToken, otherSessions, otherFailure)
  {
  }

  /** Without a user on the request, a session found through the logout
      token is recovered and compared; lookup and login errors are passed on. */
  lemma RecoveryThroughLogoutToken(profile: JsObject,
                                   createLogoutToken: (string, Option<string>) -> string,
                                   sessions: map<string, LookupOutcome>, loginFailure: Option<string>)
    requires ParseProfileId(profile).Some?
    ensures var token := createLogoutToken(Get(profile, "nameID").s, SessionIndexArg(profile));
            var r := LogoutOutcome(None, Some(profile), createLogoutToken, sessions, loginFailure);
            && (token !in sessions ==> r == Ok(None))
            && (token in sessions && sessions[token].LookupFailed? ==> r == Err(sessions[token].error))
            && (token in sessions && sessions[token].Found? && loginFailure.Some? ==> r == Err(loginFailure.value))
            && (token in sessions && sessions[token].Found? && loginFailure.None? ==>
                  (r == Ok(Some(sessions[token].user)) <==> ParseProfileId(sessions[token].user) == ParseProfileId(profile)))
  {
    var token := createLogoutToken(Get(profile, "nameID").s, SessionIndexArg(profile));
    if token !in sessions {
      assert ParseProfileId(map[]).None?;
    }
  }

  /** Round trip: the session user created at login from an assertion with a
      sessionIndex is authorised to log out by a logout request naming the
      same nameID and sessionIndex. */
  lemma LoginThenLogout(loginProfile: JsObject, config: AdConfig, userLogin: LoginInput -> Result<string, string>,
                        logoutProfile: JsObject,
                        createLogoutToken: (string, Option<string>) -> string,
                        sessions: map<string, LookupOutcome>, loginFailure: Option<string>)
    requires LoginVerify(Some(loginProfile), config, userLogin).outcome.Ok?
    requires Get(loginProfile, "nameID").Str? && Get(loginProfile, "sessionIndex").Str?
    requires Get(logoutProfile, "nameID") == Get(loginProfile, "nameID")
    requires Get(logoutProfile, "sessionIndex") == Get(loginProfile, "sessionIndex")
    ensures var user := LoginVerify(Some(loginProfile), config, userLogin).outcome.value;
            user.Some? &&
            LogoutOutcome(user, Some(logoutProfile), createLogoutToken, sessions, loginFailure) == Ok(user)
  {
    var user := LoginVerify(Some(loginProfile), config, userLogin).outcome.value;
    var u := user.value;
    assert Get(u, "nameID") == Get(loginProfile, "nameID");
    assert Get(u, "sessionIndex") == Get(loginProfile, "sessionIndex");
    assert "sessionIndex" in logoutProfile;
  }

  /** Without a sessionIndex in the login assertion the session user holds
      `sessionIndex: undefined`, a present key, while a logout profile without
      a sessionIndex lacks the key: the parsed pairs differ, so that user, as
      login built it, is not authorised. */
  lemma LoginWithoutSessionIndexIsNotMatched(loginProfile: JsObject, config: AdConfig, userLogin: LoginInput -> Result<string, string>,
                                             logoutProfile: JsObject,
                                             createLogoutToken: (string, Option<string>) -> string,
                                             sessions: map<string, LookupOutcome>, loginFailure: Option<string>)
    requires LoginVerify(Some(loginProfile), config, userLogin).outcome.Ok?
    requires Get(loginProfile, "nameID").Str? && Get(loginProfile, "sessionIndex").Undefined?
    requires Get(logoutProfile, "nameID") == Get(loginProfile, "nameID") && "sessionIndex" !in logoutProfile
    ensures var user := LoginVerify(Some(loginProfile), config, userLogin).outcome.value;
            user.Some? &&
            LogoutOutcome(user, Some(logoutProfile), createLogoutToken, sessions, loginFailure) == Ok(None)
  {
    var u := LoginVerify(Some(loginProfile), config, userLogin).outcome.value.value;
    assert "sessionIndex" in u && u["sessionIndex"] == Undefined;
    assert ParseProfileId(u).value.sessionIndex == ExplicitUndefined;
    assert ParseProfileId(logoutProfile).value.sessionIndex == Missing;
  }
}
