# SAML single sign-on orchestration, modelled in Dafny

This project models the gateway-side logic that surrounds SAML single
sign-on in `api-gateway/src/auth/saml/index.ts`:

- **Metadata certificate fetcher** (`bindSamlCertUrlToIdpCertCallback`):
  walks a parsed SAML metadata document from `EntityDescriptor` through
  `IDPSSODescriptor`/`SPSSODescriptor`, `KeyDescriptor`, `KeyInfo` and
  `X509Data` down to `X509Certificate`. It collects every certificate with
  its whitespace removed. At every level an element may be absent, single,
  or a list.
- **`createSamlConfig`**: resolves certificate references through the
  trusted-certificate table or the file system. It then chooses between the
  fetch callback (metadata URL) and static certificates, and builds the
  configuration record for the SAML protocol engine.
- **`createAdSamlStrategy`**: the login verification callback maps an Azure
  AD profile to the user-directory login, and merges the returned id with
  the SAML linkage fields. The logout verification callback authorises a
  logout only when the request user's (nameID, sessionIndex) pair equals
  the logout profile's. When the request has no user, it first recovers
  one through the logout-token session lookup.
- **`parseRelayState`**: the open-redirect guard on the post-login
  redirect target.

Files:

- `wrappers.dfy`: `Option` and `Result`.
- `js_values.dfy`: the JavaScript values the callbacks see (`undefined`,
  `null`, strings, string arrays), truthiness and `String()`.
- `metadata.dfy`: the parsed metadata tree, `cleanCertString`, and the
  specification of the extraction as a walk down the element path, with its
  properties.
- `cert_fetcher.dfy`: the extraction as the source writes it, with a
  mutable accumulator and nested `forEach` loops. Each loop is a method
  proved equal to the specification.
- `saml_config.dfy`: certificate resolution, the callback-or-static choice
  and the configuration record.
- `ad_strategy.dfy`: login and logout verification. `req.user` is the field
  of a `Request` object that `req.login` updates.
- `relay_state.dfy`: `parseRelayState` over any URL resolver, plus a small
  concrete resolver.

The external collaborators are parameters of the model:

- the HTTP fetch plus XML parse is a function from URL to a parsed
  document or a failure reason;
- `readFileSync` and the trusted-certificate table are maps;
- `userLogin` and `createLogoutToken` are functions;
- `sessions.logoutWithToken` is a map from tokens to lookup outcomes;
- `new URL(rel, base)` is a resolver function.

## Model

| member | source | states |
|---|---|---|
| Metadata.CleanCertString | api-gateway/src/auth/saml/index.ts:106-109 | the cleaned certificate contains no whitespace character and is no longer than the input |
| Metadata.CleanCertStringPerCharacter | api-gateway/src/auth/saml/index.ts:106-109 | cleaning distributes over concatenation; a single whitespace character is dropped and any other is kept, so the other characters stay in order |
| Metadata.CleanCertStringIdempotent | api-gateway/src/auth/saml/index.ts:106-109 | cleaning twice equals cleaning once; a string is unchanged by cleaning exactly when it has no whitespace |
| Metadata.WhitespaceOnlyCleansToEmpty | api-gateway/src/auth/saml/index.ts:106-109 | a whitespace-only certificate cleans to the empty string |
| Metadata.TrimOfClean | api-gateway/src/auth/saml/index.ts:108 | the trailing `trim()` leaves a whitespace-free string unchanged |
| Metadata.SingleOrListSame | api-gateway/src/auth/saml/index.ts:71-101 | at every level a single element and a one-element list yield the same certificates (at the certificate level, for truthy values) |
| Metadata.AbsentOrFalsyContributesNothing | api-gateway/src/auth/saml/index.ts:71-94 | an absent or falsy element contributes no certificate at any level |
| Metadata.EmptyCertificateQuirk | api-gateway/src/auth/saml/index.ts:94-99 | an empty scalar certificate is skipped, an empty string inside a certificate list is pushed, and a whitespace-only certificate is pushed as "" |
| Metadata.WalkAllAppend | api-gateway/src/auth/saml/index.ts:78-101 | visiting a concatenation of elements yields the first part's certificates followed by the second's (document order, no de-duplication) |
| Metadata.ThenAssociative | api-gateway/src/auth/saml/index.ts:68-143 | sequencing extraction steps with first-error-wins is associative |
| Metadata.WalkAllClean | api-gateway/src/auth/saml/index.ts:92-101 | every certificate extracted below a descriptor is whitespace-free |
| Metadata.WalkErrorIsNotAString | api-gateway/src/auth/saml/index.ts:96-99 | below the root the only possible failure is a certificate value that is not a string |
| Metadata.ExtractionOrder | api-gateway/src/auth/saml/index.ts:111-143 | a missing or falsy EntityDescriptor is an error and only then that error; otherwise the result succeeds iff both descriptor walks do, and is the IDPSSODescriptor certificates followed by the SPSSODescriptor ones, all whitespace-free |
| Metadata.NoCertificatesIsSuccess | api-gateway/src/auth/saml/index.ts:111-143 | a document with a root but no descriptors yields an empty list, not an error |
| Metadata.Children | api-gateway/src/auth/saml/index.ts:71-90 | the elements one level visits: none when the element is absent or falsy, otherwise the element normalised to a list (`Array.isArray(x) ? x : [x]`); properties in SingleOrListSame and AbsentOrFalsyContributesNothing |
| Metadata.CleanEach | api-gateway/src/auth/saml/index.ts:97 | every element of a certificate array cleaned and pushed in order, empty strings included; a non-string element is an error |
| Metadata.Leaf | api-gateway/src/auth/saml/index.ts:93-100 | the X509Certificate step: a falsy value adds nothing, an array adds CleanEach of its elements, a scalar adds its cleaned text; properties in EmptyCertificateQuirk |
| Metadata.Walk | api-gateway/src/auth/saml/index.ts:70-104 | the certificates under an element following the remaining element path, visiting the normalised children in order and stopping at the first error; properties in SingleOrListSame, WalkAllClean, WalkErrorIsNotAString |
| Metadata.WalkAll | api-gateway/src/auth/saml/index.ts:78-101 | the certificates of a list of sibling elements, in document order; properties in WalkAllAppend |
| Metadata.ExtractCertificates | api-gateway/src/auth/saml/index.ts:111-143 | what the callback receives for a parsed document: the missing-root error, or the IDPSSODescriptor walk followed by the SPSSODescriptor walk; properties in ExtractionOrder |
| CertFetcher.VisitX509Data | api-gateway/src/auth/saml/index.ts:92-101 | the loop body appends to the accumulator exactly the certificates the specification assigns to one X509Data element, or fails with its error |
| CertFetcher.VisitKeyInfo | api-gateway/src/auth/saml/index.ts:85-102 | the loop over X509Data elements appends exactly the specified certificates of one KeyInfo, in order |
| CertFetcher.VisitKeyDescriptor | api-gateway/src/auth/saml/index.ts:78-103 | the loop over KeyInfo elements appends exactly the specified certificates of one KeyDescriptor, in order |
| CertFetcher.ExtractCertificatesFromKeyDescriptor | api-gateway/src/auth/saml/index.ts:70-104 | a falsy argument adds nothing; otherwise the loop over the normalised KeyDescriptor list appends exactly the specified certificates |
| CertFetcher.VisitDescriptors | api-gateway/src/auth/saml/index.ts:120-140 | a descriptor list is visited element by element, a single descriptor directly, appending exactly what the specification gives |
| CertFetcher.CertificateCallback | api-gateway/src/auth/saml/index.ts:36-148 | a fetch or parse failure reaches the callback as an error; otherwise the callback receives exactly ExtractCertificates of the parsed document |
| SamlConfigBuilder.LookupPublicCert | api-gateway/src/auth/saml/index.ts:157-162 | a trusted name resolves to the embedded certificate; anything else is read as a file, failing when it cannot be read |
| SamlConfigBuilder.LookupAll | api-gateway/src/auth/saml/index.ts:176 | `map(lookupPublicCert)`: a success has exactly one certificate per reference, and an error is the error of one of the references |
| SamlConfigBuilder.LookupAllPointwise | api-gateway/src/auth/saml/index.ts:175-176 | mapping the lookup over the references succeeds iff every reference resolves, and then gives each reference's certificate at the same position |
| SamlConfigBuilder.LookupAllFirstError | api-gateway/src/auth/saml/index.ts:175-176 | when some reference fails, the error is that of the first failing reference |
| SamlConfigBuilder.TrustedNamesNeedNoFiles | api-gateway/src/auth/saml/index.ts:157-162 | references that are all trusted names resolve whatever the file system holds |
| SamlConfigBuilder.FirstReference | api-gateway/src/auth/saml/index.ts:168 | `publicCertOrUrlForSamlMetadata[0]`: the first list element, or the first character of a plain string, or none for an empty list or string |
| SamlConfigBuilder.ResolveFirst | api-gateway/src/auth/saml/index.ts:168 | `firstCert`: the lookup of the first reference, or an error when there is none; properties in PlainStringLooksUpFirstCharacter |
| SamlConfigBuilder.PlainStringLooksUpFirstCharacter | api-gateway/src/auth/saml/index.ts:168 | for a plain-string reference the first lookup is of its first character, and an empty string has no first reference |
| SamlConfigBuilder.StaticCerts | api-gateway/src/auth/saml/index.ts:175-177 | a list of references gives a list with one certificate per reference, a single reference a single certificate; the first failing lookup is the error |
| SamlConfigBuilder.ConfigRecord | api-gateway/src/auth/saml/index.ts:192-215 | decryptionPvk is the private key iff decryptAssertions; identifierFormat defaults to the SAML 2.0 transient format; audience equals issuer; clock skew 0; sha256; both want-signed flags false; passReqToCallback true; the other fields copied |
| SamlConfigBuilder.CreateSamlConfig | api-gateway/src/auth/saml/index.ts:154-215 | an unreadable private key or first reference is an error; the fetch callback is the idpCert iff the first resolved reference starts with "https://", otherwise the static certificates resolved in order (or their error); the record is ConfigRecord |
| AdStrategy.ProfileSchema | api-gateway/src/auth/saml/index.ts:237-242 | the zod `Profile` schema: the user-id key, given name and family name are required strings, email an optional string; the key set is exactly these four, and when the configured user-id key equals the email key the later, optional entry wins |
| AdStrategy.ConformsTo | api-gateway/src/auth/saml/index.ts:263 | `Profile.safeParse(profile).success`: every schema key holds a string, or is undefined or absent where the schema makes it optional (its only effect is the warning, see LoginLinkage) |
| AdStrategy.AsString | api-gateway/src/auth/saml/index.ts:245-246 | `asString`: null and undefined give no value, a string is kept as it is, anything else is converted with `String` |
| AdStrategy.UserLoginInput | api-gateway/src/auth/saml/index.ts:244-255 | a missing or empty user id is exactly the "No user ID in SAML data" error; otherwise externalId is prefix ":" id, absent names become "", string names are kept, email is the converted attribute |
| AdStrategy.MissingUserIdFailsLogin | api-gateway/src/auth/saml/index.ts:248-249 | without a user id the login fails with that error and the outcome does not depend on the user directory |
| AdStrategy.SamlUser | api-gateway/src/auth/saml/index.ts:279-287 | the session user: `id` from the directory plus issuer, nameID, nameIDFormat, nameQualifier, spNameQualifier and sessionIndex as the profile has them; properties in LoginLinkage |
| AdStrategy.LoginVerify | api-gateway/src/auth/saml/index.ts:261-291 | an absent profile completes with no user and no warning; a login that succeeds always yields a session user; the full contract is LoginLinkage |
| AdStrategy.LoginLinkage | api-gateway/src/auth/saml/index.ts:261-291 | the schema check only decides the warning; login succeeds iff the input is built and the directory accepts it; otherwise `done` receives the missing-id error or the directory's error unchanged; the session user has exactly the keys id and the six linkage fields, the directory's id, and the profile's linkage values unchanged |
| AdStrategy.ParseProfileId | api-gateway/src/auth/saml/index.ts:220-223 | the parse succeeds iff nameID is a string and sessionIndex is a string or undefined; it keeps nameID and the presence and value of sessionIndex |
| AdStrategy.RecoverUser | api-gateway/src/auth/saml/index.ts:298-313 | an existing request user is kept; a user recovered without one is the session the logout token (from nameID and sessionIndex) finds, and only when req.login succeeds |
| AdStrategy.LogoutOutcome | api-gateway/src/auth/saml/index.ts:293-321 | a user is handed back only when the profile parses and the user's parsed (nameID, sessionIndex) pair equals the profile's; an error arises only from the recovery, so only without a request user |
| AdStrategy.Request.Login | api-gateway/src/auth/saml/index.ts:309-311 | on success the user becomes req.user; on failure req.user is unchanged and the failure is reported |
| AdStrategy.LogoutVerify | api-gateway/src/auth/saml/index.ts:293-321 | the outcome is LogoutOutcome of the request user before the call; an existing req.user is kept; a recovered user becomes req.user; an unidentified profile, a failed lookup or a failed req.login leaves req.user as it was |
| AdStrategy.UnidentifiedProfileIsNoMatch | api-gateway/src/auth/saml/index.ts:295-297 | an absent profile or one without a string nameID gives no user |
| AdStrategy.LogoutAuthorisedIffPairsMatch | api-gateway/src/auth/saml/index.ts:314-318 | logout hands back a user iff the profile parses, that user is the (possibly recovered) request user, and its parsed (nameID, sessionIndex) pair equals the profile's |
| AdStrategy.DifferentPairIsNoMatch | api-gateway/src/auth/saml/index.ts:314-318 | a request user whose nameID or sessionIndex differs from the profile's is never handed back |
| AdStrategy.ExistingUserSkipsLookup | api-gateway/src/auth/saml/index.ts:298 | with a request user present, the session store and req.login do not affect the outcome |
| AdStrategy.RecoveryThroughLogoutToken | api-gateway/src/auth/saml/index.ts:298-318 | without a request user: no session gives no user, a lookup or login error is passed on, a found session is handed back iff its pair matches the profile's |
| AdStrategy.LoginThenLogout | api-gateway/src/auth/saml/index.ts:279-318 | for a login assertion with a string sessionIndex, the session user created at login is authorised by a logout profile with the same nameID and sessionIndex |
| AdStrategy.LoginWithoutSessionIndexIsNotMatched | api-gateway/src/auth/saml/index.ts:279-318 | for a login assertion without sessionIndex, the session user as login built it (sessionIndex present but undefined) is not authorised by a logout profile that lacks sessionIndex |
| RelayState.StripTrailingSlash | api-gateway/src/auth/saml/index.ts:333 | exactly one trailing slash, when present, is removed; otherwise the URL is unchanged |
| RelayState.ChosenRelayState | api-gateway/src/auth/saml/index.ts:327 | the body value is used when truthy, otherwise the query value; a relay state is given (truthy) iff the body or the query value is |
| RelayState.ParseRelayState | api-gateway/src/auth/saml/index.ts:326-344 | a redirect is only ever returned for a string starting with "/" and is never logged; it throws exactly when, outside local mode, the URL constructor rejects such a string |
| RelayState.NonPathIsRejected | api-gateway/src/auth/saml/index.ts:329-343 | a non-string or a string not starting with "/" yields undefined in every mode, logged iff truthy |
| RelayState.LocalModeReturnsValueAsGiven | api-gateway/src/auth/saml/index.ts:330-331 | in local mode a string starting with "/" is returned unchanged |
| RelayState.AcceptedIffSameOrigin | api-gateway/src/auth/saml/index.ts:329-337 | outside local mode a target is returned iff the relay state is a "/"-string whose resolution against the stripped base URL has exactly that base as origin and the target as href |
| RelayState.RejectionIsLogged | api-gateway/src/auth/saml/index.ts:341-343 | every rejection returns undefined and is logged iff a relay state was given; a rejected "/"-string is always logged |
| RelayState.SameSitePathAccepted | api-gateway/src/auth/saml/index.ts:333-336 | with a base URL that is a plain http or https origin (host of lower-case letters and dots, a trailing slash allowed), a relay state that starts with a single "/" and holds only letters, digits and `/-_~?=&` is accepted and returned as the origin plus the path |
| RelayState.OtherHostRejected | api-gateway/src/auth/saml/index.ts:334-343 | with a plain http or https base URL, a scheme-relative relay state "//host..." whose host is plain (lower-case letters and dots: no userinfo, port, upper case or whitespace) and differs from the base's is rejected and logged |
| RelayState.BaseWithPathRejectsAll | api-gateway/src/auth/saml/index.ts:333-335 | when the base URL carries a path, no relay state is ever accepted |
| RelayState.SameSiteExample | api-gateway/src/auth/saml/index.ts:333-336 | "/case/123" against "https://app.example.fi/" returns the resolved href "https://app.example.fi/case/123" |
| RelayState.LocalExample | api-gateway/src/auth/saml/index.ts:330-331 | in local mode "/case/123" is returned as given |
| RelayState.SchemeRelativeExample | api-gateway/src/auth/saml/index.ts:334-343 | "//evil.example/" against "https://app.example.fi/" is rejected and logged |
| RelayState.AbsoluteUrlExample | api-gateway/src/auth/saml/index.ts:329-343 | "https://evil.example/" does not start with "/" and is rejected and logged |
| RelayState.EmptyAuthorityThrows | api-gateway/src/auth/saml/index.ts:329-334 | against a plain http or https base URL, "//" starts with "/" but names an empty host, so the URL constructor throws and parseRelayState throws with it |
| RelayState.ParseRelayStateRejectingInvalid | api-gateway/src/auth/saml/index.ts:326-344 | parseRelayState with a relay state the URL constructor rejects treated as invalid: it never throws |
| RelayState.RejectingInvalidAgrees | api-gateway/src/auth/saml/index.ts:326-344 | the corrected guard equals parseRelayState wherever that does not throw, rejects and logs where it throws, and accepts exactly the same-origin targets |

## Left out

- The HTTP request (axios) and the XML parser (fast-xml-parser) are one function parameter, `fetch`, which gives a parsed tree or a failure reason. The model starts from the parsed tree. Text the parser converts to a number is `Num`. Text it converts to a boolean is not a separate case: `true` and `false` behave at every level of the walk like `Num(1)` and `Num(0)` (truthy or falsy, no child elements, not a string). Attributes appear as fields of the element's object, which the walk ignores, except that an attribute on `X509Certificate` makes its value an object, which `cleanCertString` rejects (`Obj` gives `CertificateNotAString`).
- `readFileSync` and the trusted-certificate table (`certificates.js`) are maps. `certificates.js` is not part of this model. The `in` test also finds names inherited from `Object.prototype`; the model treats only the table's own keys as trusted.
- `SamlConfigBuilder.CreateSamlConfig`: the `CacheProvider` object is an opaque handle, and the fetch callback is represented by the URL it is bound to.
- The passport-saml `Strategy`, zod, lodash `isEqual` and the promise/callback plumbing (`fromCallback`, `.then/.catch`) are replaced by predicates, equality of parsed pairs, and `Result` values. The engine's signature and protocol checks are not modelled.
- `userLogin`, `createLogoutToken` and `sessions.logoutWithToken` are parameters. Whether `logoutWithToken` also removes the session from the store is not visible here, so the store is read-only in the model. The failure of `req.login` is the request's `loginFailure` value, decided outside this code.
- Logging (`console.debug`, `logWarn`, `logError`) is left out. Only whether `loginVerify` warns and whether `parseRelayState` logs is recorded.
- AdStrategy.LoginThenLogout: proved only for a login assertion with a string sessionIndex. Without one the session user holds `sessionIndex: undefined`, which the nameID/sessionIndex parse keeps as a present key, while a logout profile without sessionIndex lacks the key; lodash `isEqual` tells the two apart, so the user as login built it is not authorised (AdStrategy.LoginWithoutSessionIndexIsNotMatched). Between login and logout the user passes through the session store, which may drop undefined fields when it serialises the user; the session store is not part of this model.
- `AdStrategy.LoginLinkage`: profile attribute values are strings, string arrays, `null` or `undefined`; other value types that passport-saml could place in a profile are not modelled.
- `new URL(rel, base)` is a resolver parameter. The accept/reject lemmas that hold for every resolver do not depend on a particular one. `RelayState.SimpleResolve` is a small concrete resolver for path-only and scheme-relative references. It leaves out these steps of the WHATWG URL parser:
  - removing tab, LF and CR anywhere in the input (`"/\t/evil.example"` names host `evil.example`);
  - reading a backslash as "/" (`"/\evil.example"` names a host);
  - skipping extra slashes after "//" (`"///evil.example"` names host `evil.example` and is rejected, where SimpleResolve gives a throw);
  - leaving userinfo and default ports out of the origin (`"//user@app.example.fi/"` has the base's origin and is accepted);
  - lower-casing, percent-decoding and IDNA mapping of hosts, and IPv4 host parsing;
  - opaque ("null") origins for schemes other than http, https, ws, wss and ftp;
  - resolving `.` and `..` segments and percent-encoding (`"/a b"` comes back as `/a%20b`).
- `RelayState.SameSitePathAccepted`, `RelayState.OtherHostRejected` and `RelayState.EmptyAuthorityThrows` are therefore stated only for plain inputs on which none of these steps changes anything: an http or https base whose host is lower-case letters and dots, plain hosts in scheme-relative relay states, and paths of letters, digits and `/-_~?=&`.
- `path.isAbsolute` is modelled as on POSIX (a leading "/").
- Outside local mode `parseRelayState` returns the resolved `href`, not the relay state as given. The model follows the code here, so a result can differ from the input text (a normalised path, for example).
- The frontend (`frontend/build.js`, `frontend/src/customization.ts`, `frontend/src/students/LoginPage.tsx`) is build tooling, a static tenant table and UI code, and is not part of this model.

## Findings

| source | as written | input that shows it | evidently intended | confidence | as-written member | corrected member |
|---|---|---|---|---|---|---|
| api-gateway/src/auth/saml/index.ts:329-334 | a relay state that starts with "/" is passed to `new URL` unguarded, so one the URL parser rejects makes `parseRelayState` throw | relay state "//" outside local mode, against an http or https base: empty host, `new URL("//", base)` throws | an invalid relay state is rejected (undefined) and logged, never thrown to the caller | medium, not executed; whether the route handler catches the exception is not part of this model | RelayState.EmptyAuthorityThrows | RelayState.RejectingInvalidAgrees |
