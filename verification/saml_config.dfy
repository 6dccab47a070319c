/** `createSamlConfig` (api-gateway/src/auth/saml/index.ts:150-216): resolving
    the identity provider's certificate references and building the
    configuration record handed to the SAML protocol engine.

    The trusted-certificate table (`certificates.js`) and the file system
    (`readFileSync`) are abstract maps; a path missing from `files` is a file
    that cannot be read, which makes `createSamlConfig` throw. */
module SamlConfigBuilder {
  import opened Wrappers
  import opened JsValues

  datatype Environment = Environment(trusted: map<string, string>, files: map<string, string>)

  datatype ConfigError =
    | FileNotReadable(path: string)
    | MissingReference      // `readFileSync(undefined)`: there is no first reference

  /** `publicCertOrUrlForSamlMetadata`: one reference or a list of them. */
  datatype CertReferences = Single(reference: string) | Many(references: seq<string>)

  /** `publicCert`: a single PEM string or a list of them. */
  datatype PublicCert = OnePem(pem: string) | PemList(pems: seq<string>)

  /** `idpCert`: either the certificate-fetch callback bound to a metadata
      URL, or static certificate data. */
  datatype IdpCert = FetchCallback(metadataUrl: string) | StaticCert(cert: PublicCert)

  datatype EspooSamlConfig = EspooSamlConfig(
    privateCert: string,
    publicCertOrUrlForSamlMetadata: CertReferences,
    decryptAssertions: bool,
    callbackUrl: string,
    issuer: string,
    entryPoint: string,
    logoutUrl: string,
    nameIdFormat: Option<string>,
    validateInResponseTo: string)

  /** The record `createSamlConfig` returns; `cacheProvider` is an opaque
      handle to the caller's cache provider object. */
  datatype SamlConfig = SamlConfig(
    acceptedClockSkewMs: int,
    audience: string,
    cacheProvider: Option<nat>,
    callbackUrl: string,
    idpCert: IdpCert,
    disableRequestedAuthnContext: bool,
    decryptionPvk: Option<string>,
    entryPoint: string,
    identifierFormat: string,
    issuer: string,
    logoutUrl: string,
    privateKey: string,
    signatureAlgorithm: string,
    validateInResponseTo: string,
    passReqToCallback: bool,
    wantAssertionsSigned: bool,
    wantAuthnResponseSigned: bool)

  const TransientNameIdFormat: string := "urn:oasis:names:tc:SAML:2.0:nameid-format:transient"

  /** `readFileSync(path, { encoding: 'utf8' })` */
  function ReadFile(path: string, env: Environment): Result<string, ConfigError> {
    if path in env.files then Ok(env.files[path]) else Err(FileNotReadable(path))
  }

  /** `lookupPublicCert` (index.ts:157-162): a trusted name gives the embedded
      certificate, anything else is read as a file path. */
  function LookupPublicCert(cert: string, env: Environment): (r: Result<string, ConfigError>)
    ensures cert in env.trusted ==> r == Ok(env.trusted[cert])
    ensures cert !in env.trusted ==> r == ReadFile(cert, env)
  {
    if cert in env.trusted then Ok(env.trusted[cert]) else ReadFile(cert, env)
  }

  /** `refs.map(lookupPublicCert)`: the first reference that throws ends it.
      A success has one certificate per reference; an error is the error of
      some reference. */
  function LookupAll(refs: seq<string>, env: Environment): (r: Result<seq<string>, ConfigError>)
    ensures r.Ok? ==> |r.value| == |refs|
    ensures r.Err? ==> exists i :: 0 <= i < |refs| && LookupPublicCert(refs[i], env) == Err(r.error)
  {
    if refs == [] then Ok([])
    else
      var head := LookupPublicCert(refs[0], env);
      if head.Err? then Err(head.error)
      else
        var tail := LookupAll(refs[1..], env);
        if tail.Err? then
          assert exists i :: 0 <= i < |refs| && LookupPublicCert(refs[i], env) == Err(tail.error) by {
            var i :| 0 <= i < |refs[1..]| && LookupPublicCert(refs[1..][i], env) == Err(tail.error);
            assert refs[1..][i] == refs[i + 1];
          }
          tail
        else Ok([head.value] + tail.value)
  }

  /** `config.publicCertOrUrlForSamlMetadata[0]` (index.ts:168): the first
      list element, or -- for a plain string -- its first character. */
  function FirstReference(refs: CertReferences): Option<string> {
    match refs
    case Many(rs) => if rs == [] then None else Some(rs[0])
    case Single(s) => if s == "" then None else Some([s[0]])
  }

  /** `firstCert` (index.ts:168). */
  function ResolveFirst(refs: CertReferences, env: Environment): Result<string, ConfigError> {
    var first := FirstReference(refs);
    if first.None? then Err(MissingReference) else LookupPublicCert(first.value, env)
  }

  /** The static branch (index.ts:175-177): a list of references gives a
      list of certificates, one per reference, and a single reference a
      single certificate. */
  function StaticCerts(refs: CertReferences, env: Environment): (r: Result<PublicCert, ConfigError>)
    ensures r.Ok? ==> (refs.Many? <==> r.value.PemList?)
    ensures r.Ok? && refs.Many? ==> |r.value.pems| == |refs.references|
  {
    match refs
    case Many(rs) =>
      var all := LookupAll(rs, env);
      if all.Err? then Err(all.error) else Ok(PemList(all.value))
    case Single(s) =>
      var one := LookupPublicCert(s, env);
      if one.Err? then Err(one.error) else Ok(OnePem(one.value))
  }

  /** The returned record (index.ts:192-215). */
  function ConfigRecord(config: EspooSamlConfig, privateCert: string, idpCert: IdpCert, cacheProvider: Option<nat>): (c: SamlConfig)
    ensures c.idpCert == idpCert && c.privateKey == privateCert && c.cacheProvider == cacheProvider
    ensures c.decryptionPvk.Some? <==> config.decryptAssertions
    ensures c.decryptionPvk.Some? ==> c.decryptionPvk.value == privateCert
    ensures config.nameIdFormat.None? ==> c.identifierFormat == TransientNameIdFormat
    ensures config.nameIdFormat.Some? ==> c.identifierFormat == config.nameIdFormat.value
    ensures c.issuer == config.issuer && c.audience == c.issuer
    ensures c.callbackUrl == config.callbackUrl && c.entryPoint == config.entryPoint
    ensures c.logoutUrl == config.logoutUrl && c.validateInResponseTo == config.validateInResponseTo
    ensures c.acceptedClockSkewMs == 0 && c.signatureAlgorithm == "sha256"
    ensures c.disableRequestedAuthnContext && c.passReqToCallback
    ensures !c.wantAssertionsSigned && !c.wantAuthnResponseSigned
  {
    SamlConfig(
      acceptedClockSkewMs := 0,
      audience := config.issuer,
      cacheProvider := cacheProvider,
      callbackUrl := config.callbackUrl,
      idpCert := idpCert,
      disableRequestedAuthnContext := true,
      decryptionPvk := if config.decryptAssertions then Some(privateCert) else None,
      entryPoint := config.entryPoint,
      identifierFormat := if config.nameIdFormat.Some? then config.nameIdFormat.value else TransientNameIdFormat,
      issuer := config.issuer,
      logoutUrl := config.logoutUrl,
      privateKey := privateCert,
      signatureAlgorithm := "sha256",
      validateInResponseTo := config.validateInResponseTo,
      passReqToCallback := true,
      wantAssertionsSigned := false,
      wantAuthnResponseSigned := false)
  }

  /** `createSamlConfig`: the private key is read first, then the first
      reference decides between the fetch callback (its resolved value starts
      with "https://") and static certificates (every reference resolved, in
      order).  Exactly one of the two becomes `idpCert`. */
  method CreateSamlConfig(config: EspooSamlConfig, env: Environment, cacheProvider: Option<nat>)
    returns (r: Result<SamlConfig, ConfigError>)
    ensures ReadFile(config.privateCert, env).Err? ==> r == Err(ReadFile(config.privateCert, env).error)
    ensures ReadFile(config.privateCert, env).Ok? && ResolveFirst(config.publicCertOrUrlForSamlMetadata, env).Err?
            ==> r == Err(ResolveFirst(config.publicCertOrUrlForSamlMetadata, env).error)
    ensures ReadFile(config.privateCert, env).Ok? && ResolveFirst(config.publicCertOrUrlForSamlMetadata, env).Ok? ==>
              var first := ResolveFirst(config.publicCertOrUrlForSamlMetadata, env).value;
              var statics := StaticCerts(config.publicCertOrUrlForSamlMetadata, env);
              && (StartsWith(first, "https://") ==> r.Ok? && r.value.idpCert == FetchCallback(first))
              && (!StartsWith(first, "https://") && statics.Err? ==> r == Err(statics.error))
              && (!StartsWith(first, "https://") && statics.Ok? ==> r.Ok? && r.value.idpCert == StaticCert(statics.value))
    ensures r.Ok? ==> r.value == ConfigRecord(config, ReadFile(config.privateCert, env).value, r.value.idpCert, cacheProvider)
  {
    var privateCert := ReadFile(config.privateCert, env);
    if privateCert.Err? {
      return Err(privateCert.error);
    }

    var publicCert: Option<PublicCert> := None;
    var certFetcherCallback: Option<string> := None;

    var firstCert := ResolveFirst(config.publicCertOrUrlForSamlMetadata, env);
    if firstCert.Err? {
      return Err(firstCert.error);
    }

    if StartsWith(firstCert.value, "https://") {
      certFetcherCallback := Some(firstCert.value);
    } else {
      var statics := StaticCerts(config.publicCertOrUrlForSamlMetadata, env);
      if statics.Err? {
        return Err(statics.error);
      }
      publicCert := Some(statics.value);
    }

    var idpCert := if certFetcherCallback.Some? then FetchCallback(certFetcherCallback.value) else StaticCert(publicCert.value);
    return Ok(ConfigRecord(config, privateCert.value, idpCert, cacheProvider));
  }

  // ---------------------------------------------------------------------
  // Properties of certificate resolution
  // ---------------------------------------------------------------------

  /** `map(lookupPublicCert)` succeeds exactly when every reference resolves,
      and then gives each reference's certificate at the same position. */
  lemma {:induction false} LookupAllPointwise(refs: seq<string>, env: Environment)
    ensures LookupAll(refs, env).Ok? <==> forall i :: 0 <= i < |refs| ==> LookupPublicCert(refs[i], env).Ok?
    ensures LookupAll(refs, env).Ok? ==>
              |LookupAll(refs, env).value| == |refs| &&
              forall i :: 0 <= i < |refs| ==> LookupAll(refs, env).value[i] == LookupPublicCert(refs[i], env).value
  {
    if refs != [] {
      LookupAllPointwise(refs[1..], env);
      if LookupAll(refs, env).Ok? {
        forall i | 0 <= i < |refs| ensures LookupAll(refs, env).value[i] == LookupPublicCert(refs[i], env).value {
          if i > 0 { assert refs[i] == refs[1..][i - 1]; }
        }
      }
      if forall i :: 0 <= i < |refs| ==> LookupPublicCert(refs[i], env).Ok? {
        forall i | 0 <= i < |refs[1..]| ensures LookupPublicCert(refs[1..][i], env).Ok? {
          assert refs[1..][i] == refs[i + 1];
        }
      }
    }
  }

  /** When some reference cannot be read, the error is the one of the first
      such reference. */
  lemma {:induction false} LookupAllFirstError(refs: seq<string>, env: Environment, k: nat)
    requires k < |refs| && LookupPublicCert(refs[k], env).Err?
    requires forall i :: 0 <= i < k ==> LookupPublicCert(refs[i], env).Ok?
    ensures LookupAll(refs, env) == Err(LookupPublicCert(refs[k], env).error)
  {
    if k > 0 {
      forall i | 0 <= i < k - 1 ensures LookupPublicCert(refs[1..][i], env).Ok? {
        assert refs[1..][i] == refs[i + 1];
      }
      LookupAllFirstError(refs[1..], env, k - 1);
    }
  }

  /** Trusted names resolve to the embedded certificate without any file
      being read: the file system does not matter. */
  lemma {:induction false} TrustedNamesNeedNoFiles(refs: seq<string>, env: Environment, otherFiles: map<string, string>)
    requires forall i :: 0 <= i < |refs| ==> refs[i] in env.trusted
    ensures LookupAll(refs, env) == LookupAll(refs, env.(files := otherFiles))
    ensures LookupAll(refs, env).Ok?
  {
    if refs != [] {
      TrustedNamesNeedNoFiles(refs[1..], env, otherFiles);
    }
  }

  /** A plain-string reference is indexed like a list (index.ts:168): only
      its first character is looked up to decide whether it names metadata. */
  lemma PlainStringLooksUpFirstCharacter(reference: string, env: Environment)
    requires reference != ""
    ensures ResolveFirst(Single(reference), env) == LookupPublicCert([reference[0]], env)
    ensures ResolveFirst(Single(""), env) == Err(MissingReference)
  {
  }
}
