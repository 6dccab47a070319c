/** The certificate-fetch callback built by `bindSamlCertUrlToIdpCertCallback`
    (api-gateway/src/auth/saml/index.ts:36-148), written as the source writes
    it: a `certificates` accumulator filled by nested `forEach` loops, one
    method per loop body.  Each method is proved to append exactly what the
    specification in module Metadata says, or to stop with its error. */
module CertFetcher {
  import opened Wrappers
  import opened Metadata

  /** What fetching the metadata URL and parsing its XML gives: the parsed
      document, or the reason the HTTP request or the parser failed. */
  datatype FetchOutcome = Parsed(document: Node) | Failed(reason: string)

  /** One step of a loop over `items`: the rest of the walk from item `i`
      is item `i` followed by the items after it. */
  lemma WalkAllFrom(items: seq<Node>, i: nat, path: seq<string>)
    requires path != [] && i < |items|
    ensures WalkAll(items[i..], path)
         == Then(Walk(Field(items[i], path[0]), path[1..]), WalkAll(items[i + 1..], path))
  {
    assert items[i..][0] == items[i];
    assert items[i..][1..] == items[i + 1..];
  }

  lemma CleanEachFrom(items: seq<Node>, i: nat)
    requires i < |items|
    ensures CleanEach(items[i..]) == Then(CleanOne(items[i]), CleanEach(items[i + 1..]))
  {
    assert items[i..][0] == items[i];
    assert items[i..][1..] == items[i + 1..];
  }

  lemma ThenEmpty(acc: seq<string>)
    ensures Then(Ok(acc), Ok([])) == Ok(acc)
  {
    assert acc + [] == acc;
  }

  /** The body of `x509Datas.forEach((x509) => ...)` (index.ts:92-101). */
  method VisitX509Data(x509: Node, certificates: seq<string>) returns (r: Certs)
    ensures r == Then(Ok(certificates), Walk(Field(x509, "X509Certificate"), []))
  {
    var cert := Field(x509, "X509Certificate");
    if cert.None? || !Truthy(cert.value) {
      ThenEmpty(certificates);
      return Ok(certificates);
    }
    if cert.value.List? {
      var items := cert.value.items;
      var acc := certificates;
      var i := 0;
      while i < |items|
        invariant 0 <= i <= |items|
        invariant Then(Ok(certificates), CleanEach(items)) == Then(Ok(acc), CleanEach(items[i..]))
      {
        CleanEachFrom(items, i);
        ThenAssociative(Ok(acc), CleanOne(items[i]), CleanEach(items[i + 1..]));
        match items[i] {
          case Text(s) =>
            acc := acc + [CleanCertString(s)];
          case _ =>
            return Err(CertificateNotAString);
        }
        i := i + 1;
      }
      assert items[i..] == [];
      ThenEmpty(acc);
      return Ok(acc);
    } else {
      match cert.value {
        case Text(s) =>
          return Ok(certificates + [CleanCertString(s)]);
        case _ =>
          return Err(CertificateNotAString);
      }
    }
  }

  /** The body of `keyInfos.forEach((ki) => ...)` (index.ts:85-102). */
  method VisitKeyInfo(ki: Node, certificates: seq<string>) returns (r: Certs)
    ensures r == Then(Ok(certificates), Walk(Field(ki, "X509Data"), ["X509Certificate"]))
  {
    var path := ["X509Data", "X509Certificate"];
    var x509Data := Field(ki, "X509Data");
    if x509Data.None? || !Truthy(x509Data.value) {
      ThenEmpty(certificates);
      return Ok(certificates);
    }
    var x509Datas := AsList(x509Data.value);
    assert Walk(x509Data, path[1..]) == WalkAll(x509Datas, path[1..]);
    var acc := certificates;
    var i := 0;
    while i < |x509Datas|
      invariant 0 <= i <= |x509Datas|
      invariant Then(Ok(certificates), WalkAll(x509Datas, path[1..]))
             == Then(Ok(acc), WalkAll(x509Datas[i..], path[1..]))
    {
      WalkAllFrom(x509Datas, i, path[1..]);
      var step := VisitX509Data(x509Datas[i], acc);
      ThenAssociative(Ok(acc), Walk(Field(x509Datas[i], "X509Certificate"), []), WalkAll(x509Datas[i + 1..], path[1..]));
      if step.Err? {
        return step;
      }
      acc := step.value;
      i := i + 1;
    }
    assert x509Datas[i..] == [];
    ThenEmpty(acc);
    return Ok(acc);
  }

  /** The body of `keyDescriptors.forEach((kd) => ...)` (index.ts:78-103). */
  method VisitKeyDescriptor(kd: Node, certificates: seq<string>) returns (r: Certs)
    ensures r == Then(Ok(certificates), Walk(Field(kd, "KeyInfo"), ["X509Data", "X509Certificate"]))
  {
    var path := ["KeyInfo", "X509Data", "X509Certificate"];
    var keyInfo := Field(kd, "KeyInfo");
    if keyInfo.None? || !Truthy(keyInfo.value) {
      ThenEmpty(certificates);
      return Ok(certificates);
    }
    var keyInfos := AsList(keyInfo.value);
    assert Walk(keyInfo, path[1..]) == WalkAll(keyInfos, path[1..]);
    var acc := certificates;
    var i := 0;
    while i < |keyInfos|
      invariant 0 <= i <= |keyInfos|
      invariant Then(Ok(certificates), WalkAll(keyInfos, path[1..]))
             == Then(Ok(acc), WalkAll(keyInfos[i..], path[1..]))
    {
      WalkAllFrom(keyInfos, i, path[1..]);
      var step := VisitKeyInfo(keyInfos[i], acc);
      ThenAssociative(Ok(acc), Walk(Field(keyInfos[i], "X509Data"), ["X509Certificate"]), WalkAll(keyInfos[i + 1..], path[1..]));
      if step.Err? {
        return step;
      }
      acc := step.value;
      i := i + 1;
    }
    assert keyInfos[i..] == [];
    ThenEmpty(acc);
    return Ok(acc);
  }

  /** `extractCertificatesFromKeyDescriptor` (index.ts:70-104). */
  method ExtractCertificatesFromKeyDescriptor(keyDescriptor: Option<Node>, certificates: seq<string>) returns (r: Certs)
    ensures r == Then(Ok(certificates), Walk(keyDescriptor, CertificatePath[1..]))
  {
    var path := CertificatePath[1..];
    assert path == ["KeyInfo", "X509Data", "X509Certificate"];
    if keyDescriptor.None? || !Truthy(keyDescriptor.value) {
      ThenEmpty(certificates);
      return Ok(certificates);
    }
    var keyDescriptors := AsList(keyDescriptor.value);
    var acc := certificates;
    var i := 0;
    while i < |keyDescriptors|
      invariant 0 <= i <= |keyDescriptors|
      invariant Then(Ok(certificates), WalkAll(keyDescriptors, path))
             == Then(Ok(acc), WalkAll(keyDescriptors[i..], path))
    {
      WalkAllFrom(keyDescriptors, i, path);
      var step := VisitKeyDescriptor(keyDescriptors[i], acc);
      ThenAssociative(Ok(acc), Walk(Field(keyDescriptors[i], "KeyInfo"), path[1..]), WalkAll(keyDescriptors[i + 1..], path));
      if step.Err? {
        return step;
      }
      acc := step.value;
      i := i + 1;
    }
    assert keyDescriptors[i..] == [];
    ThenEmpty(acc);
    return Ok(acc);
  }

  /** The IDPSSODescriptor and SPSSODescriptor blocks (index.ts:120-140):
      an array is visited element by element, a single descriptor directly. */
  method VisitDescriptors(descriptors: Option<Node>, certificates: seq<string>) returns (r: Certs)
    ensures r == Then(Ok(certificates), Walk(descriptors, CertificatePath))
  {
    if descriptors.None? || !Truthy(descriptors.value) {
      ThenEmpty(certificates);
      return Ok(certificates);
    }
    if descriptors.value.List? {
      var items := descriptors.value.items;
      var acc := certificates;
      var i := 0;
      while i < |items|
        invariant 0 <= i <= |items|
        invariant Then(Ok(certificates), WalkAll(items, CertificatePath))
               == Then(Ok(acc), WalkAll(items[i..], CertificatePath))
      {
        WalkAllFrom(items, i, CertificatePath);
        var step := ExtractCertificatesFromKeyDescriptor(Field(items[i], "KeyDescriptor"), acc);
        ThenAssociative(Ok(acc), Walk(Field(items[i], "KeyDescriptor"), CertificatePath[1..]), WalkAll(items[i + 1..], CertificatePath));
        if step.Err? {
          return step;
        }
        acc := step.value;
        i := i + 1;
      }
      assert items[i..] == [];
      ThenEmpty(acc);
      return Ok(acc);
    } else {
      var single := descriptors.value;
      r := ExtractCertificatesFromKeyDescriptor(Field(single, "KeyDescriptor"), certificates);
      ghost var w := Walk(Field(single, "KeyDescriptor"), CertificatePath[1..]);
      assert [single][1..] == [];
      assert WalkAll([single], CertificatePath) == Then(w, Ok([]));
      if w.Ok? { ThenEmpty(w.value); }
    }
  }

  /** The callback returned by `bindSamlCertUrlToIdpCertCallback(url)`:
      `fetch` stands for the HTTP GET and the XML parse of the bound URL.
      It hands the callback an error, or every certificate of the document. */
  method CertificateCallback(url: string, fetch: string -> FetchOutcome) returns (r: Certs)
    ensures fetch(url).Failed? ==> r == Err(FetchFailed(fetch(url).reason))
    ensures fetch(url).Parsed? ==> r == ExtractCertificates(fetch(url).document)
  {
    var response := fetch(url);
    if response.Failed? {
      return Err(FetchFailed(response.reason));
    }
    var certificates: seq<string> := [];
    var root := Field(response.document, "EntityDescriptor");
    if root.None? || !Truthy(root.value) {
      return Err(MissingEntityDescriptor);
    }
    ghost var idp := Walk(Field(root.value, "IDPSSODescriptor"), CertificatePath);
    ghost var sp := Walk(Field(root.value, "SPSSODescriptor"), CertificatePath);
    var afterIdp := VisitDescriptors(Field(root.value, "IDPSSODescriptor"), certificates);
    assert afterIdp == idp by {
      if idp.Ok? { assert [] + idp.value == idp.value; }
    }
    if afterIdp.Err? {
      return afterIdp;
    }
    r := VisitDescriptors(Field(root.value, "SPSSODescriptor"), afterIdp.value);
  }
}
