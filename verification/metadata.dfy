/** The parsed SAML metadata document and the specification of which signing
    certificates the metadata certificate fetcher extracts from it
    (api-gateway/src/auth/saml/index.ts, `bindSamlCertUrlToIdpCertCallback`).

    The XML parser runs with namespace prefixes removed, so a document is a
    tree of element names.  At every level an element may be absent, occur
    once (a single object) or occur several times (a list); a text-only
    element is a string, or a number when its text looks numeric. */
module Metadata {
  import opened Wrappers

  datatype Node =
    | Text(text: string)
    | Num(number: int)
    | Obj(fields: map<string, Node>)
    | List(items: seq<Node>)

  /** JavaScript truthiness of a parsed value: the empty string and zero are
      falsy, every object and every array (even an empty one) is truthy. */
  predicate Truthy(n: Node) {
    match n
    case Text(s) => s != ""
    case Num(v) => v != 0
    case _ => true
  }

  /** `Array.isArray(x) ? x : [x]` -- the single-or-list normaliser. */
  function AsList(n: Node): seq<Node> {
    if n.List? then n.items else [n]
  }

  /** Property access `n.key`: only an element object has child elements. */
  function Field(n: Node, key: string): Option<Node> {
    if n.Obj? && key in n.fields then Some(n.fields[key]) else None
  }

  /** Why the certificate callback receives an error instead of a list. */
  datatype MetadataError =
    | FetchFailed(reason: string)      // HTTP or XML parsing failure
    | MissingEntityDescriptor          // no (truthy) root EntityDescriptor
    | CertificateNotAString            // `cleanCertString` applied to a non-string

  // ---------------------------------------------------------------------
  // cleanCertString
  // ---------------------------------------------------------------------

  /** The characters matched by `\s` in a JavaScript regular expression,
      which are also the characters `String.prototype.trim` removes. */
  predicate IsWhitespace(c: char) {
    || c == ' '
    || ('\t' <= c <= '\r')
    || c == '\U{A0}' || c == '\U{1680}'
    || ('\U{2000}' <= c <= '\U{200A}')
    || c == '\U{2028}' || c == '\U{2029}' || c == '\U{202F}'
    || c == '\U{205F}' || c == '\U{3000}' || c == '\U{FEFF}'
  }

  predicate NoWhitespace(s: string) {
    forall i :: 0 <= i < |s| ==> !IsWhitespace(s[i])
  }

  /** `s.replace(/\s+/g, '')` */
  function RemoveWhitespace(s: string): string {
    if s == [] then []
    else (if IsWhitespace(s[0]) then [] else [s[0]]) + RemoveWhitespace(s[1..])
  }

  function TrimStart(s: string): string {
    if s != [] && IsWhitespace(s[0]) then TrimStart(s[1..]) else s
  }

  function TrimEnd(s: string): string {
    if s != [] && IsWhitespace(s[|s| - 1]) then TrimEnd(s[..|s| - 1]) else s
  }

  /** `s.trim()` */
  function Trim(s: string): string {
    TrimEnd(TrimStart(s))
  }

  /** `cert.replace(/\s+/g, '').trim()` (index.ts:106-109). */
  function CleanCertString(cert: string): (r: string)
    ensures NoWhitespace(r)
    ensures |r| <= |cert|
  {
    RemovedWhitespaceIsClean(cert);
    TrimOfClean(RemoveWhitespace(cert));
    Trim(RemoveWhitespace(cert))
  }

  lemma {:induction false} RemovedWhitespaceIsClean(s: string)
    ensures NoWhitespace(RemoveWhitespace(s))
    ensures |RemoveWhitespace(s)| <= |s|
  {
    if s != [] {
      RemovedWhitespaceIsClean(s[1..]);
    }
  }

  /** The trailing `.trim()` never changes a string `\s+` has already emptied
      of whitespace. */
  lemma TrimOfClean(s: string)
    requires NoWhitespace(s)
    ensures Trim(s) == s
  {
    assert TrimStart(s) == s;
    assert TrimEnd(s) == s;
  }

  lemma {:induction false} RemoveWhitespaceAppend(a: string, b: string)
    ensures RemoveWhitespace(a + b) == RemoveWhitespace(a) + RemoveWhitespace(b)
  {
    if a != [] {
      assert (a + b)[1..] == a[1..] + b;
      RemoveWhitespaceAppend(a[1..], b);
    } else {
      assert a + b == b;
    }
  }

  lemma {:induction false} RemoveWhitespaceOfClean(s: string)
    requires NoWhitespace(s)
    ensures RemoveWhitespace(s) == s
  {
    if s != [] {
      RemoveWhitespaceOfClean(s[1..]);
    }
  }

  /** Cleaning works character by character: a whitespace character is
      dropped, every other character is kept, and the kept characters stay in
      their order (the two ensures together determine CleanCertString). */
  lemma CleanCertStringPerCharacter(a: string, b: string, c: char)
    ensures CleanCertString(a + b) == CleanCertString(a) + CleanCertString(b)
    ensures CleanCertString([c]) == if IsWhitespace(c) then "" else [c]
  {
    RemoveWhitespaceAppend(a, b);
    RemovedWhitespaceIsClean(a);
    RemovedWhitespaceIsClean(b);
    RemovedWhitespaceIsClean(a + b);
    TrimOfClean(RemoveWhitespace(a));
    TrimOfClean(RemoveWhitespace(b));
    TrimOfClean(RemoveWhitespace(a + b));
    assert RemoveWhitespace([c]) == (if IsWhitespace(c) then "" else [c]) + RemoveWhitespace([]);
    TrimOfClean(RemoveWhitespace([c]));
  }

  /** Cleaning twice equals cleaning once, and a certificate is left as it
      is exactly when it holds no whitespace. */
  lemma CleanCertStringIdempotent(s: string)
    ensures CleanCertString(CleanCertString(s)) == CleanCertString(s)
    ensures CleanCertString(s) == s <==> NoWhitespace(s)
  {
    var r := CleanCertString(s);
    RemoveWhitespaceOfClean(r);
    TrimOfClean(r);
    if NoWhitespace(s) {
      RemoveWhitespaceOfClean(s);
      TrimOfClean(s);
    }
  }

  /** A whitespace-only certificate text is cleaned to the empty string. */
  lemma {:induction false} WhitespaceOnlyCleansToEmpty(s: string)
    requires forall i :: 0 <= i < |s| ==> IsWhitespace(s[i])
    ensures CleanCertString(s) == ""
  {
    if s != [] {
      WhitespaceOnlyCleansToEmpty(s[1..]);
      RemovedWhitespaceIsClean(s[1..]);
      TrimOfClean(RemoveWhitespace(s[1..]));
    }
  }

  // ---------------------------------------------------------------------
  // The extraction, specified as a walk down the element path
  // ---------------------------------------------------------------------

  type Certs = Result<seq<string>, MetadataError>

  /** Sequencing of two extraction steps: the first error wins (an exception
      ends the traversal), otherwise the certificates are concatenated in
      encounter order. */
  function Then(a: Certs, b: Certs): Certs {
    if a.Err? then a else if b.Err? then b else Ok(a.value + b.value)
  }

  /** Element names below a descriptor, down to the certificate text. */
  const CertificatePath: seq<string> := ["KeyDescriptor", "KeyInfo", "X509Data", "X509Certificate"]

  /** The nodes a level visits: nothing when the element is absent or falsy
      (`if (!x) return`), otherwise the single-or-list normalisation. */
  function Children(n: Option<Node>): seq<Node> {
    if n.None? || !Truthy(n.value) then [] else AsList(n.value)
  }

  /** `cleanCertString(c)` pushed for one value; a non-string has no
      `replace` method and throws. */
  function CleanOne(n: Node): Certs {
    if n.Text? then Ok([CleanCertString(n.text)]) else Err(CertificateNotAString)
  }

  /** `cert.forEach((c) => certificates.push(cleanCertString(c)))` */
  function CleanEach(items: seq<Node>): Certs {
    if items == [] then Ok([]) else Then(CleanOne(items[0]), CleanEach(items[1..]))
  }

  /** The X509Certificate step (index.ts:93-100): a falsy scalar is skipped,
      but every element of a list is pushed, empty strings included. */
  function Leaf(cert: Option<Node>): Certs {
    if cert.None? || !Truthy(cert.value) then Ok([])
    else if cert.value.List? then CleanEach(cert.value.items)
    else CleanOne(cert.value)
  }

  /** The certificates found under `n` by following `path`. */
  function Walk(n: Option<Node>, path: seq<string>): Certs
    decreases |path|, 1
  {
    if path == [] then Leaf(n) else WalkAll(Children(n), path)
  }

  /** The certificates found under the children `path[0]` of each item, in
      the order of the items. */
  function WalkAll(items: seq<Node>, path: seq<string>): Certs
    requires path != []
    decreases |path|, 0, |items|
  {
    if items == [] then Ok([])
    else Then(Walk(Field(items[0], path[0]), path[1..]), WalkAll(items[1..], path))
  }

  /** What the callback receives for a parsed document (index.ts:111-143). */
  function ExtractCertificates(document: Node): Certs {
    var root := Field(document, "EntityDescriptor");
    if root.None? || !Truthy(root.value) then Err(MissingEntityDescriptor)
    else Then(Walk(Field(root.value, "IDPSSODescriptor"), CertificatePath),
              Walk(Field(root.value, "SPSSODescriptor"), CertificatePath))
  }

  // ---------------------------------------------------------------------
  // Properties of the extraction
  // ---------------------------------------------------------------------

  lemma ThenAssociative(a: Certs, b: Certs, c: Certs)
    ensures Then(Then(a, b), c) == Then(a, Then(b, c))
  {
    if a.Ok? && b.Ok? && c.Ok? {
      assert (a.value + b.value) + c.value == a.value + (b.value + c.value);
    }
  }

  /** Visiting a concatenation of items visits the first part, then the
      second: certificates come out in document order. */
  lemma {:induction false} WalkAllAppend(a: seq<Node>, b: seq<Node>, path: seq<string>)
    requires path != []
    ensures WalkAll(a + b, path) == Then(WalkAll(a, path), WalkAll(b, path))
  {
    if a == [] {
      assert a + b == b;
      var r := WalkAll(b, path);
      assert r.Ok? ==> [] + r.value == r.value;
    } else {
      assert (a + b)[0] == a[0];
      assert (a + b)[1..] == a[1..] + b;
      WalkAllAppend(a[1..], b, path);
      ThenAssociative(Walk(Field(a[0], path[0]), path[1..]), WalkAll(a[1..], path), WalkAll(b, path));
    }
  }

  /** Absent and falsy elements contribute nothing, at every level. */
  lemma AbsentOrFalsyContributesNothing(n: Option<Node>, path: seq<string>)
    requires n.None? || !Truthy(n.value)
    ensures Walk(n, path) == Ok([])
  {
  }

  /** Shape invariance: a single element and a one-element list give the
      same certificates, at every level.  At the certificate level itself
      this needs the value to be truthy (see EmptyCertificateQuirk). */
  lemma SingleOrListSame(x: Node, path: seq<string>)
    requires !x.List?
    requires path == [] ==> Truthy(x)
    ensures Walk(Some(x), path) == Walk(Some(List([x])), path)
  {
    if path == [] {
      assert [x][1..] == [];
      assert CleanEach([x]) == Then(CleanOne(x), CleanEach([]));
      assert CleanOne(x).Ok? ==> CleanOne(x).value + [] == CleanOne(x).value;
    } else if !Truthy(x) {
      assert Field(x, path[0]) == None;
      AbsentOrFalsyContributesNothing(None, path[1..]);
      var none: seq<string> := [];
      assert [x][1..] == [];
      assert WalkAll([x], path) == Then(Ok(none), Ok(none));
      assert none + none == none;
    } else {
      assert Children(Some(x)) == Children(Some(List([x])));
    }
  }

  /** The falsy check at index.ts:94 skips an empty certificate given as a
      single value, while the list branch at index.ts:97 pushes it; a
      whitespace-only certificate is pushed as the empty string. */
  lemma EmptyCertificateQuirk(ws: string)
    requires ws != [] && forall i :: 0 <= i < |ws| ==> IsWhitespace(ws[i])
    ensures Walk(Some(Text("")), []) == Ok([])
    ensures Walk(Some(List([Text("")])), []) == Ok([""])
    ensures Walk(Some(Text(ws)), []) == Ok([""])
  {
    WhitespaceOnlyCleansToEmpty(ws);
    assert CleanCertString("") == "" by { WhitespaceOnlyCleansToEmpty(""); }
    assert [Text("")][1..] == [];
    assert CleanEach([Text("")]) == Then(CleanOne(Text("")), CleanEach([]));
    assert [""] + [] == [""];
  }

  predicate AllClean(r: Certs) {
    r.Ok? ==> forall i :: 0 <= i < |r.value| ==> NoWhitespace(r.value[i])
  }

  lemma ThenAllClean(a: Certs, b: Certs)
    requires AllClean(a) && AllClean(b)
    ensures AllClean(Then(a, b))
  {
    if a.Ok? && b.Ok? {
      var v := a.value + b.value;
      forall i | 0 <= i < |v| ensures NoWhitespace(v[i]) {
        if i < |a.value| { assert v[i] == a.value[i]; } else { assert v[i] == b.value[i - |a.value|]; }
      }
    }
  }

  lemma {:induction false} CleanEachAllClean(items: seq<Node>)
    ensures AllClean(CleanEach(items))
  {
    if items != [] {
      CleanEachAllClean(items[1..]);
      ThenAllClean(CleanOne(items[0]), CleanEach(items[1..]));
    }
  }

  /** Every certificate extracted at any level contains no whitespace. */
  lemma {:induction false} WalkAllClean(n: Option<Node>, path: seq<string>)
    ensures AllClean(Walk(n, path))
    decreases |path|, 1
  {
    if path == [] {
      if n.Some? && Truthy(n.value) && n.value.List? {
        CleanEachAllClean(n.value.items);
      }
    } else {
      WalkAllItemsClean(Children(n), path);
    }
  }

  lemma {:induction false} WalkAllItemsClean(items: seq<Node>, path: seq<string>)
    requires path != []
    ensures AllClean(WalkAll(items, path))
    decreases |path|, 0, |items|
  {
    if items != [] {
      WalkAllClean(Field(items[0], path[0]), path[1..]);
      WalkAllItemsClean(items[1..], path);
      ThenAllClean(Walk(Field(items[0], path[0]), path[1..]), WalkAll(items[1..], path));
    }
  }

  /** The document-level contract: a missing or falsy EntityDescriptor is an
      error; otherwise all IDPSSODescriptor certificates come before all
      SPSSODescriptor certificates, nothing is de-duplicated, and every
      certificate is free of whitespace. */
  lemma ExtractionOrder(document: Node)
    ensures var root := Field(document, "EntityDescriptor");
            (root.None? || !Truthy(root.value)) <==> ExtractCertificates(document) == Err(MissingEntityDescriptor)
    ensures var root := Field(document, "EntityDescriptor");
            root.Some? && Truthy(root.value) ==>
              var idp := Walk(Field(root.value, "IDPSSODescriptor"), CertificatePath);
              var sp := Walk(Field(root.value, "SPSSODescriptor"), CertificatePath);
              (ExtractCertificates(document).Ok? <==> idp.Ok? && sp.Ok?) &&
              (idp.Ok? && sp.Ok? ==> ExtractCertificates(document).value == idp.value + sp.value)
    ensures AllClean(ExtractCertificates(document))
  {
    var root := Field(document, "EntityDescriptor");
    if root.Some? && Truthy(root.value) {
      var idp := Walk(Field(root.value, "IDPSSODescriptor"), CertificatePath);
      var sp := Walk(Field(root.value, "SPSSODescriptor"), CertificatePath);
      WalkAllClean(Field(root.value, "IDPSSODescriptor"), CertificatePath);
      WalkAllClean(Field(root.value, "SPSSODescriptor"), CertificatePath);
      ThenAllClean(idp, sp);
      // the only error either walk can produce is not MissingEntityDescriptor
      WalkErrorIsNotAString(Field(root.value, "IDPSSODescriptor"), CertificatePath);
      WalkErrorIsNotAString(Field(root.value, "SPSSODescriptor"), CertificatePath);
    }
  }

  predicate OnlyTypeErrors(r: Certs) {
    r.Err? ==> r.error == CertificateNotAString
  }

  lemma {:induction false} CleanEachErrors(items: seq<Node>)
    ensures OnlyTypeErrors(CleanEach(items))
  {
    if items != [] {
      CleanEachErrors(items[1..]);
    }
  }

  /** Below the root the only failure is a certificate that is not a string. */
  lemma {:induction false} WalkErrorIsNotAString(n: Option<Node>, path: seq<string>)
    ensures OnlyTypeErrors(Walk(n, path))
    decreases |path|, 1
  {
    if path == [] {
      if n.Some? && Truthy(n.value) && n.value.List? {
        CleanEachErrors(n.value.items);
      }
    } else {
      WalkAllErrorIsNotAString(Children(n), path);
    }
  }

  lemma {:induction false} WalkAllErrorIsNotAString(items: seq<Node>, path: seq<string>)
    requires path != []
    ensures OnlyTypeErrors(WalkAll(items, path))
    decreases |path|, 0, |items|
  {
    if items != [] {
      WalkErrorIsNotAString(Field(items[0], path[0]), path[1..]);
      WalkAllErrorIsNotAString(items[1..], path);
    }
  }

  /** A document whose descriptors hold no certificate is a success with an
      empty list, not an error. */
  lemma NoCertificatesIsSuccess(descriptors: map<string, Node>)
    requires "IDPSSODescriptor" !in descriptors && "SPSSODescriptor" !in descriptors
    ensures ExtractCertificates(Obj(map["EntityDescriptor" := Obj(descriptors)])) == Ok([])
  {
    var none: seq<string> := [];
    AbsentOrFalsyContributesNothing(None, CertificatePath);
    assert Then(Ok(none), Ok(none)) == Ok(none + none);
    assert none + none == none;
  }
}
