/** Which endpoint a consent is for: its canonical address and the digest over it. */
module ProviderBinding {
  import opened Wrappers
  import opened Text
  import opened Framing
  import Utf8

  /** What the URL library makes of an address. */
  datatype Url = Url(
    scheme: string, username: string, password: Option<string>, host: Option<string>, port: Option<nat>,
    path: string, query: Option<string>, fragment: Option<string>)

  type UrlParser = string -> Option<Url>

  datatype Binding = Binding(profileId: Uuid, provider: string, endpointIdentity: string, modelId: string, targetDigest: string)

  /** Hosts come out of the library in ASCII. */
  function Lower(s: string): (r: string)
    ensures |r| == |s|
  {
    seq(|s|, i requires 0 <= i < |s| => LowerChar(s[i]))
  }

  lemma LowerTwice(s: string)
    ensures Lower(Lower(s)) == Lower(s)
  {
  }

  lemma TrimOnce(s: string)
    ensures TrimSlashes(TrimSlashes(s) + "/") == TrimSlashes(s)
  {
    var t := TrimSlashes(s);
    assert (t + "/")[..|t|] == t;
  }

  predicate Loopback(host: string) {
    host == "localhost" || host == "127.0.0.1" || host == "::1" || host == "[::1]"
  }

  /** The address has no user information, query or fragment, a host, and a scheme safe for that host. */
  predicate Acceptable(u: Url) {
    && u.username == "" && u.password.None? && u.query.None? && u.fragment.None?
    && u.host.Some? && (u.scheme == "https" || (u.scheme == "http" && Loopback(u.host.value)))
  }

  function PortText(port: Option<nat>): string {
    match port
    case None => ""
    case Some(n) => ":" + Decimal(n)
  }

  function Identity(u: Url): string
    requires u.host.Some?
  {
    u.scheme + "://" + Lower(u.host.value) + PortText(u.port) + TrimSlashes(if u.path == "" then "/" else u.path) + "/"
  }

  function TargetText(profileId: Uuid, provider: string, identity: string, modelId: string): string {
    "CM_PROVIDER_TARGET_V1\n" + UuidText(profileId) + "\n" + provider + "\n" + identity + "\n" + modelId
  }

  function New(sha: string -> string, parse: UrlParser, profileId: Uuid, provider: string, endpoint: string, modelId: string): Result<Binding> {
    if Utf8.Blank(provider) || Utf8.Blank(modelId) || |modelId| > 256 then Err("EGRESS_VIOLATION")
    else match parse(endpoint)
      case None => Err("EGRESS_VIOLATION")
      case Some(u) =>
        if !Acceptable(u) then Err("EGRESS_VIOLATION")
        else Ok(Binding(profileId, provider, Identity(u), modelId, HexText(sha(TargetText(profileId, provider, Identity(u), modelId)))))
  }

  /** A binding is made exactly for named targets at an address with nothing in it but scheme, host, port and path, plain only at home. */
  lemma MadeExactly(sha: string -> string, parse: UrlParser, profileId: Uuid, provider: string, endpoint: string, modelId: string)
    ensures New(sha, parse, profileId, provider, endpoint, modelId).Ok? <==>
      && !Utf8.Blank(provider) && !Utf8.Blank(modelId) && |modelId| <= 256 && parse(endpoint).Some?
      && var u := parse(endpoint).value;
         && u.username == "" && u.password == None && u.query == None && u.fragment == None && u.host.Some?
         && (u.scheme == "https" || (u.scheme == "http" && u.host.value in {"localhost", "127.0.0.1", "::1", "[::1]"}))
    ensures New(sha, parse, profileId, provider, endpoint, modelId).Ok? ==>
      var b, u := New(sha, parse, profileId, provider, endpoint, modelId).value, parse(endpoint).value;
      && b.profileId == profileId && b.provider == provider && b.modelId == modelId
      && b.endpointIdentity == u.scheme + "://" + Lower(u.host.value) + (if u.port.Some? then ":" + Decimal(u.port.value) else "")
                               + TrimSlashes(if u.path == "" then "/" else u.path) + "/"
      && b.targetDigest == HexText(sha("CM_PROVIDER_TARGET_V1\n" + UuidText(profileId) + "\n" + provider + "\n" + b.endpointIdentity + "\n" + modelId))
  {
    hide Utf8.Blank, Lower, TrimSlashes, HexText, UuidText, Decimal;
  }

  predicate Verifies(sha: string -> string, parse: UrlParser, b: Binding) {
    var rebuilt := New(sha, parse, b.profileId, b.provider, b.endpointIdentity, b.modelId);
    rebuilt.Ok? && rebuilt.value.targetDigest == b.targetDigest
  }

  /** The address in canonical form. */
  function Canonical(u: Url): Url
    requires u.host.Some?
  {
    Url(u.scheme, "", None, Some(Lower(u.host.value)), u.port, TrimSlashes(if u.path == "" then "/" else u.path) + "/", None, None)
  }

  /** The law assumed of the URL library: it reads back a canonical address it could have printed. */
  ghost predicate ReadsBack(parse: UrlParser) {
    forall endpoint: string ::
      parse(endpoint).Some? && Acceptable(parse(endpoint).value) ==>
        parse(Identity(parse(endpoint).value)) == Some(Canonical(parse(endpoint).value))
  }

  lemma LoopbackIsLower(host: string)
    requires Loopback(host)
    ensures Lower(host) == host
  {
  }

  lemma CanonicalIsFixed(u: Url)
    requires Acceptable(u)
    ensures Acceptable(Canonical(u)) && Identity(Canonical(u)) == Identity(u)
  {
    hide Lower, TrimSlashes, Loopback;
    LowerTwice(u.host.value);
    TrimOnce(if u.path == "" then "/" else u.path);
    if Loopback(u.host.value) { LoopbackIsLower(u.host.value); }
  }

  /** A binding that was made verifies, and its address is in canonical form. */
  lemma MadeBindingVerifies(sha: string -> string, parse: UrlParser, profileId: Uuid, provider: string, endpoint: string, modelId: string)
    ensures ReadsBack(parse) && New(sha, parse, profileId, provider, endpoint, modelId).Ok? ==>
      var b := New(sha, parse, profileId, provider, endpoint, modelId).value;
      Verifies(sha, parse, b) && New(sha, parse, profileId, provider, b.endpointIdentity, modelId) == Ok(b)
  {
    hide Identity, Loopback, TargetText, Canonical, HexText;
    if ReadsBack(parse) && New(sha, parse, profileId, provider, endpoint, modelId).Ok? {
      var u := parse(endpoint).value;
      CanonicalIsFixed(u);
      assert parse(Identity(u)) == Some(Canonical(u));
    }
  }

  /** An address some acceptable endpoint is identified by. */
  ghost predicate CanonicalAddress(parse: UrlParser, address: string) {
    exists endpoint: string ::
      parse(endpoint).Some? && Acceptable(parse(endpoint).value) && Identity(parse(endpoint).value) == address
  }

  /** A binding with its address in canonical form. */
  function Normalized(parse: UrlParser, b: Binding): Binding
    requires parse(b.endpointIdentity).Some? && Acceptable(parse(b.endpointIdentity).value)
  {
    b.(endpointIdentity := Identity(parse(b.endpointIdentity).value))
  }

  /** An address is canonical exactly when it is what it identifies itself by. */
  lemma CanonicalIsOwnIdentity(parse: UrlParser, address: string)
    ensures ReadsBack(parse) && parse(address).Some? && Acceptable(parse(address).value) ==>
      (CanonicalAddress(parse, address) <==> Identity(parse(address).value) == address)
  {
    hide Identity, Loopback, Canonical;
    if ReadsBack(parse) && CanonicalAddress(parse, address) {
      var endpoint: string :| parse(endpoint).Some? && Acceptable(parse(endpoint).value) && Identity(parse(endpoint).value) == address;
      CanonicalIsFixed(parse(endpoint).value);
    }
  }

  /**
   Verifying does not ask for a canonical address: a binding that verifies keeps verifying, under the
   same digest, when its address is put in canonical form, and making a binding for that address
   gives just that; it is the binding itself exactly when its address was canonical already.
   */
  lemma VerifiedUpToCanonical(sha: string -> string, parse: UrlParser, b: Binding)
    requires Verifies(sha, parse, b)
    ensures ReadsBack(parse) ==> Verifies(sha, parse, Normalized(parse, b))
    ensures New(sha, parse, b.profileId, b.provider, b.endpointIdentity, b.modelId) == Ok(Normalized(parse, b))
    ensures ReadsBack(parse) ==> (Normalized(parse, b) == b <==> CanonicalAddress(parse, b.endpointIdentity))
  {
    hide Identity, Loopback, TargetText, HexText, Canonical, CanonicalAddress;
    MadeBindingVerifies(sha, parse, b.profileId, b.provider, b.endpointIdentity, b.modelId);
    CanonicalIsOwnIdentity(parse, b.endpointIdentity);
  }

  const HOST_URL := Url("https", "", None, Some("h"), None, "/", None, None)

  /** A library that knows one address, in two spellings. */
  const TWO_SPELLINGS: UrlParser := address => if address == "https://h" || address == "https://h/" then Some(HOST_URL) else None

  lemma HostIdentity()
    ensures Acceptable(HOST_URL) && Identity(HOST_URL) == "https://h/" && Canonical(HOST_URL) == HOST_URL
  {
    assert "/"[..0] == "" && TrimSlashes("/") == "";
    assert Lower("h") == "h";
  }

  /** A binding that verifies although its address is not canonical. */
  lemma VerifiesWithoutCanonical(sha: string -> string) returns (b: Binding)
    ensures ReadsBack(TWO_SPELLINGS) && Verifies(sha, TWO_SPELLINGS, b)
    ensures !CanonicalAddress(TWO_SPELLINGS, b.endpointIdentity) && Normalized(TWO_SPELLINGS, b) != b
  {
    hide TargetText, HexText, Identity, Canonical;
    HostIdentity();
    b := Binding(0, "p", "https://h", "m", HexText(sha(TargetText(0, "p", "https://h/", "m"))));
    assert !Utf8.Blank("p") && !Utf8.Blank("m");
    CanonicalIsOwnIdentity(TWO_SPELLINGS, b.endpointIdentity);
  }
}
