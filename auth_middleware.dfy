/**
 * The `verify_request` decorator: four checks in a fixed order, each with
 * its own error reply, and on success three attributes written onto the
 * request before the wrapped handler runs. Token decoding is a function
 * passed in; the allow-lists are parameters.
 */
module AuthMiddleware {
  import opened Optional

  /** The claims of a decoded token. */
  type Claims = map<string, string>

  /** `jwt.decode`: the claims of a token it accepts, `None` for one it rejects. */
  type Decoder = string -> Option<Claims>

  /** The error reply of a failed check, or the go-ahead for the handler with the decoded claims. */
  datatype Verdict = Reject(code: nat, error: string) | Admit(claims: Claims)

  /** `if not token`: an absent cookie and an empty one both count as missing (the same test as `Server.HasToken`, in this module's own source file). */
  predicate HasToken(token: Option<string>) {
    token.Some? && token.value != ""
  }

  /** `if not mac or mac not in ALLOWED_MACS`. */
  predicate MacAllowed(mac: Option<string>, allowedMacs: seq<string>) {
    mac.Some? && mac.value != "" && mac.value in allowedMacs
  }

  /** The checks of the wrapper, first failure wins. */
  function Gate(token: Option<string>, mac: Option<string>, ip: string, decode: Decoder,
                allowedMacs: seq<string>, allowedIps: seq<string>): (v: Verdict)
    ensures !HasToken(token) ==> v == Reject(401, "JWT required")
    ensures HasToken(token) && decode(token.value).None? ==> v == Reject(401, "Invalid token")
    ensures HasToken(token) && decode(token.value).Some? && !MacAllowed(mac, allowedMacs) ==>
      v == Reject(403, "Unauthorized MAC")
    ensures HasToken(token) && decode(token.value).Some? && MacAllowed(mac, allowedMacs) && ip !in allowedIps ==>
      v == Reject(403, "Unauthorized IP")
    ensures v.Admit? <==>
      HasToken(token) && decode(token.value).Some? && MacAllowed(mac, allowedMacs) && ip in allowedIps
    ensures v.Admit? ==> v.claims == decode(token.value).value
  {
    if !HasToken(token) then Reject(401, "JWT required")
    else
      match decode(token.value)
      case None => Reject(401, "Invalid token")
      case Some(claims) =>
        if !MacAllowed(mac, allowedMacs) then Reject(403, "Unauthorized MAC")
        else if ip !in allowedIps then Reject(403, "Unauthorized IP")
        else Admit(claims)
  }

  /** Without a token the answer is 401 whatever the MAC and the address are. */
  lemma MissingTokenIgnoresMacAndIp(token: Option<string>, mac1: Option<string>, ip1: string,
                                    mac2: Option<string>, ip2: string, decode: Decoder,
                                    allowedMacs: seq<string>, allowedIps: seq<string>)
    requires !HasToken(token)
    ensures Gate(token, mac1, ip1, decode, allowedMacs, allowedIps) ==
            Gate(token, mac2, ip2, decode, allowedMacs, allowedIps) == Reject(401, "JWT required")
  {
  }

  /** The MAC is checked before the address: a request failing both gets the MAC error. */
  lemma MacCheckedBeforeIp(token: Option<string>, mac: Option<string>, ip: string, decode: Decoder,
                           allowedMacs: seq<string>, allowedIps: seq<string>)
    requires HasToken(token) && decode(token.value).Some?
    requires !MacAllowed(mac, allowedMacs) && ip !in allowedIps
    ensures Gate(token, mac, ip, decode, allowedMacs, allowedIps) == Reject(403, "Unauthorized MAC")
  {
  }

  /** An empty MAC header is refused even when the empty string is on the list. */
  lemma EmptyMacRefused(token: Option<string>, ip: string, decode: Decoder, allowedIps: seq<string>)
    requires HasToken(token) && decode(token.value).Some?
    ensures Gate(token, Some(""), ip, decode, [""], allowedIps) == Reject(403, "Unauthorized MAC")
  {
  }

  /**
   * A request as the wrapper sees it, with the three attributes it adds;
   * `annotated` says whether they have been written.
   */
  class Request {
    const accessToken: Option<string>
    const macHeader: Option<string>
    const remoteAddr: string
    var annotated: bool
    var clientMac: string
    var clientId: Option<string>
    var clientIp: string

    constructor (accessToken: Option<string>, macHeader: Option<string>, remoteAddr: string)
      ensures this.accessToken == accessToken && this.macHeader == macHeader && this.remoteAddr == remoteAddr
      ensures !annotated
    {
      this.accessToken := accessToken;
      this.macHeader := macHeader;
      this.remoteAddr := remoteAddr;
      annotated := false;
      clientMac := "";
      clientId := None;
      clientIp := "";
    }
  }

  /** `payload.get("client_id")`. */
  function ClientIdOf(claims: Claims): (id: Option<string>)
    ensures id.Some? <==> "client_id" in claims
    ensures id.Some? ==> id.value == claims["client_id"]
  {
    if "client_id" in claims then Some(claims["client_id"]) else None
  }

  /**
   * The wrapper: the verdict of the checks on this request; when it admits,
   * the request now carries the MAC, the token's `client_id` and the remote
   * address, and nothing changes otherwise.
   */
  method VerifyRequest(req: Request, decode: Decoder, allowedMacs: seq<string>, allowedIps: seq<string>)
    returns (verdict: Verdict)
    modifies req
    ensures verdict == Gate(req.accessToken, req.macHeader, req.remoteAddr, decode, allowedMacs, allowedIps)
    ensures verdict.Admit? ==>
      req.annotated && req.clientMac == req.macHeader.value &&
      req.clientId == ClientIdOf(verdict.claims) && req.clientIp == req.remoteAddr
    ensures verdict.Reject? ==> unchanged(req)
  {
    verdict := Gate(req.accessToken, req.macHeader, req.remoteAddr, decode, allowedMacs, allowedIps);
    if verdict.Admit? {
      req.clientMac := req.macHeader.value;
      req.clientId := ClientIdOf(verdict.claims);
      req.clientIp := req.remoteAddr;
      req.annotated := true;
    }
  }
}
