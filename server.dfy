/**
 * The collecting server: the keyword threat detector, the `/api/log`
 * ingest handler over an append-only store of rows, and the `/api/auth`
 * token issuer. JWT signing and checking, the clock and the SQLite
 * connection are outside the model: the token check is a predicate
 * passed in, the clock a number of seconds passed in.
 */
module Server {
  import opened Optional
  import opened Ascii
  import opened TextMatch

  // ---------- detect_threat ----------

  /** `THREAT_KEYWORDS`, already in lower case. */
  const ThreatKeywords: seq<string> := [
    "failed password", "unauthorized", "segmentation fault", "root access", "malware",
    "trojan", "bruteforce", "sql injection", "permission denied", "error"
  ]

  /** `any(word in msg for word in keywords)`. */
  function AnyKeyword(keywords: seq<string>, msg: string): (b: bool)
    ensures b <==> exists k :: 0 <= k < |keywords| && Contains(msg, keywords[k])
  {
    if keywords == [] then false
    else if Contains(msg, keywords[0]) then true
    else
      var rest := AnyKeyword(keywords[1..], msg);
      assert forall k :: 1 <= k < |keywords| ==> keywords[k] == keywords[1..][k - 1];
      assert rest ==> exists k :: 0 <= k < |keywords| && Contains(msg, keywords[k]) by {
        if rest {
          var k :| 0 <= k < |keywords[1..]| && Contains(msg, keywords[1..][k]);
          assert Contains(msg, keywords[k + 1]);
        }
      }
      rest
  }

  /** `detect_threat`: some keyword occurs in the lower-cased message. */
  function DetectThreat(message: string): (b: bool)
    ensures b <==> exists k :: 0 <= k < |ThreatKeywords| && Contains(Lower(message), ThreatKeywords[k])
  {
    AnyKeyword(ThreatKeywords, Lower(message))
  }

  /** Upper- or lower-casing the message does not change the verdict. */
  lemma DetectThreatIgnoresCase(message: string)
    ensures DetectThreat(Upper(message)) == DetectThreat(message)
    ensures DetectThreat(Lower(message)) == DetectThreat(message)
  {
    FoldForgetsCase(message);
  }

  /** Every keyword is non-empty, so the empty message is no threat. */
  lemma EmptyMessageIsNoThreat()
    ensures !DetectThreat("")
  {
    assert Lower("") == "";
    forall k | 0 <= k < |ThreatKeywords| ensures !Contains("", ThreatKeywords[k]) {
      assert |ThreatKeywords[k]| > 0;
    }
  }

  /** A threat stays a threat whatever text surrounds it. */
  lemma DetectThreatExtends(p: string, m: string, s: string)
    requires DetectThreat(m)
    ensures DetectThreat(p + m + s)
  {
    var k :| 0 <= k < |ThreatKeywords| && Contains(Lower(m), ThreatKeywords[k]);
    LowerConcat(p, m);
    LowerConcat(p + m, s);
    ContainsExtends(Lower(p), Lower(m), ThreatKeywords[k], Lower(s));
    assert Contains(Lower(p + m + s), ThreatKeywords[k]);
  }

  // ---------- requests and replies ----------

  /** A JSON error reply with its status code, or a JSON `status` reply with code 200. */
  datatype Reply = Fail(code: nat, error: string) | Done(status: string)

  /** The JSON body of a `/api/log` request: each field may be absent. */
  datatype LogBody = LogBody(clientId: Option<string>, level: Option<string>, message: Option<string>)

  /**
   * What `log()` reads from a request: the `access_token` cookie, the
   * `X-MAC-ADDRESS` header, the remote address and the JSON body.
   */
  datatype LogRequest = LogRequest(token: Option<string>, mac: Option<string>, remoteAddr: string, body: LogBody)

  /** `AUTHORIZED_MACS` when the environment does not set it. */
  const DefaultAuthorizedMacs: seq<string> := ["AA:BB:CC:00:01", "AA:BB:CC:00:02"]

  /** `if not token`: an absent cookie and an empty one both count as missing. */
  predicate HasToken(token: Option<string>) {
    token.Some? && token.value != ""
  }

  /** `client_mac in AUTHORIZED_MACS`; an absent header is never listed. */
  predicate Listed(mac: Option<string>, macs: seq<string>) {
    mac.Some? && mac.value in macs
  }

  /**
   * The guards of `log()` in order: a token, a token that decodes, a listed
   * MAC. `None` when the request passes them all.
   */
  function LogGuard(token: Option<string>, mac: Option<string>, decodes: string -> bool, macs: seq<string>): (r: Option<Reply>)
    ensures r.None? <==> HasToken(token) && decodes(token.value) && Listed(mac, macs)
    ensures !HasToken(token) ==> r == Some(Fail(401, "JWT required"))
    ensures HasToken(token) && !decodes(token.value) ==> r == Some(Fail(401, "Invalid JWT"))
    ensures HasToken(token) && decodes(token.value) && !Listed(mac, macs) ==> r == Some(Fail(403, "Unauthorized MAC"))
  {
    if !HasToken(token) then Some(Fail(401, "JWT required"))
    else if !decodes(token.value) then Some(Fail(401, "Invalid JWT"))
    else if !Listed(mac, macs) then Some(Fail(403, "Unauthorized MAC"))
    else None
  }

  /** The MAC is not looked at until the token has been accepted. */
  lemma TokenCheckedBeforeMac(token: Option<string>, mac1: Option<string>, mac2: Option<string>,
                              decodes: string -> bool, macs: seq<string>)
    requires !(HasToken(token) && decodes(token.value))
    ensures LogGuard(token, mac1, decodes, macs) == LogGuard(token, mac2, decodes, macs)
    ensures LogGuard(token, mac1, decodes, macs).value.code == 401
  {
  }

  // ---------- the store ----------

  /** One row of the `logs` or `threats` table, without its generated id. */
  datatype Row = Row(timestamp: string, clientId: string, mac: string, ip: string, level: string, message: string)

  /**
   * The row `log()` inserts for an accepted request: a field present in the
   * body is kept as it is, even when empty; an absent one takes its default.
   */
  function RowOf(req: LogRequest, mac: string, timestamp: string): (row: Row)
    ensures row.timestamp == timestamp && row.mac == mac && row.ip == req.remoteAddr
    ensures req.body.clientId.Some? ==> row.clientId == req.body.clientId.value
    ensures req.body.clientId.None? ==> row.clientId == "unknown"
    ensures req.body.level.Some? ==> row.level == req.body.level.value
    ensures req.body.level.None? ==> row.level == "INFO"
    ensures req.body.message.Some? ==> row.message == req.body.message.value
    ensures req.body.message.None? ==> row.message == ""
  {
    Row(timestamp, req.body.clientId.GetOr("unknown"), mac, req.remoteAddr,
        req.body.level.GetOr("INFO"), req.body.message.GetOr(""))
  }

  /** The rows of `logs` whose message is a threat, in order: what `threats` holds. */
  function ThreatRows(logs: seq<Row>): (r: seq<Row>)
    ensures |r| <= |logs|
    ensures forall j :: 0 <= j < |r| ==> DetectThreat(r[j].message)
  {
    if logs == [] then []
    else
      var rest := ThreatRows(logs[..|logs| - 1]);
      var last := logs[|logs| - 1];
      if DetectThreat(last.message) then rest + [last] else rest
  }

  /** A row is in `threats` exactly when it is in `logs` and its message is a threat. */
  lemma {:induction false} ThreatRowsMembers(logs: seq<Row>)
    ensures forall row :: row in ThreatRows(logs) <==> row in logs && DetectThreat(row.message)
  {
    if logs != [] {
      ThreatRowsMembers(logs[..|logs| - 1]);
      assert forall row :: row in logs <==> row in logs[..|logs| - 1] || row == logs[|logs| - 1];
    }
  }

  lemma ThreatRowsSnoc(logs: seq<Row>, row: Row)
    ensures ThreatRows(logs + [row]) == ThreatRows(logs) + if DetectThreat(row.message) then [row] else []
  {
    assert (logs + [row])[..|logs|] == logs;
  }

  /** A body without fields gives an INFO row from "unknown" with an empty, harmless message. */
  lemma EmptyBodyDefaults(token: Option<string>, mac: string, remoteAddr: string, timestamp: string)
    ensures var row := RowOf(LogRequest(token, Some(mac), remoteAddr, LogBody(None, None, None)), mac, timestamp);
      row.clientId == "unknown" && row.level == "INFO" && row.message == "" && !DetectThreat(row.message)
  {
    EmptyMessageIsNoThreat();
  }

  /** The `logs` and `threats` tables as append-only lists. */
  class Store {
    var logs: seq<Row>
    var threats: seq<Row>

    /** `threats` holds exactly the logged rows whose message is a threat, in logging order. */
    ghost predicate Valid()
      reads this
    {
      threats == ThreatRows(logs)
    }

    /**
     * Opening the database: `CREATE TABLE IF NOT EXISTS` keeps whatever rows
     * the tables already hold, and a fresh database starts with both empty.
     */
    constructor (existingLogs: seq<Row>, existingThreats: seq<Row>)
      ensures logs == existingLogs && threats == existingThreats
      ensures existingLogs == [] && existingThreats == [] ==> Valid()
    {
      logs, threats := existingLogs, existingThreats;
    }

    /**
     * `log()`: a request that fails a guard gets its error and stores
     * nothing; an accepted one is stored in `logs`, and in `threats` as
     * well exactly when its message is a threat.
     */
    method Log(req: LogRequest, decodes: string -> bool, macs: seq<string>, timestamp: string) returns (reply: Reply)
      modifies this
      ensures old(Valid()) ==> Valid()
      ensures reply == match LogGuard(req.token, req.mac, decodes, macs) case Some(fail) => fail case None => Done("ok")
      ensures reply.Fail? ==> logs == old(logs) && threats == old(threats)
      ensures reply.Done? ==>
        var row := RowOf(req, req.mac.value, timestamp);
        logs == old(logs) + [row] &&
        threats == old(threats) + (if DetectThreat(row.message) then [row] else [])
    {
      var guard := LogGuard(req.token, req.mac, decodes, macs);
      if guard.Some? {
        return guard.value;
      }
      var row := RowOf(req, req.mac.value, timestamp);
      ThreatRowsSnoc(logs, row);
      logs := logs + [row];
      if DetectThreat(row.message) {
        threats := threats + [row];
      }
      reply := Done("ok");
    }
  }

  // ---------- auth ----------

  /** `timedelta(hours=1)` in seconds. */
  const TokenLifetime: int := 3600

  /** The claims of `create_jwt`: the client's address and the expiry, in seconds. */
  datatype Claims = Claims(ip: string, exp: int)

  /** The attributes `set_cookie` gives the `access_token` cookie. */
  datatype Cookie = Cookie(key: string, httpOnly: bool, secure: bool, sameSite: string, maxAge: int)

  datatype AuthReply = Denied(code: nat, error: string) | Issued(status: string, claims: Claims, cookie: Cookie)

  /**
   * `auth()` at time `now`: a listed MAC gets a token for its address that
   * expires when the cookie carrying it does; any other MAC gets 403.
   */
  function Auth(mac: Option<string>, ip: string, now: int, macs: seq<string>): (r: AuthReply)
    ensures r.Issued? <==> Listed(mac, macs)
    ensures r.Denied? ==> r == Denied(403, "Unauthorized MAC")
    ensures r.Issued? ==>
      r.status == "authenticated" && r.claims.ip == ip &&
      r.claims.exp == now + r.cookie.maxAge && r.cookie.maxAge == 3600 &&
      r.cookie.key == "access_token" && r.cookie.httpOnly && !r.cookie.secure && r.cookie.sameSite == "Strict"
  {
    if !Listed(mac, macs) then Denied(403, "Unauthorized MAC")
    else Issued("authenticated", Claims(ip, now + TokenLifetime), Cookie("access_token", true, false, "Strict", 3600))
  }

  /** With the default list, a MAC outside it is refused and one inside it is served. */
  lemma DefaultMacs(now: int)
    ensures Auth(Some("AA:BB:CC:00:01"), "10.0.0.5", now, DefaultAuthorizedMacs).Issued?
    ensures Auth(Some("AA:BB:CC:00:03"), "10.0.0.5", now, DefaultAuthorizedMacs).Denied?
    ensures Auth(None, "10.0.0.5", now, DefaultAuthorizedMacs).Denied?
  {
    assert DefaultAuthorizedMacs[0] == "AA:BB:CC:00:01";
    assert "AA:BB:CC:00:03" != DefaultAuthorizedMacs[0] && "AA:BB:CC:00:03" != DefaultAuthorizedMacs[1];
  }
}
