/**
 * The mini-SIEM: `parse_log_line` turns a syslog-style line into an event
 * (timestamp, host, user, ip, action, raw text), and the scanner keeps three
 * lists and a flag: every parsed event, every alert (an event whose action is
 * not INFO), the alerts not yet shown, and whether a notification is pending.
 */
module Siem {
  import opened Optional
  import opened Ascii
  import opened TextMatch

  /** The year prefixed to every timestamp before parsing. */
  const NowYear: string := "2026"

  datatype DateTime = DateTime(year: int, month: int, day: int, hour: int, minute: int, second: int)

  /**
   * `datetime.strptime(text, "%Y %b %d %H:%M:%S")`, supplied by the host:
   * `None` where it raises.
   */
  type Strptime = string -> Option<DateTime>

  /** The action labels of an event: the names of `THREAT_RULES` and "INFO". */
  datatype Action =
    | BruteForce   // "BRUTE_FORCE"
    | PrivEsc      // "PRIV_ESC"
    | ExecBlocked  // "EXEC_BLOCKED"
    | NetworkScan  // "NETWORK_SCAN"
    | Info         // "INFO"

  /** `THREAT_RULES`, in the dict's insertion order. */
  const ThreatRules: seq<Action> := [BruteForce, PrivEsc, ExecBlocked, NetworkScan]

  datatype Event = Event(timestamp: DateTime, host: string, user: string, ip: string, action: Action, raw: string)

  // ---------- detection rules ----------

  /** `(sudo|su).*COMMAND` matches from `i`, its `COMMAND` starting at `j`. */
  predicate PrivEscAt(s: string, i: int, j: int) {
    StartsAt(s, j, "COMMAND") && 0 <= i &&
    ((StartsAt(s, i, "sudo") && i + 4 <= j && NoLineFeed(s, i + 4, j)) ||
     (StartsAt(s, i, "su") && i + 2 <= j && NoLineFeed(s, i + 2, j)))
  }

  /** `pattern.search(line)` for one rule; only NETWORK_SCAN ignores case. */
  predicate RuleMatches(a: Action, line: string) {
    match a
    case BruteForce => Contains(line, "Failed password")
    case PrivEsc => exists i, j :: 0 <= i <= j <= |line| && PrivEscAt(line, i, j)
    case ExecBlocked => Contains(line, "EXEC_BLOCKED")
    case NetworkScan => Contains(Lower(line), "nmap") || Contains(Lower(line), "port scan")
    case Info => false
  }

  /** A `sudo` match is an `su` match as well: "do" is no line feed. */
  lemma SudoStartsWithSu(line: string, i: int, j: int)
    requires StartsAt(line, i, "sudo") && i + 4 <= j <= |line| && NoLineFeed(line, i + 4, j)
    ensures StartsAt(line, i, "su") && NoLineFeed(line, i + 2, j)
  {
    var w := line[i..i + 4];
    assert line[i] == w[0] && line[i + 1] == w[1] && line[i + 2] == w[2] && line[i + 3] == w[3];
    assert line[i..i + 2] == "su";
  }

  /** The `sudo` alternative adds nothing: PRIV_ESC fires exactly on "su", later "COMMAND", no line feed between. */
  lemma PrivEscIsSuThenCommand(line: string)
    ensures RuleMatches(PrivEsc, line) <==>
      exists i, j :: 0 <= i <= j <= |line| && StartsAt(line, i, "su") && i + 2 <= j &&
                     StartsAt(line, j, "COMMAND") && NoLineFeed(line, i + 2, j)
  {
    if RuleMatches(PrivEsc, line) {
      var i, j :| 0 <= i <= j <= |line| && PrivEscAt(line, i, j);
      if StartsAt(line, i, "sudo") && i + 4 <= j && NoLineFeed(line, i + 4, j) {
        SudoStartsWithSu(line, i, j);
      }
      assert StartsAt(line, i, "su") && NoLineFeed(line, i + 2, j);
    } else {
      forall i, j | 0 <= i <= j <= |line| && StartsAt(line, i, "su") && i + 2 <= j &&
                    StartsAt(line, j, "COMMAND") && NoLineFeed(line, i + 2, j)
        ensures false
      {
        assert PrivEscAt(line, i, j);
      }
    }
  }

  /** The first rule of `rules` that matches (the `for ... break` loop). */
  function FirstRule(rules: seq<Action>, line: string): (r: Option<nat>)
    ensures r.Some? ==> r.value < |rules| && RuleMatches(rules[r.value], line) &&
                        forall k :: 0 <= k < r.value ==> !RuleMatches(rules[k], line)
    ensures r.None? ==> forall k :: 0 <= k < |rules| ==> !RuleMatches(rules[k], line)
  {
    if rules == [] then None
    else if RuleMatches(rules[0], line) then Some(0)
    else
      match FirstRule(rules[1..], line)
      case None =>
        assert forall k :: 1 <= k < |rules| ==> rules[k] == rules[1..][k - 1];
        None
      case Some(k) => Some(k + 1)
  }

  /**
   * The action `parse_log_line` assigns (the `for name, pattern in
   * THREAT_RULES.items()` loop): the first rule in table order whose pattern
   * matches the line, and INFO exactly when none does.
   */
  function Classify(line: string): (a: Action)
    ensures a == Info <==> forall k :: 0 <= k < |ThreatRules| ==> !RuleMatches(ThreatRules[k], line)
    ensures a != Info ==>
      RuleMatches(a, line) &&
      exists k :: 0 <= k < |ThreatRules| && ThreatRules[k] == a &&
                  forall m :: 0 <= m < k ==> !RuleMatches(ThreatRules[m], line)
  {
    assert forall k :: 0 <= k < |ThreatRules| ==> ThreatRules[k] != Info;
    match FirstRule(ThreatRules, line)
    case None => Info
    case Some(k) => ThreatRules[k]
  }

  /** The same decision written out rule by rule, in the order of `THREAT_RULES`. */
  lemma ClassifyInRuleOrder(line: string)
    ensures Classify(line) ==
      if RuleMatches(BruteForce, line) then BruteForce
      else if RuleMatches(PrivEsc, line) then PrivEsc
      else if RuleMatches(ExecBlocked, line) then ExecBlocked
      else if RuleMatches(NetworkScan, line) then NetworkScan
      else Info
  {
    assert ThreatRules[0] == BruteForce && ThreatRules[1] == PrivEsc;
    assert ThreatRules[2] == ExecBlocked && ThreatRules[3] == NetworkScan;
  }

  // ---------- field extraction ----------

  /** `\s([a-zA-Z0-9\-]+)\s` matches at `i`. The class excludes whitespace, so the greedy run is the only one that can be followed by `\s`. */
  predicate HostAt(s: string, i: int) {
    0 <= i < |s| && IsSpace(s[i]) &&
    var n := RunLen(s, i + 1, HostChars);
    n >= 1 && i + 1 + n < |s| && IsSpace(s[i + 1 + n])
  }

  /**
   * When `user` occurs at `i`: where the group of `user\s*=?\s*([a-zA-Z0-9\[\]_]+)`
   * starts, or `None` when the rest of the pattern fails there.
   */
  function UserValueStart(s: string, i: int): (r: Option<nat>)
    requires StartsAt(s, i, "user")
    ensures r.Some? ==> i + 4 <= r.value < |s| && InClass(s[r.value], UserChars)
  {
    var a := i + 4 + RunLen(s, i + 4, Spaces);
    if a < |s| && InClass(s[a], UserChars) then Some(a)
    else if a < |s| && s[a] == '=' then
      var b := a + 1 + RunLen(s, a + 1, Spaces);
      if b < |s| && InClass(s[b], UserChars) then Some(b) else None
    else None
  }

  /** `s[i..i + n + 2]` is whitespace, `n >= 1` host characters and whitespace: the shape of `\s([a-zA-Z0-9\-]+)\s`. */
  predicate DelimitedHostRun(s: string, i: int, n: int) {
    0 <= i < |s| && IsSpace(s[i]) && 1 <= n && i + 1 + n < |s| &&
    AllIn(s, i + 1, i + 1 + n, HostChars) && IsSpace(s[i + 1 + n])
  }

  /**
   * The host pattern read as a regular expression: it matches at `i` exactly
   * when some whitespace-delimited run of host characters starts there.
   */
  lemma HostAtIsDelimitedRun(s: string, i: int)
    ensures HostAt(s, i) <==> exists n :: DelimitedHostRun(s, i, n)
  {
    if HostAt(s, i) {
      assert DelimitedHostRun(s, i, RunLen(s, i + 1, HostChars));
    }
    if exists n :: DelimitedHostRun(s, i, n) {
      var n :| DelimitedHostRun(s, i, n);
      assert !InClass(s[i + 1 + n], HostChars);
      RunLenUnique(s, i + 1, HostChars, n);
    }
  }

  predicate UserAt(s: string, i: int) {
    StartsAt(s, i, "user") && UserValueStart(s, i).Some?
  }

  /** `s[lo..hi]` has the shape `\s*=?\s*`. */
  predicate GapShape(s: string, lo: int, hi: int)
    requires 0 <= lo <= hi <= |s|
  {
    exists m1, m2 :: lo <= m1 <= m2 <= hi && AllIn(s, lo, m1, Spaces) &&
      (m2 == m1 || (m2 == m1 + 1 && s[m1] == '=')) && AllIn(s, m2, hi, Spaces)
  }

  /** Characters of the user class are neither whitespace nor `=`. */
  lemma UserCharsAreNotGap(c: char)
    requires InClass(c, UserChars)
    ensures !IsSpace(c) && c != '='
  {
  }

  /**
   * The group start is forced: every way the regex engine can split
   * `\s*=?\s*` to reach a character of the class reaches the one
   * `UserValueStart` picks, so backtracking cannot produce another group.
   */
  lemma UserValueStartIsTheMatch(s: string, i: int, r: int)
    requires StartsAt(s, i, "user")
    requires i + 4 <= r < |s| && InClass(s[r], UserChars)
    ensures GapShape(s, i + 4, r) <==> UserValueStart(s, i) == Some(r)
  {
    if GapShape(s, i + 4, r) {
      GapLeadsToStart(s, i, r);
    }
    if UserValueStart(s, i) == Some(r) {
      StartHasGap(s, i, r);
    }
  }

  lemma GapLeadsToStart(s: string, i: int, r: int)
    requires StartsAt(s, i, "user")
    requires i + 4 <= r < |s| && InClass(s[r], UserChars)
    requires GapShape(s, i + 4, r)
    ensures UserValueStart(s, i) == Some(r)
  {
    var m1, m2 :| i + 4 <= m1 <= m2 <= r && AllIn(s, i + 4, m1, Spaces) &&
      (m2 == m1 || (m2 == m1 + 1 && s[m1] == '=')) && AllIn(s, m2, r, Spaces);
    if m2 == m1 {
      SpacesLeadToStart(s, i, m1, r);
    } else {
      EqualsLeadsToStart(s, i, m1, r);
    }
  }

  /** The gap is whitespace only: the first run of spaces ends at the group. */
  lemma SpacesLeadToStart(s: string, i: int, m: int, r: int)
    requires StartsAt(s, i, "user")
    requires i + 4 <= m <= r < |s| && InClass(s[r], UserChars)
    requires AllIn(s, i + 4, m, Spaces) && AllIn(s, m, r, Spaces)
    ensures UserValueStart(s, i) == Some(r)
  {
    UserCharsAreNotGap(s[r]);
    assert AllIn(s, i + 4, r, Spaces);
    RunLenUnique(s, i + 4, Spaces, r - i - 4);
  }

  /** The gap holds an `=` at `m`: the first run of spaces ends there, the second at the group. */
  lemma EqualsLeadsToStart(s: string, i: int, m: int, r: int)
    requires StartsAt(s, i, "user")
    requires i + 4 <= m < r < |s| && InClass(s[r], UserChars)
    requires AllIn(s, i + 4, m, Spaces) && s[m] == '=' && AllIn(s, m + 1, r, Spaces)
    ensures UserValueStart(s, i) == Some(r)
  {
    UserCharsAreNotGap(s[r]);
    RunLenUnique(s, i + 4, Spaces, m - i - 4);
    RunLenUnique(s, m + 1, Spaces, r - m - 1);
    assert !InClass(s[m], UserChars);
  }

  lemma StartHasGap(s: string, i: int, r: int)
    requires StartsAt(s, i, "user")
    requires UserValueStart(s, i) == Some(r)
    ensures i + 4 <= r <= |s| && GapShape(s, i + 4, r)
  {
    var a := i + 4 + RunLen(s, i + 4, Spaces);
    if a < |s| && InClass(s[a], UserChars) {
      assert a == r;
      assert i + 4 <= a <= a <= r && AllIn(s, i + 4, a, Spaces) && AllIn(s, a, r, Spaces);
    } else {
      assert a < |s| && s[a] == '=';
      var b := a + 1 + RunLen(s, a + 1, Spaces);
      assert b == r;
      assert i + 4 <= a <= a + 1 <= r && AllIn(s, i + 4, a, Spaces) && s[a] == '=' && AllIn(s, a + 1, r, Spaces);
    }
  }

  /** `s[p..q]` is one to three digits followed by a dot: `\d{1,3}\.`. */
  predicate DotGroup(s: string, p: int, q: int) {
    0 <= p && p + 2 <= q <= p + 4 && q <= |s| && AllIn(s, p, q - 1, Digits) && s[q - 1] == '.'
  }

  /** `s[p..e]` is `k` groups of one to three digits separated by dots: `\d{1,3}(?:\.\d{1,3}){k-1}`. */
  predicate Groups(s: string, p: int, e: int, k: nat)
    requires 0 <= p <= e <= |s|
    decreases k
  {
    if k <= 1 then k == 1 && 1 <= e - p <= 3 && AllIn(s, p, e, Digits)
    else exists q :: p < q <= e && DotGroup(s, p, q) && Groups(s, q, e, k - 1)
  }

  /** `\d{1,3}\.` at `p`, returning the position after the dot. The dot is not a digit, so the greedy count must be the whole digit run. */
  function DottedOctet(s: string, p: int): (r: Option<nat>)
    requires 0 <= p <= |s|
    ensures r.Some? ==> DotGroup(s, p, r.value)
  {
    var n := RunLen(s, p, Digits);
    if 1 <= n <= 3 && p + n < |s| && s[p + n] == '.' then Some(p + n + 1) else None
  }

  /** The last group `\d{1,3}` at `p`, greedy: where it ends, or `None` when no digit is there. */
  function LastGroupEnd(s: string, p: int): (r: Option<nat>)
    requires 0 <= p <= |s|
    ensures r.Some? ==> p < r.value <= p + 3 && r.value <= |s| && AllIn(s, p, r.value, Digits)
    ensures r.None? <==> RunLen(s, p, Digits) == 0
  {
    var n := RunLen(s, p, Digits);
    if n == 0 then None else Some(p + if n < 3 then n else 3)
  }

  /** The greedy last group reaches at least as far as any one to three digits at `p`. */
  lemma LastGroupEndAtLeast(s: string, p: int, e: int)
    requires 0 <= p && p < e <= p + 3 && e <= |s| && AllIn(s, p, e, Digits)
    ensures LastGroupEnd(s, p).Some? && e <= LastGroupEnd(s, p).value
  {
    RunLenAtLeast(s, p, Digits, e - p);
  }

  /** Where `\d{1,3}(?:\.\d{1,3}){3}` ends when it matches at `i`; the last group is greedy, up to three digits. */
  function IpEnd(s: string, i: int): (r: Option<nat>)
    requires 0 <= i <= |s|
    ensures r.Some? ==> i < r.value <= |s|
  {
    match DottedOctet(s, i)
    case None => None
    case Some(p1) =>
      match DottedOctet(s, p1)
      case None => None
      case Some(p2) =>
        match DottedOctet(s, p2)
        case None => None
        case Some(p3) => LastGroupEnd(s, p3)
  }

  /** The span found by `IpEnd` has the dotted-quad shape: three dotted groups, then one to three digits. */
  lemma OctetsOfSpan(s: string, i: int, p1: int, p2: int, p3: int, e: int)
    requires DotGroup(s, i, p1) && DotGroup(s, p1, p2) && DotGroup(s, p2, p3)
    requires p3 < e <= p3 + 3 && e <= |s| && AllIn(s, p3, e, Digits)
    ensures Groups(s, i, e, 4)
  {
    assert Groups(s, p3, e, 1);
    assert Groups(s, p2, e, 2);
    assert Groups(s, p1, e, 3);
  }

  predicate IpAt(s: string, i: int) {
    0 <= i <= |s| && IpEnd(s, i).Some?
  }

  /** `s[i..e]` is a dotted quad: the shape of the ip pattern, independent of how it is searched. */
  predicate QuadAt(s: string, i: int, e: int) {
    0 <= i <= e <= |s| && Groups(s, i, e, 4)
  }

  /** What the pattern matches is a dotted quad. */
  lemma IpEndIsQuad(s: string, i: int)
    requires IpAt(s, i)
    ensures QuadAt(s, i, IpEnd(s, i).value)
  {
    var p1 := DottedOctet(s, i).value;
    var p2 := DottedOctet(s, p1).value;
    var p3 := DottedOctet(s, p2).value;
    OctetsOfSpan(s, i, p1, p2, p3, LastGroupEnd(s, p3).value);
  }

  /** One to three digits and a dot at `p`: what `DottedOctet` reads there. */
  lemma DottedOctetReads(s: string, p: int, q: int)
    requires DotGroup(s, p, q)
    ensures DottedOctet(s, p) == Some(q)
  {
    RunLenUnique(s, p, Digits, q - 1 - p);
  }

  /** The first of `k >= 2` dotted groups at `p` is the one `DottedOctet` reads there. */
  lemma GroupsUncons(s: string, p: int, e: int, k: nat) returns (q: int)
    requires 0 <= p <= e <= |s| && k >= 2 && Groups(s, p, e, k)
    ensures p < q <= e && DottedOctet(s, p) == Some(q) && Groups(s, q, e, k - 1)
  {
    q :| p < q <= e && DotGroup(s, p, q) && Groups(s, q, e, k - 1);
    DottedOctetReads(s, p, q);
  }

  /** Three dotted groups read by `DottedOctet`: the match ends where the last group does. */
  lemma IpEndAfterGroups(s: string, i: int, p1: int, p2: int, p3: int)
    requires 0 <= i <= |s| && DottedOctet(s, i) == Some(p1)
    requires 0 <= p1 <= |s| && DottedOctet(s, p1) == Some(p2)
    requires 0 <= p2 <= |s| && DottedOctet(s, p2) == Some(p3)
    requires p3 <= |s|
    ensures IpEnd(s, i) == LastGroupEnd(s, p3)
  {
  }

  /**
   * Every dotted quad is found: where `s[i..e]` has the shape, the pattern
   * matches at `i`, and its greedy last group reaches at least to `e`.
   */
  lemma QuadIsFound(s: string, i: int, e: int)
    requires QuadAt(s, i, e)
    ensures IpAt(s, i) && e <= IpEnd(s, i).value
  {
    var p1 := GroupsUncons(s, i, e, 4);
    var p2 := GroupsUncons(s, p1, e, 3);
    var p3 := GroupsUncons(s, p2, e, 2);
    assert 1 <= e - p3 <= 3 && AllIn(s, p3, e, Digits);
    LastGroupEndAtLeast(s, p3, e);
    IpEndAfterGroups(s, i, p1, p2, p3);
  }

  /**
   * The match at `i` is the longest dotted quad starting there, and no
   * match means no dotted quad starts there.
   */
  lemma IpEndIsLongestQuad(s: string, i: int)
    requires 0 <= i <= |s|
    ensures IpEnd(s, i).None? ==> forall e :: !QuadAt(s, i, e)
    ensures IpEnd(s, i).Some? ==>
      QuadAt(s, i, IpEnd(s, i).value) && forall e :: IpEnd(s, i).value < e ==> !QuadAt(s, i, e)
  {
    forall e | QuadAt(s, i, e) ensures IpAt(s, i) && e <= IpEnd(s, i).value {
      QuadIsFound(s, i, e);
    }
    if IpAt(s, i) {
      IpEndIsQuad(s, i);
    }
  }

  /** Where the host, user and ip patterns match in `line`, as predicates on the start position. */
  function HostMatcher(line: string): int -> bool { i => HostAt(line, i) }

  function UserMatcher(line: string): int -> bool { i => UserAt(line, i) }

  function IpMatcher(line: string): int -> bool { i => IpAt(line, i) }

  /** `re.search` scans left to right: the leftmost position of `from..hi` where `m` holds. */
  function Leftmost(m: int -> bool, from: int, hi: int): (r: Option<nat>)
    requires 0 <= from <= hi
    ensures r.Some? ==> from <= r.value <= hi && m(r.value) && forall j :: from <= j < r.value ==> !m(j)
    ensures r.None? ==> forall j :: from <= j <= hi ==> !m(j)
    decreases hi - from
  {
    if m(from) then Some(from)
    else if from == hi then None
    else Leftmost(m, from + 1, hi)
  }

  /**
   * `group(1)` of the host pattern matched at `i`: the whole class run after
   * the whitespace, which is followed by whitespace again.
   */
  function HostGroup(line: string, i: int): (host: string)
    requires HostAt(line, i)
    ensures host != [] && AllIn(host, 0, |host|, HostChars) && StartsAt(line, i + 1, host)
    ensures i + 1 + |host| < |line| && IsSpace(line[i + 1 + |host|])
  {
    var host := line[i + 1..i + 1 + RunLen(line, i + 1, HostChars)];
    assert forall j :: 0 <= j < |host| ==> host[j] == line[i + 1 + j];
    host
  }

  /** `host_match.group(1) if host_match else "unknown"`. */
  function ExtractHost(line: string): (host: string)
    ensures (forall i :: 0 <= i <= |line| ==> !HostAt(line, i)) ==> host == "unknown"
    ensures (exists i :: 0 <= i <= |line| && HostAt(line, i)) ==>
      exists i :: 0 <= i < |line| && HostAt(line, i) &&
        (forall j :: 0 <= j < i ==> !HostAt(line, j)) && host == HostGroup(line, i)
    ensures host != [] && AllIn(host, 0, |host|, HostChars)
  {
    match Leftmost(HostMatcher(line), 0, |line|)
    case None =>
      assert forall j :: 0 <= j <= |line| ==> !HostAt(line, j) by {
        forall j | 0 <= j <= |line| ensures !HostAt(line, j) {
          assert !HostMatcher(line)(j);
        }
      }
      assert AllIn("unknown", 0, 7, HostChars);
      "unknown"
    case Some(i) =>
      assert HostMatcher(line)(i);
      assert forall j :: 0 <= j < i ==> !HostAt(line, j) by {
        forall j | 0 <= j < i ensures !HostAt(line, j) {
          assert !HostMatcher(line)(j);
        }
      }
      HostGroup(line, i)
  }

  /** `group(1)` of the user pattern matched at `i`: the greedy class run from the forced start. */
  function UserGroup(line: string, i: int): (user: string)
    requires UserAt(line, i)
    ensures user != [] && AllIn(user, 0, |user|, UserChars) && StartsAt(line, UserValueStart(line, i).value, user)
    ensures var r := UserValueStart(line, i).value;
      r + |user| == |line| || !InClass(line[r + |user|], UserChars)
  {
    var r := UserValueStart(line, i).value;
    var n := RunLen(line, r, UserChars);
    var user := line[r..r + n];
    forall j | 0 <= j < n ensures InClass(user[j], UserChars) {
      assert user[j] == line[r + j];
    }
    user
  }

  /** `user_match.group(1) if user_match else "system"`. */
  function ExtractUser(line: string): (user: string)
    ensures (forall i :: 0 <= i <= |line| ==> !UserAt(line, i)) ==> user == "system"
    ensures (exists i :: 0 <= i <= |line| && UserAt(line, i)) ==>
      exists i :: 0 <= i < |line| && UserAt(line, i) &&
        (forall j :: 0 <= j < i ==> !UserAt(line, j)) && user == UserGroup(line, i)
    ensures user != [] && AllIn(user, 0, |user|, UserChars)
  {
    match Leftmost(UserMatcher(line), 0, |line|)
    case None =>
      assert forall j :: 0 <= j <= |line| ==> !UserAt(line, j) by {
        forall j | 0 <= j <= |line| ensures !UserAt(line, j) {
          assert !UserMatcher(line)(j);
        }
      }
      assert AllIn("system", 0, 6, UserChars);
      "system"
    case Some(i) =>
      assert UserMatcher(line)(i);
      assert forall j :: 0 <= j < i ==> !UserAt(line, j) by {
        forall j | 0 <= j < i ensures !UserAt(line, j) {
          assert !UserMatcher(line)(j);
        }
      }
      UserGroup(line, i)
  }

  /** A dotted quad starts with a digit. */
  lemma QuadStartsWithDigit(line: string, i: int)
    requires IpAt(line, i)
    ensures i < |line| && IsDigit(line[i])
  {
    var p1 := DottedOctet(line, i).value;
    assert InClass(line[i], Digits);
  }

  /** `group(1)` of the ip pattern matched at `i`: the dotted quad, which occurs in the line there and is never "-". */
  function IpGroup(line: string, i: int): (ip: string)
    requires IpAt(line, i)
    ensures ip != "-" && StartsAt(line, i, ip) && QuadAt(line, i, i + |ip|)
  {
    QuadStartsWithDigit(line, i);
    IpEndIsQuad(line, i);
    var ip := line[i..IpEnd(line, i).value];
    assert ip[0] == line[i];
    ip
  }

  /** `ip_match.group(1) if ip_match else "-"`: the leftmost dotted quad of the line. */
  function ExtractIp(line: string): (ip: string)
    ensures ip == "-" <==> forall i :: 0 <= i <= |line| ==> !IpAt(line, i)
    ensures ip != "-" ==>
      exists i :: 0 <= i < |line| && IpAt(line, i) &&
        (forall j :: 0 <= j < i ==> !IpAt(line, j)) && ip == IpGroup(line, i)
  {
    match Leftmost(IpMatcher(line), 0, |line|)
    case None =>
      assert forall j :: 0 <= j <= |line| ==> !IpAt(line, j) by {
        forall j | 0 <= j <= |line| ensures !IpAt(line, j) {
          assert !IpMatcher(line)(j);
        }
      }
      "-"
    case Some(i) =>
      assert IpMatcher(line)(i);
      assert forall j :: 0 <= j < i ==> !IpAt(line, j) by {
        forall j | 0 <= j < i ensures !IpAt(line, j) {
          assert !IpMatcher(line)(j);
        }
      }
      QuadStartsWithDigit(line, i);
      IpGroup(line, i)
  }

  /** Where the pattern matches nowhere before `i`, no dotted quad starts before `i`. */
  lemma NoQuadBefore(line: string, i: int)
    requires forall j :: 0 <= j < i ==> !IpAt(line, j)
    ensures forall j, f :: j < i ==> !QuadAt(line, j, f)
  {
    forall j, f | j < i && QuadAt(line, j, f) ensures false {
      QuadIsFound(line, j, f);
    }
  }

  /** The shape of a dotted quad that starts leftmost and runs as long as it goes, as `ip` has in `line`. */
  ghost predicate LeftmostQuad(line: string, ip: string) {
    exists i, e :: QuadAt(line, i, e) && ip == line[i..e] &&
      (forall j, f :: j < i ==> !QuadAt(line, j, f)) && (forall f :: e < f ==> !QuadAt(line, i, f))
  }

  /** A quad with none starting before it and none longer at its start is the leftmost longest one. */
  lemma LeftmostQuadFrom(line: string, i: int, e: int)
    requires QuadAt(line, i, e)
    requires forall j, f :: j < i ==> !QuadAt(line, j, f)
    requires forall f :: e < f ==> !QuadAt(line, i, f)
    ensures LeftmostQuad(line, line[i..e])
  {
  }

  /** The span of the leftmost match is the leftmost longest dotted quad. */
  lemma LeftmostMatchIsLeftmostQuad(line: string, i: int)
    requires IpAt(line, i) && forall j :: 0 <= j < i ==> !IpAt(line, j)
    ensures LeftmostQuad(line, line[i..IpEnd(line, i).value])
  {
    NoQuadBefore(line, i);
    IpEndIsLongestQuad(line, i);
    LeftmostQuadFrom(line, i, IpEnd(line, i).value);
  }

  /** The group of the leftmost match is a dotted quad there, and the leftmost longest one. */
  lemma IpFieldAt(line: string, i: int, ip: string)
    requires IpAt(line, i) && forall j :: 0 <= j < i ==> !IpAt(line, j)
    requires ip == IpGroup(line, i)
    ensures QuadAt(line, i, IpEnd(line, i).value) && LeftmostQuad(line, ip)
  {
    IpEndIsQuad(line, i);
    LeftmostMatchIsLeftmostQuad(line, i);
    assert ip == line[i..IpEnd(line, i).value];
  }

  /** A value with the contract of `ExtractIp` is the leftmost longest dotted quad, or "-" when there is none. */
  lemma ShapeOfIpField(line: string, ip: string)
    requires ip == "-" <==> forall i :: 0 <= i <= |line| ==> !IpAt(line, i)
    requires ip != "-" ==>
      exists i :: 0 <= i < |line| && IpAt(line, i) &&
        (forall j :: 0 <= j < i ==> !IpAt(line, j)) && ip == IpGroup(line, i)
    ensures ip == "-" <==> forall i, e :: !QuadAt(line, i, e)
    ensures ip != "-" ==> LeftmostQuad(line, ip)
  {
    if ip == "-" {
      NoQuadBefore(line, |line| + 1);
    } else {
      var i :| 0 <= i < |line| && IpAt(line, i) && (forall j :: 0 <= j < i ==> !IpAt(line, j)) && ip == IpGroup(line, i);
      IpFieldAt(line, i, ip);
    }
  }

  /**
   * The ip field measured against the shape alone: "-" exactly when no
   * dotted quad occurs in the line; otherwise the quad that starts leftmost,
   * taken as long as it goes.
   */
  lemma ExtractIpIsLeftmostQuad(line: string)
    ensures ExtractIp(line) == "-" <==> forall i, e :: !QuadAt(line, i, e)
    ensures ExtractIp(line) != "-" ==> LeftmostQuad(line, ExtractIp(line))
  {
    ShapeOfIpField(line, ExtractIp(line));
  }

  // ---------- what the extractors make of typical lines ----------

  /** A match at `k` with none before it is what `re.search` finds. */
  lemma {:induction false} LeftmostIs(m: int -> bool, from: int, hi: int, k: int)
    requires 0 <= from <= k <= hi && m(k)
    requires forall j :: from <= j < k ==> !m(j)
    ensures Leftmost(m, from, hi) == Some(k)
    decreases k - from
  {
    if from < k {
      LeftmostIs(m, from + 1, hi, k);
    }
  }

  /**
   * A syslog stamp such as "Jan 05 10:00:00" puts the day first among
   * the space-separated runs of digits: the host of such a line is "05".
   */
  lemma SyslogHostIsDay(line: string)
    requires |line| >= 7 && IsLetter(line[0]) && IsLetter(line[1]) && IsLetter(line[2])
    requires line[3] == ' ' && IsDigit(line[4]) && IsDigit(line[5]) && line[6] == ' '
    ensures ExtractHost(line) == line[4..6]
  {
    RunLenUnique(line, 4, HostChars, 2);
    assert HostMatcher(line)(3);
    forall j | 0 <= j < 3 ensures !HostMatcher(line)(j) {
      assert !IsSpace(line[j]);
    }
    LeftmostIs(HostMatcher(line), 0, |line|, 3);
  }

  /**
   * Four leading digits cannot start an octet, so the quad starts one digit
   * in: "1234.5.6.7" gives "234.5.6.7".
   */
  lemma IpSkipsLongRun(s: string)
    requires |s| >= 10 && IsDigit(s[0]) && IsDigit(s[1]) && IsDigit(s[2]) && IsDigit(s[3])
    requires s[4] == '.' && IsDigit(s[5]) && s[6] == '.' && IsDigit(s[7]) && s[8] == '.' && IsDigit(s[9])
    requires |s| == 10 || !IsDigit(s[10])
    ensures ExtractIp(s) == s[1..10]
  {
    RunLenUnique(s, 0, Digits, 4);
    RunLenUnique(s, 1, Digits, 3);
    RunLenUnique(s, 5, Digits, 1);
    RunLenUnique(s, 7, Digits, 1);
    RunLenUnique(s, 9, Digits, 1);
    assert DottedOctet(s, 0).None?;
    assert DottedOctet(s, 1) == Some(5);
    assert DottedOctet(s, 5) == Some(7);
    assert DottedOctet(s, 7) == Some(9);
    assert IpEnd(s, 1) == Some(10);
    assert !IpMatcher(s)(0);
    LeftmostIs(IpMatcher(s), 0, |s|, 1);
  }

  /**
   * `user` followed straight by class characters takes them as the user:
   * "username=bob" gives "name".
   */
  lemma UserGluedToKey(s: string, n: nat)
    requires StartsAt(s, 0, "user") && n >= 1 && 4 + n <= |s| && AllIn(s, 4, 4 + n, UserChars)
    requires 4 + n == |s| || !InClass(s[4 + n], UserChars)
    ensures ExtractUser(s) == s[4..4 + n]
  {
    assert InClass(s[4], UserChars);
    UserCharsAreNotGap(s[4]);
    RunLenUnique(s, 4, Spaces, 0);
    RunLenUnique(s, 4, UserChars, n);
    assert UserValueStart(s, 0) == Some(4);
    assert UserMatcher(s)(0);
    LeftmostIs(UserMatcher(s), 0, |s|, 0);
  }

  // ---------- parse_log_line ----------

  /** The text handed to `strptime`: the year, a space and the first 15 characters of the line. */
  function StampText(line: string): (t: string)
    ensures |t| == 5 + (if |line| < 15 then |line| else 15)
    ensures t[..5] == "2026 " && t[5..] == line[..|t| - 5]
  {
    NowYear + " " + Prefix(line, 15)
  }

  /**
   * `parse_log_line`: `None` exactly when the timestamp of the first 15
   * characters does not parse; otherwise the event of the line.
   */
  function ParseLogLine(line: string, strptime: Strptime): (r: Option<Event>)
    ensures r.None? <==> strptime(StampText(line)).None?
    ensures r.Some? ==>
      r.value.timestamp == strptime(StampText(line)).value &&
      r.value.host == ExtractHost(line) && r.value.user == ExtractUser(line) &&
      r.value.ip == ExtractIp(line) && r.value.action == Classify(line) && r.value.raw == Strip(line)
  {
    match strptime(StampText(line))
    case None => None
    case Some(ts) => Some(Event(ts, ExtractHost(line), ExtractUser(line), ExtractIp(line), Classify(line), Strip(line)))
  }

  // ---------- the scanner's state ----------

  /** `parse_log_line` with the clock-free parts fixed: the per-line parser the scanner uses. */
  function LineParser(strptime: Strptime): string -> Option<Event> {
    line => ParseLogLine(line, strptime)
  }

  /** The events `parse` yields for a batch of lines, in order; lines it rejects are dropped. */
  function ParseAll(lines: seq<string>, parse: string -> Option<Event>): (events: seq<Event>)
    ensures |events| <= |lines|
  {
    if lines == [] then []
    else
      var rest := ParseAll(lines[..|lines| - 1], parse);
      rest + Batch(parse(lines[|lines| - 1]))
  }

  /** The events one parsed line contributes: none or one. */
  function Batch(event: Option<Event>): (r: seq<Event>)
    ensures |r| <= 1
    ensures r == [] <==> event.None?
  {
    match event
    case None => []
    case Some(e) => [e]
  }

  /** The alerts among `events`: those whose action is not INFO, in order. */
  function Alerts(events: seq<Event>): (r: seq<Event>)
    ensures |r| <= |events|
  {
    if events == [] then []
    else
      var last := events[|events| - 1];
      var rest := Alerts(events[..|events| - 1]);
      if last.action != Info then rest + [last] else rest
  }

  /** An event is an alert exactly when it is a non-INFO event. */
  lemma {:induction false} AlertsMembers(events: seq<Event>)
    ensures forall e :: e in Alerts(events) <==> e in events && e.action != Info
  {
    if events != [] {
      var last := events[|events| - 1];
      AlertsMembers(events[..|events| - 1]);
      assert forall e :: e in events <==> e in events[..|events| - 1] || e == last;
    }
  }

  lemma {:induction false} AlertsConcat(a: seq<Event>, b: seq<Event>)
    ensures Alerts(a + b) == Alerts(a) + Alerts(b)
    decreases |b|
  {
    if b == [] {
      assert a + b == a;
    } else {
      assert (a + b)[..|a + b| - 1] == a + b[..|b| - 1];
      AlertsConcat(a, b[..|b| - 1]);
    }
  }

  /** `b` is a suffix of `a`. */
  predicate IsSuffix<T(==)>(b: seq<T>, a: seq<T>) {
    |b| <= |a| && a[|a| - |b|..] == b
  }

  /** `s[-n:]`: the last `n` elements, or all of `s` when it is shorter. */
  function Last<T(==)>(s: seq<T>, n: nat): (r: seq<T>)
    ensures |r| == if |s| < n then |s| else n
    ensures IsSuffix(r, s)
  {
    if |s| < n then s else s[|s| - n..]
  }

  /** How many events of `s` have action `a`. */
  function Count(s: seq<Event>, a: Action): (n: nat)
    ensures n <= |s|
    ensures n == 0 <==> forall e :: e in s ==> e.action != a
  {
    if s == [] then 0
    else
      var last := s[|s| - 1];
      assert forall e :: e in s <==> e in s[..|s| - 1] || e == last;
      Count(s[..|s| - 1], a) + if last.action == a then 1 else 0
  }

  /** Every event has one action, so the per-action counts add up to the number of events. */
  lemma {:induction false} CountsAddUp(s: seq<Event>)
    ensures Count(s, BruteForce) + Count(s, PrivEsc) + Count(s, ExecBlocked) +
            Count(s, NetworkScan) + Count(s, Info) == |s|
  {
    if s != [] {
      CountsAddUp(s[..|s| - 1]);
    }
  }

  /** The sum of the values of a statistics dict. */
  function Total(stats: map<Action, nat>): nat {
    (if BruteForce in stats then stats[BruteForce] else 0) +
    (if PrivEsc in stats then stats[PrivEsc] else 0) +
    (if ExecBlocked in stats then stats[ExecBlocked] else 0) +
    (if NetworkScan in stats then stats[NetworkScan] else 0) +
    (if Info in stats then stats[Info] else 0)
  }

  /** The events of `s` that belong to `user`, in order. */
  function UserFilter(s: seq<Event>, user: string): (r: seq<Event>)
    ensures |r| <= |s|
    ensures forall e :: e in r <==> e in s && e.user == user
  {
    if s == [] then []
    else
      var last := s[|s| - 1];
      var rest := UserFilter(s[..|s| - 1], user);
      assert forall e :: e in s <==> e in s[..|s| - 1] || e == last;
      if last.user == user then rest + [last] else rest
  }

  /** One more line adds its event, if it has one, at the end. */
  lemma ParseAllStep(lines: seq<string>, i: nat, parse: string -> Option<Event>)
    requires i < |lines|
    ensures ParseAll(lines[..i + 1], parse) == ParseAll(lines[..i], parse) + Batch(parse(lines[i]))
  {
    assert lines[..i + 1][..i] == lines[..i];
  }

  /** Scanning line `i` appends the line's batch to a list of events that started as `base`. */
  lemma EventsStep(lines: seq<string>, i: nat, parse: string -> Option<Event>, base: seq<Event>)
    requires i < |lines|
    ensures base + ParseAll(lines[..i], parse) + Batch(parse(lines[i])) == base + ParseAll(lines[..i + 1], parse)
  {
    ParseAllStep(lines, i, parse);
  }

  /** Scanning line `i` appends the alerts of the line's batch to a list of alerts that started as `base`. */
  lemma AlertsStep(lines: seq<string>, i: nat, parse: string -> Option<Event>, base: seq<Event>)
    requires i < |lines|
    ensures base + Alerts(ParseAll(lines[..i], parse)) + Alerts(Batch(parse(lines[i]))) ==
            base + Alerts(ParseAll(lines[..i + 1], parse))
    ensures (Alerts(ParseAll(lines[..i], parse)) != [] || Alerts(Batch(parse(lines[i]))) != []) ==
            (Alerts(ParseAll(lines[..i + 1], parse)) != [])
  {
    var done, batch := ParseAll(lines[..i], parse), Batch(parse(lines[i]));
    ParseAllStep(lines, i, parse);
    AlertsConcat(done, batch);
    AppendTwice(base, Alerts(done), Alerts(batch), Alerts(done + batch));
  }

  /** Appending `x` and then `y` to `base` appends `x + y`. */
  lemma AppendTwice<T>(base: seq<T>, x: seq<T>, y: seq<T>, z: seq<T>)
    requires z == x + y
    ensures base + x + y == base + z
    ensures (x != [] || y != []) == (z != [])
  {
  }

  /** One more event adds one to the count of its action. */
  lemma CountSnoc(s: seq<Event>, x: Event, a: Action)
    ensures Count(s + [x], a) == Count(s, a) + if x.action == a then 1 else 0
  {
    assert (s + [x])[..|s|] == s;
  }

  /** The actions occurring in `s`. */
  function Actions(s: seq<Event>): set<Action> {
    set e | e in s :: e.action
  }

  lemma ActionsSnoc(s: seq<Event>, x: Event)
    ensures Actions(s + [x]) == Actions(s) + {x.action}
  {
    assert forall e :: e in s + [x] <==> e in s || e == x;
  }

  /** `stats` holds, for every action occurring in `s`, how often it occurs, and nothing else. */
  ghost predicate Tallies(stats: map<Action, nat>, s: seq<Event>) {
    stats.Keys == Actions(s) && forall a :: a in stats ==> stats[a] == Count(s, a)
  }

  /** `stats[a] = stats.get(a, 0) + 1` for the action of one more event. */
  lemma TalliesSnoc(stats: map<Action, nat>, s: seq<Event>, x: Event)
    requires Tallies(stats, s)
    ensures Tallies(Tally(stats, x.action), s + [x])
  {
    ActionsSnoc(s, x);
    forall a ensures Count(s + [x], a) == Count(s, a) + if x.action == a then 1 else 0 {
      CountSnoc(s, x, a);
    }
    if x.action !in stats {
      assert x.action !in Actions(s);
      assert Count(s, x.action) == 0;
    }
  }

  /** `stats[a] = stats.get(a, 0) + 1`. */
  function Tally(stats: map<Action, nat>, a: Action): (r: map<Action, nat>)
    ensures r.Keys == stats.Keys + {a}
    ensures a in stats ==> r[a] == stats[a] + 1
    ensures a !in stats ==> r[a] == 1
    ensures forall b :: b in stats && b != a ==> r[b] == stats[b]
  {
    stats[a := (if a in stats then stats[a] else 0) + 1]
  }

  /** Counting the `i`-th event extends a tally of the first `i` to one of the first `i + 1`. */
  lemma TalliesStep(stats: map<Action, nat>, s: seq<Event>, i: nat)
    requires i < |s| && Tallies(stats, s[..i])
    ensures Tallies(Tally(stats, s[i].action), s[..i + 1])
  {
    assert s[..i + 1] == s[..i] + [s[i]];
    TalliesSnoc(stats, s[..i], s[i]);
  }

  /** Over alerts, a complete tally never has INFO and adds up to the number of alerts. */
  lemma TalliesOfAlerts(stats: map<Action, nat>, s: seq<Event>)
    requires Tallies(stats, s)
    requires forall e :: e in s ==> e.action != Info
    ensures Info !in stats
    ensures Total(stats) == |s|
  {
    CountsAddUp(s);
    assert Count(s, Info) == 0;
    forall a | a !in stats ensures Count(s, a) == 0 {
    }
  }

  /** Appending the same elements to a sequence and to a suffix of it leaves a suffix. */
  lemma AppendKeepsSuffix<T>(b: seq<T>, a: seq<T>, x: seq<T>)
    requires IsSuffix(b, a)
    ensures IsSuffix(b + x, a + x)
  {
    assert (a + x)[|a + x| - |b + x|..] == a[|a| - |b|..] + x;
  }

  /**
   * The alerts are exactly the non-INFO events, the unseen alerts are the
   * latest alerts, and a notification is pending exactly when some are unseen.
   */
  ghost predicate Consistent(allEvents: seq<Event>, alerts: seq<Event>, buffer: seq<Event>, pending: bool) {
    alerts == Alerts(allEvents) && IsSuffix(buffer, alerts) && (pending <==> buffer != [])
  }

  /** Recording a batch of events keeps the scanner's state consistent. */
  lemma ConsistentAfterBatch(allEvents: seq<Event>, alerts: seq<Event>, buffer: seq<Event>, pending: bool, batch: seq<Event>)
    requires Consistent(allEvents, alerts, buffer, pending)
    ensures Consistent(allEvents + batch, alerts + Alerts(batch), buffer + Alerts(batch), pending || Alerts(batch) != [])
  {
    AlertsConcat(allEvents, batch);
    AppendKeepsSuffix(buffer, alerts, Alerts(batch));
  }

  /**
   * The scanner's module-level state: `all_events`, `alerts`,
   * `new_alerts_buffer` and `notification_pending`.
   */
  class Monitor {
    var allEvents: seq<Event>
    var alerts: seq<Event>
    var newAlertsBuffer: seq<Event>
    var notificationPending: bool

    /**
     * The alerts are exactly the non-INFO events, the unseen alerts are the
     * latest alerts, and a notification is pending exactly when some are unseen.
     */
    ghost predicate Valid()
      reads this
    {
      Consistent(allEvents, alerts, newAlertsBuffer, notificationPending)
    }

    /** The state at start-up: empty lists, no notification. */
    constructor ()
      ensures Valid()
      ensures allEvents == [] && alerts == [] && newAlertsBuffer == [] && !notificationPending
    {
      allEvents, alerts, newAlertsBuffer, notificationPending := [], [], [], false;
    }

    /**
     * The body of the per-line loop of `scan_logs`: an event is recorded, and
     * if it is not INFO it is also recorded and queued as an alert.
     */
    method Record(event: Option<Event>)
      modifies this
      ensures allEvents == old(allEvents) + Batch(event)
      ensures alerts == old(alerts) + Alerts(Batch(event))
      ensures newAlertsBuffer == old(newAlertsBuffer) + Alerts(Batch(event))
      ensures notificationPending == (old(notificationPending) || Alerts(Batch(event)) != [])
    {
      if event.Some? {
        var e := event.value;
        assert Batch(event) == [e];
        assert Alerts([e]) == if e.action != Info then [e] else [] by {
          assert [e][..0] == [];
        }
        allEvents := allEvents + [e];
        if e.action != Info {
          alerts := alerts + [e];
          newAlertsBuffer := newAlertsBuffer + [e];
          notificationPending := true;
        }
      } else {
        assert Alerts(Batch(event)) == [];
      }
    }

    /** `Record` for each line `parse` accepts, in order. */
    method ScanWith(lines: seq<string>, parse: string -> Option<Event>)
      modifies this
      ensures allEvents == old(allEvents) + ParseAll(lines, parse)
      ensures alerts == old(alerts) + Alerts(ParseAll(lines, parse))
      ensures newAlertsBuffer == old(newAlertsBuffer) + Alerts(ParseAll(lines, parse))
      ensures notificationPending == (old(notificationPending) || Alerts(ParseAll(lines, parse)) != [])
    {
      var i := 0;
      while i < |lines|
        invariant 0 <= i <= |lines|
        invariant allEvents == old(allEvents) + ParseAll(lines[..i], parse)
        invariant alerts == old(alerts) + Alerts(ParseAll(lines[..i], parse))
        invariant newAlertsBuffer == old(newAlertsBuffer) + Alerts(ParseAll(lines[..i], parse))
        invariant notificationPending == (old(notificationPending) || Alerts(ParseAll(lines[..i], parse)) != [])
      {
        EventsStep(lines, i, parse, old(allEvents));
        AlertsStep(lines, i, parse, old(alerts));
        AlertsStep(lines, i, parse, old(newAlertsBuffer));
        var event := parse(lines[i]);
        Record(event);
        i := i + 1;
      }
      assert lines[..i] == lines;
    }

    /**
     * The per-line part of `scan_logs` over one batch of lines read from
     * the log files: every parsed event is recorded, every alert among them
     * is recorded and queued for notification.
     */
    method ScanLines(lines: seq<string>, strptime: Strptime)
      requires Valid()
      modifies this
      ensures Valid()
      ensures allEvents == old(allEvents) + ParseAll(lines, LineParser(strptime))
      ensures alerts == old(alerts) + Alerts(ParseAll(lines, LineParser(strptime)))
      ensures newAlertsBuffer == old(newAlertsBuffer) + Alerts(ParseAll(lines, LineParser(strptime)))
      ensures notificationPending ==
        (old(notificationPending) || Alerts(ParseAll(lines, LineParser(strptime))) != [])
    {
      ScanWith(lines, LineParser(strptime));
      ConsistentAfterBatch(old(allEvents), old(alerts), old(newAlertsBuffer), old(notificationPending),
                           ParseAll(lines, LineParser(strptime)));
    }

    /**
     * `handle_new_alerts`: on "y" (in any case) the queued alerts are shown;
     * whatever the answer, the queue is emptied and the notification cleared.
     */
    method HandleNewAlerts(answer: string) returns (shown: seq<Event>)
      requires Valid()
      modifies this
      ensures Valid()
      ensures shown == if Lower(answer) == "y" then old(newAlertsBuffer) else []
      ensures newAlertsBuffer == [] && !notificationPending
      ensures allEvents == old(allEvents) && alerts == old(alerts)
    {
      shown := if Lower(answer) == "y" then newAlertsBuffer else [];
      newAlertsBuffer := [];
      notificationPending := false;
    }

    /** `show_last_events`: the last ten events, oldest first. */
    function LastEvents(): (r: seq<Event>)
      reads this
      ensures |r| == if |allEvents| < 10 then |allEvents| else 10
      ensures IsSuffix(r, allEvents)
    {
      Last(allEvents, 10)
    }

    /** `show_alerts`: the last ten alerts, oldest first. */
    function LastAlerts(): (r: seq<Event>)
      reads this
      ensures |r| == if |alerts| < 10 then |alerts| else 10
      ensures IsSuffix(r, alerts)
    {
      Last(alerts, 10)
    }

    /** `show_alerts_by_user`: the alerts of one user, in order. */
    method AlertsByUser(user: string) returns (r: seq<Event>)
      ensures r == UserFilter(alerts, user)
      ensures forall e :: e in r <==> e in alerts && e.user == user
    {
      r := [];
      var i := 0;
      while i < |alerts|
        invariant 0 <= i <= |alerts|
        invariant r == UserFilter(alerts[..i], user)
      {
        assert alerts[..i + 1][..i] == alerts[..i];
        if alerts[i].user == user {
          r := r + [alerts[i]];
        }
        i := i + 1;
      }
      assert alerts[..i] == alerts;
    }

    /**
     * `show_stats`: one count per action that occurs among the alerts. With
     * the invariant, INFO is never a key and the counts add up to the number
     * of alerts.
     */
    method Stats() returns (stats: map<Action, nat>)
      requires Valid()
      ensures stats.Keys == Actions(alerts)
      ensures forall a :: a in stats ==> stats[a] == Count(alerts, a)
      ensures Info !in stats
      ensures Total(stats) == |alerts|
    {
      stats := map[];
      var i := 0;
      while i < |alerts|
        invariant 0 <= i <= |alerts|
        invariant Tallies(stats, alerts[..i])
      {
        TalliesStep(stats, alerts, i);
        stats := Tally(stats, alerts[i].action);
        i := i + 1;
      }
      assert alerts[..i] == alerts;
      AlertsMembers(allEvents);
      TalliesOfAlerts(stats, alerts);
    }
  }
}
