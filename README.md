# Log classifiers and alert bookkeeping of the blue-team monitoring stack

This project is a Dafny model of the rule-based parts of a small monitoring stack. Agents send log lines to a collecting server. A separate mini-SIEM tails syslog-style files. The model covers four pieces:

- **The two-tier log classifier** (`LogAnalyzer`).
  - `analyze_line` is a first-match decision list: eight case-insensitive threat patterns, then nine warning patterns, and INFO otherwise.
  - `analyze_logs` sorts a batch of lines into the three buckets.
- **The mini-SIEM** (`Siem`).
  - `parse_log_line` reads a timestamp from the first fifteen characters. It takes host, user and IP with leftmost-match patterns, and labels the line with the first rule of `THREAT_RULES` that fires.
  - The scanner keeps every parsed event, every alert (an event whose action is not INFO), the alerts not yet shown, and a pending-notification flag. These become the class `Siem.Monitor`.
  - The `show_*` helpers select and count over those lists.
- **The collecting server** (`Server`).
  - `detect_threat` is a case-insensitive keyword test.
  - The `/api/log` handler puts a request through three guards (cookie, JWT, MAC). It then appends a row to `logs`, and a copy to `threats` exactly when the message is a threat. The class `Server.Store` stands for the two tables.
  - `/api/auth` gives a token and cookie to listed MACs only.
- **The request gate** (`AuthMiddleware`).
  - The `verify_request` wrapper runs four ordered checks, each with its own error reply.
  - When all four pass, it writes the MAC, the token's `client_id` and the remote address onto the request.

The regular expressions are fixed and small, so each is written out as a string predicate rather than a general regex engine:

- Search is leftmost; greedy runs are maximal.
- `\s` is the set of characters Python's `str.isspace` accepts.
- `\d` and `IGNORECASE` are taken over ASCII.

Supporting modules:

- `Optional`: the option type.
- `Ascii`: character classes and case folding.
- `TextMatch`: substring search, character-class runs and `str.strip`.

## Model

| member | source | states |
|---|---|---|
| LogAnalyzer.Found | server/log_analyzer.py:6-27 | each of the seventeen patterns as a predicate on the ASCII-folded line: a literal phrase occurs, `Account .* locked` with no line feed in between, `Attempts:\s*[4-9]/` and `Attempts:\s*5/5` after the greedy whitespace run, `\s4\d\d\s` and `\s5\d\d\s` as five characters |
| LogAnalyzer.Search | server/log_analyzer.py:29-36 | `re.search(pattern, line, re.IGNORECASE)`: the pattern is found in the line folded to lower case |
| LogAnalyzer.AnalyzeLine | server/log_analyzer.py:29-38 | the verdict is THREAT iff some threat pattern is found; WARNING iff none is but some warning pattern is; INFO iff neither list matches |
| LogAnalyzer.FirstFound | server/log_analyzer.py:30-36 | the index returned is that of a pattern that is found with none before it; None iff no pattern of the list is found |
| LogAnalyzer.AnalyzeLineCaseInsensitive | server/log_analyzer.py:29-36 | upper- or lower-casing a line does not change its verdict |
| LogAnalyzer.AnalyzeLineFolded | server/log_analyzer.py:29-36 | two lines that fold to the same lower case get the same verdict |
| LogAnalyzer.ThreatTakesPrecedence | server/log_analyzer.py:30-32 | a line on which any threat pattern is found is THREAT, whatever warning pattern it also holds |
| LogAnalyzer.FailedLoginWithRateLimitIsThreat | server/log_analyzer.py:12-36 | a line holding both "Failed login attempt" (a warning) and a later "Rate limit exceeded" (a threat) is THREAT |
| LogAnalyzer.HighAttemptsFound | server/log_analyzer.py:13 | the attempts pattern finds "Attempts:", any whitespace, a digit 4-9 and "/" anywhere in a line, in any casing of the surrounding text |
| LogAnalyzer.HighAttemptsIsThreat | server/log_analyzer.py:29-32 | such a line is THREAT |
| LogAnalyzer.AttemptsFiveOfFiveSubsumed | server/log_analyzer.py:13-14 | every line the "Attempts: 5/5" pattern finds is also found by the "[4-9]/" pattern |
| LogAnalyzer.LowAttemptsNotMatched | server/log_analyzer.py:13-14 | "Attempts: 3/5" is not found by the attempts pattern, and the line is INFO, not THREAT |
| LogAnalyzer.LowAttemptsNoThreat | server/log_analyzer.py:5-15 | no threat pattern occurs in the folded text "attempts: 3/5" |
| LogAnalyzer.LowAttemptsNoWarning | server/log_analyzer.py:17-27 | no warning pattern occurs in the folded text "attempts: 3/5" |
| LogAnalyzer.AccountNameLocked | server/log_analyzer.py:6-32 | "Account ", any name without a line feed, then " locked" anywhere in a line matches `Account .* locked`, and the line is THREAT |
| LogAnalyzer.AccountLockedNeedsName | server/log_analyzer.py:7 | "Account locked", with a single space, does not match |
| LogAnalyzer.StatusCodeExamples | server/log_analyzer.py:20-21 | " 503 " is a status code; "503" at the end of the line and " 5030 " are not |
| LogAnalyzer.BucketMembers | server/log_analyzer.py:47-49 | a bucket holds exactly the input lines the classifier puts at its level |
| LogAnalyzer.BucketStep | server/log_analyzer.py:47-49 | one more line extends the bucket of its own level by that line, at the end, and leaves the other buckets alone |
| LogAnalyzer.BucketConcat | server/log_analyzer.py:47-49 | the bucket of a concatenation is the concatenation of the buckets, so input order is kept |
| LogAnalyzer.BucketsPartition | server/log_analyzer.py:40-51 | the three bucket sizes add up to the number of input lines |
| LogAnalyzer.Partition | server/log_analyzer.py:41-51 | the loop of `analyze_logs` under any classifier: exactly the keys THREAT, WARNING and INFO, even when empty, each holding the bucket of its level |
| LogAnalyzer.AnalyzeLogs | server/log_analyzer.py:40-51 | the result has exactly the keys THREAT, WARNING and INFO, and each holds, in input order, the lines `analyze_line` puts at that level |
| Siem.RuleMatches | siem/main.py:12-17 | each rule of `THREAT_RULES` as a predicate on the line: "Failed password", "sudo" or "su" followed later on the same line by "COMMAND", "EXEC_BLOCKED", and "nmap" or "port scan" in any ASCII casing; INFO fires on nothing |
| Siem.PrivEscIsSuThenCommand | siem/main.py:14 | PRIV_ESC fires exactly when "su" is followed later on the same line by "COMMAND"; the "sudo" alternative adds nothing |
| Siem.FirstRule | siem/main.py:51-55 | the index returned is that of a rule that fires with none before it; None means no rule fires |
| Siem.Classify | siem/main.py:51-55 | the action is a rule of `THREAT_RULES` that fires with no earlier rule firing, and INFO iff no rule fires |
| Siem.ClassifyInRuleOrder | siem/main.py:12-17 | the action is BRUTE_FORCE, PRIV_ESC, EXEC_BLOCKED, NETWORK_SCAN, whichever fires first in that order, else INFO |
| Siem.UserValueStart | siem/main.py:45 | where the group of `user\s*=?\s*([a-zA-Z0-9\[\]_]+)` starts after a `user` at a place: after the key, within the text, on a user character |
| Siem.UserAt | siem/main.py:45 | the user pattern matches at a place: "user" there, and the rest of the pattern reaches a user character |
| Siem.UserValueStartIsTheMatch | siem/main.py:45 | the value of a `user` match starts right after optional whitespace, an optional "=" and optional whitespace, and at no other place |
| Siem.HostAt | siem/main.py:42 | `\s([a-zA-Z0-9\-]+)\s` matches at a place: whitespace there, then the greedy run of host characters, non-empty and followed by whitespace |
| Siem.HostAtIsDelimitedRun | siem/main.py:42 | the host pattern matches at a place iff some non-empty run of host characters with whitespace on both sides starts there |
| Siem.HostGroup | siem/main.py:42-43 | the group of a host match is the whole non-empty run of host characters after the whitespace of the match, and whitespace follows it |
| Siem.ExtractHost | siem/main.py:42-43 | "unknown" when no whitespace-delimited host run exists; otherwise the group of the match at the leftmost place one starts; never empty, host characters only |
| Siem.SyslogHostIsDay | siem/main.py:42-43 | a line beginning with a month, a space and a two-digit day has the day as its host |
| Siem.UserGroup | siem/main.py:45-46 | the group of a `user` match is the whole non-empty run of user characters where the value starts: the next character, if any, is outside the class |
| Siem.ExtractUser | siem/main.py:45-46 | "system" when no `user` match exists; otherwise the group of the leftmost match; never empty, user characters only |
| Siem.UserGluedToKey | siem/main.py:45-46 | characters glued to "user" are taken as the user: "username=bob" gives "name" |
| Siem.IpEnd | siem/main.py:48 | where `\d{1,3}(?:\.\d{1,3}){3}` matches from a place, if it does: past that place and within the line |
| Siem.IpAt | siem/main.py:48 | the ip pattern matches at a place |
| Siem.IpEndIsQuad | siem/main.py:48 | the span of a match of the ip pattern has the shape of four dot-separated groups of one to three digits |
| Siem.QuadIsFound | siem/main.py:48 | wherever a dotted quad starts, the ip pattern matches there and its match reaches at least as far |
| Siem.IpEndIsLongestQuad | siem/main.py:48 | no match at a place iff no dotted quad starts there; a match is the longest dotted quad starting there |
| Siem.OctetsOfSpan | siem/main.py:48 | three dotted groups followed by one to three digits make four groups |
| Siem.QuadStartsWithDigit | siem/main.py:48 | a match of the ip pattern starts with a digit |
| Siem.IpGroup | siem/main.py:48-49 | the group of an ip match is a substring of the line at the match, has four groups of digits, and is never "-" |
| Siem.ExtractIp | siem/main.py:48-49 | "-" iff the pattern matches nowhere; otherwise the group of the match at the leftmost place it matches |
| Siem.ExtractIpIsLeftmostQuad | siem/main.py:48-49 | "-" iff no dotted quad occurs in the line; otherwise the dotted quad that starts leftmost, taken as long as it goes |
| Siem.IpSkipsLongRun | siem/main.py:48 | four leading digits cannot begin an octet, so "1234.5.6.7" gives "234.5.6.7" |
| Siem.Leftmost | siem/main.py:42-49 | the place returned is a match with none before it; None means no place of the range matches |
| Siem.LeftmostIs | siem/main.py:42-49 | a match with none before it is the place the search returns |
| TextMatch.Strip | siem/main.py:63 | the stripped line is the line without its leading and trailing whitespace, and starts and ends with no whitespace |
| Siem.StampText | siem/main.py:37-38 | the text handed to `strptime`: it starts with "2026 " and continues with exactly the first fifteen characters of the line, or the whole line when it is shorter |
| Siem.ParseLogLine | siem/main.py:30-64 | None exactly when the timestamp parse fails; otherwise an event with that timestamp, the extracted host, user and ip, the first-rule action and the stripped line |
| Siem.ParseAll | siem/main.py:86-91 | the events of a batch, in line order, unparseable lines dropped: at most one per line |
| Siem.Alerts | siem/main.py:93-95 | the non-INFO events of a list, in order: at most as many as the events |
| Siem.AlertsMembers | siem/main.py:93-96 | an event is an alert exactly when it is a scanned event whose action is not INFO |
| Siem.AlertsConcat | siem/main.py:86-96 | scanning two batches one after the other gives the alerts of the joined batch |
| Siem.Last | siem/main.py:131-142 | `s[-n:]`: the last min(n, len) elements, a suffix of the list |
| Siem.UserFilter | siem/main.py:147-148 | the events whose user equals the given one: exactly those, and no more than the list holds |
| Siem.Count | siem/main.py:152-154 | a count is at most the list's length, and zero iff no event of the list has the action |
| Siem.CountsAddUp | siem/main.py:152-154 | the per-action counts of a list add up to its length |
| Siem.Tally | siem/main.py:155 | `stats[a] = stats.get(a, 0) + 1`: the key set gains the action, its count rises by one from zero when absent, other keys keep their counts |
| Siem.TalliesSnoc | siem/main.py:153-154 | counting one more alert keeps the dictionary equal to the per-action counts |
| Siem.TalliesStep | siem/main.py:153-154 | counting the next alert of the list extends a tally of the ones before it |
| Siem.TalliesOfAlerts | siem/main.py:152-157 | a dictionary of the per-action counts of alerts has no INFO key and its values sum to the number of alerts |
| Siem.ConsistentAfterBatch | siem/main.py:86-96 | appending a batch and its alerts keeps alerts equal to the non-INFO events, the buffer a suffix of the alerts, and the flag set iff the buffer is not empty |
| Siem.Monitor.constructor | siem/main.py:21-24 | the lists start empty and no notification is pending |
| Siem.Monitor.Record | siem/main.py:87-96 | a dropped line changes nothing; a parsed event is appended to all events, and when it is not INFO also to alerts and to the buffer, and raises the flag |
| Siem.Monitor.ScanWith | siem/main.py:86-96 | scanning a batch appends its parsed events in order, appends exactly their alerts to alerts and to the buffer, and raises the flag iff one of them is an alert |
| Siem.Monitor.ScanLines | siem/main.py:86-96 | the same with each line parsed by `parse_log_line`; the monitor's invariant is kept |
| Siem.Monitor.HandleNewAlerts | siem/main.py:119-128 | the buffer is shown iff the answer folds to "y"; for any answer the buffer is emptied, the flag cleared, events and alerts untouched, the invariant kept |
| Siem.Monitor.LastEvents | siem/main.py:131-135 | the last min(10, n) events, in order |
| Siem.Monitor.LastAlerts | siem/main.py:138-142 | the last min(10, n) alerts, in order |
| Siem.Monitor.AlertsByUser | siem/main.py:145-149 | exactly the alerts whose user equals the given one |
| Siem.Monitor.Stats | siem/main.py:152-157 | the keys are the actions that occur among the alerts, each value is that action's count, INFO is never a key, and the values sum to the number of alerts |
| Server.AnyKeyword | server/main.py:71 | true iff some keyword of the list is a substring of the message |
| Server.DetectThreat | server/main.py:69-71 | true iff some keyword of `THREAT_KEYWORDS` is a substring of the lower-cased message |
| Server.DetectThreatIgnoresCase | server/main.py:70 | upper- or lower-casing a message does not change the verdict |
| Server.EmptyMessageIsNoThreat | server/main.py:69-71 | the empty message, the handler's default, is no threat |
| Server.DetectThreatExtends | server/main.py:71 | text around a threatening message keeps it a threat |
| Server.Listed | server/main.py:79-80 | `client_mac not in AUTHORIZED_MACS` fails exactly for a present header found in the list; a missing header is never listed |
| Server.LogGuard | server/main.py:97-109 | a missing or empty cookie gives 401 "JWT required", a token that does not decode 401 "Invalid JWT", an unlisted or missing MAC 403 "Unauthorized MAC"; the request passes iff all three hold |
| Server.TokenCheckedBeforeMac | server/main.py:97-109 | without an accepted token the reply is 401 whatever the MAC |
| Server.ThreatRows | server/main.py:118-137 | the threat rows are at most as many as the logged rows and each has a threatening message |
| Server.ThreatRowsMembers | server/main.py:118-137 | a row is a threat row exactly when it is logged and its message is a threat |
| Server.ThreatRowsSnoc | server/main.py:118-137 | logging one more row extends the threat rows by that row exactly when its message is a threat, and leaves them as they were otherwise |
| Server.RowOf | server/main.py:111-137 | the stored row carries the timestamp, MAC and remote address, and each body field as given, or "unknown", "INFO" and "" when absent |
| Server.EmptyBodyDefaults | server/main.py:111-114 | a body without fields is logged from "unknown" at level INFO with an empty message, which is no threat |
| Server.Store.constructor | server/main.py:30-59 | opening the database keeps the rows the tables already hold; a fresh database is consistent |
| Server.Store.Log | server/main.py:95-141 | a request failing a guard gets that guard's error and stores nothing; an accepted one appends one row with the defaults to `logs`, appends the same row to `threats` iff its message is a threat, replies "ok", and keeps `threats` equal to the threatening rows of `logs` when it was so before |
| Server.Auth | server/main.py:64-92 | a token is issued iff the MAC is listed, otherwise 403 "Unauthorized MAC"; the token names the client's address and expires one hour after issue, exactly when the HttpOnly, non-secure, SameSite=Strict `access_token` cookie does |
| Server.DefaultMacs | server/main.py:13-15 | with the default list, AA:BB:CC:00:01 is served, while AA:BB:CC:00:03 and a missing header are refused |
| AuthMiddleware.MacAllowed | server/auth_middleware.py:20 | `not mac or mac not in ALLOWED_MACS` fails exactly for a present, non-empty header found in the list |
| AuthMiddleware.ClientIdOf | server/auth_middleware.py:28 | `payload.get("client_id")`: the claim when present, None otherwise |
| AuthMiddleware.Gate | server/auth_middleware.py:11-25 | 401 "JWT required" with no token, 401 "Invalid token" when it does not decode, 403 "Unauthorized MAC" for a missing, empty or unlisted MAC, 403 "Unauthorized IP" for an unlisted address, in that order; admitted iff all pass, with the decoded claims |
| AuthMiddleware.MissingTokenIgnoresMacAndIp | server/auth_middleware.py:11-13 | without a token the reply is 401 "JWT required" whatever the MAC and the address |
| AuthMiddleware.MacCheckedBeforeIp | server/auth_middleware.py:19-25 | a request failing both the MAC and the address check gets the MAC error |
| AuthMiddleware.EmptyMacRefused | server/auth_middleware.py:19-21 | an empty MAC header is refused even if the empty string is listed |
| AuthMiddleware.VerifyRequest | server/auth_middleware.py:6-33 | the verdict is that of the four checks; when admitted the request now carries the MAC, the token's `client_id` and the remote address; when refused the request is unchanged |

## Left out

- Case folding and `\d` are over ASCII only. Python's `str.lower` and `re.IGNORECASE` also fold non-ASCII letters, and its `\d` also accepts other Unicode decimal digits.
- `datetime.strptime` is a function parameter (`Strptime`) applied to the text "2026 " plus the first fifteen characters. Which texts it accepts, and the date and time it reads from them, are left to that parameter.
- JWT decoding is a parameter: a predicate in `Server.LogGuard`, a function to claims in `AuthMiddleware.Gate`. JWT signing in `create_jwt` is reduced to the claims it signs.
- The clock is a parameter: `now` in seconds for `Server.Auth`, the formatted `timestamp` string for `Server.Store.Log`.
- `AUTHORIZED_MACS`, `ALLOWED_MACS` and `ALLOWED_IPS` are parameters. `Server.DefaultAuthorizedMacs` holds the default value of server/main.py:13-15.
- A remote address is always modelled as a string.
- A JSON body is modelled with three optional string fields. A non-JSON body, a non-object body and values that are not strings are not covered.
- SQLite is reduced to the two tables as append-only lists. The generated row ids and the connection handling are left out.
- Server.Store.Log: the two inserts are one step. In the source they are two commits, and a process stopped between them leaves a row in `logs` without its `threats` copy; `Store.Log` therefore keeps `threats == ThreatRows(logs)` only when the reopened database already satisfied it. The model also runs requests one at a time, each as one atomic step. Flask's development server (server/main.py:146) serves requests on several threads, so two threatening requests can commit as A's log row, B's log row, B's threat row, A's threat row; under concurrent requests the program keeps only the membership relation of `Server.ThreatRowsMembers` (a threat row is a logged row with a threatening message), not the order of `threats`.
- The `[THREAT]` console line of `log()` is an output with no effect on the state, and is left out.
- File tailing and offset tracking in `scan_logs` (siem/main.py:73-84) are I/O. The model consumes a given batch of lines.
- The menu, the prompts and all printing are left out. `show_*` return the selected events, and `show_stats` returns the dictionary. The order in which `show_stats` prints the dictionary is not modelled.
- server/auth_middleware.py:2 imports `SECRET_KEY`, `ALLOWED_MACS` and `ALLOWED_IPS`, but server/config.py:1-7 defines none of them. As shipped, the module fails at import. The model takes the allow-lists and the decoder as parameters and describes the wrapper as if the import succeeded.
- AuthMiddleware.Gate: JWT claims are a map from strings to strings. A decoded payload may hold numbers (`exp`) or any JSON value as `client_id`; only string values are modelled.
- The server issues tokens with only `ip` and `exp` claims, so `AuthMiddleware.VerifyRequest` on such a token sets `clientId` to None.
- The wrapped handler that `verify_request` calls on success is not modelled. `AuthMiddleware.VerifyRequest` stops at the verdict and the annotations.
- Siem.Monitor.ScanWith takes the line parser as a parameter. Siem.Monitor.ScanLines fixes the parser to `parse_log_line`.
- Siem.Monitor.ScanWith and Siem.Monitor.Record do not state the monitor's invariant themselves. Its preservation over a whole batch is the lemma `Siem.ConsistentAfterBatch`, which `Siem.Monitor.ScanLines` uses.
- LogAnalyzer.Partition states the bucketing under any classifier. LogAnalyzer.AnalyzeLogs instantiates it with `analyze_line`, and the bucket lemmas are likewise stated for any classifier.
