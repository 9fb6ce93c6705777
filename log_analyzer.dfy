/**
 * The server's two-tier line classifier (class `LogAnalyzer`): a line is
 * THREAT when one of eight threat patterns occurs in it, otherwise WARNING
 * when one of nine warning patterns occurs, otherwise INFO. Every pattern is
 * searched with IGNORECASE, modelled by folding the line to lower case first.
 */
module LogAnalyzer {
  import opened Optional
  import opened Ascii
  import opened TextMatch

  /** The strings `analyze_line` returns, which are also the keys of the dict of `analyze_logs`. */
  datatype Level =
    | Threat   // "THREAT"
    | Warning  // "WARNING"
    | Info     // "INFO"

  /** The shapes of the fixed regular expressions of the two pattern lists. */
  datatype Pattern =
    | Phrase(text: string)                          // a literal phrase
    | AccountLocked                                 // Account .* locked
    | Attempts(lo: char, hi: char, tail: string)    // Attempts:\s*[lo-hi]/ followed by tail
    | StatusCode(lead: char)                        // \s<lead>\d\d\s

  const ThreatPatterns: seq<Pattern> := [
    AccountLocked,
    Phrase("Suspicious login"),
    Phrase("Suspicious request pattern"),
    Phrase("Unauthorized access"),
    Phrase("Invalid credentials"),
    Phrase("Rate limit exceeded"),
    Attempts('4', '9', ""),
    Attempts('5', '5', "5")
  ]

  const WarningPatterns: seq<Pattern> := [
    Phrase("Failed login attempt"),
    Phrase("Database connection failed"),
    StatusCode('4'),
    StatusCode('5'),
    Phrase("battery low"),
    Phrase("firmware outdated"),
    Phrase("Bad request"),
    Phrase("Internal server error"),
    Phrase("Resource not found")
  ]

  /** `Account .* locked` matches at `i`, its ` locked` starting at `j`, in the folded text `t`. */
  predicate AccountLockedAt(t: string, i: int, j: int) {
    StartsAt(t, i, "account ") && i + 8 <= j && StartsAt(t, j, " locked") && NoLineFeed(t, i + 8, j)
  }

  /** `Attempts:\s*[lo-hi]/tail` matches at `i` in the folded text `t`; `\s*` is greedy and the class after it is not whitespace, so the digit sits right after the maximal whitespace run. */
  predicate AttemptsAt(t: string, i: int, lo: char, hi: char, tail: string) {
    StartsAt(t, i, "attempts:") &&
    var d := i + 9 + RunLen(t, i + 9, Spaces);
    d + 1 < |t| && lo <= t[d] <= hi && t[d + 1] == '/' && StartsAt(t, d + 2, tail)
  }

  /** `\s<lead>\d\d\s` matches at `i`. */
  predicate StatusCodeAt(t: string, i: int, lead: char) {
    0 <= i && i + 5 <= |t| && IsSpace(t[i]) && t[i + 1] == lead &&
    IsDigit(t[i + 2]) && IsDigit(t[i + 3]) && IsSpace(t[i + 4])
  }

  /** `re.search(pattern, line, re.IGNORECASE)` on the folded line `t == Lower(line)`. */
  predicate Found(p: Pattern, t: string) {
    match p
    case Phrase(text) => Contains(t, Lower(text))
    case AccountLocked => exists i, j :: 0 <= i <= j <= |t| && AccountLockedAt(t, i, j)
    case Attempts(lo, hi, tail) => exists i :: 0 <= i < |t| && AttemptsAt(t, i, lo, hi, tail)
    case StatusCode(lead) => exists i :: 0 <= i < |t| && StatusCodeAt(t, i, lead)
  }

  /** The search of one pattern in a line, ignoring ASCII case. */
  predicate Search(p: Pattern, line: string) {
    Found(p, Lower(line))
  }

  /** Some pattern of the list matches the line. */
  predicate AnyFound(ps: seq<Pattern>, line: string) {
    exists k :: 0 <= k < |ps| && Search(ps[k], line)
  }

  /**
   * The `for pattern in ...: if re.search(...): return` loop: the index of the
   * first pattern of `ps` found in the line, if any.
   */
  function FirstFound(ps: seq<Pattern>, line: string): (r: Option<nat>)
    ensures r.Some? ==> r.value < |ps| && Search(ps[r.value], line) &&
                        forall k :: 0 <= k < r.value ==> !Search(ps[k], line)
    ensures r.None? <==> !AnyFound(ps, line)
  {
    if ps == [] then None
    else if Search(ps[0], line) then Some(0)
    else
      match FirstFound(ps[1..], line)
      case None =>
        assert forall k :: 1 <= k < |ps| ==> ps[k] == ps[1..][k - 1];
        None
      case Some(k) => Some(k + 1)
  }

  /** `analyze_line`: threat patterns first, then warning patterns, else INFO. */
  function AnalyzeLine(line: string): (r: Level)
    ensures r == Threat <==> AnyFound(ThreatPatterns, line)
    ensures r == Warning <==> !AnyFound(ThreatPatterns, line) && AnyFound(WarningPatterns, line)
    ensures r == Info <==> !AnyFound(ThreatPatterns, line) && !AnyFound(WarningPatterns, line)
  {
    if FirstFound(ThreatPatterns, line).Some? then Threat
    else if FirstFound(WarningPatterns, line).Some? then Warning
    else Info
  }

  /** The verdict only depends on the ASCII-folded line. */
  lemma AnalyzeLineFolded(a: string, b: string)
    requires Lower(a) == Lower(b)
    ensures AnalyzeLine(a) == AnalyzeLine(b)
  {
    assert forall p :: Search(p, a) == Search(p, b);
    assert AnyFound(ThreatPatterns, a) == AnyFound(ThreatPatterns, b);
    assert AnyFound(WarningPatterns, a) == AnyFound(WarningPatterns, b);
  }

  /** IGNORECASE everywhere: upper- or lower-casing a line does not change its verdict. */
  lemma AnalyzeLineCaseInsensitive(line: string)
    ensures AnalyzeLine(Upper(line)) == AnalyzeLine(line)
    ensures AnalyzeLine(Lower(line)) == AnalyzeLine(line)
  {
    FoldForgetsCase(line);
    AnalyzeLineFolded(Upper(line), line);
    AnalyzeLineFolded(Lower(line), line);
  }

  /** Threat patterns are tried first: a line with a threat pattern is THREAT whatever warning pattern it also has. */
  lemma ThreatTakesPrecedence(line: string, k: nat)
    requires k < |ThreatPatterns| && Search(ThreatPatterns[k], line)
    ensures AnalyzeLine(line) == Threat
  {
  }

  /** A failed login that also hit the rate limit is THREAT, although it carries a warning phrase too. */
  lemma {:induction false} FailedLoginWithRateLimitIsThreat(pre: string, mid: string, post: string)
    ensures Search(Phrase("Failed login attempt"), pre + "Failed login attempt" + mid + "Rate limit exceeded" + post)
    ensures AnalyzeLine(pre + "Failed login attempt" + mid + "Rate limit exceeded" + post) == Threat
  {
    var w, r := "Failed login attempt", "Rate limit exceeded";
    var line := pre + w + mid + r + post;
    assert StartsAt(line, |pre|, w) by {
      assert line[|pre|..|pre| + |w|] == w;
    }
    var j := |pre| + |w| + |mid|;
    assert StartsAt(line, j, r) by {
      assert line[j..j + |r|] == r;
    }
    StartsAtLower(line, |pre|, w);
    StartsAtLower(line, j, r);
    assert Search(ThreatPatterns[5], line);
  }

  /** `Attempts:\s*5/5` adds nothing: every match of it is a match of `Attempts:\s*[4-9]/`. */
  lemma {:induction false} AttemptsFiveOfFiveSubsumed(line: string)
    requires Search(Attempts('5', '5', "5"), line)
    ensures Search(Attempts('4', '9', ""), line)
  {
    var t := Lower(line);
    var i :| 0 <= i < |t| && AttemptsAt(t, i, '5', '5', "5");
    assert StartsAt(t, i, "attempts:");
    var d := i + 9 + RunLen(t, i + 9, Spaces);
    assert StartsAt(t, d + 2, "");
    assert AttemptsAt(t, i, '4', '9', "");
  }

  /** The attempts pattern at `i` of a folded text, its digit `gap` whitespace characters after the colon. */
  lemma AttemptsFoundAt(t: string, i: int, gap: nat, lo: char, hi: char)
    requires StartsAt(t, i, "attempts:")
    requires i + 9 + gap + 1 < |t|
    requires AllIn(t, i + 9, i + 9 + gap, Spaces)
    requires lo <= t[i + 9 + gap] <= hi && !IsSpace(t[i + 9 + gap]) && t[i + 9 + gap + 1] == '/'
    ensures Found(Attempts(lo, hi, ""), t)
  {
    RunLenUnique(t, i + 9, Spaces, gap);
    assert StartsAt(t, i + 9 + gap + 2, "");
    assert AttemptsAt(t, i, lo, hi, "");
  }

  /** The attempts pattern finds "Attempts:", optional whitespace, a digit 4-9 and "/" anywhere in a line. */
  lemma {:induction false} HighAttemptsFound(pre: string, gap: string, digit: char, post: string)
    requires forall j :: 0 <= j < |gap| ==> IsSpace(gap[j])
    requires '4' <= digit <= '9'
    ensures Search(Attempts('4', '9', ""), pre + "Attempts:" + gap + [digit] + "/" + post)
  {
    var word := "Attempts:";
    var line := pre + word + gap + [digit] + "/" + post;
    var t := Lower(line);
    var i := |pre|;
    var d := i + 9 + |gap|;
    assert StartsAt(t, i, "attempts:") by {
      assert line[i..i + 9] == word;
      StartsAtLower(line, i, word);
      assert Lower(word) == "attempts:";
    }
    assert AllIn(t, i + 9, d, Spaces) by {
      forall j | i + 9 <= j < d ensures IsSpace(t[j]) {
        assert line[j] == gap[j - i - 9];
        LowerKeepsClasses(line[j]);
      }
    }
    assert line[d] == digit && line[d + 1] == '/';
    AttemptsFoundAt(t, i, |gap|, '4', '9');
  }

  /** "Attempts:", optional whitespace, a digit 4-9 and "/" anywhere in a line makes it THREAT. */
  lemma HighAttemptsIsThreat(pre: string, gap: string, digit: char, post: string)
    requires forall j :: 0 <= j < |gap| ==> IsSpace(gap[j])
    requires '4' <= digit <= '9'
    ensures AnalyzeLine(pre + "Attempts:" + gap + [digit] + "/" + post) == Threat
  {
    HighAttemptsFound(pre, gap, digit, post);
    ThreatTakesPrecedence(pre + "Attempts:" + gap + [digit] + "/" + post, 6);
  }

  /** No threat pattern occurs in the folded text "attempts: 3/5": the digit after the colon is 3. */
  lemma LowAttemptsNoThreat()
    ensures forall k :: 0 <= k < |ThreatPatterns| ==> !Found(ThreatPatterns[k], "attempts: 3/5")
  {
    var t := "attempts: 3/5";
    assert RunLen(t, 9, Spaces) == 1 by { RunLenUnique(t, 9, Spaces, 1); }
    forall i | 0 <= i < |t| && AttemptsAt(t, i, '4', '9', "") ensures false {
    }
    forall i | 0 <= i < |t| && AttemptsAt(t, i, '5', '5', "5") ensures false {
    }
    forall i, j | 0 <= i <= j <= |t| && AccountLockedAt(t, i, j) ensures false {
    }
    forall k | 0 <= k < |ThreatPatterns| && ThreatPatterns[k].Phrase? ensures !Found(ThreatPatterns[k], t) {
      assert |Lower(ThreatPatterns[k].text)| > |t|;
    }
  }

  /** The folded warning phrases start with one of "fdbir". */
  lemma WarningPhraseInitials()
    ensures forall k :: 0 <= k < |WarningPatterns| && WarningPatterns[k].Phrase? ==>
      |Lower(WarningPatterns[k].text)| > 0 && Lower(WarningPatterns[k].text)[0] in "fdbir"
  {
    forall k | 0 <= k < |WarningPatterns| && WarningPatterns[k].Phrase?
      ensures |Lower(WarningPatterns[k].text)| > 0 && Lower(WarningPatterns[k].text)[0] in "fdbir"
    {
      var text := WarningPatterns[k].text;
      assert Lower(text)[0] == LowerChar(text[0]);
    }
  }

  /** The only whitespace of "attempts: 3/5" is followed by a 3, so no 4xx or 5xx code occurs in it. */
  lemma LowAttemptsNoStatusCode()
    ensures !Found(StatusCode('4'), "attempts: 3/5") && !Found(StatusCode('5'), "attempts: 3/5")
  {
    var t := "attempts: 3/5";
    forall i | 0 <= i < |t| && StatusCodeAt(t, i, '4') ensures false {
    }
    forall i | 0 <= i < |t| && StatusCodeAt(t, i, '5') ensures false {
    }
  }

  /** No warning pattern occurs in the folded text "attempts: 3/5". */
  lemma LowAttemptsNoWarning()
    ensures forall k :: 0 <= k < |WarningPatterns| ==> !Found(WarningPatterns[k], "attempts: 3/5")
  {
    var t := "attempts: 3/5";
    LowAttemptsNoStatusCode();
    WarningPhraseInitials();
    assert forall c :: c in "fdbir" ==> c !in t;
    forall k | 0 <= k < |WarningPatterns| && WarningPatterns[k].Phrase? ensures !Found(WarningPatterns[k], t) {
      FirstCharAbsent(t, Lower(WarningPatterns[k].text));
    }
  }

  /**
   * "Attempts: 3/5" is below the threshold: the attempts pattern does not
   * fire on it, no other pattern does either, and the line is INFO.
   */
  lemma LowAttemptsNotMatched()
    ensures !Search(Attempts('4', '9', ""), "Attempts: 3/5")
    ensures AnalyzeLine("Attempts: 3/5") == Info
  {
    var line := "Attempts: 3/5";
    assert Lower(line) == "attempts: 3/5";
    LowAttemptsNoThreat();
    LowAttemptsNoWarning();
    assert !Search(ThreatPatterns[6], line);
  }

  /** A phrase whose first character does not occur in the text does not occur in it. */
  lemma FirstCharAbsent(t: string, p: string)
    requires |p| > 0 && p[0] !in t
    ensures !Contains(t, p)
  {
  }

  /** The two words of `Account .* locked` under ASCII folding. */
  lemma FoldAccountLocked()
    ensures Lower("Account ") == "account "
    ensures Lower(" locked") == " locked"
  {
  }

  /** `Account .* locked` matches whatever account name, on one line, sits between the two words, and the line is THREAT. */
  lemma AccountNameLocked(pre: string, name: string, post: string)
    requires forall k :: 0 <= k < |name| ==> name[k] != '\n'
    ensures Search(AccountLocked, pre + "Account " + name + " locked" + post)
    ensures AnalyzeLine(pre + "Account " + name + " locked" + post) == Threat
  {
    var a, b := "Account ", " locked";
    var line := pre + a + name + b + post;
    var t := Lower(line);
    var i, j := |pre|, |pre| + 8 + |name|;
    assert StartsAt(line, i, a) by {
      assert line[i..i + 8] == a;
    }
    assert StartsAt(line, j, b) by {
      assert line[j..j + 7] == b;
    }
    StartsAtLower(line, i, a);
    StartsAtLower(line, j, b);
    FoldAccountLocked();
    forall k | i + 8 <= k < j ensures t[k] != '\n' {
      assert line[k] == name[k - i - 8];
    }
    assert AccountLockedAt(t, i, j);
    ThreatTakesPrecedence(line, 0);
  }

  /** Without a name there is only one space between the words, and `Account .* locked` needs two. */
  lemma AccountLockedNeedsName()
    ensures !Search(AccountLocked, "Account locked")
  {
    var u := Lower("Account locked");
    assert u == "account locked";
    forall i, j | 0 <= i <= j <= |u| && AccountLockedAt(u, i, j) ensures false {
    }
  }

  /** A 5xx code counts only as a three-digit whitespace-delimited token. */
  lemma StatusCodeExamples()
    ensures Search(StatusCode('5'), "GET / 503 ")
    ensures !Search(StatusCode('5'), "GET / 503")
    ensures !Search(StatusCode('5'), "GET / 5030 ")
  {
    assert Lower("GET / 503 ") == "get / 503 ";
    assert StatusCodeAt("get / 503 ", 5, '5');
    var a := Lower("GET / 503");
    assert a == "get / 503";
    forall i | 0 <= i < |a| && StatusCodeAt(a, i, '5') ensures false {
    }
    var b := Lower("GET / 5030 ");
    assert b == "get / 5030 ";
    forall i | 0 <= i < |b| && StatusCodeAt(b, i, '5') ensures false {
    }
  }

  /** The lines of `lines` that `classify` puts at `level`, in input order. */
  function BucketBy(lines: seq<string>, classify: string -> Level, level: Level): (r: seq<string>)
    ensures |r| <= |lines|
  {
    if lines == [] then []
    else
      var rest := BucketBy(lines[..|lines| - 1], classify, level);
      var x := lines[|lines| - 1];
      if classify(x) == level then rest + [x] else rest
  }

  /** The lines of `lines` that `analyze_line` puts at `level`, in input order. */
  function Bucket(lines: seq<string>, level: Level): seq<string> {
    BucketBy(lines, AnalyzeLine, level)
  }

  /** A bucket holds exactly the input lines of its level. */
  lemma {:induction false} BucketMembers(lines: seq<string>, classify: string -> Level, level: Level)
    ensures forall x :: x in BucketBy(lines, classify, level) <==> x in lines && classify(x) == level
  {
    if lines != [] {
      var init, x := lines[..|lines| - 1], lines[|lines| - 1];
      BucketMembers(init, classify, level);
      assert lines == init + [x];
      assert forall y :: y in lines <==> y in init || y == x;
    }
  }

  /** One more line extends the bucket of its own level by that line and leaves the others. */
  lemma BucketStep(lines: seq<string>, i: nat, classify: string -> Level, level: Level)
    requires i < |lines|
    ensures BucketBy(lines[..i + 1], classify, level) ==
            BucketBy(lines[..i], classify, level) + (if classify(lines[i]) == level then [lines[i]] else [])
  {
    assert lines[..i + 1][..i] == lines[..i];
  }

  /** Bucketing a batch is bucketing its parts: order within each bucket is input order. */
  lemma {:induction false} BucketConcat(a: seq<string>, b: seq<string>, classify: string -> Level, level: Level)
    ensures BucketBy(a + b, classify, level) == BucketBy(a, classify, level) + BucketBy(b, classify, level)
    decreases |b|
  {
    if b == [] {
      assert a + b == a;
    } else {
      var b' := b[..|b| - 1];
      assert (a + b)[..|a + b| - 1] == a + b';
      BucketConcat(a, b', classify, level);
    }
  }

  /** Every line lands in exactly one bucket, so the bucket sizes add up to the batch size. */
  lemma {:induction false} BucketsPartition(lines: seq<string>, classify: string -> Level)
    ensures |BucketBy(lines, classify, Threat)| + |BucketBy(lines, classify, Warning)| +
            |BucketBy(lines, classify, Info)| == |lines|
  {
    if lines != [] {
      BucketsPartition(lines[..|lines| - 1], classify);
    }
  }

  /** The loop of `analyze_logs` under a classifier: each line appended to the list of its level. */
  method Partition(lines: seq<string>, classify: string -> Level) returns (results: map<Level, seq<string>>)
    ensures results.Keys == {Threat, Warning, Info}
    ensures forall level :: level in results ==> results[level] == BucketBy(lines, classify, level)
  {
    results := map[Threat := [], Warning := [], Info := []];
    var i := 0;
    while i < |lines|
      invariant 0 <= i <= |lines|
      invariant results.Keys == {Threat, Warning, Info}
      invariant forall level :: level in results ==> results[level] == BucketBy(lines[..i], classify, level)
    {
      BucketStep(lines, i, classify, Threat);
      BucketStep(lines, i, classify, Warning);
      BucketStep(lines, i, classify, Info);
      var level := classify(lines[i]);
      results := results[level := results[level] + [lines[i]]];
      i := i + 1;
    }
    assert lines[..i] == lines;
  }

  /**
   * `analyze_logs`: a dict with the three keys, every line appended to the
   * list of the level `analyze_line` gives it, in order.
   */
  method AnalyzeLogs(lines: seq<string>) returns (results: map<Level, seq<string>>)
    ensures results.Keys == {Threat, Warning, Info}
    ensures forall level :: level in results ==> results[level] == Bucket(lines, level)
  {
    results := Partition(lines, AnalyzeLine);
  }
}
