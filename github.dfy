/** The pure helpers of lib/github.ts: splitting an `owner/repo` string and
    building the browser URL of a workflow run. */
module GitHub {
  import opened Wrappers

  /** The `{owner, repo}` pair that `parseRepository` returns. */
  datatype Repository = Repository(owner: string, repo: string)

  /** The error `parseRepository` throws: `Invalid repository format '<repository>'`. */
  datatype RepositoryError = InvalidRepositoryFormat(repository: string)

  /** `String.prototype.indexOf` for one character: the first position of `c`
      in `s`, or -1 when `c` does not occur. */
  function IndexOf(s: string, c: char): (i: int)
    ensures -1 <= i < |s|
    ensures i == -1 <==> c !in s
    ensures 0 <= i ==> s[i] == c && c !in s[..i]
  {
    if s == [] then -1
    else if s[0] == c then 0
    else
      var j := IndexOf(s[1..], c);
      assert s[1..][..j + 1] == s[1..j + 2];
      if j == -1 then -1 else j + 1
  }

  /** `parseRepository`: split at the first '/'; fail when there is none.
      Neither part is checked for emptiness. */
  function ParseRepository(repository: string): (r: Result<Repository, RepositoryError>)
    ensures r.Err? <==> '/' !in repository
    ensures r.Err? ==> r.error == InvalidRepositoryFormat(repository)
    ensures r.Ok? ==> r.value.owner + "/" + r.value.repo == repository
    ensures r.Ok? ==> '/' !in r.value.owner
  {
    var separatorIndex := IndexOf(repository, '/');
    if separatorIndex == -1 then Err(InvalidRepositoryFormat(repository))
    else
      assert repository == repository[..separatorIndex] + "/" + repository[separatorIndex + 1..];
      Ok(Repository(repository[..separatorIndex], repository[separatorIndex + 1..]))
  }

  /** The separator right after a '/'-free owner is the first one. */
  lemma {:induction false} IndexOfAfterPrefix(owner: string, c: char, rest: string)
    requires c !in owner
    ensures IndexOf(owner + [c] + rest, c) == |owner|
  {
    if owner != [] {
      assert (owner + [c] + rest)[1..] == owner[1..] + [c] + rest;
      IndexOfAfterPrefix(owner[1..], c, rest);
    }
  }

  /** The converse round trip: joining an owner that has no '/' with any repo
      (which may itself hold '/', or be empty) parses back to the same pair. */
  lemma ParseJoinedRepository(owner: string, repo: string)
    requires '/' !in owner
    ensures ParseRepository(owner + "/" + repo) == Ok(Repository(owner, repo))
  {
    var s := owner + "/" + repo;
    IndexOfAfterPrefix(owner, '/', repo);
    assert s[..|owner|] == owner;
    assert s[|owner| + 1..] == repo;
  }

  /** A leading '/' is accepted and gives an empty owner. */
  lemma EmptyOwnerAccepted(repo: string)
    ensures ParseRepository("/" + repo) == Ok(Repository("", repo))
  {
    ParseJoinedRepository("", repo);
  }

  /** A trailing '/' is accepted and gives an empty repo. */
  lemma EmptyRepoAccepted(owner: string)
    requires '/' !in owner
    ensures ParseRepository(owner + "/") == Ok(Repository(owner, ""))
  {
    ParseJoinedRepository(owner, "");
  }

  /** Separators after the first stay in `repo`. */
  lemma LaterSeparatorsStayInRepo()
    ensures ParseRepository("a/b/c") == Ok(Repository("a", "b/c"))
  {
    assert "a/b/c" == "a" + "/" + "b/c";
    ParseJoinedRepository("a", "b/c");
  }

  /** The character of a decimal digit. */
  function DigitChar(d: nat): (c: char)
    requires d < 10
    ensures IsDigit(c) && (c - '0') as nat == d
  {
    (d as int + '0' as int) as char
  }

  predicate IsDigit(c: char) {
    '0' <= c <= '9'
  }

  predicate AllDigits(s: string) {
    forall i :: 0 <= i < |s| ==> IsDigit(s[i])
  }

  /** The decimal numeral of a natural number, as `${n}` writes it. */
  function Decimal(n: nat): (s: string)
    ensures |s| >= 1 && AllDigits(s)
    ensures s[0] == '0' ==> n == 0
  {
    if n < 10 then [DigitChar(n)] else Decimal(n / 10) + [DigitChar(n % 10)]
  }

  /** The value of a numeral: the inverse of `Decimal`. */
  function ParseDecimal(s: string): (n: nat)
    requires AllDigits(s)
  {
    if s == [] then 0 else ParseDecimal(s[..|s| - 1]) * 10 + (s[|s| - 1] - '0') as nat
  }

  lemma {:induction false} DecimalRoundTrip(n: nat)
    ensures ParseDecimal(Decimal(n)) == n
  {
    if n >= 10 {
      DecimalRoundTrip(n / 10);
      var s := Decimal(n);
      assert s[..|s| - 1] == Decimal(n / 10);
    }
  }

  /** How a JavaScript integer is written in a template string: an optional
      '-' and the decimal numeral of its magnitude. */
  function NumberToString(x: int): (s: string)
    ensures |s| >= 1
    ensures x < 0 <==> s[0] == '-'
  {
    if x < 0 then "-" + Decimal(-x) else Decimal(x)
  }

  /** Reads back what `NumberToString` writes. */
  function ParseNumber(s: string): (x: int)
    requires s != [] && (if s[0] == '-' then AllDigits(s[1..]) else AllDigits(s))
  {
    if s[0] == '-' then -(ParseDecimal(s[1..]) as int) else ParseDecimal(s)
  }

  lemma NumberRoundTrip(x: int)
    ensures var s := NumberToString(x);
      s != [] && (if s[0] == '-' then AllDigits(s[1..]) else AllDigits(s)) &&
      ParseNumber(s) == x
  {
    if x < 0 {
      DecimalRoundTrip(-x);
      assert NumberToString(x)[1..] == Decimal(-x);
    } else {
      DecimalRoundTrip(x);
    }
  }

  /** Different numbers are written differently. */
  lemma NumberToStringInjective(x: int, y: int)
    requires NumberToString(x) == NumberToString(y)
    ensures x == y
  {
    NumberRoundTrip(x);
    NumberRoundTrip(y);
  }

  /** The fields of the workflow context `getWorkflowRunHtmlUrl` reads.
      `runAttempt` is optional (`undefined` is `None`). */
  datatype RunContext = RunContext(serverUrl: string, repo: Repository, runId: int, runAttempt: Option<int>)

  /** JavaScript truthiness of the optional number `runAttempt`:
      `undefined` and 0 are falsy. */
  predicate AttemptIsTruthy(runAttempt: Option<int>) {
    runAttempt.Some? && runAttempt.value != 0
  }

  /** The URL of the run itself, without any attempt. */
  function RunUrl(ctx: RunContext): (url: string) {
    ctx.serverUrl + "/" + ctx.repo.owner + "/" + ctx.repo.repo + "/actions/runs/" + NumberToString(ctx.runId)
  }

  /** `getWorkflowRunHtmlUrl`: the run URL, followed by `/attempts/<n>`
      when the attempt is truthy. */
  function WorkflowRunHtmlUrl(ctx: RunContext): (url: string)
    ensures RunUrl(ctx) <= url
    ensures |url| > |RunUrl(ctx)| <==> AttemptIsTruthy(ctx.runAttempt)
    ensures AttemptIsTruthy(ctx.runAttempt) ==> url[|RunUrl(ctx)|..] == "/attempts/" + NumberToString(ctx.runAttempt.value)
  {
    RunUrl(ctx) + (if AttemptIsTruthy(ctx.runAttempt) then "/attempts/" + NumberToString(ctx.runAttempt.value) else "")
  }

  /** An attempt of 0 is falsy: the URL is the one without an attempt. */
  lemma ZeroAttemptOmitted(ctx: RunContext)
    ensures WorkflowRunHtmlUrl(ctx.(runAttempt := Some(0))) == WorkflowRunHtmlUrl(ctx.(runAttempt := None))
  {
  }

  /** The URL without an attempt is a strict prefix of the URL of the same
      run with a non-zero attempt. */
  lemma AttemptUrlExtendsRunUrl(ctx: RunContext, n: int)
    requires n != 0
    ensures WorkflowRunHtmlUrl(ctx.(runAttempt := None)) < WorkflowRunHtmlUrl(ctx.(runAttempt := Some(n)))
  {
    assert RunUrl(ctx.(runAttempt := None)) == RunUrl(ctx.(runAttempt := Some(n)));
  }

  /** Distinct non-zero attempts of one run have distinct URLs. */
  lemma DistinctAttemptsDistinctUrls(ctx: RunContext, m: int, n: int)
    requires m != 0 && n != 0 && m != n
    ensures WorkflowRunHtmlUrl(ctx.(runAttempt := Some(m))) != WorkflowRunHtmlUrl(ctx.(runAttempt := Some(n)))
  {
    var base := RunUrl(ctx);
    assert RunUrl(ctx.(runAttempt := Some(m))) == base == RunUrl(ctx.(runAttempt := Some(n)));
    var um := WorkflowRunHtmlUrl(ctx.(runAttempt := Some(m)));
    var un := WorkflowRunHtmlUrl(ctx.(runAttempt := Some(n)));
    if um == un {
      var prefix := "/attempts/";
      assert (prefix + NumberToString(m))[|prefix|..] == NumberToString(m);
      assert (prefix + NumberToString(n))[|prefix|..] == NumberToString(n);
      assert um[|base|..] == un[|base|..];
      NumberToStringInjective(m, n);
    }
  }
}
