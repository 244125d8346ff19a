# actions--context core, modelled in Dafny

This project models the pure core of a GitHub Actions helper that tells a job
who it is: the matrix-value flattener that builds job-name suffixes, the
helpers that split an `owner/repo` string and build a workflow-run URL, and
the parser that reads the chain of caller jobs (job name, optional matrix,
job name, ...) of nested reusable workflows.

- `wrappers.dfy` (module `Wrappers`): `Option` and `Result`.
- `common.dfy` (module `Common`): the JSON value type and `getFlatValues`
  (lib/common.ts). Object entries are an ordered sequence, so the order in
  which `Object.values` enumerates them is fixed.
- `github.dfy` (module `GitHub`): `parseRepository` and
  `getWorkflowRunHtmlUrl` (lib/github.ts), with the `indexOf` and
  number-to-string steps they rely on written out.
- `sandbox.dfy` (module `WorkflowContext`): `parseWorkflowContext`
  (sandbox.js). The source's loop becomes a method that shifts elements off a
  queue and pushes links. It is proved equal to the recursive specification
  `ParseChain`. The lemmas then tie `ParseChain` to its inverse `Emit`.

A JavaScript number is modelled as an `int` (run ids and attempts) or a
`real` (JSON numbers, which the flattener never inspects). `undefined` for an
optional field is `None`. JavaScript truthiness of `runAttempt` is written out
in `AttemptIsTruthy`.

## Model

| member | source | states |
|---|---|---|
| Common.Values | lib/common.ts:51 | `Object.values`: one value per entry, the i-th value is the i-th entry's value |
| Common.Flatten | lib/common.ts:42-52 | every element of the flattened result is a scalar; no array or object survives |
| Common.FlattenAll | lib/common.ts:47-49 | `flatMap(getFlatValues)` over an array yields only scalars |
| Common.FlattenEntries | lib/common.ts:51 | flattening an object's values yields only scalars |
| Common.ScalarFlattensToItself | lib/common.ts:43-45 | a string, number, boolean or null flattens to the one-element sequence holding it |
| Common.EmptyFlattensToNothing | lib/common.ts:47-51 | an empty array and an empty object both flatten to the empty sequence |
| Common.FlattenAllAppend | lib/common.ts:47-49 | flattening the concatenation of two arrays is the concatenation of their flattenings |
| Common.FlattenArrayCons | lib/common.ts:47-49 | an array flattens to its first element's flattening followed by the rest's |
| Common.ObjectFlattensAsArray | lib/common.ts:51 | an object flattens exactly like the array of its values in enumeration order |
| Common.TwoEntryObject | lib/common.ts:51 | for distinct keys, `flatten({a: X, b: Y}) == flatten(X) + flatten(Y)` |
| Common.FlattenAllScalars | lib/common.ts:42-52 | an array of scalars flattens to itself |
| Common.FlattenIdempotent | lib/common.ts:42-52 | flattening the array of a flattened result returns that result unchanged |
| Common.FlattenLength | lib/common.ts:42-52 | the result has exactly one element per scalar leaf of the input |
| Common.FlattenAllLength | lib/common.ts:47-49 | an array's flattening has as many elements as the array has scalar leaves |
| Common.FlattenEntriesLength | lib/common.ts:51 | an object's flattening has as many elements as its values have scalar leaves |
| GitHub.IndexOf | lib/github.ts:9 | `indexOf('/')`: -1 exactly when there is no '/', otherwise the position of the first one |
| GitHub.ParseRepository | lib/github.ts:8-15 | fails with the input exactly when it holds no '/'; on success `owner + "/" + repo` is the input and `owner` holds no '/' |
| GitHub.IndexOfAfterPrefix | lib/github.ts:9 | after a '/'-free owner, the first '/' is the one that follows it |
| GitHub.ParseJoinedRepository | lib/github.ts:8-15 | any '/'-free owner joined with any repo parses back to exactly that pair |
| GitHub.EmptyOwnerAccepted | lib/github.ts:9-14 | a leading '/' succeeds with an empty owner |
| GitHub.EmptyRepoAccepted | lib/github.ts:9-14 | a trailing '/' succeeds with an empty repo |
| GitHub.LaterSeparatorsStayInRepo | lib/github.ts:12-13 | `a/b/c` splits into owner `a` and repo `b/c` |
| GitHub.DigitChar | lib/github.ts:39 | the digit character for a value below ten is a digit and reads back as that value |
| GitHub.Decimal | lib/github.ts:39 | the decimal numeral of a number is non-empty, all digits, with no leading zero |
| GitHub.DecimalRoundTrip | lib/github.ts:39 | reading back a decimal numeral gives the number |
| GitHub.NumberToString | lib/github.ts:39 | an integer's text starts with '-' exactly when it is negative |
| GitHub.NumberRoundTrip | lib/github.ts:39 | reading back an integer's text gives the integer |
| GitHub.NumberToStringInjective | lib/github.ts:39 | different integers are written differently |
| GitHub.WorkflowRunHtmlUrl | lib/github.ts:33-40 | the URL starts with the server, owner, repo and `/actions/runs/<runId>`; it is longer exactly when the attempt is truthy, and then ends in `/attempts/<runAttempt>` |
| GitHub.ZeroAttemptOmitted | lib/github.ts:39 | attempt 0 is falsy and gives the URL without an attempt |
| GitHub.AttemptUrlExtendsRunUrl | lib/github.ts:39 | the URL without an attempt is a strict prefix of the URL with a non-zero attempt |
| GitHub.DistinctAttemptsDistinctUrls | lib/github.ts:39 | two different non-zero attempts of one run give different URLs |
| WorkflowContext.ParseWorkflowContext | sandbox.js:16-31 | the shift-and-push loop returns exactly `ParseChain` of the array; on success emitting the links gives back the array |
| WorkflowContext.ParseThenEmit | sandbox.js:17-30 | a successful parse consumes every element once and in order: each job and its consumed matrix reproduce the input, and every matrix is object-typed |
| WorkflowContext.EmitThenParse | sandbox.js:19-29 | links whose matrices are object-typed, written out, parse back to the same links |
| WorkflowContext.ParseFailsIffNoChain | sandbox.js:19-29 | parsing fails exactly when the input is not a sequence of job-name strings each optionally followed by an object-typed matrix |
| WorkflowContext.EmitLength | sandbox.js:19-29 | each link stands for one or two elements |
| WorkflowContext.LinkCountBounds | sandbox.js:18-30 | n input elements give between ceil(n/2) and n links; the empty input gives none |
| WorkflowContext.JobsAreEmitted | sandbox.js:20 | every link's job is among the elements the links stand for |
| WorkflowContext.JobsComeFromInput | sandbox.js:19-28 | on success every link's job is a string element of the input |
| WorkflowContext.ErrorIsAtJobPosition | sandbox.js:20-23 | a failure names an element in job position that is not a string, after a valid chain prefix, and that element could not have been taken as a matrix |
| WorkflowContext.JobPositionFails | sandbox.js:20-27 | conversely, a non-string element in job position makes the parse fail with that element |
| WorkflowContext.ScalarAfterJobFails | sandbox.js:24-26 | a number or boolean after a job name is not its matrix, and the next iteration rejects it |
| WorkflowContext.StringAfterJobStartsLink | sandbox.js:24-28 | a string after a job name leaves that job without a matrix and starts the next link |
| WorkflowContext.DeployReleaseExample | sandbox.js:16-31 | `"deploy", {"env": "prod"}, "release"` gives `deploy` with its matrix and `release` without one |

## Left out

- The `JSON.parse` of the bracketed workflow-context string (sandbox.js:17) is a foreign call. The model starts from the parsed array. Malformed JSON and the trailing comma before `]` are therefore not modelled.
- `toJson` and the console demonstration in sandbox.js wrap `JSON.stringify` and console output.
- `getLatestDeploymentStatus` (lib/github.ts:17-29) is a REST call. `sleep` is a timer. `JsonTransformer`, `YamlTransformer` and the zod schemas (lib/common.ts:7-27) wrap `JSON.parse`, a YAML library and zod.
- index.ts is orchestration: API client creation, the delay, output and logging. lib/actions.ts holds error-reporting plumbing and a constant. local-run-sandbox.ts changes the process environment and runs shell commands. eslint.config.js is lint configuration.
- The job and deployment resolution functions that index.ts imports are not defined in any source file shown. They are not part of this model.
- Common.Flatten: `getFlatValues` also accepts `undefined` and returns `[undefined]`. The JSON type has no `undefined`, so the model does not cover it.
- Common.ObjectFlattensAsArray: JavaScript enumerates integer-like object keys first, in ascending order. The model takes an object's entries to be listed already in enumeration order.
- Common.WellFormed states that object keys are unique. The flattener does not depend on it, so no operation requires it.
- GitHub.NumberToString: matches JavaScript's `${n}` only for integers with |n| <= 2^53. A JavaScript number is a double, and above 2^53 it is written as its shortest round-trip digits padded with zeros (2^57 is written `144115188075855870`), which the model does not reproduce. NaN, fractional numbers and exponent notation (from 1e21 up) are not modelled either.
- GitHub.WorkflowRunHtmlUrl: run ids and attempts are integers, written by `NumberToString`, so the URL equals the source's only when |runId| and |runAttempt| are at most 2^53. NaN (a falsy attempt) is not modelled.
- Strings are sequences of characters. UTF-16 code units and surrogate pairs are not modelled separately.
- WorkflowContext.ParseWorkflowContext: the source shifts destructively from the array it parsed itself. The model shifts from a local queue of values. No caller can observe the difference.
- The error text is reduced to the offending element. The message formatting is not modelled.
