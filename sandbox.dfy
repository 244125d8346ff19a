/** `parseWorkflowContext` of sandbox.js: reads a chain of caller jobs, each
    a job name optionally followed by its matrix, from an already parsed JSON
    array. The JSON parse itself is not part of this model. */
module WorkflowContext {
  import opened Wrappers
  import opened Common

  /** One `{job, matrix}` entry; `matrix` is `None` when no element was
      consumed for it (JavaScript `undefined`), which differs from a consumed
      `null` (`Some(JNull)`). */
  datatype Link = Link(job: string, matrix: Option<Json>)

  /** The error thrown for an element in job position that is not a string:
      `Invalid job name: <element>`. */
  datatype ParseError = InvalidJobName(job: Json)

  /** Puts already emitted links in front of the outcome of the rest. */
  function PrependLinks(links: seq<Link>, r: Result<seq<Link>, ParseError>): (out: Result<seq<Link>, ParseError>) {
    match r
    case Ok(tail) => Ok(links + tail)
    case Err(e) => Err(e)
  }

  /** Proof helper for the loop: an empty prefix changes nothing. */
  lemma PrependNoLinks(r: Result<seq<Link>, ParseError>)
    ensures PrependLinks([], r) == r
  {
    if r.Ok? {
      assert [] + r.value == r.value;
    }
  }

  /** Proof helper for the loop: two prefixes compose into one. */
  lemma PrependLinksTwice(a: seq<Link>, b: seq<Link>, r: Result<seq<Link>, ParseError>)
    ensures PrependLinks(a, PrependLinks(b, r)) == PrependLinks(a + b, r)
  {
    if r.Ok? {
      assert a + (b + r.value) == (a + b) + r.value;
    }
  }

  /** The outcome of consuming `queue` from the front: a job name that must be
      a string, then the next element as its matrix when that element is an
      object, an array or null. */
  function ParseChain(queue: seq<Json>): (r: Result<seq<Link>, ParseError>)
    decreases |queue|
  {
    if queue == [] then Ok([])
    else if !queue[0].JString? then Err(InvalidJobName(queue[0]))
    else
      var rest := queue[1..];
      var matrix := if rest != [] && IsObjectTyped(rest[0]) then Some(rest[0]) else None;
      PrependLinks([Link(queue[0].str, matrix)], ParseChain(if matrix.Some? then rest[1..] else rest))
  }

  /** `parseWorkflowContext`, from the array `JSON.parse` produced: shifts a
      job name off the queue, shifts the next element too when it is
      object-typed, and pushes the link, until the queue is empty. */
  method ParseWorkflowContext(contextArray: seq<Json>) returns (r: Result<seq<Link>, ParseError>)
    ensures r == ParseChain(contextArray)
    ensures r.Ok? ==> Emit(r.value) == contextArray && Canonical(r.value)
  {
    var queue := contextArray;
    var context: seq<Link> := [];
    PrependNoLinks(ParseChain(queue));
    while |queue| > 0
      invariant ParseChain(contextArray) == PrependLinks(context, ParseChain(queue))
      decreases |queue|
    {
      ghost var before := queue;
      var job := queue[0];
      queue := queue[1..];
      if !job.JString? {
        assert ParseChain(before) == Err(InvalidJobName(job));
        return Err(InvalidJobName(job));
      }
      var matrix := None;
      // On an empty queue `contextArray[0]` is undefined, whose typeof is not 'object'.
      if |queue| > 0 && IsObjectTyped(queue[0]) {
        matrix := Some(queue[0]);
        queue := queue[1..];
      }
      assert ParseChain(before) == PrependLinks([Link(job.str, matrix)], ParseChain(queue));
      PrependLinksTwice(context, [Link(job.str, matrix)], ParseChain(queue));
      context := context + [Link(job.str, matrix)];
    }
    assert context + [] == context;
    r := Ok(context);
    ParseThenEmit(contextArray);
  }

  /** The elements a chain of links stands for: each job name, followed by
      its matrix when one was consumed. */
  function Emit(links: seq<Link>): (elements: seq<Json>) {
    if links == [] then []
    else
      [JString(links[0].job)] + (if links[0].matrix.Some? then [links[0].matrix.value] else []) + Emit(links[1..])
  }

  /** Links the parser can produce: every consumed matrix is object-typed. */
  predicate Canonical(links: seq<Link>) {
    forall i :: 0 <= i < |links| ==> links[i].matrix.Some? ==> IsObjectTyped(links[i].matrix.value)
  }

  /** Round trip: a successful parse consumes every element exactly once, in
      order, so emitting the links gives the input back. */
  lemma {:induction false} ParseThenEmit(input: seq<Json>)
    ensures ParseChain(input).Ok? ==> Emit(ParseChain(input).value) == input && Canonical(ParseChain(input).value)
    decreases |input|
  {
    if input != [] && input[0].JString? {
      var rest := input[1..];
      var matrix := if rest != [] && IsObjectTyped(rest[0]) then Some(rest[0]) else None;
      var remaining := if matrix.Some? then rest[1..] else rest;
      ParseThenEmit(remaining);
      if ParseChain(input).Ok? {
        var tail := ParseChain(remaining).value;
        var links := [Link(input[0].str, matrix)] + tail;
        assert ParseChain(input).value == links;
        assert links[1..] == tail;
        assert input == [input[0]] + (if matrix.Some? then [matrix.value] else []) + remaining;
        forall i | 0 <= i < |links| && links[i].matrix.Some?
          ensures IsObjectTyped(links[i].matrix.value)
        {
          if i > 0 { assert links[i] == tail[i - 1]; }
        }
      }
    }
  }

  /** The converse round trip: emitting canonical links and parsing the
      result gives the same links back. */
  lemma {:induction false} EmitThenParse(links: seq<Link>)
    requires Canonical(links)
    ensures ParseChain(Emit(links)) == Ok(links)
    decreases links
  {
    if links != [] {
      var tail := links[1..];
      assert Canonical(tail) by {
        forall i | 0 <= i < |tail| ensures tail[i] == links[i + 1] { }
      }
      EmitThenParse(tail);
      var input := Emit(links);
      var m := links[0].matrix;
      var rest := input[1..];
      if m.Some? {
        assert rest == [m.value] + Emit(tail);
        assert IsObjectTyped(m.value) by { assert links[0].matrix == m; }
        assert rest[1..] == Emit(tail);
      } else {
        assert rest == Emit(tail);
        assert rest != [] ==> rest[0].JString?;
      }
      assert links == [links[0]] + tail;
    }
  }

  /** Parsing fails exactly when the input is not the emission of any chain
      of canonical links. */
  lemma ParseFailsIffNoChain(input: seq<Json>)
    ensures ParseChain(input).Err? <==> !exists links :: Canonical(links) && Emit(links) == input
  {
    if ParseChain(input).Ok? {
      ParseThenEmit(input);
    }
    if exists links :: Canonical(links) && Emit(links) == input {
      var links :| Canonical(links) && Emit(links) == input;
      EmitThenParse(links);
    }
  }

  /** One chain of links emits between one and two elements per link. */
  lemma {:induction false} EmitLength(links: seq<Link>)
    ensures |links| <= |Emit(links)| <= 2 * |links|
    decreases links
  {
    if links != [] {
      EmitLength(links[1..]);
    }
  }

  /** For an input of length n, a successful parse yields between ceil(n/2)
      and n links; the empty input yields none. */
  lemma LinkCountBounds(input: seq<Json>)
    requires ParseChain(input).Ok?
    ensures var n := |ParseChain(input).value|;
      n <= |input| <= 2 * n
    ensures input == [] ==> ParseChain(input) == Ok([])
  {
    ParseThenEmit(input);
    EmitLength(ParseChain(input).value);
  }

  /** Every job name is a string element of the chain's emission. */
  lemma {:induction false} JobsAreEmitted(links: seq<Link>, i: nat)
    requires i < |links|
    ensures JString(links[i].job) in Emit(links)
    decreases links
  {
    if i > 0 {
      JobsAreEmitted(links[1..], i - 1);
    }
  }

  /** On success every link's job is a string element taken from the input. */
  lemma JobsComeFromInput(input: seq<Json>, i: nat)
    requires ParseChain(input).Ok? && i < |ParseChain(input).value|
    ensures JString(ParseChain(input).value[i].job) in input
  {
    ParseThenEmit(input);
    JobsAreEmitted(ParseChain(input).value, i);
  }

  /** Where the parser stops with an error: the elements before position k
      form a chain of canonical links, the element at k is `v` and is not a
      string, and it could not have been taken as the matrix of the last link
      (that link already has one, or `v` is not object-typed). */
  ghost predicate FailsAt(input: seq<Json>, links: seq<Link>, k: nat, v: Json) {
    k < |input| && Canonical(links) && Emit(links) == input[..k] &&
    input[k] == v && !v.JString? &&
    (links == [] || links[|links| - 1].matrix.Some? || !IsObjectTyped(v))
  }

  /** A failed parse names an element in job position that is not a string. */
  lemma {:induction false} ErrorIsAtJobPosition(input: seq<Json>)
    requires ParseChain(input).Err?
    ensures exists links: seq<Link>, k: nat :: FailsAt(input, links, k, ParseChain(input).error.job)
    decreases |input|
  {
    var v := ParseChain(input).error.job;
    if !input[0].JString? {
      assert input[..0] == [];
      assert FailsAt(input, [], 0, v);
    } else {
      var rest := input[1..];
      var matrix := if rest != [] && IsObjectTyped(rest[0]) then Some(rest[0]) else None;
      var remaining := if matrix.Some? then rest[1..] else rest;
      var used := |input| - |remaining|;
      assert input == input[..used] + remaining;
      ErrorIsAtJobPosition(remaining);
      var tail: seq<Link>, k': nat :| FailsAt(remaining, tail, k', v);
      var head := Link(input[0].str, matrix);
      var links := [head] + tail;
      assert links[1..] == tail;
      assert Emit([head]) == input[..used];
      assert Emit(links) == Emit([head]) + Emit(tail);
      assert input[..used + k'] == input[..used] + remaining[..k'];
      assert Canonical(links) by {
        forall i | 0 <= i < |links| && links[i].matrix.Some?
          ensures IsObjectTyped(links[i].matrix.value)
        {
          if i > 0 { assert links[i] == tail[i - 1]; }
        }
      }
      assert FailsAt(input, links, used + k', v);
    }
  }

  /** Conversely, a non-string element in job position makes the parse fail
      with that element. */
  lemma {:induction false} JobPositionFails(input: seq<Json>, links: seq<Link>, k: nat, v: Json)
    requires FailsAt(input, links, k, v)
    ensures ParseChain(input) == Err(InvalidJobName(v))
    decreases links
  {
    if links == [] {
      assert input[0] == v;
    } else {
      var head := links[0];
      var tail := links[1..];
      assert Emit(links) == [JString(head.job)] + (if head.matrix.Some? then [head.matrix.value] else []) + Emit(tail);
      var used := if head.matrix.Some? then 2 else 1;
      assert input[..k] == Emit(links);
      assert input[0] == JString(head.job);
      assert Canonical(tail) by {
        forall i | 0 <= i < |tail| ensures tail[i] == links[i + 1] { }
      }
      var remaining := input[used..];
      assert remaining[..k - used] == Emit(tail) by {
        assert input[..k][used..] == Emit(tail);
      }
      if head.matrix.Some? {
        assert IsObjectTyped(head.matrix.value) by { assert links[0] == head; }
        assert input[1] == head.matrix.value;
      } else if tail != [] {
        assert input[1] == JString(tail[0].job);
      } else {
        assert input[1] == v;
      }
      assert tail != [] ==> tail[|tail| - 1] == links[|links| - 1];
      JobPositionFails(remaining, tail, k - used, v);
      assert input[1..][used - 1..] == remaining;
    }
  }

  /** A number or boolean right after a job name is not taken as its matrix,
      so the next iteration rejects it. */
  lemma ScalarAfterJobFails(job: string, x: Json, rest: seq<Json>)
    requires x.JNumber? || x.JBool?
    ensures ParseChain([JString(job), x] + rest) == Err(InvalidJobName(x))
  {
    var input := [JString(job), x] + rest;
    assert input[1..] == [x] + rest;
    assert input[1..][0] == x;
  }

  /** A string right after a job name starts the next link. */
  lemma StringAfterJobStartsLink(job: string, next: string, rest: seq<Json>)
    ensures var input := [JString(job), JString(next)] + rest;
      ParseChain(input) == PrependLinks([Link(job, None)], ParseChain([JString(next)] + rest))
  {
    var input := [JString(job), JString(next)] + rest;
    assert input[1..] == [JString(next)] + rest;
  }

  /** `"deploy", {"env": "prod"}, "release"` gives a link with a matrix and a
      link without one. */
  lemma DeployReleaseExample()
    ensures ParseChain([JString("deploy"), JObject([("env", JString("prod"))]), JString("release")])
      == Ok([Link("deploy", Some(JObject([("env", JString("prod"))]))), Link("release", None)])
  {
    var links := [Link("deploy", Some(JObject([("env", JString("prod"))]))), Link("release", None)];
    assert Canonical(links);
    assert Emit(links[1..]) == [JString("release")];
    assert Emit(links) == [JString("deploy"), JObject([("env", JString("prod"))]), JString("release")];
    EmitThenParse(links);
  }
}
