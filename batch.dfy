/** The batch executor of `Kronos.execute`: one pass over the input items, each
    resolved, sent and (for `getMany`) postprocessed, the results appended in order to
    the output, and each failure either recorded or thrown. */
module Batch {
  import opened Wrappers
  import opened Json
  import opened TimeApi
  import opened Resolver
  import opened Postprocessor

  /** What the node consults outside itself: the configured base URL, `convertTimezone`
      (the conversion service together with the body it posts and the formatting around it),
      `JSON.parse`, and the HTTP helper of the host. */
  datatype Env = Env(
    baseUrl: string,
    convert: ZoneCall -> Result<string>,
    parse: string -> Result<Value>,
    request: Request -> Result<Value>)

  /** One entry of `returnData`: its JSON and the index of the item it is paired with. */
  datatype Output = Output(json: Value, item: nat)

  /** What one item did: the request it issued to the scheduling service, if it got that
      far, and the records it yields or the message of the error it threw. The calls
      `convertTimezone` makes are inside `Env.convert` and are not recorded here. */
  datatype ItemRun = ItemRun(sent: Option<Request>, outcome: Result<seq<Value>>)

  /** How a batch ends: with all its output, or thrown at one item. */
  datatype Outcome = Completed(records: seq<Output>) | Aborted(item: nat, message: string)

  /** Everything a batch did: the requests it issued to the scheduling service, in order,
      and how it ended. */
  datatype BatchRun = BatchRun(sent: seq<Request>, outcome: Outcome)

  /** The record pushed for a failed item in continue-on-fail mode. */
  function ErrorRecord(message: string, i: nat): Output {
    Output(Obj(map["error" := Str(message)]), i)
  }

  /** Pairs every record of one item with that item's index. */
  function Tagged(vs: seq<Value>, i: nat): (r: seq<Output>)
    ensures |r| == |vs|
    ensures forall k :: 0 <= k < |r| ==> r[k] == Output(vs[k], i)
  {
    seq(|vs|, k requires 0 <= k < |vs| => Output(vs[k], i))
  }

  lemma TaggedSnoc(vs: seq<Value>, j: nat, i: nat)
    requires j < |vs|
    ensures Tagged(vs[..j + 1], i) == Tagged(vs[..j], i) + [Output(vs[j], i)]
  {
  }

  /** The JSON of each output record, in order. */
  function Jsons(out: seq<Output>): seq<Value> {
    seq(|out|, k requires 0 <= k < |out| => out[k].json)
  }

  /** Tagging loses nothing: the records read back as the item's values, every one of them
      paired with that item. */
  lemma TaggedRoundTrip(vs: seq<Value>, i: nat)
    ensures Jsons(Tagged(vs, i)) == vs
    ensures forall o :: o in Tagged(vs, i) ==> o.item == i
  {
  }

  /** The records of a `getMany` item, from the service's response: the filter document
      is parsed, then the response goes through the postprocessor's steps. */
  function GetManyRecords(p: Params, env: Env, response: Value): Result<seq<Value>>
  {
    var filter :- env.parse(p.filterMetadata);
    match response
    case Arr(schedules) => Postprocess(schedules, p.filterTitle, filter, p.returnAll, p.limit)
    case _ => NonListRecords(response, p.filterTitle, filter, p.returnAll, p.limit)
  }

  /** The one-character strings a string response is indexed into. */
  function Characters(s: string): (r: seq<Value>)
    ensures |r| == |s|
    ensures forall k :: 0 <= k < |r| ==> r[k] == Str([s[k]])
  {
    seq(|s|, k requires 0 <= k < |s| => Str([s[k]]))
  }

  /** The strings of a list of values, concatenated (other values add nothing). */
  function Joined(vs: seq<Value>): string
    decreases |vs|
  {
    if vs == [] then "" else (if vs[0].Str? then vs[0].s else "") + Joined(vs[1..])
  }

  /** Indexing a string into its characters loses nothing: they join back into it. */
  lemma {:induction false} CharactersJoin(s: string)
    ensures Joined(Characters(s)) == s
    decreases |s|
  {
    if s != [] {
      CharactersJoin(s[1..]);
      assert Characters(s)[1..] == Characters(s[1..]);
      assert s == [s[0]] + s[1..];
    }
  }

  /** The message of calling a list method `name` on a response that is not a list. */
  function NotAListMessage(response: Value, name: string): string {
    if response.Null? then "Cannot read properties of null (reading '" + name + "')"
    else "response." + name + " is not a function"
  }

  /** The same steps on a response that is not a list: `filter` exists on no such value,
      `Object.keys` runs between the two filters, `slice` exists only on a string, and the
      final loop reads `length`, which only a string has (and `null` cannot be read at all). */
  function NonListRecords(response: Value, filterTitle: string, filter: Value, returnAll: bool, limit: int): Result<seq<Value>>
    requires !response.Arr?
  {
    if filterTitle != "" then Failure(NotAListMessage(response, "filter"))
    else
      var entries :- Entries(filter);
      if |entries| > 0 then Failure(NotAListMessage(response, "filter"))
      else if response.Str? then
        Success(if returnAll then Characters(response.s) else SliceTo(Characters(response.s), limit))
      else if response.Null? then
        Failure(if returnAll then "Cannot read properties of null (reading 'length')"
                else NotAListMessage(response, "slice"))
      else if !returnAll then Failure(NotAListMessage(response, "slice"))
      else Success([])
  }

  /** A response that is not a list survives only when no filter is set: a string then
      yields its characters (cut by the limit), any other non-null value nothing. A title
      filter fails on it before the filter document is read. */
  lemma NonListRecordsShape(response: Value, filterTitle: string, filter: Value, returnAll: bool, limit: int)
    requires !response.Arr?
    ensures var r := NonListRecords(response, filterTitle, filter, returnAll, limit);
            && (r.Success? <==>
                  && filterTitle == "" && !filter.Null? && !(filter.Obj? && |filter.fields| > 0)
                  && !response.Null? && (returnAll || response.Str?))
            && (r.Success? && response.Str? ==> r.value == Characters(response.s)[..|r.value|])
            && (r.Success? && !response.Str? ==> r.value == [])
            && (filterTitle != "" ==> r == Failure(NotAListMessage(response, "filter")))
  {
  }

  /** The body of the `try` block for one item. */
  function ProcessItem(p: Params, env: Env): ItemRun
  {
    match Resolve(p, env.baseUrl, env.convert, env.parse)
    case Failure(message) => ItemRun(None, Failure(message))
    case Success(req) =>
      var outcome :=
        match env.request(req)
        case Failure(message) => Failure(message)
        case Success(response) =>
          if p.operation == "getMany" then GetManyRecords(p, env, response) else Success([response]);
      ItemRun(Some(req), outcome)
  }

  function SentSeq(o: Option<Request>): seq<Request> {
    match o
    case None => []
    case Some(req) => [req]
  }

  /** What one item adds to a batch that has not thrown: its records, an error record,
      or the throw. */
  function Advance(before: BatchRun, step: ItemRun, i: nat, continueOnFail: bool): BatchRun
    requires before.outcome.Completed?
  {
    var sent := before.sent + SentSeq(step.sent);
    match step.outcome
    case Success(vs) => BatchRun(sent, Completed(before.outcome.records + Tagged(vs, i)))
    case Failure(message) =>
      if continueOnFail then BatchRun(sent, Completed(before.outcome.records + [ErrorRecord(message, i)]))
      else BatchRun(sent, Aborted(i, message))
  }

  /** The per-item step of a batch run in environment `env`. */
  function ItemStep(env: Env): Params -> ItemRun {
    p => ProcessItem(p, env)
  }

  /** The batch over `items`, as a function of the per-item `step` (`ItemStep(env)` for
      the node): item by item from the front, stopping at the first failure unless
      failures are recorded. */
  function Run(items: seq<Params>, step: Params -> ItemRun, continueOnFail: bool): BatchRun
    decreases |items|
  {
    if items == [] then BatchRun([], Completed([]))
    else
      var n := |items| - 1;
      var before := Run(items[..n], step, continueOnFail);
      if before.outcome.Aborted? then before
      else Advance(before, step(items[n]), n, continueOnFail)
  }

  /** Once the batch has thrown at some item, the items after it change nothing:
      they are never processed and issue no request. */
  lemma {:induction false} RunStopsAtAbort(items: seq<Params>, k: nat, step: Params -> ItemRun, continueOnFail: bool)
    requires k <= |items|
    requires Run(items[..k], step, continueOnFail).outcome.Aborted?
    ensures Run(items, step, continueOnFail) == Run(items[..k], step, continueOnFail)
    decreases |items|
  {
    if k < |items| {
      var n := |items| - 1;
      assert items[..n][..k] == items[..k];
      RunStopsAtAbort(items[..n], k, step, continueOnFail);
    } else {
      assert items[..k] == items;
    }
  }

  /** One more item extends a batch that has not thrown by that item's own result. */
  lemma RunExtend(items: seq<Params>, i: nat, step: Params -> ItemRun, continueOnFail: bool)
    requires i < |items|
    requires Run(items[..i], step, continueOnFail).outcome.Completed?
    ensures Run(items[..i + 1], step, continueOnFail)
         == Advance(Run(items[..i], step, continueOnFail), step(items[i]), i, continueOnFail)
  {
    assert items[..i + 1][..i] == items[..i];
  }

  /** `execute`: the loop over the items, appending to `returnData`. */
  method Execute(items: seq<Params>, env: Env, continueOnFail: bool) returns (sent: seq<Request>, outcome: Outcome)
    ensures BatchRun(sent, outcome) == Run(items, ItemStep(env), continueOnFail)
  {
    var returnData: seq<Output> := [];
    sent := [];
    var i := 0;
    while i < |items|
      invariant 0 <= i <= |items|
      invariant Run(items[..i], ItemStep(env), continueOnFail) == BatchRun(sent, Completed(returnData))
    {
      var result := ProcessItem(items[i], env);
      RunExtend(items, i, ItemStep(env), continueOnFail);
      sent := sent + SentSeq(result.sent);
      match result.outcome {
        case Success(vs) =>
          var j := 0;
          ghost var before := returnData;
          while j < |vs|
            invariant 0 <= j <= |vs|
            invariant returnData == before + Tagged(vs[..j], i)
          {
            TaggedSnoc(vs, j, i);
            returnData := returnData + [Output(vs[j], i)];
            j := j + 1;
          }
          assert vs[..j] == vs;
        case Failure(message) =>
          if continueOnFail {
            returnData := returnData + [ErrorRecord(message, i)];
          } else {
            outcome := Aborted(i, message);
            RunStopsAtAbort(items, i + 1, ItemStep(env), continueOnFail);
            return;
          }
      }
      i := i + 1;
    }
    assert items[..i] == items;
    outcome := Completed(returnData);
  }

  /** An item whose operation or body cannot be resolved throws before its request to the
      scheduling service; conversions made while building the body may already have run. */
  lemma ResolveFailureSendsNothing(p: Params, env: Env)
    requires Resolve(p, env.baseUrl, env.convert, env.parse).Failure?
    ensures ProcessItem(p, env) == ItemRun(None, Failure(Resolve(p, env.baseUrl, env.convert, env.parse).error))
  {
  }

  /** An unsupported operation name throws its error and issues no request. */
  lemma UnsupportedItem(p: Params, env: Env)
    requires ParseOp(p.operation) == None
    ensures ProcessItem(p, env) == ItemRun(None, Failure(UnsupportedMessage(p.operation)))
  {
    UnsupportedOperationRejected(p, env.baseUrl, env.convert, env.parse);
  }

  /** A `create` item whose non-empty metadata text does not parse fails before its request. */
  lemma MalformedMetadataSendsNothing(p: Params, env: Env)
    requires p.operation == "create" && p.metadata != "" && env.parse(p.metadata).Failure?
    ensures ProcessItem(p, env).sent == None && ProcessItem(p, env).outcome.Failure?
  {
    CreateBodyFailure(p, env.convert, env.parse);
    ResolvedRequest(p, env.baseUrl, env.convert, env.parse, Create);
  }

  /** A resolved item issues exactly its resolved request to the scheduling service, once. */
  lemma ResolvedItemSendsRequest(p: Params, env: Env, req: Request)
    requires Resolve(p, env.baseUrl, env.convert, env.parse) == Success(req)
    ensures ProcessItem(p, env).sent == Some(req)
  {
  }

  /** A successful item of any operation but `getMany` yields exactly one record: the
      service's response. */
  lemma SingleRecordItem(p: Params, env: Env, vs: seq<Value>)
    requires p.operation != "getMany"
    requires ProcessItem(p, env).outcome == Success(vs)
    ensures ProcessItem(p, env).sent.Some?
    ensures vs == [env.request(ProcessItem(p, env).sent.value).value]
    ensures |vs| == 1
  {
  }

  /** A successful `getMany` item yields one record per schedule that survives the
      postprocessor, in the order the service listed them; a response that is not a
      list goes through the same steps as `NonListRecords` describes. */
  lemma GetManyItem(p: Params, env: Env, vs: seq<Value>)
    requires p.operation == "getMany"
    requires ProcessItem(p, env).outcome == Success(vs)
    ensures ProcessItem(p, env).sent.Some?
    ensures var response := env.request(ProcessItem(p, env).sent.value);
            && response.Success?
            && env.parse(p.filterMetadata).Success?
            && var filter := env.parse(p.filterMetadata).value;
               && (response.value.Arr? ==>
                     && Postprocess(response.value.items, p.filterTitle, filter, p.returnAll, p.limit) == Success(vs)
                     && Subsequences.IsSubsequence(vs, response.value.items))
               && (!response.value.Arr? ==>
                     NonListRecords(response.value, p.filterTitle, filter, p.returnAll, p.limit) == Success(vs))
  {
    var req := ProcessItem(p, env).sent.value;
    var response := env.request(req).value;
    var filter := env.parse(p.filterMetadata).value;
    if response.Arr? {
      PostprocessSubsequence(response.items, p.filterTitle, filter, p.returnAll, p.limit, vs);
    }
  }

  /** The records of `out` paired with item `i`, in order. */
  function WithTag(out: seq<Output>, i: nat): seq<Output>
  {
    if out == [] then []
    else (if out[0].item == i then [out[0]] else []) + WithTag(out[1..], i)
  }

  lemma {:induction false} WithTagConcat(a: seq<Output>, b: seq<Output>, i: nat)
    ensures WithTag(a + b, i) == WithTag(a, i) + WithTag(b, i)
    decreases |a|
  {
    if a == [] {
      assert a + b == b;
    } else {
      var head := if a[0].item == i then [a[0]] else [];
      assert (a + b)[0] == a[0];
      assert (a + b)[1..] == a[1..] + b;
      assert WithTag(a + b, i) == head + WithTag(a[1..] + b, i);
      WithTagConcat(a[1..], b, i);
      assert WithTag(a, i) == head + WithTag(a[1..], i);
    }
  }

  lemma {:induction false} WithTagNone(out: seq<Output>, i: nat)
    requires forall k :: 0 <= k < |out| ==> out[k].item != i
    ensures WithTag(out, i) == []
    decreases |out|
  {
    if out != [] {
      WithTagNone(out[1..], i);
    }
  }

  lemma {:induction false} WithTagAll(out: seq<Output>, i: nat)
    requires forall k :: 0 <= k < |out| ==> out[k].item == i
    ensures WithTag(out, i) == out
    decreases |out|
  {
    if out != [] {
      WithTagAll(out[1..], i);
    }
  }

  /** The records one item contributes: its own records, or one error record. */
  function Block(outcome: Result<seq<Value>>, i: nat): seq<Output> {
    match outcome
    case Success(vs) => Tagged(vs, i)
    case Failure(message) => [ErrorRecord(message, i)]
  }

  /** Output records are paired with existing items, in non-decreasing item order. */
  lemma {:induction false} RunTagsOrdered(items: seq<Params>, step: Params -> ItemRun, continueOnFail: bool, out: seq<Output>)
    requires Run(items, step, continueOnFail).outcome == Completed(out)
    ensures forall a :: 0 <= a < |out| ==> out[a].item < |items|
    ensures forall a, b :: 0 <= a <= b < |out| ==> out[a].item <= out[b].item
    decreases |items|
  {
    if items != [] {
      var n := |items| - 1;
      var before := Run(items[..n], step, continueOnFail);
      var prev := before.outcome.records;
      RunTagsOrdered(items[..n], step, continueOnFail, prev);
      assert out == prev + Block(step(items[n]).outcome, n);
    }
  }

  /** The records paired with item `i` are exactly that item's contribution: the records
      it yields, or, when it failed in continue-on-fail mode, one error record. */
  lemma {:induction false} RunBlocks(items: seq<Params>, step: Params -> ItemRun, continueOnFail: bool, out: seq<Output>, i: nat)
    requires Run(items, step, continueOnFail).outcome == Completed(out)
    requires i < |items|
    ensures WithTag(out, i) == Block(step(items[i]).outcome, i)
    decreases |items|
  {
    var n := |items| - 1;
    var before := Run(items[..n], step, continueOnFail);
    var prev := before.outcome.records;
    var block := Block(step(items[n]).outcome, n);
    assert out == prev + block;
    WithTagConcat(prev, block, i);
    if i < n {
      RunBlocks(items[..n], step, continueOnFail, prev, i);
      WithTagNone(block, i);
    } else {
      RunTagsOrdered(items[..n], step, continueOnFail, prev);
      WithTagNone(prev, i);
      WithTagAll(block, i);
    }
  }

  /** In continue-on-fail mode the batch never throws. */
  lemma {:induction false} ContinueOnFailCompletes(items: seq<Params>, step: Params -> ItemRun)
    ensures Run(items, step, true).outcome.Completed?
    decreases |items|
  {
    if items != [] {
      ContinueOnFailCompletes(items[..|items| - 1], step);
    }
  }

  /** The batch throws at item `k` with message `m` exactly when failures are not recorded,
      item `k` fails with `m`, and every item before it succeeds. */
  lemma {:induction false} RunAborts(items: seq<Params>, step: Params -> ItemRun, continueOnFail: bool, k: nat, m: string)
    ensures Run(items, step, continueOnFail).outcome == Aborted(k, m) <==>
              && !continueOnFail
              && k < |items|
              && step(items[k]).outcome == Failure(m)
              && forall j :: 0 <= j < k ==> step(items[j]).outcome.Success?
    decreases |items|
  {
    if items != [] {
      var n := |items| - 1;
      var prefix := items[..n];
      RunAborts(prefix, step, continueOnFail, k, m);
      assert forall j :: 0 <= j < n ==> prefix[j] == items[j];
      if Run(prefix, step, continueOnFail).outcome.Completed? && k == n {
        if forall j :: 0 <= j < k ==> step(items[j]).outcome.Success? {
          assert forall j :: 0 <= j < n ==> step(prefix[j]).outcome.Success?;
          CompletesWhenAllSucceed(prefix, step, continueOnFail);
        } else {
          var j :| 0 <= j < k && step(items[j]).outcome.Failure?;
          if !continueOnFail {
            FailureAborts(prefix, step, j);
          }
        }
      }
      if Run(prefix, step, continueOnFail).outcome.Aborted? {
        var k' := Run(prefix, step, continueOnFail).outcome.item;
        var m' := Run(prefix, step, continueOnFail).outcome.message;
        RunAborts(prefix, step, continueOnFail, k', m');
      }
    }
  }

  /** Without recorded failures, a failing item stops the batch (at it or earlier). */
  lemma {:induction false} FailureAborts(items: seq<Params>, step: Params -> ItemRun, j: nat)
    requires j < |items| && step(items[j]).outcome.Failure?
    ensures Run(items, step, false).outcome.Aborted?
    decreases |items|
  {
    var n := |items| - 1;
    if j < n {
      assert items[..n][j] == items[j];
      FailureAborts(items[..n], step, j);
    }
  }

  /** A batch whose items all succeed completes. */
  lemma {:induction false} CompletesWhenAllSucceed(items: seq<Params>, step: Params -> ItemRun, continueOnFail: bool)
    requires forall j :: 0 <= j < |items| ==> step(items[j]).outcome.Success?
    ensures Run(items, step, continueOnFail).outcome.Completed?
    decreases |items|
  {
    if items != [] {
      var n := |items| - 1;
      assert forall j :: 0 <= j < n ==> items[..n][j] == items[j];
      CompletesWhenAllSucceed(items[..n], step, continueOnFail);
    }
  }
}
