# Kronos node: a verified model of `execute`

This project models the decision logic of the n8n Kronos node, which turns workflow items into
calls against a Kronos scheduling service. For each input item, `Kronos.execute` does four things:

- it resolves the item's `operation` into an HTTP method, an endpoint under the configured
  base URL and, for `create`, a JSON body;
- for `create`, it has the timeapi.io service convert the schedule's instants;
- it issues the request;
- for `getMany`, it filters the returned list by title and by metadata and cuts it to a limit.

Every record it produces goes into one output list, paired with the index of the item it came
from. A failing item either becomes one `{error}` record (continue-on-fail) or ends the whole
run.

The model has seven modules:

| module | contents |
|---|---|
| `Wrappers` | `Option` and `Result` |
| `Json` | parsed JSON values and the JavaScript operations the node applies to them: truthiness, `===`, property reads, `toLowerCase`, `includes` |
| `Subsequences` | order-preserving subsequences and their laws |
| `TimeApi` | the request `convertTimezone` posts to the conversion service, as written and as intended |
| `Resolver` | the operation `switch`: the dispatch table, its inverse, and the `create` body |
| `Postprocessor` | the title filter, the metadata filter and the limit of a `getMany` item |
| `Batch` | one item's `try` block as a function (`ProcessItem`), the whole run as a specification function (`Run`), and `Execute`, the loop itself, proved equal to `Run` |

The outside world is the `Batch.Env` datatype. It holds the base URL and three functions that
may fail: `convertTimezone` as a whole (its three arguments in, the converted instant out),
`JSON.parse`, and the host's HTTP helper. The resolver hands `convertTimezone` exactly the
arguments the code passes at lines 357, 358 and 362. What body that call posts is stated on its
own, in `TimeApi`; see Findings.

Some points where the model follows the code's exact behaviour:

- The `limit` parameter declares `minValue: 1` (line 282), but the code passes whatever number
  it reads to `slice(0, limit)` (line 447). `Postprocessor.SliceTo` models that for every
  integer, negative ones included.
- Every failure is a plain JavaScript error, and the continue-on-fail record keeps only its
  `message` (line 476). Errors in the model are therefore message strings.
- The `getMany` steps at lines 428-458 run on whatever the service returns.
  `Batch.NonListRecords` models what each step does when that is not a list.
- The filter document is parsed (line 426) before the title filter runs. Its keys are read only
  afterwards (line 436), so a title filter's TypeError wins over a `null` document's.

## Model

| member | source | states |
|---|---|---|
| `TimeApi.AsWrittenConvertsFromUtc` | nodes/Kronos/Kronos.node.ts:36-49 | called as `convertTimezone(zone, t, 'UTC')` with `zone != UTC`, the written body converts from UTC into `zone`, which is not the intended body |
| `TimeApi.AsWrittenNewYorkExample` | nodes/Kronos/Kronos.node.ts:12-49 | a New York wall-clock time, formatted as a host in UTC formats it (`2024-03-01 10:00:00`), is sent with `fromTimeZone` UTC and `toTimeZone` America/New_York |
| `TimeApi.CorrectedConvertsToUtc` | nodes/Kronos/Kronos.node.ts:35-49 | the corrected body converts from the schedule's zone to UTC, and the written body is the corrected body with the two zones exchanged |
| `Json.StrictEqualsOnlyPrimitives` | nodes/Kronos/Kronos.node.ts:439 | `===` between a record's value and a separately parsed filter value holds exactly for equal primitives, never for arrays or objects |
| `Postprocessor.EntryMatchesExactly` | nodes/Kronos/Kronos.node.ts:439 | one metadata entry holds exactly when the schedule's `metadata` is an object owning the key with that very value, and the value is a primitive |
| `Json.Lower` | nodes/Kronos/Kronos.node.ts:431 | `toLowerCase` keeps the length and lowers each character on its own |
| `Json.LowerIdempotent` | nodes/Kronos/Kronos.node.ts:431 | lowering twice is lowering once |
| `Json.Includes` | nodes/Kronos/Kronos.node.ts:431 | `includes` holds exactly when the needle occurs at some index of the string |
| `Resolver.ParseOp` | nodes/Kronos/Kronos.node.ts:342-394 | a name selects an operation exactly when it equals that operation's case label |
| `Resolver.DispatchTable` | nodes/Kronos/Kronos.node.ts:342-393 | the method and endpoint of each of the seven operations |
| `Resolver.RouteRoundTrip` | nodes/Kronos/Kronos.node.ts:342-393 | method and endpoint read back as the operation and, where the path has one, the schedule id: no two rows of the table address the same route |
| `Resolver.ParseRouteSound` | nodes/Kronos/Kronos.node.ts:343-393 | every route the inverse accepts is a row of the table with the same method and endpoint |
| `Resolver.PostRouteRoundTrip` | nodes/Kronos/Kronos.node.ts:382-393 | a `pause`, `resume` or `trigger` path is read back as its own action on its own id, whatever the id contains |
| `Resolver.CreateConversions` | nodes/Kronos/Kronos.node.ts:352-366 | every `convertTimezone` call a `create` item makes passes the item's `timezone` as the source and UTC as the target |
| `Resolver.CreateConversionsPostFromUtc` | nodes/Kronos/Kronos.node.ts:36-49 | every one of those calls, as `convertTimezone` is written, posts a body converting the formatted date-time from UTC into the item's `timezone` |
| `Resolver.FieldNameInjective` | nodes/Kronos/Kronos.node.ts:346-368 | the body's keys `title` … `metadata` are nine distinct JSON names, one per field |
| `Resolver.ConversionErrorFirst` | nodes/Kronos/Kronos.node.ts:352-368 | the conversions run before the metadata parse: the first conversion that fails gives the `create` error, whatever the metadata text is |
| `Resolver.MetadataErrorLast` | nodes/Kronos/Kronos.node.ts:352-368 | a metadata text that does not parse gives the error only when every conversion has succeeded |
| `Resolver.RecurringConversions` | nodes/Kronos/Kronos.node.ts:352-358 | a recurring schedule requests one conversion per non-empty bound, `startAt` and `endAt` |
| `Resolver.CreateBodyParts` | nodes/Kronos/Kronos.node.ts:346-368 | a body is its four fixed keys, its schedule-time keys and its metadata key, which share no key |
| `Resolver.CreateBodyFixedFields` | nodes/Kronos/Kronos.node.ts:346-368 | title, description, isRecurring and url are copied verbatim, and `metadata` is present exactly when its text is non-empty, holding the parsed document |
| `Resolver.OneOffBody` | nodes/Kronos/Kronos.node.ts:359-366 | a one-off schedule converts `runAt` once and puts that one instant in `runAt`, `startAt` and `endAt`, with no `cronExpr`; it succeeds exactly when that conversion succeeds and any metadata text parses |
| `Resolver.OptionalInstantShape` | nodes/Kronos/Kronos.node.ts:357-358 | an optional bound is absent exactly when its input is empty, and otherwise holds the converted string |
| `Resolver.RecurringTimes` | nodes/Kronos/Kronos.node.ts:352-358 | the time keys of a recurring schedule: `cronExpr` always, no `runAt`, and `startAt`/`endAt` exactly for non-empty inputs, each converted on its own |
| `Resolver.BodyTimeKeys` | nodes/Kronos/Kronos.node.ts:346-368 | on the time keys, a built body agrees with its schedule times |
| `Resolver.RecurringBody` | nodes/Kronos/Kronos.node.ts:352-358 | a recurring body carries `cronExpr`, no `runAt`, and `startAt`/`endAt` exactly when their inputs are non-empty, each holding its own conversion |
| `Resolver.CreateBodyFailure` | nodes/Kronos/Kronos.node.ts:352-368 | building a body fails exactly when one of its listed conversions fails or a non-empty metadata text does not parse |
| `Resolver.CreateBodyUsesOnlyListedConversions` | nodes/Kronos/Kronos.node.ts:352-366 | two converters that agree on the listed requests build the same body: no other conversion is consulted |
| `Resolver.UnsupportedOperationRejected` | nodes/Kronos/Kronos.node.ts:394-399 | a name outside the seven labels is rejected with the message naming it, and no request is built |
| `Resolver.ResolvedRequest` | nodes/Kronos/Kronos.node.ts:401-413 | a resolved request has the table's method, the URL `baseUrl + endpoint` with nothing between, and a body exactly for `create`, which is the built body; resolution fails exactly when a `create` body fails |
| `Postprocessor.KeepsIsEvaluable` | nodes/Kronos/Kronos.node.ts:429-441 | a record an applied filter keeps can be evaluated without a TypeError |
| `Postprocessor.NoMetadataExcluded` | nodes/Kronos/Kronos.node.ts:436-441 | a record without truthy metadata fails every non-empty metadata filter |
| `Postprocessor.Filter` | nodes/Kronos/Kronos.node.ts:429-441 | `filter` returns an order-preserving subsequence whose members are exactly the input's members that pass |
| `Postprocessor.FilterCounts` | nodes/Kronos/Kronos.node.ts:429-441 | `filter` keeps every occurrence of a passing record and none of a failing one |
| `Postprocessor.FilterAllKept` | nodes/Kronos/Kronos.node.ts:429-441 | filtering a list whose records all pass returns it unchanged |
| `Postprocessor.Select` | nodes/Kronos/Kronos.node.ts:429-441 | calling the criterion from the front, a filter step succeeds exactly when every record can be evaluated, and then returns `Filter`'s records; otherwise it fails with the TypeError of the first record that cannot be evaluated |
| `Postprocessor.SelectIdempotent` | nodes/Kronos/Kronos.node.ts:429-441 | applying the same filter to its own output changes nothing |
| `Postprocessor.FirstUnevaluableShift` | nodes/Kronos/Kronos.node.ts:429-441 | a record that can be evaluated, put in front of a list, leaves that list's first failing record and its message as the first failure |
| `Postprocessor.SelectAllKept` | nodes/Kronos/Kronos.node.ts:429-441 | a filter step over records that all pass succeeds and returns them unchanged |
| `Postprocessor.NullFilterError` | nodes/Kronos/Kronos.node.ts:426-436 | once the title filter has passed, a `null` filter document throws the `Object.keys` error |
| `Postprocessor.TitleErrorComesFirst` | nodes/Kronos/Kronos.node.ts:428-436 | when the title filter throws, its error, that of the first record without a string title, is the result, whatever the filter document is |
| `Postprocessor.MissingTitleBeforeNullFilter` | nodes/Kronos/Kronos.node.ts:428-436 | a schedule without a title under a title filter and a `null` filter document fails with the `toLowerCase` TypeError |
| `Postprocessor.SliceTo` | nodes/Kronos/Kronos.node.ts:444-448 | `slice(0, limit)` is always a prefix of the list; it has `min(limit, n)` records for a limit of zero or more |
| `Postprocessor.SliceToIdempotent` | nodes/Kronos/Kronos.node.ts:444-448 | slicing a slice again with the same non-negative limit changes nothing |
| `Postprocessor.SliceToDropsFromEnd` | nodes/Kronos/Kronos.node.ts:444-448 | a negative limit keeps exactly the records before the last `-limit`, which it drops |
| `Postprocessor.StageKeeps` | nodes/Kronos/Kronos.node.ts:428-442 | each filter stage, applied or skipped, keeps an ordered selection of its input, and an applied stage keeps only passing records |
| `Postprocessor.NoFiltersIdentity` | nodes/Kronos/Kronos.node.ts:428-448 | with an empty title, a filter document without entries and `returnAll`, the list passes through unchanged |
| `Postprocessor.PostprocessSubsequence` | nodes/Kronos/Kronos.node.ts:428-448 | the output is an order-preserving subsequence of the service's list, no longer than it, and each record in it passes every applied filter |
| `Postprocessor.PostprocessIdempotent` | nodes/Kronos/Kronos.node.ts:428-448 | running the three steps again on their own output, with the same parameters, changes nothing unless the limit is negative |
| `Postprocessor.NegativeLimitNotIdempotent` | nodes/Kronos/Kronos.node.ts:444-448 | with a limit of -1 every run drops one more record |
| `Postprocessor.ReturnAllIgnoresLimit` | nodes/Kronos/Kronos.node.ts:444-448 | with `returnAll` the output is the same for every limit |
| `Postprocessor.LimitTakesPrefix` | nodes/Kronos/Kronos.node.ts:444-448 | without `returnAll` and with a limit of at least one, the output is the first `min(limit, n)` of the `n` filtered records, and fails exactly when the unlimited run fails |
| `Postprocessor.PostprocessFailure` | nodes/Kronos/Kronos.node.ts:428-442 | the steps fail exactly when a title filter meets a record without a string title, when the filter document is `null`, or when, with no title filter, a metadata filter meets a `null` record |
| `Batch.TaggedRoundTrip` | nodes/Kronos/Kronos.node.ts:451-458 | the records pushed for an item read back as exactly its values, in order, each paired with that item |
| `Batch.CharactersJoin` | nodes/Kronos/Kronos.node.ts:451-458 | the one-character records a string response is indexed into join back into that string |
| `Batch.NonListRecordsShape` | nodes/Kronos/Kronos.node.ts:428-458 | a `getMany` response that is not a list succeeds exactly when no title filter is set, the filter document is not `null` and has no entries, the response is not `null`, and it is a string or `returnAll` is on; a string then yields a prefix of its characters, and any other value yields nothing; a title filter fails on it before the document is read |
| `Batch.RunStopsAtAbort` | nodes/Kronos/Kronos.node.ts:474-484 | once the run has thrown at an item, later items are never processed and issue no request |
| `Batch.Execute` | nodes/Kronos/Kronos.node.ts:335-487 | the loop issues exactly the scheduling-service requests of `Run` and ends exactly as `Run` ends: all records, or the throw at an item |
| `Batch.ResolveFailureSendsNothing` | nodes/Kronos/Kronos.node.ts:336-418 | an item whose request cannot be built fails with that error before its request to the scheduling service; conversions made while building a `create` body may already have run |
| `Batch.UnsupportedItem` | nodes/Kronos/Kronos.node.ts:394-418 | an item with an unsupported operation fails with the message naming it and sends nothing |
| `Batch.MalformedMetadataSendsNothing` | nodes/Kronos/Kronos.node.ts:367-418 | a `create` item whose metadata text does not parse fails before its request to the scheduling service; its conversions have already been made, and one that failed gives the error instead (`Resolver.ConversionErrorFirst`) |
| `Batch.ResolvedItemSendsRequest` | nodes/Kronos/Kronos.node.ts:401-418 | a resolved item sends exactly its resolved request |
| `Batch.SingleRecordItem` | nodes/Kronos/Kronos.node.ts:459-467 | a successful item of any operation but `getMany` yields exactly one record, the service's response |
| `Batch.GetManyItem` | nodes/Kronos/Kronos.node.ts:423-458 | a successful `getMany` item yields the postprocessed list, an ordered subsequence of the service's list, or what a non-list response allows |
| `Batch.RunTagsOrdered` | nodes/Kronos/Kronos.node.ts:335-487 | every output record is paired with an existing item, and the item indices never decrease along the output |
| `Batch.RunBlocks` | nodes/Kronos/Kronos.node.ts:451-482 | the records paired with item `i` are exactly its own records, or, when it failed under continue-on-fail, one `{error: message}` record |
| `Batch.ContinueOnFailCompletes` | nodes/Kronos/Kronos.node.ts:474-482 | under continue-on-fail the run never throws |
| `Batch.RunAborts` | nodes/Kronos/Kronos.node.ts:474-484 | the run throws at item `k` with message `m` exactly when continue-on-fail is off, item `k` fails with `m`, and every earlier item succeeds |
| `Batch.FailureAborts` | nodes/Kronos/Kronos.node.ts:474-484 | with continue-on-fail off, any failing item makes the run throw |
| `Batch.CompletesWhenAllSucceed` | nodes/Kronos/Kronos.node.ts:335-487 | a run whose items all succeed completes |
| `Resolver.Verb` | nodes/Kronos/Kronos.node.ts:342-393 | the HTTP method of each `case`; its rows are stated by `Resolver.DispatchTable` and inverted by `Resolver.RouteRoundTrip` |
| `Resolver.Endpoint` | nodes/Kronos/Kronos.node.ts:342-393 | the endpoint of each `case`; stated by `Resolver.DispatchTable`, inverted by `Resolver.RouteRoundTrip` and `Resolver.ParseRouteSound` |
| `Resolver.FixedFields` | nodes/Kronos/Kronos.node.ts:346-351 | the four keys every body starts with; stated by `Resolver.CreateBodyFixedFields` |
| `Resolver.OptionalInstant` | nodes/Kronos/Kronos.node.ts:357-358 | one optional bound, converted when non-empty; stated by `Resolver.OptionalInstantShape` |
| `Resolver.ScheduleTimes` | nodes/Kronos/Kronos.node.ts:352-366 | the schedule-time keys; stated by `Resolver.RecurringTimes` and `Resolver.OneOffBody` |
| `Resolver.MetadataPart` | nodes/Kronos/Kronos.node.ts:367-368 | the parsed metadata, when its text is non-empty; stated by `Resolver.CreateBodyFixedFields` and `Resolver.CreateBodyFailure` |
| `Resolver.CreateBody` | nodes/Kronos/Kronos.node.ts:346-368 | the `create` body or the error building it throws; stated by `Resolver.CreateBodyParts`, `Resolver.RecurringBody`, `Resolver.OneOffBody` and `Resolver.CreateBodyFailure` |
| `Resolver.Resolve` | nodes/Kronos/Kronos.node.ts:342-413 | an item's request or the error thrown before it; stated by `Resolver.ResolvedRequest` and `Resolver.UnsupportedOperationRejected` |
| `Postprocessor.Evaluable` | nodes/Kronos/Kronos.node.ts:429-441 | the records a criterion can be called on without a TypeError; related to `Keeps` by `Postprocessor.KeepsIsEvaluable` |
| `Postprocessor.EntryMatches` | nodes/Kronos/Kronos.node.ts:439 | one `(key, value)` entry of the metadata filter; characterised by `Postprocessor.EntryMatchesExactly` |
| `Postprocessor.Keeps` | nodes/Kronos/Kronos.node.ts:429-441 | the callback of each `filter`; what it keeps is stated by `Postprocessor.Filter`, `Postprocessor.FilterCounts` and `Postprocessor.NoMetadataExcluded` |
| `Postprocessor.Postprocess` | nodes/Kronos/Kronos.node.ts:428-448 | the `getMany` steps in order; stated by `Postprocessor.PostprocessSubsequence`, `Postprocessor.PostprocessFailure`, `Postprocessor.PostprocessIdempotent` and `Postprocessor.LimitTakesPrefix` |
| `Batch.GetManyRecords` | nodes/Kronos/Kronos.node.ts:423-458 | the records of a `getMany` item; stated by `Batch.GetManyItem` |
| `Batch.NonListRecords` | nodes/Kronos/Kronos.node.ts:428-458 | the `getMany` steps on a response that is not a list; stated by `Batch.NonListRecordsShape` |
| `Batch.ProcessItem` | nodes/Kronos/Kronos.node.ts:336-467 | one item's `try` block; stated by `Batch.ResolveFailureSendsNothing`, `Batch.ResolvedItemSendsRequest`, `Batch.SingleRecordItem` and `Batch.GetManyItem` |
| `Batch.Run` | nodes/Kronos/Kronos.node.ts:335-487 | the whole run as a function of the items; stated by `Batch.RunTagsOrdered`, `Batch.RunBlocks`, `Batch.RunAborts` and `Batch.RunStopsAtAbort`, and implemented by `Batch.Execute` |

## Left out

- HTTP transport: the headers, `json: true` and the host's `request` helper are one fallible
  function, `Env.request`. Nothing is assumed about what it answers. Because it is a function,
  though, two identical requests in one run get the same answer. State the service keeps between
  calls is not modelled; for example, a second identical `create` cannot fail where the first
  succeeded.
- `convertTimezone` is one fallible function, `Env.convert`, of its three arguments. It covers
  the body it builds (stated separately in `TimeApi`), the timeapi.io call,
  `formatDateTimeForKronos` and the parsing of the service's answer. The model never claims a
  conversion result.
- `formatDateTimeForTimeAPI` is the parameter `format` of the `TimeApi` bodies. Its
  `new Date` parse reads a wall-clock string in the host's zone, which the model does not have.
- `Batch.BatchRun` and `Batch.ItemRun`: their `sent` field records only the requests to the
  scheduling service. The timeapi.io requests that `convertTimezone` makes (line 52) happen
  inside `Env.convert` and are not in the trace, so a `create` item that fails on its second
  conversion has made one such request yet records `sent == None`.
- `getAvailableTimezones` and the `loadOptions` hook only populate a selection list in the
  editor.
- `JSON.parse` is the fallible function `Env.parse`. Number values are `real`, so the model has
  no floating point.
- The credentials are one `baseUrl` string. Reading them is host glue.
- The node description and UI metadata are left out. So are the logger calls and the
  `NodeApiError`/`NodeOperationError` wrapping: a thrown error is its message, plus the index of
  the item that threw (`Outcome.Aborted`).
- Property order of the JSON body: the body is a map keyed by `Resolver.BodyField`.
- `Json.Lower`: lowers ASCII letters only. JavaScript's `toLowerCase` also maps the other Unicode
  letters.
- `Json.Property`: reads only the own keys of an object. JavaScript also answers index and
  `length` reads on string and array metadata.
- `Postprocessor.Entries`: a string or array filter document is treated as having no entries.
  `Object.entries` would list its indices.
- `Postprocessor.TypeErrorMessage` and `Batch.NotAListMessage`: the TypeError texts are those of
  the V8 engine, chosen by the kind of the failing value. Other engines word them differently.
- `Batch.Characters`: a string response is indexed by Unicode character. JavaScript's `length`,
  `[j]` and `slice` count UTF-16 code units, which differ for characters outside the Basic
  Multilingual Plane.
- `Batch.NonListRecords`: an object response that has a `length` field is treated like any other
  object, as having no records.
- `Postprocessor.SliceTo`: the limit is an integer. A fractional `limit` would be truncated by
  `slice`.

## Findings

| source | as written | input that shows it | evidently intended | confidence | as-written member | corrected member |
|---|---|---|---|---|---|---|
| nodes/Kronos/Kronos.node.ts:44-49 | `convertTimezone(fromTimeZone, dateTime, toTimeZone)` posts `fromTimeZone: toTimeZone` and `toTimeZone: fromTimeZone`, so every call `convertTimezone(timezone, t, 'UTC')` at lines 357, 358 and 362 asks the service to convert from UTC into the schedule's zone. Lines 13 and 19 also read wall-clock strings in the host's zone, so the effect depends on the host: on a host in the schedule's zone the swap and the two local parses cancel out, and on a UTC host the instant sent to Kronos is off by twice the zone's offset (05:00Z instead of 15:00Z below) | timezone `America/New_York`, runAt `2024-03-01T10:00:00`: on a UTC host the body sent is `{fromTimeZone: "UTC", dateTime: "2024-03-01 10:00:00", toTimeZone: "America/New_York"}` | convert the schedule's local time from its own zone to UTC | not executed | `TimeApi.AsWrittenConvertsFromUtc` | `TimeApi.CorrectedConvertsToUtc` |
