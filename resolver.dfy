/** The operation resolver of `Kronos.execute`: the `switch` that turns an item's
    `operation` parameter into an HTTP method, an endpoint under the configured base
    URL and, for `create` only, a JSON body. */
module Resolver {
  import opened Wrappers
  import opened Json
  import opened TimeApi

  datatype Op = Create | Get | GetMany | Delete | Pause | Resume | Trigger

  datatype HttpMethod = GET | POST | DELETE

  /** The node parameters of one input item, as `getNodeParameter(name, i)` reads them.
      Parameters an operation does not show hold their declared defaults. */
  datatype Params = Params(
    operation: string,
    scheduleId: string,
    title: string,
    description: string,
    isRecurring: bool,
    url: string,
    cronExpr: string,
    startAt: string,
    endAt: string,
    runAt: string,
    timezone: string,
    metadata: string,
    returnAll: bool,
    limit: int,
    filterTitle: string,
    filterMetadata: string)

  /** The keys a `create` body can carry; `FieldName` gives each one's JSON name. */
  datatype BodyField =
    | TitleField | DescriptionField | IsRecurringField | UrlField
    | CronExprField | RunAtField | StartAtField | EndAtField | MetadataField

  function FieldName(f: BodyField): string {
    match f
    case TitleField => "title"
    case DescriptionField => "description"
    case IsRecurringField => "isRecurring"
    case UrlField => "url"
    case CronExprField => "cronExpr"
    case RunAtField => "runAt"
    case StartAtField => "startAt"
    case EndAtField => "endAt"
    case MetadataField => "metadata"
  }

  /** Distinct fields are sent under distinct JSON keys, so a body keyed by field is
      a JSON object keyed by name, with no key sent twice. */
  lemma FieldNameInjective(f: BodyField, g: BodyField)
    requires FieldName(f) == FieldName(g)
    ensures f == g
  {
  }

  /** A JSON request body, keyed by field. */
  type Body = map<BodyField, Value>

  /** The request handed to the HTTP helper; `body` is attached only when present. */
  datatype Request = Request(verb: HttpMethod, url: string, body: Option<Body>)

  /** A route of the scheduling service: an operation and the schedule id in its path
      (empty for the two operations whose path has none). */
  datatype Route = Route(op: Op, id: string)

  /** The `case` label of each operation. */
  function OpName(op: Op): string {
    match op
    case Create => "create"
    case Get => "get"
    case GetMany => "getMany"
    case Delete => "delete"
    case Pause => "pause"
    case Resume => "resume"
    case Trigger => "trigger"
  }

  /** The `switch (operation)`: a name matches a case label exactly or falls to `default`. */
  function ParseOp(name: string): (r: Option<Op>)
    ensures forall op :: r == Some(op) <==> name == OpName(op)
  {
    if name == "create" then Some(Create)
    else if name == "get" then Some(Get)
    else if name == "getMany" then Some(GetMany)
    else if name == "delete" then Some(Delete)
    else if name == "pause" then Some(Pause)
    else if name == "resume" then Some(Resume)
    else if name == "trigger" then Some(Trigger)
    else None
  }

  /** The message of the error thrown by the `default` branch. */
  function UnsupportedMessage(name: string): string {
    "The operation \"" + name + "\" is not supported!"
  }

  predicate UsesId(op: Op) {
    !(op == Create || op == GetMany)
  }

  function Verb(op: Op): HttpMethod {
    match op
    case Create => POST
    case Get => GET
    case GetMany => GET
    case Delete => DELETE
    case Pause => POST
    case Resume => POST
    case Trigger => POST
  }

  function Endpoint(op: Op, id: string): string {
    match op
    case Create => "schedules"
    case Get => "schedules/" + id
    case GetMany => "schedules"
    case Delete => "schedules/" + id
    case Pause => "schedules/" + id + "/pause"
    case Resume => "schedules/" + id + "/resume"
    case Trigger => "schedules/" + id + "/trigger"
  }

  /** The seven rows of the dispatch table. */
  lemma DispatchTable(id: string)
    ensures Verb(Create) == POST && Endpoint(Create, id) == "schedules"
    ensures Verb(Get) == GET && Endpoint(Get, id) == "schedules/" + id
    ensures Verb(GetMany) == GET && Endpoint(GetMany, id) == "schedules"
    ensures Verb(Delete) == DELETE && Endpoint(Delete, id) == "schedules/" + id
    ensures Verb(Pause) == POST && Endpoint(Pause, id) == "schedules/" + id + "/pause"
    ensures Verb(Resume) == POST && Endpoint(Resume, id) == "schedules/" + id + "/resume"
    ensures Verb(Trigger) == POST && Endpoint(Trigger, id) == "schedules/" + id + "/trigger"
  {
  }

  predicate HasSuffix(s: string, suffix: string) {
    |suffix| <= |s| && s[|s| - |suffix|..] == suffix
  }

  /** The operation a POST to `schedules/<rest>` addresses, read off the path's suffix. */
  function ParsePostRoute(rest: string): Option<Route> {
    if HasSuffix(rest, "/pause") then Some(Route(Pause, rest[..|rest| - 6]))
    else if HasSuffix(rest, "/resume") then Some(Route(Resume, rest[..|rest| - 7]))
    else if HasSuffix(rest, "/trigger") then Some(Route(Trigger, rest[..|rest| - 8]))
    else None
  }

  /** Reads a method and endpoint back as the route they address: the inverse of the table. */
  function ParseRoute(m: HttpMethod, endpoint: string): Option<Route> {
    if endpoint == "schedules" then
      (match m
       case POST => Some(Route(Create, ""))
       case GET => Some(Route(GetMany, ""))
       case DELETE => None)
    else if |endpoint| < 10 || endpoint[..10] != "schedules/" then None
    else
      var rest := endpoint[10..];
      match m
      case GET => Some(Route(Get, rest))
      case DELETE => Some(Route(Delete, rest))
      case POST => ParsePostRoute(rest)
  }

  lemma IdPath(id: string)
    ensures ("schedules/" + id)[..10] == "schedules/"
    ensures ("schedules/" + id)[10..] == id
    ensures "schedules/" + id != "schedules"
  {
    assert |"schedules/" + id| != |"schedules"|;
  }

  /** Whether `x + s` ends in `t` depends on `s` alone once `t` is no longer than `s`. */
  lemma SuffixOfConcat(x: string, s: string, t: string)
    requires |t| <= |s|
    ensures HasSuffix(x + s, t) <==> HasSuffix(s, t)
  {
    assert (x + s)[|x + s| - |t|..] == s[|s| - |t|..];
  }

  /** The path suffix that marks each POST action on one schedule. */
  function ActionSuffix(op: Op): string
    requires op == Pause || op == Resume || op == Trigger
  {
    if op == Pause then "/pause" else if op == Resume then "/resume" else "/trigger"
  }

  lemma PauseParsed(id: string)
    ensures ParsePostRoute(id + "/pause") == Some(Route(Pause, id))
  {
    SuffixOfConcat(id, "/pause", "/pause");
    assert (id + "/pause")[..|id|] == id;
  }

  lemma ResumeParsed(id: string)
    ensures ParsePostRoute(id + "/resume") == Some(Route(Resume, id))
  {
    SuffixOfConcat(id, "/resume", "/pause");
    assert !HasSuffix("/resume", "/pause") by { assert "/resume"[1] != "/pause"[0]; }
    SuffixOfConcat(id, "/resume", "/resume");
    assert (id + "/resume")[..|id|] == id;
  }

  lemma TriggerParsed(id: string)
    ensures ParsePostRoute(id + "/trigger") == Some(Route(Trigger, id))
  {
    SuffixOfConcat(id, "/trigger", "/pause");
    assert !HasSuffix("/trigger", "/pause") by { assert "/trigger"[2] != "/pause"[0]; }
    SuffixOfConcat(id, "/trigger", "/resume");
    assert !HasSuffix("/trigger", "/resume") by { assert "/trigger"[1] != "/resume"[0]; }
    SuffixOfConcat(id, "/trigger", "/trigger");
    assert (id + "/trigger")[..|id|] == id;
  }

  lemma {:induction false} PostRouteRoundTrip(op: Op, id: string)
    requires op == Pause || op == Resume || op == Trigger
    ensures Endpoint(op, id) == "schedules/" + Endpoint(op, id)[10..]
    ensures ParsePostRoute(Endpoint(op, id)[10..]) == Some(Route(op, id))
  {
    var rest := id + ActionSuffix(op);
    assert Endpoint(op, id) == "schedules/" + rest;
    IdPath(rest);
    if op == Pause {
      PauseParsed(id);
    } else if op == Resume {
      ResumeParsed(id);
    } else {
      TriggerParsed(id);
    }
  }

  /** The method and endpoint determine the operation, and the schedule id where the
      path carries one: no two table entries address the same route. */
  lemma {:induction false} RouteRoundTrip(op: Op, id: string)
    ensures ParseRoute(Verb(op), Endpoint(op, id)) == Some(Route(op, if UsesId(op) then id else ""))
  {
    if op == Get || op == Delete {
      IdPath(id);
    } else if UsesId(op) {
      PostRouteRoundTrip(op, id);
      IdPath(Endpoint(op, id)[10..]);
    }
  }

  /** Every route the inverse accepts is produced by the table. */
  lemma ParseRouteSound(m: HttpMethod, endpoint: string, r: Route)
    requires ParseRoute(m, endpoint) == Some(r)
    ensures Verb(r.op) == m && Endpoint(r.op, r.id) == endpoint
  {
    if endpoint != "schedules" {
      var rest := endpoint[10..];
      assert endpoint == "schedules/" + rest;
      if m == POST {
        ParsePostRouteSound(rest, r);
      }
    }
  }

  /** Every route read off a POST path is a POST action on the id before its suffix. */
  lemma ParsePostRouteSound(rest: string, r: Route)
    requires ParsePostRoute(rest) == Some(r)
    ensures r.op == Pause || r.op == Resume || r.op == Trigger
    ensures Verb(r.op) == POST && Endpoint(r.op, r.id) == "schedules/" + rest
  {
    if HasSuffix(rest, "/pause") {
      assert rest == rest[..|rest| - 6] + "/pause";
    } else if HasSuffix(rest, "/resume") {
      assert rest == rest[..|rest| - 7] + "/resume";
    } else {
      assert rest == rest[..|rest| - 8] + "/trigger";
    }
  }

  /** The `convertTimezone` calls a `create` item may make, in the order it makes them. */
  function CreateConversions(p: Params): (qs: seq<ZoneCall>)
    ensures forall q :: q in qs ==> q.fromZone == p.timezone && q.toZone == Utc
  {
    if p.isRecurring then
      (if p.startAt != "" then [ZoneCall(p.timezone, p.startAt, Utc)] else [])
      + (if p.endAt != "" then [ZoneCall(p.timezone, p.endAt, Utc)] else [])
    else
      [ZoneCall(p.timezone, p.runAt, Utc)]
  }

  /** Every conversion a `create` item makes posts, as `convertTimezone` is written, a body
      that converts from UTC into the schedule's own zone. */
  lemma CreateConversionsPostFromUtc(p: Params, format: string -> string)
    ensures forall q :: q in CreateConversions(p) ==>
              RequestAsWritten(format, q.fromZone, q.dateTime, q.toZone) == ConversionRequest(Utc, format(q.dateTime), p.timezone)
  {
  }

  /** One optional instant: absent when its input is empty, otherwise converted. */
  function OptionalInstant(key: BodyField, p: Params, dateTime: string, convert: ZoneCall -> Result<string>): Result<Body>
  {
    if dateTime == "" then Success(map[])
    else
      var t :- convert(ZoneCall(p.timezone, dateTime, Utc));
      Success(map[key := Str(t)])
  }

  /** The schedule-time keys of a `create` body. */
  function ScheduleTimes(p: Params, convert: ZoneCall -> Result<string>): Result<Body>
  {
    if p.isRecurring then
      var start :- OptionalInstant(StartAtField, p, p.startAt, convert);
      var end :- OptionalInstant(EndAtField, p, p.endAt, convert);
      Success(map[CronExprField := Str(p.cronExpr)] + start + end)
    else
      var t :- convert(ZoneCall(p.timezone, p.runAt, Utc));
      Success(map[RunAtField := Str(t), StartAtField := Str(t), EndAtField := Str(t)])
  }

  /** The four keys every `create` body starts with. */
  function FixedFields(p: Params): Body {
    map[TitleField := Str(p.title), DescriptionField := Str(p.description),
        IsRecurringField := Bool(p.isRecurring), UrlField := Str(p.url)]
  }

  /** `metadata`, parsed from its text when that text is non-empty. */
  function MetadataPart(p: Params, parse: string -> Result<Value>): Result<Body> {
    if p.metadata != "" then
      var m :- parse(p.metadata);
      Success(map[MetadataField := m])
    else Success(map[])
  }

  /** The `create` body: the fixed keys, the schedule times, then the metadata. */
  function CreateBody(p: Params, convert: ZoneCall -> Result<string>, parse: string -> Result<Value>): Result<Body>
  {
    var times :- ScheduleTimes(p, convert);
    var meta :- MetadataPart(p, parse);
    Success(FixedFields(p) + times + meta)
  }

  /** The request for one item, or the error thrown before any request is issued. */
  function Resolve(p: Params, baseUrl: string, convert: ZoneCall -> Result<string>, parse: string -> Result<Value>): Result<Request>
  {
    match ParseOp(p.operation)
    case None => Failure(UnsupportedMessage(p.operation))
    case Some(op) =>
      var body :- if op == Create then
                    var b :- CreateBody(p, convert, parse);
                    Success(Some(b))
                  else Success(None);
      Success(Request(Verb(op), baseUrl + Endpoint(op, p.scheduleId), body))
  }

  /** A body is its three parts side by side; they share no key. */
  lemma CreateBodyParts(p: Params, convert: ZoneCall -> Result<string>, parse: string -> Result<Value>, b: Body)
    requires CreateBody(p, convert, parse) == Success(b)
    ensures ScheduleTimes(p, convert).Success? && MetadataPart(p, parse).Success?
    ensures b == FixedFields(p) + ScheduleTimes(p, convert).value + MetadataPart(p, parse).value
    ensures ScheduleTimes(p, convert).value.Keys <= {CronExprField, RunAtField, StartAtField, EndAtField}
    ensures MetadataPart(p, parse).value.Keys <= {MetadataField}
  {
    if p.isRecurring {
      var start := OptionalInstant(StartAtField, p, p.startAt, convert).value;
      var end := OptionalInstant(EndAtField, p, p.endAt, convert).value;
      assert start.Keys <= {StartAtField} && end.Keys <= {EndAtField};
    }
  }

  /** Every body copies the four fixed inputs and attaches `metadata` exactly when its
      text is non-empty (the parsed document, verbatim). */
  lemma CreateBodyFixedFields(p: Params, convert: ZoneCall -> Result<string>, parse: string -> Result<Value>, b: Body)
    requires CreateBody(p, convert, parse) == Success(b)
    ensures TitleField in b && b[TitleField] == Str(p.title)
    ensures DescriptionField in b && b[DescriptionField] == Str(p.description)
    ensures IsRecurringField in b && b[IsRecurringField] == Bool(p.isRecurring)
    ensures UrlField in b && b[UrlField] == Str(p.url)
    ensures MetadataField in b <==> p.metadata != ""
    ensures MetadataField in b ==> parse(p.metadata) == Success(b[MetadataField])
  {
    CreateBodyParts(p, convert, parse, b);
  }

  /** A one-off schedule converts `runAt` once and sends that one instant as `runAt`,
      `startAt` and `endAt`, with no `cronExpr`; it fails exactly when that conversion
      fails or a non-empty metadata text does not parse. */
  lemma OneOffBody(p: Params, convert: ZoneCall -> Result<string>, parse: string -> Result<Value>)
    requires !p.isRecurring
    ensures CreateConversions(p) == [ZoneCall(p.timezone, p.runAt, Utc)]
    ensures CreateBody(p, convert, parse).Success? <==>
              convert(ZoneCall(p.timezone, p.runAt, Utc)).Success? && (p.metadata == "" || parse(p.metadata).Success?)
    ensures CreateBody(p, convert, parse).Success? ==>
              var b := CreateBody(p, convert, parse).value;
              var t := convert(ZoneCall(p.timezone, p.runAt, Utc)).value;
              && RunAtField in b && StartAtField in b && EndAtField in b
              && b[RunAtField] == Str(t) && b[StartAtField] == Str(t) && b[EndAtField] == Str(t)
              && CronExprField !in b
  {
    if CreateBody(p, convert, parse).Success? {
      var b := CreateBody(p, convert, parse).value;
      CreateBodyParts(p, convert, parse, b);
    }
  }

  /** An optional instant is absent exactly when its input is empty, and otherwise holds
      the converted value under its own key. */
  lemma OptionalInstantShape(key: BodyField, p: Params, dateTime: string, convert: ZoneCall -> Result<string>, m: Body)
    requires OptionalInstant(key, p, dateTime, convert) == Success(m)
    ensures m.Keys == if dateTime == "" then {} else {key}
    ensures dateTime != "" ==> convert(ZoneCall(p.timezone, dateTime, Utc)) == Success(m[key].s) && m[key].Str?
  {
  }

  /** The schedule times of a recurring schedule, before they join the body. */
  lemma RecurringTimes(p: Params, convert: ZoneCall -> Result<string>, t: Body)
    requires p.isRecurring
    requires ScheduleTimes(p, convert) == Success(t)
    ensures CronExprField in t && t[CronExprField] == Str(p.cronExpr)
    ensures RunAtField !in t
    ensures StartAtField in t <==> p.startAt != ""
    ensures EndAtField in t <==> p.endAt != ""
    ensures StartAtField in t ==> convert(ZoneCall(p.timezone, p.startAt, Utc)) == Success(t[StartAtField].s) && t[StartAtField].Str?
    ensures EndAtField in t ==> convert(ZoneCall(p.timezone, p.endAt, Utc)) == Success(t[EndAtField].s) && t[EndAtField].Str?
  {
    var start := OptionalInstant(StartAtField, p, p.startAt, convert).value;
    var end := OptionalInstant(EndAtField, p, p.endAt, convert).value;
    OptionalInstantShape(StartAtField, p, p.startAt, convert, start);
    OptionalInstantShape(EndAtField, p, p.endAt, convert, end);
  }

  /** On the four time keys a body agrees with its schedule times. */
  lemma BodyTimeKeys(p: Params, convert: ZoneCall -> Result<string>, parse: string -> Result<Value>, b: Body, k: BodyField)
    requires CreateBody(p, convert, parse) == Success(b)
    requires k == CronExprField || k == RunAtField || k == StartAtField || k == EndAtField
    ensures ScheduleTimes(p, convert).Success?
    ensures k in b <==> k in ScheduleTimes(p, convert).value
    ensures k in b ==> b[k] == ScheduleTimes(p, convert).value[k]
  {
    CreateBodyParts(p, convert, parse, b);
  }

  /** A recurring schedule always carries `cronExpr`; `startAt` and `endAt` appear exactly
      when their inputs are non-empty, each converted on its own; there is no `runAt`. */
  lemma RecurringBody(p: Params, convert: ZoneCall -> Result<string>, parse: string -> Result<Value>, b: Body)
    requires p.isRecurring
    requires CreateBody(p, convert, parse) == Success(b)
    ensures CronExprField in b && b[CronExprField] == Str(p.cronExpr)
    ensures RunAtField !in b
    ensures StartAtField in b <==> p.startAt != ""
    ensures EndAtField in b <==> p.endAt != ""
    ensures StartAtField in b ==> convert(ZoneCall(p.timezone, p.startAt, Utc)) == Success(b[StartAtField].s) && b[StartAtField].Str?
    ensures EndAtField in b ==> convert(ZoneCall(p.timezone, p.endAt, Utc)) == Success(b[EndAtField].s) && b[EndAtField].Str?
  {
    BodyTimeKeys(p, convert, parse, b, CronExprField);
    BodyTimeKeys(p, convert, parse, b, RunAtField);
    BodyTimeKeys(p, convert, parse, b, StartAtField);
    BodyTimeKeys(p, convert, parse, b, EndAtField);
    RecurringTimes(p, convert, ScheduleTimes(p, convert).value);
  }

  /** The conversion requests a recurring schedule may issue: one per non-empty bound. */
  lemma RecurringConversions(p: Params)
    requires p.isRecurring
    ensures |CreateConversions(p)| == (if p.startAt != "" then 1 else 0) + (if p.endAt != "" then 1 else 0)
  {
  }

  /** Building a body fails exactly when one of its conversions fails or a non-empty
      metadata text does not parse. */
  lemma CreateBodyFailure(p: Params, convert: ZoneCall -> Result<string>, parse: string -> Result<Value>)
    ensures CreateBody(p, convert, parse).Failure? <==>
              (exists q :: q in CreateConversions(p) && convert(q).Failure?)
              || (p.metadata != "" && parse(p.metadata).Failure?)
  {
    var qs := CreateConversions(p);
    if p.isRecurring {
      var qStart := ZoneCall(p.timezone, p.startAt, Utc);
      var qEnd := ZoneCall(p.timezone, p.endAt, Utc);
      assert p.startAt != "" ==> qStart in qs;
      assert p.endAt != "" ==> qEnd in qs;
      assert forall q :: q in qs ==> (p.startAt != "" && q == qStart) || (p.endAt != "" && q == qEnd);
    } else {
      assert qs == [ZoneCall(p.timezone, p.runAt, Utc)];
    }
  }

  /** The conversions run before the metadata is parsed: the first conversion that
      fails decides the error, whatever the metadata text is. */
  lemma ConversionErrorFirst(p: Params, convert: ZoneCall -> Result<string>, parse: string -> Result<Value>, k: nat)
    requires k < |CreateConversions(p)|
    requires forall j :: 0 <= j < k ==> convert(CreateConversions(p)[j]).Success?
    requires convert(CreateConversions(p)[k]).Failure?
    ensures CreateBody(p, convert, parse) == Failure(convert(CreateConversions(p)[k]).error)
  {
    var qs := CreateConversions(p);
    if p.isRecurring && p.startAt != "" && k == 1 {
      assert convert(qs[0]).Success?;
    }
  }

  /** A metadata text that does not parse decides the error only once every conversion
      has succeeded. */
  lemma MetadataErrorLast(p: Params, convert: ZoneCall -> Result<string>, parse: string -> Result<Value>)
    requires forall q :: q in CreateConversions(p) ==> convert(q).Success?
    requires p.metadata != "" && parse(p.metadata).Failure?
    ensures CreateBody(p, convert, parse) == Failure(parse(p.metadata).error)
  {
    var qs := CreateConversions(p);
    if p.isRecurring {
      assert p.startAt != "" ==> ZoneCall(p.timezone, p.startAt, Utc) in qs;
      assert p.endAt != "" ==> ZoneCall(p.timezone, p.endAt, Utc) in qs;
    } else {
      assert ZoneCall(p.timezone, p.runAt, Utc) in qs;
    }
  }

  /** The converter is consulted only on the listed requests: two converters that agree
      on them build the same body (or fail the same way). */
  lemma CreateBodyUsesOnlyListedConversions(p: Params, c1: ZoneCall -> Result<string>, c2: ZoneCall -> Result<string>, parse: string -> Result<Value>)
    requires forall q :: q in CreateConversions(p) ==> c1(q) == c2(q)
    ensures CreateBody(p, c1, parse) == CreateBody(p, c2, parse)
  {
    if p.isRecurring {
      assert p.startAt != "" ==> ZoneCall(p.timezone, p.startAt, Utc) in CreateConversions(p);
      assert p.endAt != "" ==> ZoneCall(p.timezone, p.endAt, Utc) in CreateConversions(p);
      assert OptionalInstant(StartAtField, p, p.startAt, c1) == OptionalInstant(StartAtField, p, p.startAt, c2);
      assert OptionalInstant(EndAtField, p, p.endAt, c1) == OptionalInstant(EndAtField, p, p.endAt, c2);
    } else {
      assert ZoneCall(p.timezone, p.runAt, Utc) in CreateConversions(p);
    }
    assert ScheduleTimes(p, c1) == ScheduleTimes(p, c2);
  }

  /** An operation outside the seven case labels is an error naming it, and no request is built. */
  lemma UnsupportedOperationRejected(p: Params, baseUrl: string, convert: ZoneCall -> Result<string>, parse: string -> Result<Value>)
    ensures ParseOp(p.operation) == None <==> forall op :: p.operation != OpName(op)
    ensures ParseOp(p.operation) == None ==> Resolve(p, baseUrl, convert, parse) == Failure(UnsupportedMessage(p.operation))
  {
    if ParseOp(p.operation) == None {
    } else {
      var op := ParseOp(p.operation).value;
      assert p.operation == OpName(op);
    }
  }

  /** A resolved request follows the table: method and `baseUrl + endpoint` with no separator,
      and a body exactly for `create`, which is the body built from the item. */
  lemma ResolvedRequest(p: Params, baseUrl: string, convert: ZoneCall -> Result<string>, parse: string -> Result<Value>, op: Op)
    requires ParseOp(p.operation) == Some(op)
    ensures Resolve(p, baseUrl, convert, parse).Failure? <==> op == Create && CreateBody(p, convert, parse).Failure?
    ensures Resolve(p, baseUrl, convert, parse).Success? ==>
              var req := Resolve(p, baseUrl, convert, parse).value;
              && req.verb == Verb(op)
              && req.url == baseUrl + Endpoint(op, p.scheduleId)
              && req.url[..|baseUrl|] == baseUrl
              && req.url[|baseUrl|..] == Endpoint(op, p.scheduleId)
              && (req.body.Some? <==> op == Create)
              && (op == Create ==> Success(req.body.value) == CreateBody(p, convert, parse))
  {
    if Resolve(p, baseUrl, convert, parse).Success? {
      var req := Resolve(p, baseUrl, convert, parse).value;
      assert req.url == baseUrl + Endpoint(op, p.scheduleId);
    }
  }
}
