/** The result postprocessor of a `getMany` item: the title filter, the metadata
    filter and the limit, applied in that order to the list the service returned. */
module Postprocessor {
  import opened Wrappers
  import opened Json
  import opened Subsequences

  /** The test one `filter` call applies to each schedule. */
  datatype Criterion =
    | TitleContains(needle: string)
    | MetadataMatches(entries: map<string, Value>)

  /** `schedule.title` when it is a string; anything else has no `toLowerCase`. */
  function Title(v: Value): Option<string> {
    match v
    case Obj(m) => if "title" in m && m["title"].Str? then Some(m["title"].s) else None
    case _ => None
  }

  /** The criterion can be evaluated on `v` without a TypeError: a title must be a
      string, and a schedule read for `.metadata` must not be `null`. */
  predicate Evaluable(c: Criterion, v: Value) {
    match c
    case TitleContains(_) => Title(v).Some?
    case MetadataMatches(_) => !v.Null?
  }

  /** `schedule.metadata`, or undefined (None) when the schedule has no such field. */
  function Metadata(v: Value): Option<Value> {
    match v
    case Obj(m) => if "metadata" in m then Some(m["metadata"]) else None
    case _ => None
  }

  /** One `(key, value)` entry of the metadata filter holds for a schedule. */
  predicate EntryMatches(v: Value, key: string, expected: Value) {
    var md := Metadata(v);
    && md.Some?
    && Truthy(md.value)
    && var got := Property(md.value, key);
       got.Some? && StrictEquals(got.value, expected)
  }

  /** Whether the schedule passes the criterion. */
  predicate Keeps(c: Criterion, v: Value) {
    match c
    case TitleContains(needle) =>
      Title(v).Some? && Includes(Lower(Title(v).value), Lower(needle))
    case MetadataMatches(entries) =>
      forall key :: key in entries ==> EntryMatches(v, key, entries[key])
  }

  /** Only a non-empty metadata criterion is ever applied (an empty one is skipped). */
  predicate Applied(c: Criterion) {
    match c
    case TitleContains(needle) => needle != ""
    case MetadataMatches(entries) => |entries| > 0
  }

  lemma KeepsIsEvaluable(c: Criterion, v: Value)
    requires Applied(c) && Keeps(c, v)
    ensures Evaluable(c, v)
  {
    if c.MetadataMatches? {
      var key :| key in c.entries;
      assert EntryMatches(v, key, c.entries[key]);
    }
  }

  /** A schedule with no truthy metadata fails every non-empty metadata criterion. */
  lemma NoMetadataExcluded(entries: map<string, Value>, v: Value)
    requires |entries| > 0
    requires Metadata(v).None? || !Truthy(Metadata(v).value)
    ensures !Keeps(MetadataMatches(entries), v)
  {
    var key :| key in entries;
    assert !EntryMatches(v, key, entries[key]);
  }

  /** One metadata entry holds exactly when the schedule is an object whose `metadata` is an
      object owning `key` with that very value, and the value is a primitive (`===` between
      separately parsed documents never relates arrays or objects). */
  lemma EntryMatchesExactly(v: Value, key: string, expected: Value)
    ensures EntryMatches(v, key, expected) <==>
              && v.Obj? && "metadata" in v.fields && v.fields["metadata"].Obj?
              && key in v.fields["metadata"].fields
              && v.fields["metadata"].fields[key] == expected
              && !expected.Arr? && !expected.Obj?
  {
    if Metadata(v).Some? && Property(Metadata(v).value, key).Some? {
      StrictEqualsOnlyPrimitives(Property(Metadata(v).value, key).value, expected);
    }
  }

  /** `Array.prototype.filter` with a criterion that never throws on these records. */
  function Filter(s: seq<Value>, c: Criterion): (r: seq<Value>)
    ensures IsSubsequence(r, s)
    ensures forall v :: v in r <==> v in s && Keeps(c, v)
    decreases |s|
  {
    if s == [] then []
    else
      var rest := Filter(s[1..], c);
      assert forall v :: v in s <==> v == s[0] || v in s[1..];
      if Keeps(c, s[0]) then [s[0]] + rest
      else
        SubsequenceSkip(rest, s);
        rest
  }

  lemma SubsequenceSkip(a: seq<Value>, s: seq<Value>)
    requires s != [] && IsSubsequence(a, s[1..])
    ensures IsSubsequence(a, s)
  {
  }

  /** Filtering a list whose every element passes changes nothing. */
  lemma {:induction false} FilterAllKept(s: seq<Value>, c: Criterion)
    requires forall v :: v in s ==> Keeps(c, v)
    ensures Filter(s, c) == s
    decreases |s|
  {
    if s != [] {
      FilterAllKept(s[1..], c);
    }
  }

  /** Filtering keeps every occurrence of a passing record and none of a failing one:
      with the subsequence property this determines the output exactly. */
  lemma {:induction false} FilterCounts(s: seq<Value>, c: Criterion)
    ensures forall v :: multiset(Filter(s, c))[v] == if Keeps(c, v) then multiset(s)[v] else 0
    decreases |s|
  {
    if s != [] {
      FilterCounts(s[1..], c);
      assert s == [s[0]] + s[1..];
    }
  }

  /** Record `k` is the first the criterion cannot evaluate. */
  predicate FirstUnevaluable(s: seq<Value>, c: Criterion, k: int) {
    && 0 <= k < |s|
    && !Evaluable(c, s[k])
    && forall j :: 0 <= j < k ==> Evaluable(c, s[j])
  }

  lemma FirstUnevaluableShift(s: seq<Value>, c: Criterion, e: string)
    requires s != [] && Evaluable(c, s[0])
    requires exists k :: FirstUnevaluable(s[1..], c, k) && e == TypeErrorMessage(c, s[1..][k])
    ensures exists k :: FirstUnevaluable(s, c, k) && e == TypeErrorMessage(c, s[k])
  {
    var k :| FirstUnevaluable(s[1..], c, k) && e == TypeErrorMessage(c, s[1..][k]);
    assert FirstUnevaluable(s, c, k + 1);
  }

  /** `filter` with a criterion, calling it on the records from the front: the TypeError
      of the first record it cannot evaluate, otherwise the records that pass. */
  function Select(s: seq<Value>, c: Criterion): (r: Result<seq<Value>>)
    ensures r.Success? <==> forall k :: 0 <= k < |s| ==> Evaluable(c, s[k])
    ensures r.Success? ==> r.value == Filter(s, c)
    ensures r.Failure? ==> exists k :: FirstUnevaluable(s, c, k) && r.error == TypeErrorMessage(c, s[k])
    decreases |s|
  {
    if s == [] then Success([])
    else if !Evaluable(c, s[0]) then
      assert FirstUnevaluable(s, c, 0);
      Failure(TypeErrorMessage(c, s[0]))
    else
      var rest := Select(s[1..], c);
      if rest.Failure? then
        FirstUnevaluableShift(s, c, rest.error);
        Failure(rest.error)
      else
        Success(if Keeps(c, s[0]) then [s[0]] + rest.value else rest.value)
  }

  /** The TypeError the criterion throws on a record it cannot evaluate, as V8 words it. */
  function TypeErrorMessage(c: Criterion, v: Value): string {
    match c
    case TitleContains(_) =>
      if v.Null? then "Cannot read properties of null (reading 'title')"
      else
        var title := Property(v, "title");
        if title.None? then "Cannot read properties of undefined (reading 'toLowerCase')"
        else if title.value.Null? then "Cannot read properties of null (reading 'toLowerCase')"
        else "schedule.title.toLowerCase is not a function"
    case MetadataMatches(_) => "Cannot read properties of null (reading 'metadata')"
  }

  /** The message `Object.keys` throws on a `null` filter document. */
  const NullFilterMessage := "Cannot convert undefined or null to object"

  /** `Object.entries(filterMetadata)` of the parsed filter document. */
  function Entries(doc: Value): (r: Result<map<string, Value>>)
    ensures doc.Obj? ==> r == Success(doc.fields)
    ensures r.Failure? <==> doc.Null?
  {
    match doc
    case Null => Failure(NullFilterMessage)
    case Obj(m) => Success(m)
    case _ => Success(map[])
  }

  /** `list.slice(0, limit)` for an integral limit: always a prefix; a negative limit counts
      from the end. */
  function SliceTo(s: seq<Value>, limit: int): (r: seq<Value>)
    ensures |r| <= |s| && r == s[..|r|]
    ensures limit >= 0 ==> |r| == if limit < |s| then limit else |s|
    ensures limit < 0 ==> |r| == if |s| + limit > 0 then |s| + limit else 0
  {
    var end := if limit >= 0 then (if limit < |s| then limit else |s|)
               else (if |s| + limit > 0 then |s| + limit else 0);
    s[..end]
  }

  /** Slicing a slice again with the same non-negative limit changes nothing. */
  lemma SliceToIdempotent(s: seq<Value>, limit: int)
    requires limit >= 0
    ensures SliceTo(SliceTo(s, limit), limit) == SliceTo(s, limit)
  {
  }

  /** A negative limit keeps the records before the last `-limit`, which it drops. */
  lemma SliceToDropsFromEnd(s: seq<Value>, limit: int)
    requires limit < 0 && -limit <= |s|
    ensures SliceTo(s, limit) + s[|s| + limit..] == s
  {
  }

  /** The three steps of a `getMany` item, in the source's order: the title filter, then
      `Object.keys` of the parsed filter document, then the metadata filter, then the limit. */
  function Postprocess(s: seq<Value>, filterTitle: string, filter: Value, returnAll: bool, limit: int): Result<seq<Value>>
  {
    var byTitle :- if filterTitle != "" then Select(s, TitleContains(filterTitle)) else Success(s);
    var entries :- Entries(filter);
    var byMetadata :- if |entries| > 0 then Select(byTitle, MetadataMatches(entries)) else Success(byTitle);
    Success(if returnAll then byMetadata else SliceTo(byMetadata, limit))
  }

  /** Applying a criterion a second time to its own output keeps everything. */
  lemma SelectIdempotent(s: seq<Value>, c: Criterion, r: seq<Value>)
    requires Select(s, c) == Success(r)
    ensures Select(r, c) == Success(r)
  {
    forall k | 0 <= k < |r|
      ensures Evaluable(c, r[k])
    {
      assert r[k] in r;
      var j :| 0 <= j < |s| && s[j] == r[k];
    }
    FilterAllKept(r, c);
  }

  /** Filtering a list all of whose elements already pass a criterion changes nothing. */
  lemma {:induction false} SelectAllKept(s: seq<Value>, c: Criterion)
    requires Applied(c) && forall v :: v in s ==> Keeps(c, v)
    ensures Select(s, c) == Success(s)
  {
    forall k | 0 <= k < |s|
      ensures Evaluable(c, s[k])
    {
      assert s[k] in s;
      KeepsIsEvaluable(c, s[k]);
    }
    FilterAllKept(s, c);
  }

  /** With no title, a filter document without entries and `returnAll`, the list passes
      through unchanged. */
  lemma NoFiltersIdentity(s: seq<Value>, filter: Value, limit: int)
    requires !filter.Null? && (filter.Obj? ==> filter.fields == map[])
    ensures Postprocess(s, "", filter, true, limit) == Success(s)
  {
  }

  /** The output is an order-preserving subsequence of the service's list, no longer than
      it, and each record in it passes every filter that was applied. */
  lemma PostprocessSubsequence(s: seq<Value>, filterTitle: string, filter: Value, returnAll: bool, limit: int, r: seq<Value>)
    requires Postprocess(s, filterTitle, filter, returnAll, limit) == Success(r)
    ensures IsSubsequence(r, s) && |r| <= |s|
    ensures !filter.Null?
    ensures forall v :: v in r ==> v in s
    ensures forall v :: v in r && filterTitle != "" ==> Keeps(TitleContains(filterTitle), v)
    ensures forall v :: v in r && filter.Obj? && |filter.fields| > 0 ==> Keeps(MetadataMatches(filter.fields), v)
  {
    var entries := Entries(filter).value;
    var byTitle := (if filterTitle != "" then Select(s, TitleContains(filterTitle)) else Success(s)).value;
    StageKeeps(s, TitleContains(filterTitle), filterTitle != "", byTitle);
    var byMetadata := (if |entries| > 0 then Select(byTitle, MetadataMatches(entries)) else Success(byTitle)).value;
    StageKeeps(byTitle, MetadataMatches(entries), |entries| > 0, byMetadata);
    SubsequenceTransitive(byMetadata, byTitle, s);
    assert r == byMetadata[..|r|] by {
      if !returnAll {
        assert r == SliceTo(byMetadata, limit);
      }
    }
    PrefixIsSubsequence(byMetadata, |r|);
    SubsequenceTransitive(r, byMetadata, s);
    SubsequenceNoLonger(r, s);
    forall v | v in r
      ensures v in s
      ensures filterTitle != "" ==> Keeps(TitleContains(filterTitle), v)
      ensures |entries| > 0 ==> Keeps(MetadataMatches(entries), v)
    {
      SubsequenceMembers(r, byMetadata, v);
      assert v in byTitle;
    }
  }

  /** One filter stage of the postprocessor, applied or skipped, keeps an ordered
      selection of its input, every element of which passes the criterion if it was applied. */
  lemma StageKeeps(s: seq<Value>, c: Criterion, applied: bool, t: seq<Value>)
    requires (if applied then Select(s, c) else Success(s)) == Success(t)
    ensures IsSubsequence(t, s)
    ensures forall v :: v in t ==> v in s && (applied ==> Keeps(c, v))
  {
    if !applied {
      SubsequenceReflexive(s);
    }
  }

  /** Running the postprocessor on its own output with the same parameters changes nothing,
      for every limit the slice does not count from the end. */
  lemma PostprocessIdempotent(s: seq<Value>, filterTitle: string, filter: Value, returnAll: bool, limit: int, r: seq<Value>)
    requires returnAll || limit >= 0
    requires Postprocess(s, filterTitle, filter, returnAll, limit) == Success(r)
    ensures Postprocess(r, filterTitle, filter, returnAll, limit) == Success(r)
  {
    PostprocessSubsequence(s, filterTitle, filter, returnAll, limit, r);
    var entries := Entries(filter).value;
    if filterTitle != "" {
      SelectAllKept(r, TitleContains(filterTitle));
    }
    if |entries| > 0 {
      SelectAllKept(r, MetadataMatches(entries));
    }
    if !returnAll {
      assert |r| <= limit by {
        var byMetadata := Postprocess(s, filterTitle, filter, true, limit).value;
        assert r == SliceTo(byMetadata, limit);
      }
      assert SliceTo(r, limit) == r;
    }
  }

  /** A negative limit is why the previous lemma needs its first requires:
      `slice(0, -1)` drops one more record on every run. */
  lemma NegativeLimitNotIdempotent()
    ensures Postprocess([Null, Null], "", Obj(map[]), false, -1) == Success([Null])
    ensures Postprocess([Null], "", Obj(map[]), false, -1) == Success([])
  {
    assert [Null, Null][..1] == [Null];
  }

  /** With `returnAll`, `limit` plays no part, whatever its value. */
  lemma ReturnAllIgnoresLimit(s: seq<Value>, filterTitle: string, filter: Value, limit1: int, limit2: int)
    ensures Postprocess(s, filterTitle, filter, true, limit1) == Postprocess(s, filterTitle, filter, true, limit2)
  {
  }

  /** Without `returnAll` and with a limit of at least one (the parameter's minimum), the
      output is the first `min(limit, n)` of the `n` filtered records. */
  lemma LimitTakesPrefix(s: seq<Value>, filterTitle: string, filter: Value, limit: int)
    requires limit >= 1
    ensures var all := Postprocess(s, filterTitle, filter, true, limit);
            var some := Postprocess(s, filterTitle, filter, false, limit);
            && (all.Failure? <==> some.Failure?)
            && (all.Success? ==> some.value == all.value[..if limit < |all.value| then limit else |all.value|])
            && (all.Success? ==> |some.value| == if limit < |all.value| then limit else |all.value|)
  {
  }

  /** The postprocessor fails exactly when a record lacks a string title while a title filter
      is set, when the filter document is `null`, or, with no title filter, when a `null`
      record meets a metadata filter. */
  lemma PostprocessFailure(s: seq<Value>, filterTitle: string, filter: Value, returnAll: bool, limit: int)
    ensures Postprocess(s, filterTitle, filter, returnAll, limit).Failure? <==>
              || (filterTitle != "" && exists k :: 0 <= k < |s| && Title(s[k]).None?)
              || filter.Null?
              || (filterTitle == "" && filter.Obj? && |filter.fields| > 0 && exists k :: 0 <= k < |s| && s[k].Null?)
  {
    if filterTitle != "" && forall k :: 0 <= k < |s| ==> Title(s[k]).Some? {
      var byTitle := Filter(s, TitleContains(filterTitle));
      forall k | 0 <= k < |byTitle|
        ensures !byTitle[k].Null?
      {
        assert byTitle[k] in byTitle;
      }
    }
  }

  /** The title filter runs before the filter document is read: when it throws, its error
      (that of the first record without a string title) is the result, whatever the document. */
  lemma TitleErrorComesFirst(s: seq<Value>, filterTitle: string, filter: Value, returnAll: bool, limit: int)
    requires filterTitle != "" && exists k :: 0 <= k < |s| && Title(s[k]).None?
    ensures var r := Postprocess(s, filterTitle, filter, returnAll, limit);
            && r.Failure?
            && exists k :: FirstUnevaluable(s, TitleContains(filterTitle), k)
                        && r.error == TypeErrorMessage(TitleContains(filterTitle), s[k])
  {
  }

  /** Once the title filter (if any) has passed, a `null` filter document throws the
      `Object.keys` error. */
  lemma NullFilterError(s: seq<Value>, filterTitle: string, returnAll: bool, limit: int)
    requires filterTitle == "" || forall k :: 0 <= k < |s| ==> Title(s[k]).Some?
    ensures Postprocess(s, filterTitle, Null, returnAll, limit) == Failure(NullFilterMessage)
  {
  }

  /** A concrete input: a schedule without a title meets a title filter and a `null`
      filter document; the title error wins. */
  lemma MissingTitleBeforeNullFilter()
    ensures Postprocess([Obj(map[])], "x", Null, false, 50)
         == Failure("Cannot read properties of undefined (reading 'toLowerCase')")
  {
    assert !Evaluable(TitleContains("x"), Obj(map[]));
  }
}
