/** Parsed JSON values and the few JavaScript operations the node applies to them:
    truthiness, strict equality, property reads, `toLowerCase` and `includes`. */
module Json {
  import opened Wrappers

  datatype Value =
    | Null
    | Bool(b: bool)
    | Num(n: real)
    | Str(s: string)
    | Arr(items: seq<Value>)
    | Obj(fields: map<string, Value>)

  /** JavaScript truthiness of a JSON value. */
  predicate Truthy(v: Value) {
    match v
    case Null => false
    case Bool(b) => b
    case Num(n) => n != 0.0
    case Str(s) => s != ""
    case Arr(_) => true
    case Obj(_) => true
  }

  /** `a === b` where `b` comes from a separately parsed document: arrays and
      objects are distinct references, so they are never strictly equal. */
  predicate StrictEquals(a: Value, b: Value) {
    match (a, b)
    case (Null, Null) => true
    case (Bool(x), Bool(y)) => x == y
    case (Num(x), Num(y)) => x == y
    case (Str(x), Str(y)) => x == y
    case _ => false
  }

  lemma StrictEqualsOnlyPrimitives(a: Value, b: Value)
    ensures StrictEquals(a, b) <==> a == b && !a.Arr? && !a.Obj?
  {
  }

  /** The property read `v[key]` on a non-null value: an own key of an object,
      otherwise `undefined` (None). */
  function Property(v: Value, key: string): (r: Option<Value>)
    ensures r.Some? <==> v.Obj? && key in v.fields
    ensures r.Some? ==> r.value == v.fields[key]
  {
    match v
    case Obj(m) => if key in m then Some(m[key]) else None
    case _ => None
  }

  /** `toLowerCase` on one character, for the ASCII letters. */
  function LowerChar(c: char): (r: char)
    ensures 'A' <= c <= 'Z' ==> r as int == c as int + 32
    ensures !('A' <= c <= 'Z') ==> r == c
  {
    if 'A' <= c <= 'Z' then (c as int + 32) as char else c
  }

  /** `toLowerCase` on a string, character by character. */
  function Lower(s: string): (r: string)
    ensures |r| == |s|
    ensures forall k :: 0 <= k < |s| ==> r[k] == LowerChar(s[k])
  {
    if s == [] then [] else [LowerChar(s[0])] + Lower(s[1..])
  }

  lemma {:induction false} LowerIdempotent(s: string)
    ensures Lower(Lower(s)) == Lower(s)
  {
    var l := Lower(s);
    assert forall k :: 0 <= k < |s| ==> Lower(l)[k] == LowerChar(LowerChar(s[k])) == l[k];
  }

  /** `needle` occurs in `s` starting at index `i`. */
  predicate OccursAt(s: string, needle: string, i: int) {
    0 <= i && i + |needle| <= |s| && s[i..i + |needle|] == needle
  }

  /** `s.includes(needle)`, searching from the front. */
  function Includes(s: string, needle: string): (b: bool)
    ensures b <==> exists i :: OccursAt(s, needle, i)
    decreases |s|
  {
    if |needle| <= |s| && s[..|needle|] == needle then
      assert OccursAt(s, needle, 0);
      true
    else if |needle| > |s| then
      false
    else
      var rest := Includes(s[1..], needle);
      forall i | OccursAt(s[1..], needle, i)
        ensures OccursAt(s, needle, i + 1)
      {
        assert s[1..][i..i + |needle|] == s[i + 1..i + 1 + |needle|];
      }
      forall i | OccursAt(s, needle, i)
        ensures i > 0 && OccursAt(s[1..], needle, i - 1)
      {
        assert s[1..][i - 1..i - 1 + |needle|] == s[i..i + |needle|];
      }
      rest
  }
}
