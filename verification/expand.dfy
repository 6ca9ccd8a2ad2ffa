/** The two mutually recursive expanders: `arrayToString` (with its helper
    `mapValuesByProp`) and `objectToString`. */
module Expand {
  import opened JsValues
  import opened Props

  /** `arrayToString` returns either one joined string or, for an array of
      objects, a list holding one string per element. */
  datatype ArrayResult = Joined(s: string) | Listed(strs: seq<string>)

  /** What `join` makes of an `arrayToString` result pushed into a list:
      a list result is itself joined with commas. */
  function Render(r: ArrayResult): (out: string)
    ensures r.Joined? ==> out == r.s
    ensures r.Listed? && |r.strs| > 0 && (forall i :: 0 <= i < |r.strs| ==> ',' !in r.strs[i]) ==>
              Split(out, ',') == r.strs
  {
    match r
    case Joined(t) => t
    case Listed(ts) =>
      if |ts| > 0 && forall i :: 0 <= i < |ts| ==> ',' !in ts[i] then
        SplitJoin(ts, ','); Join(ts, ',')
      else Join(ts, ',')
  }

  /* ---------------- property lookup on a value ---------------- */

  /** Position of the first entry with key `k`, or `|es|` when there is none. */
  function KeyIndex(es: seq<(string, Value)>, k: string): (i: nat)
    ensures i <= |es|
    ensures i < |es| ==> es[i].0 == k
    ensures forall j :: 0 <= j < i ==> es[j].0 != k
    decreases |es|
  {
    if |es| == 0 then 0
    else if es[0].0 == k then 0
    else 1 + KeyIndex(es[1..], k)
  }

  /** `value[k]`: the own property `k` of an object; other values have none. */
  function Lookup(v: Value, k: string): (r: Option<Value>)
    ensures r.Some? <==> v.Obj? && exists i :: 0 <= i < |v.entries| && v.entries[i].0 == k
    ensures r.Some? ==> exists i :: && 0 <= i < |v.entries| && v.entries[i] == (k, r.value)
                                    && forall j :: 0 <= j < i ==> v.entries[j].0 != k
  {
    if v.Obj? && KeyIndex(v.entries, k) < |v.entries|
    then Some(v.entries[KeyIndex(v.entries, k)].1)
    else None
  }

  /* ---------------- where the source would read element zero of an empty array ---------------- */

  /** The inputs on which `arrayToString` never inspects element zero of an
      empty array. */
  predicate ArrayDefined(a: Value, prop: string, scheme: set<string>, s: Schema)
    requires a.Arr?
    decreases a, 2, 0
  {
    var xs := a.items;
    && |xs| > 0
    && (if xs[0].Obj? then (forall i :: 0 <= i < |xs| ==> ObjectDefined(xs[i], prop, s))
        else (prop in scheme && xs[0].Arr? ==> ArrayDefined(xs[0], prop, scheme, s)))
  }

  predicate ObjectDefined(v: Value, prop: string, s: Schema)
    decreases v, 2, 0
  {
    prop in s.propObj ==> PiecesDefined(v, s.propObj[prop], s)
  }

  predicate PiecesDefined(v: Value, subs: seq<(string, Option<string>)>, s: Schema)
    decreases v, 1, 0
  {
    forall j :: 0 <= j < |subs| ==> ContributionDefined(v, subs[j].0, s)
  }

  predicate ContributionDefined(v: Value, k: string, s: Schema)
    decreases v, 0, 0
  {
    var i := if v.Obj? then KeyIndex(v.entries, k) else 0;
    v.Obj? && i < |v.entries| && Truthy(v.entries[i].1) && v.entries[i].1.Arr?
    ==> ArrayDefined(v.entries[i].1, k, s.propArrayInObj, s)
  }

  /* ---------------- the expanders ---------------- */

  /** `arrayToString(value, prop, scheme)`. */
  function ArrayToString(a: Value, prop: string, scheme: set<string>, s: Schema): (r: ArrayResult)
    requires a.Arr? && ArrayDefined(a, prop, scheme, s)
    ensures a.items[0].Obj? ==>
              && r.Listed?
              && |r.strs| == |a.items|
              && forall i :: 0 <= i < |a.items| ==> r.strs[i] == ObjectToString(a.items[i], prop, s)
    ensures !a.items[0].Obj? && prop !in scheme ==> r == Joined(Join(JsStrings(a.items), ','))
    ensures !a.items[0].Obj? && !a.items[0].Arr? && prop in scheme ==> r == Joined(Join(JsStrings(a.items), ' '))
    decreases a, 2, 0
  {
    var xs := a.items;
    if xs[0].Obj? then Listed(MapValuesByProp(a, prop, s))
    else if prop !in scheme then Joined(Join(JsStrings(xs), ','))
    else if xs[0].Arr? then ArrayToString(xs[0], prop, scheme, s)
    else Joined(Join(JsStrings(xs), ' '))
  }

  /** `mapValuesByProp(value, prop)`: `objectToString` of every element. */
  function MapValuesByProp(a: Value, prop: string, s: Schema): (r: seq<string>)
    requires a.Arr?
    requires forall i :: 0 <= i < |a.items| ==> ObjectDefined(a.items[i], prop, s)
    ensures |r| == |a.items|
    ensures forall i :: 0 <= i < |a.items| ==> r[i] == ObjectToString(a.items[i], prop, s)
    decreases a, 1, 0
  {
    seq(|a.items|, i requires 0 <= i < |a.items| => ObjectToString(a.items[i], prop, s))
  }

  /** `objectToString(value, prop)`. */
  function ObjectToString(v: Value, prop: string, s: Schema): (r: string)
    requires ObjectDefined(v, prop, s)
    ensures prop !in s.propObj ==> r == ""
    decreases v, 2, 0
  {
    if prop !in s.propObj then ""
    else Join(Pieces(v, s.propObj[prop], s), ' ')
  }

  /** The list `objectToString` pushes to while it walks the declared
      sub-properties `subs` in order. */
  function Pieces(v: Value, subs: seq<(string, Option<string>)>, s: Schema): (r: seq<string>)
    requires PiecesDefined(v, subs, s)
    ensures |r| <= |subs|
    decreases v, 1, |subs|
  {
    if |subs| == 0 then []
    else Contribution(v, subs[0].0, subs[0].1, s) + Pieces(v, subs[1..], s)
  }

  /** What one declared sub-property `k` with default `d` pushes: the
      value's own truthy entry (an array expanded with `propArrayInObj` under
      the name `k`), else the non-null default, else nothing. */
  function Contribution(v: Value, k: string, d: Option<string>, s: Schema): (r: seq<string>)
    requires ContributionDefined(v, k, s)
    ensures |r| <= 1
    decreases v, 0, 0
  {
    var i := if v.Obj? then KeyIndex(v.entries, k) else 0;
    if v.Obj? && i < |v.entries| && Truthy(v.entries[i].1) then
      var x := v.entries[i].1;
      if x.Arr? then [Render(ArrayToString(x, k, s.propArrayInObj, s))]
      else [JsString(x)]
    else if d.Some? then [d.value]
    else []
  }
}
