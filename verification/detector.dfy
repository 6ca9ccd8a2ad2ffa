/** `styleDetector`: the walk over one style object that replaces compound
    and array values with their expanded strings, recursing into
    `fallbacks`. The walk builds a new value instead of assigning into the
    caller's object. */
module Detector {
  import opened JsValues
  import opened Props
  import opened Expand

  /** The key `for...in` yields for position `i` of an array. */
  function IndexKey(i: nat): (k: string)
    ensures |k| > 0 && AllDigits(k)
    ensures k != Fallbacks
  {
    var k := NatToString(i);
    assert k[0] != Fallbacks[0];
    k
  }

  /** How the dispatcher stores an `arrayToString` result back in the style:
      a joined string, or the list of strings as an array. */
  function Store(r: ArrayResult): (v: Value)
    ensures v.Str? || (v.Arr? && forall i :: 0 <= i < |v.items| ==> v.items[i].Str?)
  {
    match r
    case Joined(t) => Str(t)
    case Listed(ts) => Arr(seq(|ts|, i requires 0 <= i < |ts| => Str(ts[i])))
  }

  /** The inputs on which the walk never inspects element zero of an empty
      array, at this level or in the expanders it calls. */
  predicate EntryDefined(k: string, x: Value, s: Schema)
    decreases x, 2
  {
    match x
    case Obj(_) => if k == Fallbacks then StyleDefined(x, s) else ObjectDefined(x, k, s)
    case Arr(xs) =>
      && |xs| > 0
      && (!xs[0].Arr? ==>
            if k == Fallbacks then (forall i :: 0 <= i < |xs| ==> StyleDefined(xs[i], s))
            else ArrayDefined(x, k, s.propArray, s))
    case _ => true
  }

  predicate StyleDefined(v: Value, s: Schema)
    decreases v, 1
  {
    match v
    case Obj(es) => forall i :: 0 <= i < |es| ==> EntryDefined(es[i].0, es[i].1, s)
    case Arr(xs) => forall i :: 0 <= i < |xs| ==> EntryDefined(IndexKey(i), xs[i], s)
    case _ => true
  }

  /** The loop body of `styleDetector` for property `k` holding `x`. */
  function DetectEntry(k: string, x: Value, s: Schema): (r: Value)
    requires EntryDefined(k, x, s)
    ensures IsPrimitive(x) ==> r == x
    ensures x.Arr? && x.items[0].Arr? ==> r == x
    ensures k != Fallbacks && x.Obj? ==> r == Str(ObjectToString(x, k, s))
    ensures k != Fallbacks && x.Arr? && !x.items[0].Arr? ==>
              && r == Store(ArrayToString(x, k, s.propArray, s))
              && (r.Str? || (r.Arr? && forall i :: 0 <= i < |r.items| ==> r.items[i].Str?))
    ensures k == Fallbacks && x.Obj? ==>
              && r == DetectStyle(x, s)
              && r.Obj? && |r.entries| == |x.entries|
              && forall i :: 0 <= i < |x.entries| ==> r.entries[i].0 == x.entries[i].0
    ensures k == Fallbacks && x.Arr? && !x.items[0].Arr? ==>
              && r.Arr? && |r.items| == |x.items|
              && forall i :: 0 <= i < |x.items| ==> r.items[i] == DetectStyle(x.items[i], s)
    decreases x, 2
  {
    match x
    case Obj(_) => if k == Fallbacks then DetectStyle(x, s) else Str(ObjectToString(x, k, s))
    case Arr(xs) =>
      if xs[0].Arr? then x
      else if k == Fallbacks then Arr(seq(|xs|, i requires 0 <= i < |xs| => DetectStyle(xs[i], s)))
      else Store(ArrayToString(x, k, s.propArray, s))
    case _ => x
  }

  /** `styleDetector(style)`: every entry of an object is rewritten in place
      of its slot, so keys keep their order; `for...in` over an array walks
      its index keys; a primitive has nothing to walk. */
  function DetectStyle(v: Value, s: Schema): (r: Value)
    requires StyleDefined(v, s)
    ensures IsPrimitive(v) ==> r == v
    ensures v.Obj? ==>
              && r.Obj? && |r.entries| == |v.entries|
              && (forall i :: 0 <= i < |v.entries| ==> r.entries[i].0 == v.entries[i].0)
              && forall i :: 0 <= i < |v.entries| ==>
                   r.entries[i].1 == DetectEntry(v.entries[i].0, v.entries[i].1, s)
    ensures v.Arr? ==>
              && r.Arr? && |r.items| == |v.items|
              && forall i :: 0 <= i < |v.items| ==> r.items[i] == DetectEntry(IndexKey(i), v.items[i], s)
    decreases v, 1
  {
    match v
    case Obj(es) =>
      Obj(seq(|es|, i requires 0 <= i < |es| => (es[i].0, DetectEntry(es[i].0, es[i].1, s))))
    case Arr(xs) =>
      Arr(seq(|xs|, i requires 0 <= i < |xs| => DetectEntry(IndexKey(i), xs[i], s)))
    case _ => v
  }
}
