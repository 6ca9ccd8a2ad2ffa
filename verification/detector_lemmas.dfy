/** Properties of the style walk. */
module DetectorLemmas {
  import opened JsValues
  import opened Props
  import opened Detector

  /** A value the walk leaves where it is: a primitive, or an array whose
      first element is itself an array. */
  predicate Settled(x: Value)
  {
    IsPrimitive(x) || (x.Arr? && |x.items| > 0 && x.items[0].Arr?)
  }

  predicate HasFallbacksKey(v: Value)
    requires v.Obj?
  {
    exists i :: 0 <= i < |v.entries| && v.entries[i].0 == Fallbacks
  }

  /** A style whose values are all primitive comes back unchanged. */
  lemma IdentityOnPrimitiveStyle(v: Value, s: Schema)
    requires v.Obj? && forall i :: 0 <= i < |v.entries| ==> IsPrimitive(v.entries[i].1)
    ensures StyleDefined(v, s)
    ensures DetectStyle(v, s) == v
  {
  }

  /** Away from `fallbacks`, a style is left unchanged exactly when every
      value in it is settled: any compound value or flat array would have
      been replaced by something of another shape. */
  lemma FixedPointIff(v: Value, s: Schema)
    requires v.Obj? && StyleDefined(v, s) && !HasFallbacksKey(v)
    ensures DetectStyle(v, s) == v <==> forall i :: 0 <= i < |v.entries| ==> Settled(v.entries[i].1)
  {
  }

  /** A compound value or a flat array, outside `fallbacks`, never survives
      the walk as it was. */
  lemma EntryMoves(k: string, x: Value, s: Schema)
    requires EntryDefined(k, x, s) && k != Fallbacks && !Settled(x)
    ensures DetectEntry(k, x, s) != x
  {
  }

  /** What the host sees after the walk: outside `fallbacks`, every
      compound value and every flat array now holds a string, or for an
      array of objects an array of strings, and every settled value is
      untouched. */
  lemma OutputShape(v: Value, s: Schema)
    requires v.Obj? && StyleDefined(v, s)
    ensures var r := DetectStyle(v, s);
            forall i :: 0 <= i < |v.entries| ==>
              var (k, x, y) := (v.entries[i].0, v.entries[i].1, r.entries[i].1);
              && (k != Fallbacks && (x.Obj? || (x.Arr? && |x.items| > 0 && !x.items[0].Arr?)) ==>
                    y.Str? || (y.Arr? && forall j :: 0 <= j < |y.items| ==> y.items[j].Str?))
              && (Settled(x) ==> y == x)
  {
  }
}
