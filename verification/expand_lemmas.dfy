/** Properties of `arrayToString` and `objectToString`. */
module ExpandLemmas {
  import opened JsValues
  import opened Props
  import opened Expand

  /* ---------------- arrayToString ---------------- */

  /** The group `arrayToString` ends up expanding: for a registered property
      it follows first elements for as long as they are arrays. */
  ghost function FirstGroup(a: Value, prop: string, scheme: set<string>, s: Schema): (g: Value)
    requires a.Arr? && ArrayDefined(a, prop, scheme, s)
    ensures g.Arr? && ArrayDefined(g, prop, scheme, s)
    ensures g.items[0].Obj? || prop !in scheme || !g.items[0].Arr?
    decreases a
  {
    var xs := a.items;
    if !xs[0].Obj? && prop in scheme && xs[0].Arr? then FirstGroup(xs[0], prop, scheme, s) else a
  }

  /** `arrayToString` in closed form: a list when the expanded group starts
      with an object, a comma join of the whole array when the property is
      unregistered, and otherwise a space join of the first innermost group. */
  lemma {:induction false} ArrayToStringClosedForm(a: Value, prop: string, scheme: set<string>, s: Schema)
    requires a.Arr? && ArrayDefined(a, prop, scheme, s)
    ensures var g := FirstGroup(a, prop, scheme, s);
            ArrayToString(a, prop, scheme, s) ==
              if g.items[0].Obj? then Listed(MapValuesByProp(g, prop, s))
              else if prop !in scheme then Joined(Join(JsStrings(a.items), ','))
              else Joined(Join(JsStrings(g.items), ' '))
    decreases a
  {
    var xs := a.items;
    if !xs[0].Obj? && prop in scheme && xs[0].Arr? {
      ArrayToStringClosedForm(xs[0], prop, scheme, s);
    }
  }

  /** For a registered property whose first element is an array, only that
      first group is expanded: whatever follows it is ignored. */
  lemma LaterGroupsIgnored(g: Value, rest: seq<Value>, prop: string, scheme: set<string>, s: Schema)
    requires g.Arr? && prop in scheme && ArrayDefined(g, prop, scheme, s)
    ensures ArrayDefined(Arr([g] + rest), prop, scheme, s)
    ensures ArrayToString(Arr([g] + rest), prop, scheme, s) == ArrayToString(g, prop, scheme, s)
  {
  }

  /** The separator `arrayToString` uses on an array it joins directly: a
      comma for an unregistered property, a space for a registered one. */
  function Separator(prop: string, scheme: set<string>): char
  {
    if prop in scheme then ' ' else ','
  }

  /** A directly joined array can be split back into its elements' strings
      on the separator, as long as no element's string contains it. */
  lemma JoinedSplitsBack(a: Value, prop: string, scheme: set<string>, s: Schema)
    requires a.Arr? && ArrayDefined(a, prop, scheme, s)
    requires !a.items[0].Obj? && (prop in scheme ==> !a.items[0].Arr?)
    requires forall i :: 0 <= i < |a.items| ==> Separator(prop, scheme) !in JsString(a.items[i])
    ensures ArrayToString(a, prop, scheme, s).Joined?
    ensures Split(ArrayToString(a, prop, scheme, s).s, Separator(prop, scheme)) == JsStrings(a.items)
  {
    SplitJoin(JsStrings(a.items), Separator(prop, scheme));
  }

  /** A non-empty array of numbers always splits back into its numbers'
      renderings, whichever separator applies. */
  lemma NumbersSplitBack(a: Value, prop: string, scheme: set<string>, s: Schema)
    requires a.Arr? && |a.items| > 0
    requires forall i :: 0 <= i < |a.items| ==> a.items[i].Num?
    ensures ArrayDefined(a, prop, scheme, s)
    ensures ArrayToString(a, prop, scheme, s).Joined?
    ensures Split(ArrayToString(a, prop, scheme, s).s, Separator(prop, scheme)) == JsStrings(a.items)
  {
    forall i | 0 <= i < |a.items|
      ensures Separator(prop, scheme) !in JsString(a.items[i])
    {
      assert JsString(a.items[i]) == IntToString(a.items[i].n);
    }
    JoinedSplitsBack(a, prop, scheme, s);
  }

  /* ---------------- objectToString ---------------- */

  /** One declared sub-property's contribution, stated through the value's
      own property `k`: a truthy array is expanded under the name `k` with
      `propArrayInObj`, any other truthy value is emitted as it is, and an
      absent or falsy one yields the non-null default or nothing. */
  lemma SubValueOrDefault(v: Value, k: string, d: Option<string>, s: Schema)
    requires ContributionDefined(v, k, s)
    ensures var x := Lookup(v, k);
            && (x.Some? && Truthy(x.value) && x.value.Arr? ==>
                  && ArrayDefined(x.value, k, s.propArrayInObj, s)
                  && Contribution(v, k, d, s) == [Render(ArrayToString(x.value, k, s.propArrayInObj, s))])
            && (x.Some? && Truthy(x.value) && !x.value.Arr? ==>
                  Contribution(v, k, d, s) == [JsString(x.value)])
            && (!(x.Some? && Truthy(x.value)) ==>
                  Contribution(v, k, d, s) == if d.Some? then [d.value] else [])
  {
  }

  /** Tokens follow the schema's declaration order: the sub-properties
      declared first contribute first. */
  lemma {:induction false} PiecesAppend(v: Value, xs: seq<(string, Option<string>)>,
                                        ys: seq<(string, Option<string>)>, s: Schema)
    requires PiecesDefined(v, xs + ys, s)
    ensures PiecesDefined(v, xs, s) && PiecesDefined(v, ys, s)
    ensures Pieces(v, xs + ys, s) == Pieces(v, xs, s) + Pieces(v, ys, s)
    decreases |xs|
  {
    if |xs| == 0 {
      assert xs + ys == ys;
    } else {
      var zs := xs + ys;
      assert zs[0] == xs[0];
      assert zs[1..] == xs[1..] + ys;
      assert PiecesDefined(v, zs[1..], s) by {
        forall j | 0 <= j < |zs[1..]|
          ensures ContributionDefined(v, zs[1..][j].0, s)
        {
          assert zs[1..][j] == zs[j + 1];
        }
      }
      PiecesAppend(v, xs[1..], ys, s);
      assert PiecesDefined(v, xs, s) by {
        forall j | 0 <= j < |xs|
          ensures ContributionDefined(v, xs[j].0, s)
        {
          assert xs[j] == zs[j];
        }
      }
    }
  }

  /** A declared sub-property contributes a token exactly when the value has
      it truthy or the schema gives it a non-null default. */
  predicate Contributes(v: Value, sub: (string, Option<string>))
  {
    var x := Lookup(v, sub.0);
    (x.Some? && Truthy(x.value)) || sub.1.Some?
  }

  function CountContributing(v: Value, subs: seq<(string, Option<string>)>): nat
    decreases |subs|
  {
    if |subs| == 0 then 0
    else (if Contributes(v, subs[0]) then 1 else 0) + CountContributing(v, subs[1..])
  }

  /** One token per contributing sub-property, and none for the others. */
  lemma {:induction false} PiecesCount(v: Value, subs: seq<(string, Option<string>)>, s: Schema)
    requires PiecesDefined(v, subs, s)
    ensures |Pieces(v, subs, s)| == CountContributing(v, subs)
    decreases |subs|
  {
    if |subs| > 0 {
      SubValueOrDefault(v, subs[0].0, subs[0].1, s);
      PiecesCount(v, subs[1..], s);
    }
  }

  /** Every declared sub-property contributes when each is either supplied
      truthy or has a default, so there is one token per declaration. */
  lemma {:induction false} AllDeclaredContribute(v: Value, subs: seq<(string, Option<string>)>, s: Schema)
    requires PiecesDefined(v, subs, s)
    requires forall j :: 0 <= j < |subs| ==> Contributes(v, subs[j])
    ensures |Pieces(v, subs, s)| == |subs|
    decreases |subs|
  {
    PiecesCount(v, subs, s);
    CountAll(v, subs);
  }

  lemma {:induction false} CountAll(v: Value, subs: seq<(string, Option<string>)>)
    requires forall j :: 0 <= j < |subs| ==> Contributes(v, subs[j])
    ensures CountContributing(v, subs) == |subs|
    decreases |subs|
  {
    if |subs| > 0 {
      assert Contributes(v, subs[0]);
      CountAll(v, subs[1..]);
    }
  }

  lemma {:induction false} PiecesSameLookups(v1: Value, v2: Value, subs: seq<(string, Option<string>)>, s: Schema)
    requires PiecesDefined(v1, subs, s) && PiecesDefined(v2, subs, s)
    requires forall j :: 0 <= j < |subs| ==> Lookup(v1, subs[j].0) == Lookup(v2, subs[j].0)
    ensures Pieces(v1, subs, s) == Pieces(v2, subs, s)
    decreases |subs|
  {
    if |subs| > 0 {
      SubValueOrDefault(v1, subs[0].0, subs[0].1, s);
      SubValueOrDefault(v2, subs[0].0, subs[0].1, s);
      PiecesSameLookups(v1, v2, subs[1..], s);
    }
  }

  /** `objectToString` reads the value only through its declared
      sub-properties: two values that agree on those give the same string,
      whatever order their keys were written in and whatever other keys they
      carry. */
  lemma InputOrderIrrelevant(v1: Value, v2: Value, prop: string, s: Schema)
    requires ObjectDefined(v1, prop, s) && ObjectDefined(v2, prop, s)
    requires prop in s.propObj ==>
               forall j :: 0 <= j < |s.propObj[prop]| ==>
                 Lookup(v1, s.propObj[prop][j].0) == Lookup(v2, s.propObj[prop][j].0)
    ensures ObjectToString(v1, prop, s) == ObjectToString(v2, prop, s)
  {
    if prop in s.propObj {
      PiecesSameLookups(v1, v2, s.propObj[prop], s);
    }
  }

  /** `objectToString` joins the pushed tokens with single spaces: splitting
      its result on a space gives the tokens back, as long as there is at
      least one and none contains a space. */
  lemma ObjectSplitsBack(v: Value, prop: string, s: Schema)
    requires prop in s.propObj && ObjectDefined(v, prop, s)
    requires |Pieces(v, s.propObj[prop], s)| > 0
    requires forall i :: 0 <= i < |Pieces(v, s.propObj[prop], s)| ==> ' ' !in Pieces(v, s.propObj[prop], s)[i]
    ensures Split(ObjectToString(v, prop, s), ' ') == Pieces(v, s.propObj[prop], s)
  {
    SplitJoin(Pieces(v, s.propObj[prop], s), ' ');
  }

  /** An extra key that the schema does not declare for `prop` changes
      nothing in the expansion. */
  lemma UndeclaredKeyIgnored(es: seq<(string, Value)>, k: string, x: Value, prop: string, s: Schema)
    requires ObjectDefined(Obj(es), prop, s)
    requires prop in s.propObj ==> forall j :: 0 <= j < |s.propObj[prop]| ==> s.propObj[prop][j].0 != k
    ensures ObjectDefined(Obj(es + [(k, x)]), prop, s)
    ensures ObjectToString(Obj(es + [(k, x)]), prop, s) == ObjectToString(Obj(es), prop, s)
  {
    var v1, v2 := Obj(es), Obj(es + [(k, x)]);
    forall k' | k' != k
      ensures Lookup(v2, k') == Lookup(v1, k')
      ensures ContributionDefined(v2, k', s) == ContributionDefined(v1, k', s)
    {
      SameKeyIndex(es, k, x, k');
    }
    InputOrderIrrelevant(v2, v1, prop, s);
  }

  /** Appending an entry with key `k` leaves the position of every other
      key as it was, except that "absent" moves to the new end. */
  lemma {:induction false} SameKeyIndex(es: seq<(string, Value)>, k: string, x: Value, k': string)
    requires k' != k
    ensures KeyIndex(es + [(k, x)], k') ==
              if KeyIndex(es, k') < |es| then KeyIndex(es, k') else |es| + 1
    decreases |es|
  {
    if |es| == 0 {
      assert KeyIndex([(k, x)], k') == 1 + KeyIndex([], k');
    } else {
      assert (es + [(k, x)])[0] == es[0];
      assert (es + [(k, x)])[1..] == es[1..] + [(k, x)];
      SameKeyIndex(es[1..], k, x, k');
    }
  }
}
