/** The rule callback `jssExpand()` returns. */
module Plugin {
  import opened JsValues
  import opened Props
  import opened Detector
  import DetectorLemmas

  /** The two fields of a rule the callback reads; `style` is `None` when
      the rule has none. */
  datatype Rule = Rule(kind: string, style: Option<Value>)

  /** A rule the callback rewrites: it has a truthy style and type "regular". */
  predicate Eligible(rule: Rule)
  {
    rule.style.Some? && Truthy(rule.style.value) && rule.kind == "regular"
  }

  predicate RuleDefined(rule: Rule, s: Schema)
  {
    Eligible(rule) ==>
      match rule.style.value
      case Arr(xs) => forall i :: 0 <= i < |xs| ==> StyleDefined(xs[i], s)
      case v => StyleDefined(v, s)
  }

  /** The callback: an array of styles has each element walked in order, a
      single style is walked and assigned back; any other rule is left as
      it was. */
  function ProcessRule(rule: Rule, s: Schema): (r: Rule)
    requires RuleDefined(rule, s)
    ensures r.kind == rule.kind
    ensures !Eligible(rule) ==> r == rule
    ensures Eligible(rule) && rule.style.value.Arr? ==>
              && r.style.Some? && r.style.value.Arr?
              && |r.style.value.items| == |rule.style.value.items|
              && forall i :: 0 <= i < |rule.style.value.items| ==>
                   r.style.value.items[i] == DetectStyle(rule.style.value.items[i], s)
    ensures Eligible(rule) && !rule.style.value.Arr? ==> r.style == Some(DetectStyle(rule.style.value, s))
  {
    if !Eligible(rule) then rule
    else match rule.style.value
      case Arr(xs) =>
        Rule(rule.kind, Some(Arr(seq(|xs|, i requires 0 <= i < |xs| => DetectStyle(xs[i], s)))))
      case v => Rule(rule.kind, Some(DetectStyle(v, s)))
  }

  /** A rule whose type is not "regular" is returned as it was, whatever
      its style holds. */
  lemma OnlyRegularRules(rule: Rule, s: Schema)
    requires rule.kind != "regular"
    ensures RuleDefined(rule, s)
    ensures ProcessRule(rule, s) == rule
  {
  }

  /** A regular rule whose style holds only primitive values comes back
      unchanged. */
  lemma PrimitiveRuleUnchanged(rule: Rule, s: Schema)
    requires rule.style.Some? && rule.style.value.Obj?
    requires forall i :: 0 <= i < |rule.style.value.entries| ==> IsPrimitive(rule.style.value.entries[i].1)
    ensures RuleDefined(rule, s)
    ensures ProcessRule(rule, s) == rule
  {
    DetectorLemmas.IdentityOnPrimitiveStyle(rule.style.value, s);
  }
}
