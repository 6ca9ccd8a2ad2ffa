/** Concrete inputs and the output the expander gives for them. */
module Scenarios {
  import opened JsValues
  import opened Props
  import opened Expand
  import opened Detector
  import opened Plugin

  /** A schema declaring `border` as width, style, color with no defaults,
      `margin` as a registered flat array property, and nothing else. */
  const Plain := Schema(
    map["border" := [("width", None), ("style", None), ("color", None)]],
    {"margin"}, {})

  /** The same border declaration, with a "0" default for its width. */
  const WithDefault := Schema(
    map["border" := [("width", Some("0")), ("style", None), ("color", None)]],
    {"margin"}, {})

  /** A one-entry style is walked by walking its entry. */
  lemma SingleEntry(k: string, x: Value, y: Value, s: Schema)
    requires EntryDefined(k, x, s) && DetectEntry(k, x, s) == y
    ensures StyleDefined(Obj([(k, x)]), s)
    ensures DetectStyle(Obj([(k, x)]), s) == Obj([(k, y)])
  {
  }

  lemma Digits()
    ensures JsString(Num(0)) == "0" && JsString(Num(1)) == "1" && JsString(Num(2)) == "2"
    ensures JsString(Num(3)) == "3" && JsString(Num(4)) == "4"
  {
  }

  /** A sub-property the value holds truthy and not as an array is
      emitted as its string. */
  lemma Supplied(v: Value, k: string, d: Option<string>, s: Schema, x: Value)
    requires Lookup(v, k) == Some(x) && Truthy(x) && !x.Arr?
    ensures ContributionDefined(v, k, s)
    ensures Contribution(v, k, d, s) == [JsString(x)]
  {
  }

  /** A sub-property the value lacks, or holds falsy, yields its default. */
  lemma Missing(v: Value, k: string, d: Option<string>, s: Schema)
    requires Lookup(v, k).None? || (Lookup(v, k).Some? && !Truthy(Lookup(v, k).value))
    ensures ContributionDefined(v, k, s)
    ensures Contribution(v, k, d, s) == if d.Some? then [d.value] else []
  {
  }

  /** With three declared sub-properties, the pieces are their three
      contributions in declaration order. */
  lemma ThreePieces(v: Value, subs: seq<(string, Option<string>)>, s: Schema)
    requires |subs| == 3
    requires forall j :: 0 <= j < 3 ==> ContributionDefined(v, subs[j].0, s)
    ensures PiecesDefined(v, subs, s)
    ensures Pieces(v, subs, s) ==
              Contribution(v, subs[0].0, subs[0].1, s)
              + Contribution(v, subs[1].0, subs[1].1, s)
              + Contribution(v, subs[2].0, subs[2].1, s)
  {
    var c0 := Contribution(v, subs[0].0, subs[0].1, s);
    var c1 := Contribution(v, subs[1].0, subs[1].1, s);
    var c2 := Contribution(v, subs[2].0, subs[2].1, s);
    var t := subs[1..];
    var u := t[1..];
    assert t[0] == subs[1] && t[1] == subs[2];
    assert u == [subs[2]] && u[1..] == [];
    assert PiecesDefined(v, u, s) && PiecesDefined(v, t, s);
    assert Pieces(v, u, s) == c2 + [];
    assert Pieces(v, t, s) == c1 + c2;
    assert Pieces(v, subs, s) == c0 + (c1 + c2);
  }

  /** A border value holding width 1, style "solid" and color "red",
      under whatever key order, expands to "1 solid red". */
  lemma BorderFromLookups(b: Value)
    requires Lookup(b, "width") == Some(Num(1))
    requires Lookup(b, "style") == Some(Str("solid"))
    requires Lookup(b, "color") == Some(Str("red"))
    ensures ObjectDefined(b, "border", Plain)
    ensures ObjectToString(b, "border", Plain) == "1 solid red"
  {
    Digits();
    Supplied(b, "width", None, Plain, Num(1));
    Supplied(b, "style", None, Plain, Str("solid"));
    Supplied(b, "color", None, Plain, Str("red"));
    var subs := Plain.propObj["border"];
    assert subs[0] == ("width", None) && subs[1] == ("style", None) && subs[2] == ("color", None);
    ThreePieces(b, subs, Plain);
    assert Pieces(b, subs, Plain) == ["1", "solid", "red"];
    JoinThree("1", "solid", "red", ' ');
  }

  lemma JoinThree(x: string, y: string, z: string, sep: char)
    ensures Join([x, y, z], sep) == x + [sep] + y + [sep] + z
  {
    assert [x, y, z][1..] == [y, z];
    assert [y, z][1..] == [z];
    assert Join([z], sep) == z;
    assert Join([y, z], sep) == y + [sep] + z;
  }

  lemma BorderInDeclaredOrder()
    ensures var style := Obj([("border", Obj([("width", Num(1)), ("style", Str("solid")), ("color", Str("red"))]))]);
            && StyleDefined(style, Plain)
            && DetectStyle(style, Plain) == Obj([("border", Str("1 solid red"))])
  {
    var b := Obj([("width", Num(1)), ("style", Str("solid")), ("color", Str("red"))]);
    assert KeyIndex(b.entries, "style") == 1 && KeyIndex(b.entries, "color") == 2;
    BorderFromLookups(b);
    SingleEntry("border", b, Str("1 solid red"), Plain);
  }
  lemma BorderReordered()
    ensures var style := Obj([("border", Obj([("color", Str("red")), ("width", Num(1)), ("style", Str("solid"))]))]);
            && StyleDefined(style, Plain)
            && DetectStyle(style, Plain) == Obj([("border", Str("1 solid red"))])
  {
    var b := Obj([("color", Str("red")), ("width", Num(1)), ("style", Str("solid"))]);
    assert KeyIndex(b.entries, "width") == 1 && KeyIndex(b.entries, "style") == 2;
    BorderFromLookups(b);
    SingleEntry("border", b, Str("1 solid red"), Plain);
  }

  /** A falsy width takes the schema default when there is one and is
      skipped when the default is null; the absent style is skipped. */
  lemma BorderDefaultAndSkip()
    ensures var style := Obj([("border", Obj([("color", Str("red")), ("width", Num(0))]))]);
            && StyleDefined(style, WithDefault) && StyleDefined(style, Plain)
            && DetectStyle(style, WithDefault) == Obj([("border", Str("0 red"))])
            && DetectStyle(style, Plain) == Obj([("border", Str("red"))])
  {
    var b := Obj([("color", Str("red")), ("width", Num(0))]);
    ZeroWidthLookups(b);
    ZeroWidthWithDefault(b);
    ZeroWidthPlain(b);
    SingleEntry("border", b, Str("0 red"), WithDefault);
    SingleEntry("border", b, Str("red"), Plain);
  }

  lemma ZeroWidthLookups(b: Value)
    requires b == Obj([("color", Str("red")), ("width", Num(0))])
    ensures Lookup(b, "width") == Some(Num(0))
    ensures Lookup(b, "style") == None
    ensures Lookup(b, "color") == Some(Str("red"))
  {
  }

  lemma ZeroWidthWithDefault(b: Value)
    requires Lookup(b, "width") == Some(Num(0))
    requires Lookup(b, "style") == None
    requires Lookup(b, "color") == Some(Str("red"))
    ensures ObjectDefined(b, "border", WithDefault)
    ensures ObjectToString(b, "border", WithDefault) == "0 red"
  {
    var subs := WithDefault.propObj["border"];
    assert subs[0] == ("width", Some("0")) && subs[1] == ("style", None) && subs[2] == ("color", None);
    Missing(b, "width", Some("0"), WithDefault);
    Missing(b, "style", None, WithDefault);
    Supplied(b, "color", None, WithDefault, Str("red"));
    ThreePieces(b, subs, WithDefault);
    assert Pieces(b, subs, WithDefault) == ["0", "red"];
    assert ["0", "red"][1..] == ["red"];
  }

  lemma ZeroWidthPlain(b: Value)
    requires Lookup(b, "width") == Some(Num(0))
    requires Lookup(b, "style") == None
    requires Lookup(b, "color") == Some(Str("red"))
    ensures ObjectDefined(b, "border", Plain)
    ensures ObjectToString(b, "border", Plain) == "red"
  {
    var subs := Plain.propObj["border"];
    assert subs[0] == ("width", None) && subs[1] == ("style", None) && subs[2] == ("color", None);
    Missing(b, "width", None, Plain);
    Missing(b, "style", None, Plain);
    Supplied(b, "color", None, Plain, Str("red"));
    ThreePieces(b, subs, Plain);
    assert Pieces(b, subs, Plain) == ["red"];
  }

  lemma MarginJoinedWithSpaces()
    ensures var style := Obj([("margin", Arr([Num(1), Num(2), Num(3), Num(4)]))]);
            && StyleDefined(style, Plain)
            && DetectStyle(style, Plain) == Obj([("margin", Str("1 2 3 4"))])
  {
    var x := Arr([Num(1), Num(2), Num(3), Num(4)]);
    Digits();
    assert JsStrings(x.items) == ["1", "2", "3", "4"];
    JoinThree("2", "3", "4", ' ');
    assert ["1", "2", "3", "4"][1..] == ["2", "3", "4"];
    assert Join(["1", "2", "3", "4"], ' ') == "1 2 3 4";
    SingleEntry("margin", x, Str("1 2 3 4"), Plain);
  }

  lemma UnregisteredJoinedWithCommas()
    ensures var style := Obj([("transitionProperty", Arr([Str("a"), Str("b")]))]);
            && StyleDefined(style, Plain)
            && DetectStyle(style, Plain) == Obj([("transitionProperty", Str("a,b"))])
  {
    var x := Arr([Str("a"), Str("b")]);
    assert JsStrings(x.items) == ["a", "b"];
    assert ["a", "b"][1..] == ["b"];
    SingleEntry("transitionProperty", x, Str("a,b"), Plain);
  }

  lemma MarginPair()
    ensures var m := Arr([Num(1), Num(2)]);
            && StyleDefined(Obj([("margin", m)]), Plain)
            && DetectStyle(Obj([("margin", m)]), Plain) == Obj([("margin", Str("1 2"))])
  {
    Digits();
    var m := Arr([Num(1), Num(2)]);
    assert JsStrings(m.items) == ["1", "2"];
    assert ["1", "2"][1..] == ["2"];
    SingleEntry("margin", m, Str("1 2"), Plain);
  }

  lemma SolidBorder()
    ensures var c := Obj([("style", Str("solid"))]);
            && StyleDefined(Obj([("border", c)]), Plain)
            && DetectStyle(Obj([("border", c)]), Plain) == Obj([("border", Str("solid"))])
  {
    var c := Obj([("style", Str("solid"))]);
    var subs := Plain.propObj["border"];
    assert subs[0] == ("width", None) && subs[1] == ("style", None) && subs[2] == ("color", None);
    Missing(c, "width", None, Plain);
    Supplied(c, "style", None, Plain, Str("solid"));
    Missing(c, "color", None, Plain);
    ThreePieces(c, subs, Plain);
    assert Pieces(c, subs, Plain) == ["solid"];
    assert ObjectToString(c, "border", Plain) == "solid";
    SingleEntry("border", c, Str("solid"), Plain);
  }

  /** Each fallback style is walked on its own, in order, and `fallbacks`
      stays an array of two style objects. */
  lemma FallbacksExpandedInOrder()
    ensures var a := Obj([("margin", Arr([Num(1), Num(2)]))]);
            var b := Obj([("border", Obj([("style", Str("solid"))]))]);
            var style := Obj([("fallbacks", Arr([a, b]))]);
            && StyleDefined(style, Plain)
            && DetectStyle(style, Plain) ==
                 Obj([("fallbacks", Arr([Obj([("margin", Str("1 2"))]), Obj([("border", Str("solid"))])]))])
  {
    MarginPair();
    SolidBorder();
    var a := Obj([("margin", Arr([Num(1), Num(2)]))]);
    var b := Obj([("border", Obj([("style", Str("solid"))]))]);
    var f := Arr([a, b]);
    var da, db := Obj([("margin", Str("1 2"))]), Obj([("border", Str("solid"))]);
    var r := DetectEntry(Fallbacks, f, Plain);
    assert r.items[0] == da && r.items[1] == db;
    assert r.items == [da, db];
    SingleEntry(Fallbacks, f, Arr([da, db]), Plain);
  }

  lemma KeyframeRuleUntouched()
    ensures var rule := Rule("keyframe", Some(Obj([("margin", Arr([Num(1), Num(2)]))])));
            && RuleDefined(rule, Plain)
            && ProcessRule(rule, Plain) == rule
  {
  }
}
