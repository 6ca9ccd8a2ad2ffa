# jss-expand, modelled in Dafny

jss-expand is a plugin for a JSS rule pipeline. It lets a style author write
compound values as objects (`border: {width: 1, style: 'solid', color: 'red'}`)
and list values as arrays (`margin: [1, 2, 3, 4]`), and rewrites each regular
rule's style so that every such value becomes the flat string a stylesheet
expects (`border: '1 solid red'`, `margin: '1 2 3 4'`). The rewriting is driven
by three configuration tables: the sub-properties of each compound property
with their defaults, and two sets of property names whose arrays are
space-joined (one for top-level values, one for arrays found inside a compound
value).

The model is a set of pure functions over an immutable value type:

- `JsValues` — the `Value` union (string, number, object with ordered keys,
  array), JavaScript truthiness, decimal rendering of numbers, and the
  `join`/`split` conversions, with their round-trip lemmas.
- `Props` — the three configuration tables as one `Schema` parameter.
- `Expand` — `arrayToString`, `mapValuesByProp` and `objectToString` as
  mutually recursive functions, plus the predicates that describe the inputs on
  which the source never reads element zero of an empty array.
- `ExpandLemmas` — separator policy, first-group-only expansion, schema order,
  defaults, and independence from input key order.
- `Detector` / `DetectorLemmas` — `styleDetector`, which walks one style and
  returns the rewritten style instead of assigning into it; key preservation,
  identity on primitive styles, the exact fixed points, and the output shape.
- `Plugin` — the rule callback: the `regular` guard and the array-of-styles
  dispatch.
- `Scenarios` — concrete inputs with their exact outputs.

Behaviour of `src/index.js` that is easy to misread:

- An unregistered array property is joined with a bare `,` and no following
  space (`"a,b"`).
- The guard `!style` skips a rule whose style is an empty string or zero as
  well as a rule with no style.
- An `arrayToString` list result that lands inside `objectToString`'s
  `join(' ')` is turned into a comma-joined string, as `Array.prototype.join`
  does with a nested array (`Render`).

## Model

| member | source | states |
|---|---|---|
| `Expand.ArrayToString` | src/index.js:22-28 | an array whose first element is an object gives a list with one `objectToString` per element, in order; otherwise an unregistered property gives the comma join of all elements, and a registered one whose first element is not an array gives their space join |
| `Expand.MapValuesByProp` | src/index.js:10-12 | one result per element, same length and order, each the element's `objectToString` under the same property |
| `Expand.ObjectToString` | src/index.js:38-39 | a property missing from the compound schema yields the empty string whatever the value |
| `Expand.Pieces` | src/index.js:41-56 | the pushed list has at most one entry per declared sub-property |
| `Expand.Contribution` | src/index.js:44-55 | a declared sub-property pushes at most one string |
| `Expand.Lookup` | src/index.js:44 | `value[k]` is present exactly when the value is an object with an entry keyed `k`, and is the value of the first such entry |
| `Expand.KeyIndex` | src/index.js:44 | the position found is the first entry with the key, or the end when no entry has it |
| `ExpandLemmas.FirstGroup` | src/index.js:25-27 | following first elements under a registered property ends at a group whose first element is an object or not an array |
| `ExpandLemmas.ArrayToStringClosedForm` | src/index.js:22-28 | the whole result in closed form: a list over the innermost first group when it starts with an object, else the comma join of the original array when unregistered, else the space join of the innermost first group |
| `ExpandLemmas.LaterGroupsIgnored` | src/index.js:25-27 | for a registered property whose first element is an array, the result is that first group's result and every later element is ignored |
| `ExpandLemmas.JoinedSplitsBack` | src/index.js:24-28 | a directly joined array splits back on its separator (comma when unregistered, space when registered) into exactly its elements' strings, when no element contains the separator |
| `ExpandLemmas.NumbersSplitBack` | src/index.js:24-28 | an array of numbers always splits back into its numbers' renderings, whichever separator applies |
| `ExpandLemmas.SubValueOrDefault` | src/index.js:44-55 | a truthy array sub-value is expanded with the nested-array set under the sub-property's own name; another truthy value is emitted as its string; an absent or falsy one yields the non-null default or nothing |
| `ExpandLemmas.PiecesAppend` | src/index.js:43-56 | the tokens of sub-properties declared earlier come before those declared later |
| `ExpandLemmas.PiecesCount` | src/index.js:43-56 | the number of tokens is the number of declared sub-properties that are supplied truthy or have a non-null default |
| `ExpandLemmas.AllDeclaredContribute` | src/index.js:43-56 | when every declared sub-property is supplied truthy or has a default, there is exactly one token per declaration |
| `ExpandLemmas.InputOrderIrrelevant` | src/index.js:38-58 | two values that agree on the declared sub-properties expand to the same string, whatever their key order and other keys |
| `ExpandLemmas.ObjectSplitsBack` | src/index.js:38-58 | the expansion of a registered compound value is its pushed tokens joined with single spaces: splitting it on a space gives back exactly those tokens, in order, when there is at least one and none contains a space |
| `ExpandLemmas.UndeclaredKeyIgnored` | src/index.js:43-56 | adding a key the schema does not declare leaves the expansion unchanged |
| `ExpandLemmas.SameKeyIndex` | src/index.js:44 | appending an entry keyed `k` leaves every other key's position unchanged |
| `JsValues.Truthy` | src/index.js:44 | a value is falsy exactly when it is the empty string or the number zero; every object and array, even an empty one, is truthy |
| `JsValues.Join` | src/index.js:58 | a join of at least one string is as long as the strings plus one separator between each neighbouring pair, and starts with the first string |
| `JsValues.JsString` | src/index.js:24-28 | the string `join` makes of an element: a string is itself, a number reads back as that number and holds no comma, an object is `[object Object]`, and a nested array is the comma join of its elements, splitting back into their strings when none holds a comma |
| `JsValues.JsStrings` | src/index.js:24-28 | one converted string per element, in order |
| `Expand.Render` | src/index.js:46-58 | a joined `arrayToString` result is pushed as that string; a list result becomes its comma join, which splits back into the list when no entry holds a comma |
| `JsValues.SplitJoin` | src/index.js:24 | joining strings free of the separator and splitting on it gives the strings back |
| `JsValues.IntToString` | src/index.js:28 | a rendered number holds only digits and a leading minus sign, never a comma or a space |
| `JsValues.ParseIntToString` | src/index.js:28 | the decimal rendering of a number reads back as the same number |
| `JsValues.NatToString` | src/index.js:28 | the rendering of a natural number is non-empty, all digits, with no leading zero |
| `JsValues.ParseNatToString` | src/index.js:28 | the digits of a natural number read back as that number |
| `Detector.IndexKey` | src/index.js:68 | the key `for...in` yields for an array position is a non-empty string of digits, so it is never `fallbacks` |
| `Detector.Store` | src/index.js:86 | what is stored back is a string or an array of strings |
| `Detector.DetectEntry` | src/index.js:69-87 | primitives and arrays whose first element is an array are kept; outside `fallbacks` an object becomes its `objectToString` string and a flat array its stored `arrayToString` result, a string or array of strings; a `fallbacks` object is replaced by its own recursive walk, an object with the same keys; a `fallbacks` array keeps its length with each element walked in order |
| `Detector.DetectStyle` | src/index.js:67-90 | a style object keeps the same keys in the same order, each value rewritten by the entry rule; an array is walked by index; a primitive is returned as it was |
| `DetectorLemmas.IdentityOnPrimitiveStyle` | src/index.js:67-90 | a style whose values are all primitive comes back unchanged |
| `DetectorLemmas.FixedPointIff` | src/index.js:67-90 | without a `fallbacks` key, a style comes back unchanged exactly when each value is a primitive or an array whose first element is an array |
| `DetectorLemmas.EntryMoves` | src/index.js:71-87 | outside `fallbacks`, an object or a flat array is never left as it was |
| `DetectorLemmas.OutputShape` | src/index.js:68-89 | after the walk, every compound value and flat array outside `fallbacks` holds a string or an array of strings, and every primitive or nested-first array is untouched |
| `Plugin.ProcessRule` | src/index.js:99-112 | the type is kept; a rule without a truthy style or not of type `regular` is returned as it was; an array style has each element walked in order with its length kept; a single style is walked and assigned back |
| `Plugin.OnlyRegularRules` | src/index.js:101 | a rule whose type is not `regular` is returned unchanged whatever its style |
| `Plugin.PrimitiveRuleUnchanged` | src/index.js:99-112 | a regular rule whose style holds only primitives comes back unchanged |
| `Scenarios.BorderInDeclaredOrder` | src/index.js:38-58 | `{border: {width: 1, style: 'solid', color: 'red'}}` becomes `{border: '1 solid red'}` |
| `Scenarios.BorderReordered` | src/index.js:43-58 | the same border written as color, width, style still becomes `'1 solid red'` |
| `Scenarios.BorderDefaultAndSkip` | src/index.js:44-55 | a zero width takes the default `'0'` when declared (`'0 red'`) and is dropped when the default is null (`'red'`) |
| `Scenarios.MarginJoinedWithSpaces` | src/index.js:28 | `{margin: [1, 2, 3, 4]}` with `margin` registered becomes `{margin: '1 2 3 4'}` |
| `Scenarios.UnregisteredJoinedWithCommas` | src/index.js:24 | `{transitionProperty: ['a', 'b']}` with the property unregistered becomes `'a,b'` |
| `Scenarios.FallbacksExpandedInOrder` | src/index.js:79-83 | `fallbacks: [styleA, styleB]` stays an array of the two styles, each expanded on its own |
| `Scenarios.KeyframeRuleUntouched` | src/index.js:101 | a `keyframe` rule is returned unchanged |

## Left out

- The contents of `./props` (`propObj`, `propArray`, `propArrayInObj`): the three tables are a `Schema` parameter. `propArray` and `propArrayInObj` are sets of names, since the code only compares their entries with null.
- In-place mutation and aliasing of the caller's objects: `styleDetector` and the rule callback return the rewritten value instead of assigning into it. A style object reachable twice is therefore not modelled as being rewritten twice.
- The factory `jssExpand()` and the host pipeline that calls the callback: the model is the callback alone, reduced to the two rule fields it reads.
- Reading element zero of an empty array, which throws in the source: the predicates `ArrayDefined`, `ObjectDefined`, `EntryDefined`, `StyleDefined` and `RuleDefined` describe exactly the inputs on which that read never happens, and the operations require them.
- `null`, `undefined` and boolean values: `Value` has no such variants, so the crash on `.constructor` of `null` or `undefined` cannot arise.
- Property reads on values that are not plain objects (a string's `length` or index keys, prototype methods) and inherited properties of `Object.prototype`: `Lookup` finds only the own keys of an object.
- The enumeration order of `for...in`, which puts integer-like keys first: sub-properties and style keys are walked in the order the sequences hold them.
- Floating-point numbers: numbers are integers; `NaN`, `-0` and fractions do not arise.
- JsValues.IntToString: renders every integer in plain decimal. JavaScript writes integer-valued numbers of magnitude 10^21 or more in exponent form (`1e+21`), and integers beyond 2^53 are not exact JavaScript numbers at all; `Num` is unbounded, so neither limit is modelled.
- Repeated keys in one object: `Obj` can hold two entries with the same key, which a JavaScript object cannot. Style objects are assumed to have distinct keys; with a repeated key, `Lookup` reads the first entry while `DetectStyle` rewrites every entry.
- Objects with their own `toString`: every object renders as `[object Object]` when joined.
