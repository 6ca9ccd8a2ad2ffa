/** The three lookup tables the expander consults. Their contents live in a
    configuration file outside this model; every operation takes them as a
    parameter. */
module Props {
  import opened JsValues

  /** `propObj` maps a compound property to its sub-properties, in the order
      they are declared, each with its default (`None` for a null default).
      `propArray` and `propArrayInObj` only record which property names have
      an entry: the expander compares the entry with null and never reads it. */
  datatype Schema = Schema(
    propObj: map<string, seq<(string, Option<string>)>>,
    propArray: set<string>,
    propArrayInObj: set<string>)

  /** The property whose value is a list of alternative style objects. */
  const Fallbacks: string := "fallbacks"
}
