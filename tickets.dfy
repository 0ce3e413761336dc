/**
 * Tickets and the configuration shared by every step of the pipeline.
 * A ticket is a JSON object whose values are strings or null; null is
 * `None`. Python's truthiness makes a field "missing" when it is absent,
 * null or the empty string.
 */
module Tickets {
  import opened Wrappers

  type Field = string
  type Ticket = map<Field, Option<string>>

  /** `field not in ticket or not ticket[field]`. */
  predicate IsFalsy(t: Ticket, f: Field)
    ensures !IsFalsy(t, f) ==> f in t && t[f].Some? && |t[f].value| > 0
  {
    f !in t || t[f] == None || t[f] == Some("")
  }

  /** Keyword table entry: a category and its keywords, in mapping order. */
  type KeywordTable = seq<(string, seq<string>)>

  /** The five configuration tables, read-only during processing. */
  datatype Config = Config(
    priThresholds: map<string, int>,
    requiredFields: seq<Field>,
    categoryRouting: map<string, string>,
    categoryKeywords: KeywordTable,
    defaultCategory: string)
}
