/**
 * `auto_categorise` and `get_routing_team`: the first category, in mapping
 * order, with a keyword found in the lowercased title and description wins;
 * a category maps to its team, with a fixed fallback team.
 */
module Categoriser {
  import opened Wrappers
  import opened Text
  import opened Tickets

  /** The team for a category the routing table does not list. */
  const FallbackTeam: string := "Operations Team"

  /** `f"{ticket.get(f, '')}"`: absent is empty, null is spelled "None". */
  function FieldText(t: Ticket, f: Field): string
  {
    if f !in t then ""
    else match t[f]
      case None => "None"
      case Some(s) => s
  }

  /** The lowercased `title + " " + description` that keywords are searched in. */
  function SearchText(t: Ticket): (text: string)
    ensures |text| == |FieldText(t, "title")| + 1 + |FieldText(t, "description")|
    ensures text[|FieldText(t, "title")|] == ' '
    ensures forall i :: 0 <= i < |text| ==> !IsUpper(text[i])
  {
    Lower(FieldText(t, "title") + " " + FieldText(t, "description"))
  }

  /** Some keyword of the list occurs in the text. */
  predicate AnyKeyword(keywords: seq<string>, text: string)
  {
    exists i | 0 <= i < |keywords| :: Contains(text, keywords[i])
  }

  /** Category `i` is the earliest whose keywords occur in `text`. */
  predicate IsFirstMatch(table: KeywordTable, text: string, i: nat)
  {
    i < |table| && AnyKeyword(table[i].1, text) &&
    forall j :: 0 <= j < i ==> !AnyKeyword(table[j].1, text)
  }

  /** The position of the first category of `table` with a keyword in `text`. */
  function FirstMatch(table: KeywordTable, text: string): (r: Option<nat>)
    ensures r.Some? ==> IsFirstMatch(table, text, r.value)
    ensures r.None? ==> forall j :: 0 <= j < |table| ==> !AnyKeyword(table[j].1, text)
  {
    if table == [] then None
    else if AnyKeyword(table[0].1, text) then Some(0)
    else match FirstMatch(table[1..], text)
      case None => None
      case Some(i) => Some(i + 1)
  }

  /** The category `auto_categorise` assigns. */
  function Categorise(t: Ticket, table: KeywordTable, default: string): (c: string)
    ensures (forall j :: 0 <= j < |table| ==> !AnyKeyword(table[j].1, SearchText(t))) ==> c == default
    ensures forall i: nat :: IsFirstMatch(table, SearchText(t), i) ==> c == table[i].0
  {
    match FirstMatch(table, SearchText(t))
    case None => default
    case Some(i) => table[i].0
  }

  /** `auto_categorise(ticket, category_keywords, default_category)`. */
  method AutoCategorise(t: Ticket, table: KeywordTable, default: string) returns (category: string)
    ensures category == Categorise(t, table, default)
  {
    var text := SearchText(t);
    for i := 0 to |table|
      invariant forall j :: 0 <= j < i ==> !AnyKeyword(table[j].1, text)
    {
      var keywords := table[i].1;
      for k := 0 to |keywords|
        invariant forall l :: 0 <= l < k ==> !Contains(text, keywords[l])
      {
        if Contains(text, keywords[k]) {
          return table[i].0;
        }
      }
    }
    return default;
  }

  /** `get_routing_team(category, category_routing)`: the listed team, else the fallback; never fails. */
  function GetRoutingTeam(category: string, routing: map<string, string>): (team: string)
    ensures category in routing ==> team == routing[category]
    ensures category !in routing ==> team == FallbackTeam
  {
    if category in routing then routing[category] else FallbackTeam
  }
}
