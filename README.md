# Ticket enrichment pipeline, modelled in Dafny

This project models the core of a support-ticket automation tool. The tool
reads a batch of tickets and enriches each one. It checks the required fields,
auto-categorises the ticket from keywords in its title and description when no
category is given, routes the category to a team, and classifies its SLA status
from its age and priority. It then aggregates the batch into a summary: valid
and invalid counts, SLA buckets, and per-category and per-team counts kept in
first-occurrence order.

Modules, one per component of `Automation/src/processor.py`:

- `Tickets`: a ticket is a map from field name to `Option<string>` (`None` is
  JSON null). "Falsy" means absent, null or `""`. `Config` holds the five
  configuration tables.
- `Validation`: `validate_ticket`. The method `ValidateTicket` runs the loop
  and is proved against the filter `MissingFields`.
- `Dates`: `validate_date_format` and `calculate_days_open`. Covers parsing and
  formatting of `YYYY-MM-DD`, the Gregorian calendar and day ordinals.
- `Text`: ASCII `str.lower()` and the substring test `in`.
- `Categoriser`: `auto_categorise` and `get_routing_team`. The method
  `AutoCategorise` has the nested loops and the early return. It is proved
  against the function `Categorise`.
- `Priority`: `check_priority_status`.
- `Tally`: insertion-ordered count dictionaries (`by_category`, `by_team`).
- `Processor`: `process_ticket` and `process_all_tickets`. Each method is proved
  against a specification function (`Enrich`, `EnrichAll`, `Aggregate`).
- `Settings`: the shipped configuration from `Automation/config/settings.py`,
  with concrete example lemmas.

The current time is a parameter. `today` is the ordinal of the current local
date (0001-01-01 is day 1, as with Python's `date.toordinal`). The created date
is parsed at midnight and the current time of day lies within one day, so
`(now - created).days` is exactly `today - ordinal(created)`.

A few behaviours of the code are easy to miss. The model follows the code:

- A created date in the future gives a negative `days_open`, which is
  classified `unknown` like an unparseable date. A date exactly one day ahead
  even gives the error value -1 (`UnknownIffUndatedOrFuture`).
- Only the text is lowercased, not the keywords. A keyword with a capital
  letter never matches (`UppercaseKeywordNeverMatches`). The shipped keywords
  are all lowercase.
- A null `title` or `description` is searched as the text `"None"`, which is
  what the f-string produces.
- A null `priority` is looked up as itself. It is never a key, so the threshold
  falls back to 3 and not to the `"medium"` entry.
- "Every enriched category is non-empty" holds only when the default category
  and every configured category name are non-empty (`CategoryNonEmpty`).
- Validation looks at the input ticket, before auto-categorisation. With
  `category` required, as shipped, every auto-categorised ticket is invalid and
  needs attention (`AutoCategorisedNeedsAttention`).
- An input field named like an enrichment key (`validation`, `pri`, ...) is
  overwritten by the processor. The model's `fields` therefore drop those keys.

## Model

| member | source | states |
|---|---|---|
| `Tickets.IsFalsy` | Automation/src/processor.py:10 | `field not in ticket or not ticket[field]`: a field that is not falsy is present and holds a non-empty string |
| `Validation.ValidateTicket` | Automation/src/processor.py:6-16 | the missing list is exactly `MissingFields` of the required list, and `is_valid` holds iff no required field is falsy |
| `Validation.MissingFieldsMembership` | Automation/src/processor.py:9-11 | a field is reported iff it is required and absent, null or empty |
| `Validation.MissingFieldsAppend` | Automation/src/processor.py:9-11 | the report keeps required-field order: the report for `a + b` is the report for `a` followed by that for `b` |
| `Validation.MissingFieldsLength` | Automation/src/processor.py:9-11 | never more fields than required, and all of them exactly when every required field is falsy |
| `Dates.ParseDate` | Automation/src/processor.py:23 | `strptime` with `%Y-%m-%d`: a parsed date is a valid calendar date in years 1-9999, read from a 10-character string with dashes at positions 4 and 7 |
| `Dates.ValidateDateFormat` | Automation/src/processor.py:21-26 | null (TypeError) and the empty string are rejected; an accepted value has the `YYYY-MM-DD` shape |
| `Dates.ParseFormat` | Automation/src/processor.py:21-26 | every valid calendar date, written `YYYY-MM-DD`, is accepted and parses back to itself |
| `Dates.FormatParse` | Automation/src/processor.py:21-26 | an accepted string is the canonical spelling of the date it parses to |
| `Dates.ValidateDateFormatIff` | Automation/src/processor.py:21-26 | a value is accepted iff it is the spelling of a real date in years 1-9999; null and malformed input (month 13, day 32, Feb 29 of a common year) are rejected |
| `Dates.NumberOfPadded` | Automation/src/processor.py:23 | a zero-padded decimal field reads back as its number |
| `Dates.PaddedOfNumber` | Automation/src/processor.py:23 | a digit string is the zero-padded spelling of its value |
| `Dates.NextDayOrdinal` | Automation/src/processor.py:59-63 | the day ordinal counts days: the calendar successor of a date has the next ordinal, across month and year ends and leap years |
| `Dates.YearLength` | Automation/src/processor.py:59-63 | consecutive year starts are 366 days apart in a leap year and 365 otherwise |
| `Dates.CalculateDaysOpen` | Automation/src/processor.py:55-63 | -1 whenever the date is rejected, otherwise today's ordinal minus the created date's |
| `Text.Lower` | Automation/src/processor.py:35 | lowercasing keeps the length and leaves no ASCII capital |
| `Text.EmptyNeedleAlwaysFound` | Automation/src/processor.py:40 | an empty keyword matches every text |
| `Text.MissingCharNeverFound` | Automation/src/processor.py:40 | a keyword with a character the text lacks never matches |
| `Text.UppercaseKeywordNeverMatches` | Automation/src/processor.py:35-40 | a keyword holding an ASCII capital never matches the lowercased text |
| `Categoriser.SearchText` | Automation/src/processor.py:35 | the text is the title, one space and the description, lowercased: same length, a space right after the title, no ASCII capital |
| `Categoriser.FirstMatch` | Automation/src/processor.py:38-41 | the index found is the earliest category with a matching keyword, and none is found only when no category matches |
| `Categoriser.Categorise` | Automation/src/processor.py:33-43 | the earliest category with a keyword in the lowercased `title + " " + description` wins; the default category only when none matches |
| `Categoriser.AutoCategorise` | Automation/src/processor.py:33-43 | the nested search with early return yields exactly `Categorise` |
| `Categoriser.GetRoutingTeam` | Automation/src/processor.py:48-49 | the listed team when the category is a key, otherwise "Operations Team"; total |
| `Priority.Classify` | Automation/src/processor.py:73-81 | exactly one status: unknown iff days < 0, overdue iff 0 <= days and days > threshold, at_risk iff 0 <= days == threshold, within_time iff 0 <= days < threshold |
| `Priority.CreatedDate` | Automation/src/processor.py:69 | `ticket.get("created_date", "")`: the stored value when present; when absent, a value the date check rejects |
| `Priority.Threshold` | Automation/src/processor.py:70-71 | an absent priority reads as "medium": its entry if listed, else 3; a listed priority gives its entry; a null or unlisted priority gives 3 |
| `Priority.CheckPriorityStatus` | Automation/src/processor.py:68-86 | threshold as above; a rejected date gives -1 and unknown; otherwise days open is measured from the parsed date and classified |
| `Priority.PriorityOfDated` | Automation/src/processor.py:68-81 | for a ticket created on date `d`, days open is today's ordinal minus `d`'s and the status is its classification |
| `Priority.SlaBoundary` | Automation/src/processor.py:76-81 | for any threshold >= 0: created exactly `threshold` days ago is at_risk, one day earlier overdue, and (for threshold >= 1) one day later within_time |
| `Priority.UnknownIffUndatedOrFuture` | Automation/src/processor.py:69-75 | unknown iff the created date is rejected or lies after today |
| `Priority.OneDayEarlierOneDayLonger` | Automation/src/processor.py:55-63 | a ticket created a day earlier has been open one day longer |
| `Processor.Enrich` | Automation/src/processor.py:91-123 | validation of the input; category overwritten and auto_categorised set iff the input category is falsy; routing of the resolved category; SLA status of the input; needs_attention iff invalid or overdue or at_risk |
| `Processor.ProcessTicket` | Automation/src/processor.py:91-123 | the step-by-step construction yields exactly `Enrich` |
| `Processor.EnrichKeepsFields` | Automation/src/processor.py:92-106 | every input field other than `category` and the enrichment keys is kept unchanged; `category` holds the resolved category |
| `Processor.ReprocessIsStable` | Automation/src/processor.py:91-115 | reprocessing an enriched ticket's fields keeps its category, routing team and SLA status, for every ticket; it is not auto-categorised again unless the category came out empty (then the falsy category is resolved afresh, to the same value) |
| `Processor.AutoCategorisedNeedsAttention` | Automation/src/processor.py:95-121 | when `category` is required, an auto-categorised ticket is invalid and needs attention |
| `Processor.CategoryNonEmpty` | Automation/src/processor.py:97-103 | the resolved category is non-empty when the configured category names are |
| `Processor.EnrichAll` | Automation/src/processor.py:141-143 | the processed list has the input's length and order, each element the enrichment of the ticket at that position |
| `Processor.CountTicket` | Automation/src/processor.py:145-162 | one ticket counted: total unchanged, valid + invalid up by one, the SLA buckets up by one unless the status is unknown, each count dictionary's sum up by one |
| `Processor.Aggregate` | Automation/src/processor.py:129-162 | the summary after counting a prefix of the batch: total as set up front, valid + invalid equal to the tickets counted |
| `Processor.Summarise` | Automation/src/processor.py:128-167 | the summary of a whole batch: total is the batch size and valid + invalid = total |
| `Processor.CountResult` | Automation/src/processor.py:145-162 | the loop body's updates are exactly one `CountTicket` step |
| `Processor.AggregateSnoc` | Automation/src/processor.py:141-162 | counting one more ticket is one `CountTicket` step on the summary so far |
| `Processor.AggregateValidity` | Automation/src/processor.py:146-149 | `valid` and `invalid` count the tickets whose validation passed and failed; `total` is as set up front |
| `Processor.AggregateStatuses` | Automation/src/processor.py:152-154 | each SLA bucket counts the tickets with that status |
| `Processor.AggregateTallies` | Automation/src/processor.py:156-162 | `by_category` and `by_team` are the count dictionaries of the categories and teams in ticket order |
| `Processor.SummaryTotals` | Automation/src/processor.py:128-162 | valid + invalid = total; the three buckets plus the unknown tickets = total, so the buckets are at most total; each count dictionary sums to total |
| `Processor.SummaryTallies` | Automation/src/processor.py:156-162 | one entry per distinct category (team), in order of first occurrence, counting its tickets |
| `Processor.ProcessAllTickets` | Automation/src/processor.py:128-167 | processed tickets in input order, and a summary equal to `Summarise` of them with the invariants above |
| `Tally.FirstIndex` | Automation/src/processor.py:158 | the first position of a key in the list of keys seen |
| `Tally.Bump` | Automation/src/processor.py:158 | `d[k] = d.get(k, 0) + 1` adds at most one entry |
| `Tally.BumpKeys` | Automation/src/processor.py:158 | `d[k] = d.get(k, 0) + 1` keeps the key order and appends a new key at the end |
| `Tally.BumpGet` | Automation/src/processor.py:158 | the bump adds one to the count of `k` and changes no other count |
| `Tally.BumpSum` | Automation/src/processor.py:158 | the bump adds one to the sum of the counts |
| `Tally.FirstIndexSnoc` | Automation/src/processor.py:158 | appending a key keeps the first positions of the keys already seen |
| `Tally.TallyOfSnoc` | Automation/src/processor.py:158 | counting one more element is one bump |
| `Tally.TallyOfSum` | Automation/src/processor.py:156-162 | the counts sum to the number of elements counted |
| `Tally.TallyOfCounts` | Automation/src/processor.py:156-162 | each key's count is its number of occurrences |
| `Tally.TallyOfKeys` | Automation/src/processor.py:156-162 | the keys are distinct and are exactly the elements seen |
| `Tally.TallyOfOrder` | Automation/src/processor.py:156-162 | the keys appear in order of first occurrence |
| `Settings.HowToSearchText` | Automation/src/processor.py:35 | the search text of a ticket titled "How do I reset" with an empty description is "how do i reset " |
| `Settings.HowToMissesDataAmendment` | Automation/config/settings.py:30 | no data_amendment keyword occurs in that text |
| `Settings.HowToMissesSystemAccess` | Automation/config/settings.py:31 | no system_access keyword occurs in that text |
| `Settings.HowToFirstMatch` | Automation/config/settings.py:29-36 | how_to_question is the first matching category for that text |
| `Settings.HowToRouting` | Automation/config/settings.py:18-26 | how_to_question routes to the Operations Team |
| `Settings.HowToQuestionExample` | Automation/config/settings.py:29-36 | with the shipped settings that ticket is auto-categorised how_to_question and routed to the Operations Team |
| `Settings.InvalidMonthExample` | Automation/src/processor.py:68-81 | created date "2024-13-01" with no priority gives days_open -1, threshold 3, status unknown |
| `Settings.ShippedAutoCategorisedNeedsAttention` | Automation/config/settings.py:9-15 | with the shipped settings every auto-categorised ticket needs attention |
| `Settings.ShippedCategoryNonEmpty` | Automation/config/settings.py:29-39 | with the shipped settings every enriched ticket has a non-empty category |

## Left out

- `Automation/main.py`: loading the JSON input, saving the results, creating
  the output folder and printing to the console. These are file I/O and
  formatting.
- Reading the wall clock (`datetime.now()`). It is replaced by the `today`
  parameter, the ordinal of the current local date.
- `Processor.ProcessAllTickets`: one `today` serves the whole batch. The source
  reads the clock once per ticket (`calculate_days_open`, reached for each
  ticket of the loop). A batch run across local midnight can therefore see two
  dates, and later tickets get a `days_open` one larger. The model cannot
  produce that.
- `Dates.ValidateDateFormatIff`: `strptime` also accepts one-digit months and
  days and a space-padded day (`2024-1-5`). The model accepts only the
  zero-padded `YYYY-MM-DD` form. Every string the model accepts is also
  accepted by the source, but not the other way round.
- `Dates.ParseDate`: the same restriction. One-digit and space-padded month and
  day fields, which `strptime` accepts, are rejected. So are non-ASCII decimal
  digits, which `strptime`'s Unicode `\d` accepts (`"٢٠٢٤-01-01"` parses as
  2024-01-01).
- `Dates.ValidateDateFormat`: because of the stricter parse, it rejects the
  one-digit, space-padded and non-ASCII-digit spellings that
  `validate_date_format` accepts. Such a created date gives -1 and `unknown` in
  the model.
- `Text.Lower`: models `str.lower()` on ASCII letters only. Unicode case
  mapping is not modelled.
- Field values other than strings and null (JSON numbers, booleans, lists).
  The model therefore does not cover a numeric `0` counting as falsy.
- The summary update at the end of each iteration is inline in the source loop.
  In the model it is the method `CountResult`, called from the loop.
- The JSON shape of the output (`processed_tickets`, `summary`, key names). The
  model returns the enriched tickets and the summary as Dafny values.
