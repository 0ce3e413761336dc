/**
 * The configuration the application ships with (Automation/config/settings.py)
 * and what the pipeline does with it on a few concrete tickets.
 */
module Settings {
  import opened Wrappers
  import opened Text
  import opened Tickets
  import opened Dates
  import opened Categoriser
  import opened Priority
  import opened Processor

  const PriorityLevel: map<string, int> := map["high" := 1, "medium" := 3, "low" := 7]

  const RequiredFields: seq<Field> := ["ticket_id", "title", "requester", "created_date", "category"]

  const CategoryRouting: map<string, string> := map[
    "data_amendment" := "Development Team",
    "system_access" := "IT Team",
    "how_to_question" := "Operations Team",
    "new_starter" := "HR Team + IT Team",
    "technical_issue" := "IT Team",
    "lending_query" := "Product Team",
    "other" := "Operations Team"]

  const CategoryKeywords: KeywordTable := [
    ("data_amendment", ["update email", "change address", "amend record", "incorrect data"]),
    ("system_access", ["access request", "permission", "login issue", "password reset"]),
    ("how_to_question", ["how do i", "how to", "where can i find", "pricing matrix", "funding calculator"]),
    ("new_starter", ["new starter", "new joiner", "onboarding", "new employee"]),
    ("technical_issue", ["error", "bug", "not working", "system down", "crash"]),
    ("lending_query", ["lending criteria", "loan", "mortgage", "ltv", "interest rate"])]

  const DefaultCategory: string := "other"

  /** The configuration `main` builds from the settings. */
  const Shipped: Config := Config(PriorityLevel, RequiredFields, CategoryRouting, CategoryKeywords, DefaultCategory)

  const HowToTicket: Ticket := map["title" := Some("How do I reset"), "description" := Some("")]

  lemma HowToSearchText()
    ensures SearchText(HowToTicket) == "how do i reset "
  {
    var raw := FieldText(HowToTicket, "title") + " " + FieldText(HowToTicket, "description");
    assert raw == "How do I reset ";
    var lowered := Lower(raw);
    assert |lowered| == 15;
    forall k | 0 <= k < 15 ensures lowered[k] == "how do i reset "[k] {
      assert lowered[k] == LowerChar(raw[k]);
    }
  }

  /** No `data_amendment` keyword occurs in "how do i reset ": each has a letter the text lacks. */
  lemma HowToMissesDataAmendment()
    ensures !AnyKeyword(CategoryKeywords[0].1, "how do i reset ")
  {
    var text := "how do i reset ";
    assert CategoryKeywords[0].1 == ["update email", "change address", "amend record", "incorrect data"];
    MissingCharNeverFound(text, "update email", 0);
    MissingCharNeverFound(text, "change address", 0);
    MissingCharNeverFound(text, "amend record", 0);
    MissingCharNeverFound(text, "incorrect data", 1);
  }

  /** No `system_access` keyword occurs in "how do i reset ": each has a letter the text lacks. */
  lemma HowToMissesSystemAccess()
    ensures !AnyKeyword(CategoryKeywords[1].1, "how do i reset ")
  {
    var text := "how do i reset ";
    assert CategoryKeywords[1].1 == ["access request", "permission", "login issue", "password reset"];
    MissingCharNeverFound(text, "access request", 0);
    MissingCharNeverFound(text, "permission", 0);
    MissingCharNeverFound(text, "login issue", 0);
    MissingCharNeverFound(text, "password reset", 0);
  }

  /** "how do i" is the first keyword match, in the third category. */
  lemma HowToFirstMatch()
    ensures IsFirstMatch(CategoryKeywords, "how do i reset ", 2)
  {
    var text := "how do i reset ";
    HowToMissesDataAmendment();
    HowToMissesSystemAccess();
    assert CategoryKeywords[2].1[0] == "how do i";
    assert MatchesAt(text, "how do i", 0);
    assert Contains(text, CategoryKeywords[2].1[0]);
  }

  /** `how_to_question` is listed and routes to the Operations Team. */
  lemma HowToRouting()
    ensures GetRoutingTeam("how_to_question", Shipped.categoryRouting) == "Operations Team"
  {
    assert "how_to_question" in CategoryRouting;
  }

  /**
   * A ticket titled "How do I reset" with an empty description and no
   * category is auto-categorised as `how_to_question` and routed to the
   * Operations Team.
   */
  lemma HowToQuestionExample(today: int)
    ensures var r := Enrich(HowToTicket, Shipped, today);
      r.autoCategorised && r.category == "how_to_question" && r.routingTeam == "Operations Team"
  {
    HowToSearchText();
    HowToFirstMatch();
    assert CategoryKeywords[2].0 == "how_to_question";
    assert Categorise(HowToTicket, CategoryKeywords, DefaultCategory) == "how_to_question";
    assert "category" !in HowToTicket;
    HowToRouting();
  }

  /** Month 13 is rejected: days open is -1 and the status `unknown`, at the default threshold 3. */
  lemma InvalidMonthExample(today: int)
    ensures CheckPriorityStatus(map["created_date" := Some("2024-13-01")], PriorityLevel, today)
      == PriorityStatus(-1, 3, Unknown)
  {
    var s := "2024-13-01";
    assert s[5..7] == "13";
    assert Number("13") == 13 by {
      assert "13"[..1] == "1";
    }
  }

  /**
   * Under the shipped settings `category` is required, so a ticket that
   * arrives without one is always invalid and always needs attention.
   */
  lemma ShippedAutoCategorisedNeedsAttention(t: Ticket, today: int)
    ensures Enrich(t, Shipped, today).autoCategorised ==> Enrich(t, Shipped, today).needsAttention
  {
    assert "category" in Shipped.requiredFields by {
      assert Shipped.requiredFields[4] == "category";
    }
    AutoCategorisedNeedsAttention(t, Shipped, today);
  }

  /** Under the shipped settings every enriched ticket has a non-empty category. */
  lemma ShippedCategoryNonEmpty(t: Ticket, today: int)
    ensures Enrich(t, Shipped, today).category != ""
  {
    CategoryNonEmpty(t, Shipped, today);
  }
}
