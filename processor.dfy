/**
 * `process_ticket` and `process_all_tickets`: enrich each ticket, then fold
 * the enriched tickets into the batch summary.
 */
module Processor {
  import opened Wrappers
  import opened Tickets
  import opened Validation
  import opened Categoriser
  import opened Priority
  import opened Tally

  /**
   * The keys `process_ticket` assigns non-string values to. An input field
   * with one of these names is overwritten, so it does not survive in
   * `fields`.
   */
  const EnrichmentKeys: set<Field> := {"validation", "auto_categorised", "routing_team", "pri", "needs_attention"}

  /**
   * An enriched ticket. `fields` holds the string-valued keys of the result
   * dictionary (the copied input, with `category` resolved); the other
   * components are the keys the processor adds.
   */
  datatype Enriched = Enriched(
    fields: Ticket,
    validation: ValidationResult,
    category: string,
    autoCategorised: bool,
    routingTeam: string,
    pri: PriorityStatus,
    needsAttention: bool)

  /** The enriched ticket `process_ticket` builds, as one value. */
  function Enrich(t: Ticket, cfg: Config, today: int): (r: Enriched)
    ensures r.validation.missingFields == MissingFields(t, cfg.requiredFields)
    ensures r.validation.isValid <==> forall f :: f in cfg.requiredFields ==> !IsFalsy(t, f)
    ensures r.autoCategorised <==> IsFalsy(t, "category")
    ensures r.autoCategorised ==> r.category == Categorise(t, cfg.categoryKeywords, cfg.defaultCategory)
    ensures !r.autoCategorised ==> t["category"] == Some(r.category)
    ensures r.routingTeam == GetRoutingTeam(r.category, cfg.categoryRouting)
    ensures r.pri == CheckPriorityStatus(t, cfg.priThresholds, today)
    ensures r.needsAttention <==> !r.validation.isValid || r.pri.status in {Overdue, AtRisk}
  {
    var missing := MissingFields(t, cfg.requiredFields);
    var validation := ValidationResult(|missing| == 0, missing);
    var auto := IsFalsy(t, "category");
    var category := if auto then Categorise(t, cfg.categoryKeywords, cfg.defaultCategory)
                    else t["category"].value;
    var pri := CheckPriorityStatus(t, cfg.priThresholds, today);
    forall f ensures f in missing <==> f in cfg.requiredFields && IsFalsy(t, f) {
      MissingFieldsMembership(t, cfg.requiredFields, f);
    }
    assert |missing| != 0 ==> missing[0] in missing;
    Enriched(
      (t - EnrichmentKeys)["category" := Some(category)],
      validation,
      category,
      auto,
      GetRoutingTeam(category, cfg.categoryRouting),
      pri,
      !validation.isValid || pri.status in {Overdue, AtRisk})
  }

  /** `process_ticket(ticket, config)`: copy, then set the enrichment keys one step at a time. */
  method ProcessTicket(t: Ticket, cfg: Config, today: int) returns (r: Enriched)
    ensures r == Enrich(t, cfg, today)
  {
    // result = ticket.copy(); the enrichment keys are replaced below
    var fields := t - EnrichmentKeys;
    var validation := ValidateTicket(t, cfg.requiredFields);
    var category: string;
    var auto: bool;
    if IsFalsy(t, "category") {
      category := AutoCategorise(t, cfg.categoryKeywords, cfg.defaultCategory);
      fields := fields["category" := Some(category)];
      auto := true;
    } else {
      category := t["category"].value;
      auto := false;
    }
    var team := GetRoutingTeam(category, cfg.categoryRouting);
    var pri := CheckPriorityStatus(t, cfg.priThresholds, today);
    var attention := !validation.isValid || pri.status == Overdue || pri.status == AtRisk;
    r := Enriched(fields, validation, category, auto, team, pri, attention);
  }

  /**
   * The result is a copy of the input: every field other than `category` and
   * the enrichment keys keeps its value, and `category` holds the resolved
   * category.
   */
  lemma EnrichKeepsFields(t: Ticket, cfg: Config, today: int)
    ensures var r := Enrich(t, cfg, today);
      (forall k :: k != "category" && k !in EnrichmentKeys ==>
        (k in r.fields <==> k in t) && (k in t ==> r.fields[k] == t[k])) &&
      (forall k :: k in EnrichmentKeys ==> k !in r.fields) &&
      "category" in r.fields && r.fields["category"] == Some(r.category)
  {
  }

  /**
   * Processing the result's own fields again (the enrichment keys set aside)
   * keeps its category, routing team and SLA status. Unless the category
   * came out empty, it is not auto-categorised again.
   */
  lemma ReprocessIsStable(t: Ticket, cfg: Config, today: int)
    ensures var r := Enrich(t, cfg, today);
      var again := Enrich(r.fields, cfg, today);
      again.category == r.category && again.routingTeam == r.routingTeam && again.pri == r.pri &&
      (r.category != "" ==> !again.autoCategorised)
  {
    var r := Enrich(t, cfg, today);
    EnrichKeepsFields(t, cfg, today);
    assert FieldText(r.fields, "title") == FieldText(t, "title");
    assert FieldText(r.fields, "description") == FieldText(t, "description");
    assert SearchText(r.fields) == SearchText(t);
    assert CreatedDate(r.fields) == CreatedDate(t);
    assert Threshold(r.fields, cfg.priThresholds) == Threshold(t, cfg.priThresholds) by {
      assert ("priority" in r.fields) == ("priority" in t);
    }
  }

  /**
   * When `category` is a required field, every auto-categorised ticket is
   * reported invalid (validation looks at the input, before the category is
   * assigned) and so needs attention.
   */
  lemma AutoCategorisedNeedsAttention(t: Ticket, cfg: Config, today: int)
    requires "category" in cfg.requiredFields
    ensures Enrich(t, cfg, today).autoCategorised ==>
      !Enrich(t, cfg, today).validation.isValid && Enrich(t, cfg, today).needsAttention
  {
  }

  /** A resolved category is non-empty when no configured category name is empty. */
  lemma CategoryNonEmpty(t: Ticket, cfg: Config, today: int)
    requires cfg.defaultCategory != ""
    requires forall i :: 0 <= i < |cfg.categoryKeywords| ==> cfg.categoryKeywords[i].0 != ""
    ensures Enrich(t, cfg, today).category != ""
  {
    var text := SearchText(t);
    match FirstMatch(cfg.categoryKeywords, text)
    case None =>
    case Some(i) =>
      assert Categorise(t, cfg.categoryKeywords, cfg.defaultCategory) == cfg.categoryKeywords[i].0;
  }

  // ---- The batch summary ----

  /** The summary: counters and the insertion-ordered `by_category` and `by_team` counts. */
  datatype Summary = Summary(
    total: nat,
    valid: nat,
    invalid: nat,
    overdue: nat,
    atRisk: nat,
    withinTime: nat,
    byCategory: Tally<string>,
    byTeam: Tally<string>)

  function Validities(ps: seq<Enriched>): seq<bool>
  {
    seq(|ps|, i requires 0 <= i < |ps| => ps[i].validation.isValid)
  }

  function Statuses(ps: seq<Enriched>): seq<Status>
  {
    seq(|ps|, i requires 0 <= i < |ps| => ps[i].pri.status)
  }

  function Categories(ps: seq<Enriched>): seq<string>
  {
    seq(|ps|, i requires 0 <= i < |ps| => ps[i].category)
  }

  function Teams(ps: seq<Enriched>): seq<string>
  {
    seq(|ps|, i requires 0 <= i < |ps| => ps[i].routingTeam)
  }

  lemma {:induction false} BoolCount(s: seq<bool>)
    ensures multiset(s)[true] + multiset(s)[false] == |s|
  {
    if s != [] {
      BoolCount(s[1..]);
      assert s == [s[0]] + s[1..];
      var head := multiset{s[0]};
      assert multiset(s) == head + multiset(s[1..]);
      assert head[true] + head[false] == 1 by {
        if s[0] { assert head[false] == 0; } else { assert head[true] == 0; }
      }
    }
  }

  lemma {:induction false} StatusCount(s: seq<Status>)
    ensures multiset(s)[Unknown] + multiset(s)[Overdue] + multiset(s)[AtRisk] + multiset(s)[WithinTime] == |s|
  {
    if s != [] {
      StatusCount(s[1..]);
      assert s == [s[0]] + s[1..];
      var head := multiset{s[0]};
      assert multiset(s) == head + multiset(s[1..]);
      assert head[Unknown] + head[Overdue] + head[AtRisk] + head[WithinTime] == 1 by {
        match s[0]
        case Unknown => assert head[Overdue] == head[AtRisk] == head[WithinTime] == 0;
        case Overdue => assert head[Unknown] == head[AtRisk] == head[WithinTime] == 0;
        case AtRisk => assert head[Unknown] == head[Overdue] == head[WithinTime] == 0;
        case WithinTime => assert head[Unknown] == head[Overdue] == head[AtRisk] == 0;
      }
    }
  }

  /** The summary before the loop: `total` is set up front, every count is zero. */
  function EmptySummary(total: nat): Summary
  {
    Summary(total, 0, 0, 0, 0, 0, [], [])
  }

  /** One turn of the aggregation loop: count one enriched ticket. */
  function CountTicket(s: Summary, r: Enriched): (s': Summary)
    ensures s'.total == s.total
    ensures s'.valid + s'.invalid == s.valid + s.invalid + 1
    ensures s'.overdue + s'.atRisk + s'.withinTime ==
      s.overdue + s.atRisk + s.withinTime + (if r.pri.status == Unknown then 0 else 1)
    ensures Sum(s'.byCategory) == Sum(s.byCategory) + 1 && Sum(s'.byTeam) == Sum(s.byTeam) + 1
  {
    BumpSum(s.byCategory, r.category);
    BumpSum(s.byTeam, r.routingTeam);
    assert r.pri.status.Unknown? || r.pri.status.Overdue? || r.pri.status.AtRisk? || r.pri.status.WithinTime?;
    s.(valid := if r.validation.isValid then s.valid + 1 else s.valid,
       invalid := if r.validation.isValid then s.invalid else s.invalid + 1,
       overdue := if r.pri.status == Overdue then s.overdue + 1 else s.overdue,
       atRisk := if r.pri.status == AtRisk then s.atRisk + 1 else s.atRisk,
       withinTime := if r.pri.status == WithinTime then s.withinTime + 1 else s.withinTime,
       byCategory := Bump(s.byCategory, r.category),
       byTeam := Bump(s.byTeam, r.routingTeam))
  }

  /** The summary left after counting `ps` in order, `total` having been set to `total`. */
  function Aggregate(ps: seq<Enriched>, total: nat): (s: Summary)
    ensures s.total == total
    ensures s.valid + s.invalid == |ps|
  {
    if ps == [] then EmptySummary(total)
    else CountTicket(Aggregate(ps[..|ps| - 1], total), ps[|ps| - 1])
  }

  lemma AggregateSnoc(ps: seq<Enriched>, r: Enriched, total: nat)
    ensures Aggregate(ps + [r], total) == CountTicket(Aggregate(ps, total), r)
  {
    assert (ps + [r])[..|ps|] == ps;
  }

  /** The summary of a batch of enriched tickets. */
  function Summarise(ps: seq<Enriched>): (s: Summary)
    ensures s.total == |ps| && s.valid + s.invalid == s.total
  {
    Aggregate(ps, |ps|)
  }

  /** `valid` and `invalid` count the tickets whose validation passed and failed. */
  lemma {:induction false} AggregateValidity(ps: seq<Enriched>, total: nat)
    ensures Aggregate(ps, total).total == total
    ensures Aggregate(ps, total).valid == multiset(Validities(ps))[true]
    ensures Aggregate(ps, total).invalid == multiset(Validities(ps))[false]
  {
    if ps != [] {
      var init, r := ps[..|ps| - 1], ps[|ps| - 1];
      AggregateValidity(init, total);
      assert ps == init + [r];
      assert Validities(ps) == Validities(init) + [r.validation.isValid];
    }
  }

  /** Each SLA bucket counts the tickets with that status. */
  lemma {:induction false} AggregateStatuses(ps: seq<Enriched>, total: nat)
    ensures Aggregate(ps, total).overdue == multiset(Statuses(ps))[Overdue]
    ensures Aggregate(ps, total).atRisk == multiset(Statuses(ps))[AtRisk]
    ensures Aggregate(ps, total).withinTime == multiset(Statuses(ps))[WithinTime]
  {
    if ps != [] {
      var init, r := ps[..|ps| - 1], ps[|ps| - 1];
      AggregateStatuses(init, total);
      assert ps == init + [r];
      assert Statuses(ps) == Statuses(init) + [r.pri.status];
    }
  }

  /** The count maps are the tallies of the categories and teams, in ticket order. */
  lemma {:induction false} AggregateTallies(ps: seq<Enriched>, total: nat)
    ensures Aggregate(ps, total).byCategory == TallyOf(Categories(ps))
    ensures Aggregate(ps, total).byTeam == TallyOf(Teams(ps))
  {
    if ps != [] {
      var init, r := ps[..|ps| - 1], ps[|ps| - 1];
      AggregateTallies(init, total);
      assert ps == init + [r];
      assert Categories(ps) == Categories(init) + [r.category];
      assert Teams(ps) == Teams(init) + [r.routingTeam];
      TallyOfSnoc(Categories(init), r.category);
      TallyOfSnoc(Teams(init), r.routingTeam);
    }
  }

  /**
   * The summary's invariants: every ticket is either valid or invalid, lands
   * in at most one SLA bucket (none when `unknown`), and is counted once in
   * `by_category` and once in `by_team`.
   */
  lemma SummaryTotals(ps: seq<Enriched>)
    ensures var s := Summarise(ps);
      s.total == |ps| &&
      s.valid + s.invalid == s.total &&
      s.overdue + s.atRisk + s.withinTime + multiset(Statuses(ps))[Unknown] == s.total &&
      s.overdue + s.atRisk + s.withinTime <= s.total &&
      Sum(s.byCategory) == s.total && Sum(s.byTeam) == s.total
  {
    AggregateValidity(ps, |ps|);
    AggregateStatuses(ps, |ps|);
    AggregateTallies(ps, |ps|);
    BoolCount(Validities(ps));
    StatusCount(Statuses(ps));
    TallyOfSum(Categories(ps));
    TallyOfSum(Teams(ps));
  }

  /**
   * `by_category` and `by_team` have one entry per distinct category (team),
   * in order of first occurrence, counting its tickets.
   */
  lemma SummaryTallies(ps: seq<Enriched>)
    ensures var s := Summarise(ps);
      Distinct(Keys(s.byCategory)) && InFirstOccurrenceOrder(Keys(s.byCategory), Categories(ps)) &&
      (forall c :: c in Keys(s.byCategory) <==> c in Categories(ps)) &&
      (forall c :: Get(s.byCategory, c) == multiset(Categories(ps))[c])
    ensures var s := Summarise(ps);
      Distinct(Keys(s.byTeam)) && InFirstOccurrenceOrder(Keys(s.byTeam), Teams(ps)) &&
      (forall c :: c in Keys(s.byTeam) <==> c in Teams(ps)) &&
      (forall c :: Get(s.byTeam, c) == multiset(Teams(ps))[c])
  {
    AggregateTallies(ps, |ps|);
    TallyOfKeys(Categories(ps));
    TallyOfOrder(Categories(ps));
    forall c ensures Get(TallyOf(Categories(ps)), c) == multiset(Categories(ps))[c] {
      TallyOfCounts(Categories(ps), c);
    }
    TallyOfKeys(Teams(ps));
    TallyOfOrder(Teams(ps));
    forall c ensures Get(TallyOf(Teams(ps)), c) == multiset(Teams(ps))[c] {
      TallyOfCounts(Teams(ps), c);
    }
  }

  /** Every ticket enriched, in input order. */
  function EnrichAll(ts: seq<Ticket>, cfg: Config, today: int): (ps: seq<Enriched>)
    ensures |ps| == |ts|
    ensures forall i :: 0 <= i < |ts| ==> ps[i] == Enrich(ts[i], cfg, today)
  {
    if ts == [] then []
    else EnrichAll(ts[..|ts| - 1], cfg, today) + [Enrich(ts[|ts| - 1], cfg, today)]
  }

  /** The body of the aggregation loop: count one processed ticket into the summary. */
  method CountResult(summary: Summary, result: Enriched) returns (s: Summary)
    ensures s == CountTicket(summary, result)
  {
    s := summary;
    if result.validation.isValid {
      s := s.(valid := s.valid + 1);
    } else {
      s := s.(invalid := s.invalid + 1);
    }

    // only the three SLA statuses are summary keys; `unknown` is not counted
    match result.pri.status {
      case Overdue => s := s.(overdue := s.overdue + 1);
      case AtRisk => s := s.(atRisk := s.atRisk + 1);
      case WithinTime => s := s.(withinTime := s.withinTime + 1);
      case Unknown =>
    }

    s := s.(byCategory := Bump(s.byCategory, result.category));
    s := s.(byTeam := Bump(s.byTeam, result.routingTeam));
  }

  /** `process_all_tickets(tickets, config)`. */
  method ProcessAllTickets(tickets: seq<Ticket>, cfg: Config, today: int)
    returns (processed: seq<Enriched>, summary: Summary)
    ensures processed == EnrichAll(tickets, cfg, today)
    ensures summary == Summarise(processed)
    ensures summary.total == |tickets| && summary.valid + summary.invalid == summary.total
    ensures summary.overdue + summary.atRisk + summary.withinTime <= summary.total
    ensures Sum(summary.byCategory) == summary.total && Sum(summary.byTeam) == summary.total
  {
    processed := [];
    summary := EmptySummary(|tickets|);
    for i := 0 to |tickets|
      invariant processed == EnrichAll(tickets[..i], cfg, today)
      invariant summary == Aggregate(processed, |tickets|)
    {
      var result := ProcessTicket(tickets[i], cfg, today);
      assert tickets[..i + 1][..i] == tickets[..i];
      AggregateSnoc(processed, result, |tickets|);
      processed := processed + [result];
      summary := CountResult(summary, result);
    }
    assert tickets[..|tickets|] == tickets;
    SummaryTotals(processed);
  }
}
