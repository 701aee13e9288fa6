/**
 * The interaction list: the search and filter pipeline over the log, the
 * past-due marker and the reason label of each row, and the category choices.
 */
module InteractionList {
  import opened Wrappers
  import opened Seqs
  import opened Strings
  import opened Types

  /** The type selector: 'all' or one interaction type. */
  datatype TypeFilter = AllTypes | OnlyType(t: InteractionType)

  datatype DateRange = AllDates | Today | Week | Month

  /**
   * The filter panel. `category` is the category name, or the sentinel "all"
   * that switches the category filter off.
   */
  datatype Filters = Filters(kind: TypeFilter, dateRange: DateRange, category: string, followUp: bool)

  /**
   * The first day each date range keeps, as ISO dates: today, today minus seven
   * days, today minus one month. The calendar arithmetic is done outside the model.
   */
  datatype DateLimits = DateLimits(today: string, weekAgo: string, monthAgo: string)

  const AllCategories := "all"

  function DateLimit(range: DateRange, limits: DateLimits): string
    requires range != AllDates
  {
    match range
    case Today => limits.today
    case Week => limits.weekAgo
    case Month => limits.monthAgo
  }

  /** The lower-cased, untrimmed term occurs in the lower-cased person name or notes. */
  predicate MatchesSearch(x: Interaction, searchTerm: string) {
    Contains(Lower(x.personName), Lower(searchTerm)) || Contains(Lower(x.notes), Lower(searchTerm))
  }

  /** Some reason id resolves to a reason of `category`; ids that resolve to nothing never match. */
  predicate InCategory(x: Interaction, reasons: seq<Reason>, category: string) {
    exists k :: 0 <= k < |x.reasonIds| && HasCategory(FindReason(reasons, x.reasonIds[k]), category)
  }

  /** `reason?.category === category` */
  predicate HasCategory(reason: Option<Reason>, category: string) {
    reason.Some? && reason.value.category == category
  }

  /** `!Less(date, limit)`: the date is on or after the limit. */
  predicate OnOrAfter(date: string, limit: string) {
    !Less(date, limit)
  }

  // The stages of the pipeline; an inactive stage keeps everything.

  predicate SearchStage(x: Interaction, searchTerm: string) {
    Trim(searchTerm) != "" ==> MatchesSearch(x, searchTerm)
  }

  predicate TypeStage(x: Interaction, filters: Filters) {
    filters.kind.OnlyType? ==> x.kind == filters.kind.t
  }

  predicate DateStage(x: Interaction, filters: Filters, limits: DateLimits) {
    filters.dateRange != AllDates ==> OnOrAfter(x.date, DateLimit(filters.dateRange, limits))
  }

  predicate CategoryStage(x: Interaction, filters: Filters, reasons: seq<Reason>) {
    filters.category != AllCategories ==> InCategory(x, reasons, filters.category)
  }

  predicate FollowUpStage(x: Interaction, filters: Filters) {
    filters.followUp ==> x.followUpNeeded
  }

  // What the pipeline has kept after each stage.

  predicate PassesType(x: Interaction, searchTerm: string, filters: Filters) {
    SearchStage(x, searchTerm) && TypeStage(x, filters)
  }

  predicate PassesDate(x: Interaction, searchTerm: string, filters: Filters, limits: DateLimits) {
    PassesType(x, searchTerm, filters) && DateStage(x, filters, limits)
  }

  predicate PassesCategory(x: Interaction, searchTerm: string, filters: Filters, reasons: seq<Reason>, limits: DateLimits) {
    PassesDate(x, searchTerm, filters, limits) && CategoryStage(x, filters, reasons)
  }

  /** Whether the pipeline keeps `x`: every active filter holds of it. */
  predicate Keeps(x: Interaction, searchTerm: string, filters: Filters, reasons: seq<Reason>, limits: DateLimits) {
    PassesCategory(x, searchTerm, filters, reasons, limits) && FollowUpStage(x, filters)
  }

  /**
   * `if (active) results = results.filter(p)`, with what it keeps: if `results`
   * holds the copies of the elements of `s` that satisfy `P`, the new value
   * holds those that satisfy `Q`, still in order.
   */
  method NarrowIf(ghost s: seq<Interaction>, results: seq<Interaction>, active: bool, p: Interaction -> bool,
                  ghost P: Interaction -> bool, ghost Q: Interaction -> bool)
    returns (narrowed: seq<Interaction>)
    requires Subseq(results, s)
    requires forall x :: multiset(results)[x] == if P(x) then multiset(s)[x] else 0
    requires forall x :: Q(x) == (P(x) && (active ==> p(x)))
    ensures Subseq(narrowed, s)
    ensures forall x :: multiset(narrowed)[x] == if Q(x) then multiset(s)[x] else 0
  {
    if active {
      narrowed := Filter(results, p);
      SubseqTrans(narrowed, results, s);
    } else {
      narrowed := results;
    }
    FilterStage(s, results, narrowed, P, Q, active, p);
  }

  /**
   * The effect that recomputes the shown rows: each active filter narrows the
   * previous stage. The rows are the interactions `Keeps` accepts, every copy of
   * them, in their original order.
   */
  method FilterInteractions(interactions: seq<Interaction>, searchTerm: string, filters: Filters,
                            reasons: seq<Reason>, limits: DateLimits)
    returns (results: seq<Interaction>)
    ensures Subseq(results, interactions)
    ensures forall x :: multiset(results)[x] ==
              if Keeps(x, searchTerm, filters, reasons, limits) then multiset(interactions)[x] else 0
  {
    results := interactions;
    SubseqRefl(interactions);

    results := NarrowIf(interactions, results, Trim(searchTerm) != "",
                        (x: Interaction) => MatchesSearch(x, searchTerm),
                        (x: Interaction) => true,
                        (x: Interaction) => SearchStage(x, searchTerm));
    results := NarrowIf(interactions, results, filters.kind.OnlyType?,
                        (x: Interaction) => filters.kind.OnlyType? && x.kind == filters.kind.t,
                        (x: Interaction) => SearchStage(x, searchTerm),
                        (x: Interaction) => PassesType(x, searchTerm, filters));
    results := NarrowIf(interactions, results, filters.dateRange != AllDates,
                        (x: Interaction) => filters.dateRange != AllDates && OnOrAfter(x.date, DateLimit(filters.dateRange, limits)),
                        (x: Interaction) => PassesType(x, searchTerm, filters),
                        (x: Interaction) => PassesDate(x, searchTerm, filters, limits));
    results := NarrowIf(interactions, results, filters.category != AllCategories,
                        (x: Interaction) => InCategory(x, reasons, filters.category),
                        (x: Interaction) => PassesDate(x, searchTerm, filters, limits),
                        (x: Interaction) => PassesCategory(x, searchTerm, filters, reasons, limits));
    results := NarrowIf(interactions, results, filters.followUp,
                        (x: Interaction) => x.followUpNeeded,
                        (x: Interaction) => PassesCategory(x, searchTerm, filters, reasons, limits),
                        (x: Interaction) => Keeps(x, searchTerm, filters, reasons, limits));
  }

  /** `followUpNeeded && followUpDate && followUpDate < today`; an empty date is falsy and never past due. */
  predicate IsPastDue(x: Interaction, today: string) {
    x.followUpNeeded && x.followUpDate.Some? && x.followUpDate.value != "" && Less(x.followUpDate.value, today)
  }

  /** `${category}: ${subcategory}` of the first reason, or the placeholder when it does not resolve. */
  function PrimaryReasonText(x: Interaction, reasons: seq<Reason>): string {
    var primary := if |x.reasonIds| > 0 then FindReason(reasons, x.reasonIds[0]) else None;
    match primary
    case Some(r) => r.category + ": " + r.subcategory
    case None => "No reason specified"
  }

  /** ` +${n - 1} more` when there is more than one reason, nothing otherwise. */
  function MoreSuffix(n: nat): string {
    if n > 1 then " +" + NatToString(n - 1) + " more" else ""
  }

  /** The reason line of a row. */
  function ReasonLabel(x: Interaction, reasons: seq<Reason>): string {
    PrimaryReasonText(x, reasons) + MoreSuffix(|x.reasonIds|)
  }

  /**
   * The label names the first reason when it resolves, and otherwise says that
   * no reason is given; the suffix appears exactly when there are further
   * reasons, and its number reads back as how many.
   */
  lemma ReasonLabelParts(x: Interaction, reasons: seq<Reason>)
    ensures |x.reasonIds| > 0 && FindReason(reasons, x.reasonIds[0]).Some? ==>
              var r := FindReason(reasons, x.reasonIds[0]).value;
              ReasonLabel(x, reasons)[..|r.category| + 2 + |r.subcategory|] == r.category + ": " + r.subcategory
    ensures (|x.reasonIds| == 0 || FindReason(reasons, x.reasonIds[0]).None?) ==>
              ReasonLabel(x, reasons)[..19] == "No reason specified"
    ensures |x.reasonIds| <= 1 ==> ReasonLabel(x, reasons) == PrimaryReasonText(x, reasons)
    ensures |x.reasonIds| > 1 ==>
              var digits := NatToString(|x.reasonIds| - 1);
              && ReasonLabel(x, reasons) == PrimaryReasonText(x, reasons) + " +" + digits + " more"
              && DigitsValue(digits) == |x.reasonIds| - 1
  {
    if |x.reasonIds| > 1 {
      NatToStringValue(|x.reasonIds| - 1);
    }
  }

  /** `Array.from(new Set(reasons.map(r => r.category)))`: each category once, in catalogue order. */
  function Categories(reasons: seq<Reason>): (r: seq<string>)
    ensures NoDup(r)
    ensures forall c :: c in r <==> exists k :: 0 <= k < |reasons| && reasons[k].category == c
  {
    var all := Map(reasons, (x: Reason) => x.category);
    assert forall c :: c in all <==> exists k :: 0 <= k < |reasons| && reasons[k].category == c by {
      forall c ensures c in all <==> exists k :: 0 <= k < |reasons| && reasons[k].category == c {
        if c in all {
          var k :| 0 <= k < |all| && all[k] == c;
        }
      }
    }
    Dedup(all)
  }
}
