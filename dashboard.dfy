/**
 * The dashboard's derived values: the reason-category tally, the minute total
 * shown as hours and minutes, and the five most recent interactions.
 */
module Dashboard {
  import opened Wrappers
  import opened Seqs
  import opened Strings
  import opened Types
  import opened Numbers
  import opened CategoryCounts

  /**
   * `getInteractionCategories`: a nested walk over every reason id of every
   * interaction, adding one to the category of each id that resolves.
   */
  method GetInteractionCategories(interactions: seq<Interaction>, reasons: seq<Reason>)
    returns (categories: map<string, nat>)
    ensures categories == Tally(reasons, AllReasonIds(interactions))
  {
    categories := map[];
    var i := 0;
    assert interactions[0..] == interactions;
    while i < |interactions|
      invariant 0 <= i <= |interactions|
      invariant TallyFrom(categories, reasons, AllReasonIds(interactions[i..])) == Tally(reasons, AllReasonIds(interactions))
    {
      var ids := interactions[i].reasonIds;
      assert interactions[i..][1..] == interactions[i + 1..];
      TallyFromAppend(categories, reasons, ids, AllReasonIds(interactions[i + 1..]));
      ghost var start := categories;
      var j := 0;
      assert ids[0..] == ids;
      while j < |ids|
        invariant 0 <= j <= |ids|
        invariant TallyFrom(categories, reasons, ids[j..]) == TallyFrom(start, reasons, ids)
      {
        ghost var counted := categories;
        var reason := FindReason(reasons, ids[j]);
        if reason.Some? {
          var category := reason.value.category;
          categories := categories[category := (if category in categories then categories[category] else 0) + 1];
        }
        assert categories == Bump(counted, reasons, ids[j]);
        assert ids[j..][1..] == ids[j + 1..];
        j := j + 1;
      }
      i := i + 1;
    }
  }

  /**
   * What the dashboard shows per category: one per resolvable reason id, so an
   * interaction with two reasons of one category adds two; categories nothing
   * resolves to are absent; the counts add up to the resolvable ids of the log.
   */
  lemma CategoriesCount(interactions: seq<Interaction>, reasons: seq<Reason>, c: string)
    ensures CountOf(Tally(reasons, AllReasonIds(interactions)), c)
         == |Filter(AllReasonIds(interactions), ResolvesTo(reasons, c))|
    ensures c in Tally(reasons, AllReasonIds(interactions)) <==> CountOf(Tally(reasons, AllReasonIds(interactions)), c) > 0
    ensures SumValues(Tally(reasons, AllReasonIds(interactions)))
         == |Filter(AllReasonIds(interactions), Resolves(reasons))|
  {
    TallyCounts(reasons, AllReasonIds(interactions), c);
    TallySum(reasons, AllReasonIds(interactions));
  }

  /** One interaction whose two reasons share a category counts twice for it. */
  lemma TwoReasonsOneCategory(x: Interaction, a: Reason, b: Reason)
    requires x.reasonIds == [a.id, b.id] && a.id != b.id && a.category == b.category
    ensures CountOf(Tally([a, b], AllReasonIds([x])), a.category) == 2
  {
    var ids := [a.id, b.id];
    assert AllReasonIds([x]) == ids;
    FindFirst([a, b], ReasonHasId(a.id), 0);
    FindFirst([a, b], ReasonHasId(b.id), 1);
    var p := ResolvesTo([a, b], a.category);
    assert p(ids[0]) && p(ids[1]);
    TallyCounts([a, b], ids, a.category);
    FilterConsLength(ids, p);
    FilterConsLength(ids[1..], p);
    assert ids[1..][1..] == [];
  }

  /** `${Math.floor(minutes / 60)}h ${minutes % 60}m`, with JavaScript's floor and remainder. */
  function FormatTime(minutes: int): string {
    IntToString(FloorDiv(minutes, 60)) + "h " + IntToString(TruncRem(minutes, 60)) + "m"
  }

  /**
   * For a non-negative total the hours part is always present and the two
   * numbers shown read back as whole hours and the minutes below 60 that make
   * up the total.
   */
  lemma FormatTimeReadsBack(minutes: int)
    requires minutes >= 0
    ensures var h := NatToString(minutes / 60);
            var m := NatToString(minutes % 60);
            && FormatTime(minutes) == h + "h " + m + "m"
            && DigitsValue(h) * 60 + DigitsValue(m) == minutes
            && DigitsValue(m) < 60
  {
    NatToStringValue(minutes / 60);
    NatToStringValue(minutes % 60);
  }

  /**
   * A negative total shows a negative hours part, rounded away from zero by
   * `Math.floor`, and a minutes part that is minus the truncated remainder
   * ("0" when it is zero, as `-0` prints). Read back, the two parts overstate
   * the total by an hour whenever there is a remainder: -70 shows as
   * "-2h -10m".
   */
  lemma FormatTimeNegative(minutes: int)
    requires minutes < 0
    ensures var h := (-minutes + 59) / 60;
            var m := (-minutes) % 60;
            && FormatTime(minutes) == "-" + NatToString(h) + "h " + (if m == 0 then "0" else "-" + NatToString(m)) + "m"
            && h * 60 + m == -minutes + (if m == 0 then 0 else 60)
            && 0 < h && 0 <= m < 60
  {
    var h := (-minutes + 59) / 60;
    var m := (-minutes) % 60;
    assert FloorDiv(minutes, 60) == -h;
    assert TruncRem(minutes, 60) == -m;
    assert IntToString(-h) == "-" + NatToString(h);
    assert IntToString(-m) == (if m == 0 then "0" else "-" + NatToString(m));
  }

  /** `interactions.slice(0, 5)`: the first five records in store order (newest first after an add). */
  function RecentInteractions(interactions: seq<Interaction>): seq<Interaction> {
    Take(interactions, 5)
  }

  lemma RecentIsPrefix(interactions: seq<Interaction>)
    ensures |RecentInteractions(interactions)| == if |interactions| < 5 then |interactions| else 5
    ensures RecentInteractions(interactions) <= interactions
  {
  }
}
