/**
 * The interaction history a student's or a contact's detail page lists: that
 * person's records, latest date first, with the totals shown above the list
 * and the follow-up line under each entry.
 */
module PersonHistory {
  import opened Wrappers
  import opened Seqs
  import opened Strings
  import opened Types
  import MockData
  import UpcomingFollowUps

  /**
   * The comparator `new Date(b.date).getTime() - new Date(a.date).getTime()`
   * as a "sorts strictly before" relation: `a` goes first when its date is
   * later. ISO dates compare in time order as strings.
   */
  function LaterDate(): (Interaction, Interaction) -> bool {
    (a: Interaction, b: Interaction) => Less(b.date, a.date)
  }

  lemma LaterDateOrder()
    ensures StrictWeakOrder(LaterDate())
  {
    var before := LaterDate();
    forall a, b | before(a, b) ensures !before(b, a) {
      LessAsymmetric(b.date, a.date);
    }
    forall a, b, c | before(a, c) ensures before(a, b) || before(b, c) {
      LessSplit(c.date, b.date, a.date);
    }
  }

  /** `interactions.filter(type and personId match).sort(later date first)` */
  function History(interactions: seq<Interaction>, t: InteractionType, personId: string): seq<Interaction> {
    LaterDateOrder();
    SortBy(Filter(interactions, WithPerson(t, personId)), LaterDate())
  }

  /** The history holds every record of the person, as many times as the log does, and nothing else. */
  lemma HistoryMembers(interactions: seq<Interaction>, t: InteractionType, personId: string)
    ensures forall x :: multiset(History(interactions, t, personId))[x]
                     == if x.kind == t && x.personId == personId then multiset(interactions)[x] else 0
  {
    LaterDateOrder();
  }

  /** No record is listed below one with an earlier date. */
  lemma HistoryLatestFirst(interactions: seq<Interaction>, t: InteractionType, personId: string)
    ensures var h := History(interactions, t, personId);
            forall i, j :: 0 <= i < j < |h| ==> !Less(h[i].date, h[j].date)
  {
    LaterDateOrder();
    var h := History(interactions, t, personId);
    forall i, j | 0 <= i < j < |h| ensures !Less(h[i].date, h[j].date) {
      assert !LaterDate()(h[j], h[i]);
    }
  }

  /** Records of one day keep their order in the log (the sort is stable). */
  lemma HistorySameDayInLogOrder(interactions: seq<Interaction>, t: InteractionType, personId: string, k: Interaction)
    ensures Filter(History(interactions, t, personId), TiedWith(LaterDate(), k))
         == Filter(Filter(interactions, WithPerson(t, personId)), TiedWith(LaterDate(), k))
  {
    LaterDateOrder();
    SortStable(Filter(interactions, WithPerson(t, personId)), LaterDate(), k);
  }

  /** Inserting a record into a sorted list adds its duration to the sum. */
  lemma {:induction false} SumDurationsInsert(x: Interaction, s: seq<Interaction>, before: (Interaction, Interaction) -> bool)
    ensures MockData.SumDurations(Insert(x, s, before)) == x.duration + MockData.SumDurations(s)
  {
    var r := Insert(x, s, before);
    if s == [] || !before(s[0], x) {
      assert r[1..] == s;
    } else {
      SumDurationsInsert(x, s[1..], before);
      assert r[1..] == Insert(x, s[1..], before);
    }
  }

  /** Sorting does not change the summed durations. */
  lemma {:induction false} SumDurationsSortBy(s: seq<Interaction>, before: (Interaction, Interaction) -> bool)
    requires StrictWeakOrder(before)
    ensures MockData.SumDurations(SortBy(s, before)) == MockData.SumDurations(s)
  {
    if s != [] {
      SumDurationsSortBy(s[1..], before);
      SumDurationsInsert(s[0], SortBy(s[1..], before), before);
    }
  }

  /**
   * The totals over the sorted history are those over the person's records in
   * log order: their number, their summed durations, and how many are flagged
   * (never more than the number of records).
   */
  lemma HistoryTotals(interactions: seq<Interaction>, t: InteractionType, personId: string)
    ensures var h := History(interactions, t, personId);
            var mine := Filter(interactions, WithPerson(t, personId));
            && |h| == |mine|
            && MockData.SumDurations(h) == MockData.SumDurations(mine)
            && |Filter(h, NeedsFollowUp())| == |Filter(mine, NeedsFollowUp())| <= |h|
  {
    LaterDateOrder();
    var mine := Filter(interactions, WithPerson(t, personId));
    SumDurationsSortBy(mine, LaterDate());
    FilterPermutationLength(History(interactions, t, personId), mine, NeedsFollowUp());
  }

  /**
   * The line under a flagged history entry: 'Follow-up scheduled for <date>' when it
   * has a date (a non-empty string), 'Follow-up needed' otherwise; nothing when
   * the entry is not flagged.
   */
  function FollowUpNote(x: Interaction): Option<string> {
    if !x.followUpNeeded then None
    else if x.followUpDate.Some? && x.followUpDate.value != "" then Some("Follow-up scheduled for " + x.followUpDate.value)
    else Some("Follow-up needed")
  }

  /**
   * The note names a date exactly for the records the dashboard lists as
   * upcoming follow-ups, and it is that record's due date.
   */
  lemma FollowUpNoteAgrees(x: Interaction)
    ensures UpcomingFollowUps.Pending()(x) <==> FollowUpNote(x) != Some("Follow-up needed") && FollowUpNote(x).Some?
    ensures UpcomingFollowUps.Pending()(x) ==> FollowUpNote(x) == Some("Follow-up scheduled for " + UpcomingFollowUps.DueDate(x))
  {
    if x.followUpNeeded && x.followUpDate.Some? && x.followUpDate.value != "" {
      var note := "Follow-up scheduled for " + x.followUpDate.value;
      assert note != "Follow-up needed" by {
        assert note[10] == 's' && "Follow-up needed"[10] == 'n';
      }
    }
  }
}
