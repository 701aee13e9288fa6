/**
 * The dashboard's follow-up panel: the flagged interactions with a follow-up
 * date, earliest date first, at most five, each marked past due or showing its
 * date.
 */
module UpcomingFollowUps {
  import opened Wrappers
  import opened Seqs
  import opened Strings
  import opened Types
  import InteractionList

  /** `interaction.followUpNeeded && interaction.followUpDate`: flagged, with a date that is not the empty string. */
  function Pending(): Interaction -> bool {
    (x: Interaction) => x.followUpNeeded && x.followUpDate.Some? && x.followUpDate.value != ""
  }

  /** The follow-up date, "" when there is none. */
  function DueDate(x: Interaction): string {
    x.followUpDate.GetOr("")
  }

  /**
   * The comparator `new Date(a.followUpDate) - new Date(b.followUpDate)` as a
   * "sorts strictly before" relation: on ISO dates the time order is the string
   * order. The comparator's early `return 0` for a missing date never applies,
   * because the sort only sees pending records.
   */
  function EarlierDue(): (Interaction, Interaction) -> bool {
    (a: Interaction, b: Interaction) => Less(DueDate(a), DueDate(b))
  }

  lemma EarlierDueOrder()
    ensures StrictWeakOrder(EarlierDue())
  {
    var before := EarlierDue();
    forall a, b | before(a, b) ensures !before(b, a) {
      LessAsymmetric(DueDate(a), DueDate(b));
    }
    forall a, b, c | before(a, c) ensures before(a, b) || before(b, c) {
      LessSplit(DueDate(a), DueDate(b), DueDate(c));
    }
  }

  /** The pending records sorted by follow-up date (a stable sort). */
  function SortedPending(interactions: seq<Interaction>): seq<Interaction> {
    EarlierDueOrder();
    SortBy(Filter(interactions, Pending()), EarlierDue())
  }

  /** `filter(...).sort(...).slice(0, 5)` */
  function Upcoming(interactions: seq<Interaction>): seq<Interaction> {
    Take(SortedPending(interactions), 5)
  }

  /** Every record shown is a pending record of the log. */
  lemma UpcomingPending(interactions: seq<Interaction>)
    ensures forall i :: 0 <= i < |Upcoming(interactions)| ==>
              Pending()(Upcoming(interactions)[i]) && Upcoming(interactions)[i] in interactions
  {
    EarlierDueOrder();
    var sorted := SortedPending(interactions);
    var r := Upcoming(interactions);
    forall i | 0 <= i < |r| ensures Pending()(r[i]) && r[i] in interactions {
      assert r[i] == sorted[i];
      assert sorted[i] in multiset(sorted);
    }
  }

  /** Five records are shown, or every pending record when there are fewer. */
  lemma UpcomingLength(interactions: seq<Interaction>)
    ensures var pending := |Filter(interactions, Pending())|;
            |Upcoming(interactions)| == if pending < 5 then pending else 5
  {
    EarlierDueOrder();
  }

  /** The shown records are in ascending order of follow-up date. */
  lemma UpcomingAscending(interactions: seq<Interaction>)
    ensures forall i, j :: 0 <= i < j < |Upcoming(interactions)| ==>
              !Less(DueDate(Upcoming(interactions)[j]), DueDate(Upcoming(interactions)[i]))
  {
    EarlierDueOrder();
    var sorted := SortedPending(interactions);
    var r := Upcoming(interactions);
    forall i, j | 0 <= i < j < |r| ensures !Less(DueDate(r[j]), DueDate(r[i])) {
      assert r[i] == sorted[i] && r[j] == sorted[j];
      assert !EarlierDue()(sorted[j], sorted[i]);
    }
  }

  /** No pending record left out has an earlier follow-up date than one shown: the five earliest are shown. */
  lemma UpcomingEarliest(interactions: seq<Interaction>, y: Interaction)
    requires y in interactions && Pending()(y)
    requires y !in Upcoming(interactions)
    ensures forall i :: 0 <= i < |Upcoming(interactions)| ==> !Less(DueDate(y), DueDate(Upcoming(interactions)[i]))
  {
    EarlierDueOrder();
    var sorted := SortedPending(interactions);
    var r := Upcoming(interactions);
    assert y in Filter(interactions, Pending());
    assert y in multiset(sorted);
    var j :| 0 <= j < |sorted| && sorted[j] == y;
    assert j >= |r|;
    forall i | 0 <= i < |r| ensures !Less(DueDate(y), DueDate(r[i])) {
      assert r[i] == sorted[i];
      assert !EarlierDue()(sorted[j], sorted[i]);
    }
  }

  /**
   * The sort is stable: among records with the same follow-up date as any
   * `k`, those shown are the first ones in log order.
   */
  lemma UpcomingStable(interactions: seq<Interaction>, k: Interaction)
    ensures Filter(Upcoming(interactions), TiedWith(EarlierDue(), k))
         <= Filter(Filter(interactions, Pending()), TiedWith(EarlierDue(), k))
  {
    EarlierDueOrder();
    var sorted := SortedPending(interactions);
    var r := Upcoming(interactions);
    var tie := TiedWith(EarlierDue(), k);
    assert sorted == r + sorted[|r|..];
    FilterAppend(r, sorted[|r|..], tie);
    SortStable(Filter(interactions, Pending()), EarlierDue(), k);
  }

  /** The empty state is shown exactly when no record is flagged with a date. */
  lemma UpcomingEmpty(interactions: seq<Interaction>)
    ensures Upcoming(interactions) == [] <==> forall i :: 0 <= i < |interactions| ==> !Pending()(interactions[i])
  {
    UpcomingLength(interactions);
    var pending := Filter(interactions, Pending());
    if i :| 0 <= i < |interactions| && Pending()(interactions[i]) {
      assert interactions[i] in pending;
    }
    if |pending| > 0 {
      assert pending[0] in interactions;
    }
  }

  /** `interaction.followUpDate && interaction.followUpDate < today` */
  predicate IsPastDue(x: Interaction, today: string) {
    x.followUpDate.Some? && x.followUpDate.value != "" && Less(x.followUpDate.value, today)
  }

  /** The marker on a row: 'Past Due', or the follow-up date itself. */
  function DueLabel(x: Interaction, today: string): string {
    if IsPastDue(x, today) then "Past Due" else DueDate(x)
  }

  /** On the records this panel shows, its past-due test agrees with the interaction list's. */
  lemma PastDueAgrees(x: Interaction, today: string)
    requires Pending()(x)
    ensures IsPastDue(x, today) <==> InteractionList.IsPastDue(x, today)
    ensures IsPastDue(x, today) <==> Less(DueDate(x), today)
  {
  }

  /** One row of the panel. */
  datatype Row = Row(id: string, personName: string, marker: string, pastDue: bool, notes: string)

  /** What the panel renders: the empty-state message, or one row per shown record. */
  datatype Panel = NoFollowUps | Rows(rows: seq<Row>)

  /** One row: for a pending record, past due exactly when its date is before today. */
  function RenderRow(x: Interaction, today: string): (row: Row)
    ensures Pending()(x) ==> (row.pastDue <==> Less(DueDate(x), today))
    ensures Pending()(x) ==> row.marker == (if Less(DueDate(x), today) then "Past Due" else DueDate(x))
    ensures row.id == x.id && row.personName == x.personName && row.notes == x.notes
  {
    Row(x.id, x.personName, DueLabel(x, today), IsPastDue(x, today), x.notes)
  }

  /**
   * The panel: the empty-state message exactly when nothing is shown, and
   * otherwise one row per shown record, in order, marked "Past Due" exactly when
   * its date is before today and showing the date otherwise.
   */
  function Render(interactions: seq<Interaction>, today: string): (panel: Panel)
    ensures panel.NoFollowUps? <==> Upcoming(interactions) == []
    ensures panel.Rows? ==> |panel.rows| == |Upcoming(interactions)| <= 5
    ensures panel.Rows? ==> forall i :: 0 <= i < |panel.rows| ==>
              var x := Upcoming(interactions)[i];
              && panel.rows[i].id == x.id
              && panel.rows[i].personName == x.personName
              && panel.rows[i].notes == x.notes
              && (panel.rows[i].pastDue <==> Less(DueDate(x), today))
              && panel.rows[i].marker == (if Less(DueDate(x), today) then "Past Due" else DueDate(x))
  {
    var shown := Upcoming(interactions);
    UpcomingPending(interactions);
    if |shown| == 0 then NoFollowUps else Rows(Map(shown, (x: Interaction) => RenderRow(x, today)))
  }
}
