/**
 * An interaction's detail page: the record looked up by the id in the address,
 * its times on the 12-hour clock, its notes and follow-up lines, and the
 * delete action.
 */
module InteractionDetail {
  import opened Wrappers
  import opened Seqs
  import opened Strings
  import opened Types
  import opened Time
  import AppContext

  const NotFoundMessage := "Interaction not found."
  const NoNotesText := "No notes provided."
  const NoFollowUpText := "No follow-up required"

  // ---------------------------------------------------------------------------
  // 12-hour clock
  // ---------------------------------------------------------------------------

  /** `hour >= 12 ? 'PM' : 'AM'` */
  function Period(hour: nat): string {
    if hour >= 12 then "PM" else "AM"
  }

  /** `hour % 12 || 12` */
  function DisplayHour(hour: nat): nat {
    if hour % 12 == 0 then 12 else hour % 12
  }

  /**
   * `formatTime`: the hour on the 12-hour clock, the minutes text exactly as
   * written, and the period. An empty hour text makes `parseInt` NaN, which
   * shows as 12 AM, the same as hour 0.
   */
  function FormatTime(time: string): string
    requires IsTime(time)
  {
    var hour := Hours(time);
    NatToString(DisplayHour(hour)) + ":" + Split(time, ':')[1] + " " + Period(hour)
  }

  /** The shown hour is between 1 and 12 and agrees with the hour modulo 12. */
  lemma DisplayHourRange(hour: nat)
    ensures 1 <= DisplayHour(hour) <= 12
    ensures DisplayHour(hour) % 12 == hour % 12
  {
  }

  /**
   * Within a day the 12-hour form loses nothing: the shown hour and the period
   * give back the hour of the 24-hour clock.
   */
  lemma TwelveHourRoundTrip(hour: nat)
    requires hour < 24
    ensures hour == DisplayHour(hour) % 12 + (if Period(hour) == "PM" then 12 else 0)
  {
  }

  /**
   * On a zero-padded clock time of the day the text is the 12-hour hour, the
   * two-digit minutes and AM before noon, PM from noon on.
   */
  lemma FormatClockText(hour: nat, minute: nat)
    requires hour < 24 && minute < 60
    ensures IsTime(ClockText(hour, minute))
    ensures FormatTime(ClockText(hour, minute))
         == NatToString(DisplayHour(hour)) + ":" + PadStart2(NatToString(minute)) + " " + (if hour < 12 then "AM" else "PM")
  {
    ClockTextParses(hour, minute);
  }

  // ---------------------------------------------------------------------------
  // The page
  // ---------------------------------------------------------------------------

  /** `interaction.notes || 'No notes provided.'` */
  function NotesText(x: Interaction): string {
    if x.notes != "" then x.notes else NoNotesText
  }

  /** The follow-up section: the scheduled date when a follow-up is needed ("" when none was set), otherwise the all-clear. */
  function FollowUpText(x: Interaction): string {
    if x.followUpNeeded then "Follow-up scheduled for " + x.followUpDate.GetOr("") else NoFollowUpText
  }

  /** The scheduling line is shown exactly for the flagged records, whether or not a date is set. */
  lemma FollowUpTextIff(x: Interaction)
    ensures FollowUpText(x) != NoFollowUpText <==> x.followUpNeeded
    ensures x.followUpNeeded ==> FollowUpText(x)[..24] == "Follow-up scheduled for "
  {
    if x.followUpNeeded {
      assert FollowUpText(x)[0] == 'F' && NoFollowUpText[0] == 'N';
    }
  }

  datatype InteractionPage =
    | InteractionNotFound
    | InteractionFound(interaction: Interaction, notesText: string, followUpText: string)

  /** `interactions.find(i => i.id === id)` and the page it renders. */
  function View(interactions: seq<Interaction>, id: string): InteractionPage {
    match Find(interactions, InteractionHasId(id))
    case None => InteractionNotFound
    case Some(x) => InteractionFound(x, NotesText(x), FollowUpText(x))
  }

  /** The not-found message shows exactly when no record has the id; otherwise the first such record is shown. */
  lemma ViewLooksUp(interactions: seq<Interaction>, id: string)
    ensures View(interactions, id).InteractionNotFound? <==> forall k :: 0 <= k < |interactions| ==> interactions[k].id != id
    ensures View(interactions, id).InteractionFound? ==>
              exists k :: FirstMatch(interactions, InteractionHasId(id), k) && View(interactions, id).interaction == interactions[k]
  {
  }

  /** `handleDelete`: the shown record, and every other with its id, leaves the log; the statistics follow. */
  method HandleDelete(store: AppContext.Store, interaction: Interaction)
    modifies store`interactions, store`stats
    ensures store.interactions == Filter(old(store.interactions), Negate(InteractionHasId(interaction.id)))
    ensures forall k :: 0 <= k < |store.interactions| ==> store.interactions[k].id != interaction.id
    ensures store.Valid()
  {
    store.DeleteInteraction(interaction.id);
  }
}
