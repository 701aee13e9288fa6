/**
 * A contact's detail page: the contact looked up by the id in the address, the
 * contact's interaction history latest first with its two totals, and the
 * delete action.
 */
module ContactDetail {
  import opened Wrappers
  import opened Seqs
  import opened Types
  import MockData
  import TimeFormat
  import PersonHistory
  import ContactList
  import AppContext

  const NotFoundMessage := "Contact not found."

  /** What the page renders: the not-found message, or the contact with the history and its totals. */
  datatype ContactPage =
    | ContactNotFound
    | ContactFound(contact: Contact, history: seq<Interaction>, totalInteractions: nat, totalMinutes: int,
                   timeText: string)

  /**
   * `contacts.find(c => c.id === id)`; when found, the history, its length and
   * its summed durations (shown through `formatTime`).
   */
  function View(contacts: seq<Contact>, interactions: seq<Interaction>, id: string): ContactPage {
    match Find(contacts, ContactHasId(id))
    case None => ContactNotFound
    case Some(contact) =>
      var history := PersonHistory.History(interactions, ForContact, contact.id);
      var totalMinutes := MockData.SumDurations(history);
      ContactFound(contact, history, |history|, totalMinutes, TimeFormat.FormatTime(totalMinutes))
  }

  /** The page is found exactly when some contact has the id, and then shows the first such contact. */
  lemma ViewLooksUp(contacts: seq<Contact>, interactions: seq<Interaction>, id: string)
    ensures View(contacts, interactions, id).ContactNotFound? <==> forall k :: 0 <= k < |contacts| ==> contacts[k].id != id
    ensures View(contacts, interactions, id).ContactFound? ==>
              exists k :: FirstMatch(contacts, ContactHasId(id), k) && View(contacts, interactions, id).contact == contacts[k]
  {
  }

  /**
   * The page's count is the count on the contact's card in the directory, and
   * its minutes are the summed durations of the contact's records in log order.
   */
  lemma ViewAgreesWithCard(contacts: seq<Contact>, interactions: seq<Interaction>, id: string)
    requires View(contacts, interactions, id).ContactFound?
    ensures var page := View(contacts, interactions, id);
            && page.totalInteractions == ContactList.GetContactStats(interactions, id).totalInteractions
            && page.totalMinutes == MockData.SumDurations(Filter(interactions, WithPerson(ForContact, id)))
            && page.timeText == TimeFormat.FormatTime(page.totalMinutes)
  {
    assert View(contacts, interactions, id).contact.id == id;
    PersonHistory.HistoryTotals(interactions, ForContact, id);
  }

  /**
   * `handleDelete`: the contact leaves the directory; the contact's
   * interactions stay in the log (the store does not cascade the deletion).
   */
  method HandleDelete(store: AppContext.Store, contact: Contact)
    requires store.Valid()
    modifies store`contacts
    ensures store.contacts == Filter(old(store.contacts), Negate(ContactHasId(contact.id)))
    ensures forall k :: 0 <= k < |store.contacts| ==> store.contacts[k].id != contact.id
    ensures store.interactions == old(store.interactions)
  {
    store.DeleteContact(contact.id);
  }
}
