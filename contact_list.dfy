/**
 * The contact directory page: the search over a contact's names and optional
 * details, the contact-type selector and its choices, and the interaction count
 * each contact card shows.
 */
module ContactList {
  import opened Wrappers
  import opened Seqs
  import opened Strings
  import opened Types

  /**
   * `(field && field.toLowerCase().includes(term))` on an optional field: a
   * missing field and the empty string (which is falsy) never match.
   */
  predicate FieldMatches(field: Option<string>, term: string) {
    field.Some? && field.value != "" && Contains(Lower(field.value), term)
  }

  /** The lower-cased term occurs in the names, or in the relation, email, phone or notes. */
  predicate ContactMatches(c: Contact, searchTerm: string) {
    var term := Lower(searchTerm);
    || Contains(Lower(c.firstName), term)
    || Contains(Lower(c.lastName), term)
    || FieldMatches(c.relation, term)
    || FieldMatches(c.email, term)
    || FieldMatches(c.phone, term)
    || FieldMatches(c.notes, term)
  }

  /** The type selector: 'all', or one contact type. */
  datatype TypeSelection = AllContactTypes | OnlyKind(kind: ContactType)

  /** `typeFilter === 'all' || contact.type === typeFilter` */
  predicate MatchesType(c: Contact, selection: TypeSelection) {
    selection.AllContactTypes? || c.kind == selection.kind
  }

  function Shown(searchTerm: string, selection: TypeSelection): Contact -> bool {
    (c: Contact) => ContactMatches(c, searchTerm) && MatchesType(c, selection)
  }

  function OfKind(selection: TypeSelection): Contact -> bool {
    (c: Contact) => MatchesType(c, selection)
  }

  /** `filteredContacts`: the contacts passing both tests, in directory order. */
  function FilterContacts(contacts: seq<Contact>, searchTerm: string, selection: TypeSelection): seq<Contact> {
    Filter(contacts, Shown(searchTerm, selection))
  }

  /**
   * With the search box empty only the type selector filters (every first name
   * contains the empty term), so 'all' lists the whole directory.
   */
  lemma EmptySearchFiltersByType(contacts: seq<Contact>, selection: TypeSelection)
    ensures FilterContacts(contacts, "", selection) == Filter(contacts, OfKind(selection))
    ensures selection.AllContactTypes? ==> FilterContacts(contacts, "", selection) == contacts
  {
    forall i | 0 <= i < |contacts| ensures ContactMatches(contacts[i], "") {
      ContainsEmpty(Lower(contacts[i].firstName));
    }
    FilterExt(contacts, Shown("", selection), OfKind(selection));
    if selection.AllContactTypes? {
      FilterKeepsAll(contacts, OfKind(selection));
    }
  }

  /** The case of the term makes no difference. */
  lemma SearchIgnoresCase(contacts: seq<Contact>, searchTerm: string, selection: TypeSelection)
    ensures FilterContacts(contacts, Lower(searchTerm), selection) == FilterContacts(contacts, searchTerm, selection)
  {
    LowerIdempotent(searchTerm);
    FilterExt(contacts, Shown(Lower(searchTerm), selection), Shown(searchTerm, selection));
  }

  /**
   * The falsy test on the optional fields never changes what is listed: an
   * empty field could only contain the empty term, which the first name
   * contains anyway.
   */
  lemma EmptyFieldTestIsRedundant(c: Contact, searchTerm: string)
    ensures ContactMatches(c, searchTerm)
        <==> var term := Lower(searchTerm);
             || Contains(Lower(c.firstName), term)
             || Contains(Lower(c.lastName), term)
             || (c.relation.Some? && Contains(Lower(c.relation.value), term))
             || (c.email.Some? && Contains(Lower(c.email.value), term))
             || (c.phone.Some? && Contains(Lower(c.phone.value), term))
             || (c.notes.Some? && Contains(Lower(c.notes.value), term))
  {
    var term := Lower(searchTerm);
    if term == "" {
      ContainsEmpty(Lower(c.firstName));
    }
  }

  // ---------------------------------------------------------------------------
  // The type selector's choices
  // ---------------------------------------------------------------------------

  function KindOf(): Contact -> ContactType {
    (c: Contact) => c.kind
  }

  /** `Array.from(new Set(contacts.map(c => c.type)))`: each type present, once, in order of first appearance. */
  function ContactTypes(contacts: seq<Contact>): seq<ContactType> {
    Dedup(Map(contacts, KindOf()))
  }

  /** The choices are the types some contact has, each once. */
  lemma ContactTypesMembers(contacts: seq<Contact>)
    ensures NoDup(ContactTypes(contacts))
    ensures forall t :: t in ContactTypes(contacts) <==> exists k :: 0 <= k < |contacts| && contacts[k].kind == t
  {
    var kinds := Map(contacts, KindOf());
    forall t ensures t in kinds <==> exists k :: 0 <= k < |contacts| && contacts[k].kind == t {
      if t in kinds {
        var k :| 0 <= k < |kinds| && kinds[k] == t;
        assert contacts[k].kind == t;
      }
      if k :| 0 <= k < |contacts| && contacts[k].kind == t {
        assert kinds[k] == t;
      }
    }
  }

  /** The choices are ordered by the first appearance of each type in the directory. */
  lemma ContactTypesOrder(contacts: seq<Contact>)
    ensures forall i, j :: 0 <= i < j < |ContactTypes(contacts)| ==>
              FirstOfKind(contacts, ContactTypes(contacts)[i]) < FirstOfKind(contacts, ContactTypes(contacts)[j])
  {
    var r := ContactTypes(contacts);
    forall i, j | 0 <= i < j < |r| ensures FirstOfKind(contacts, r[i]) < FirstOfKind(contacts, r[j]) {
      FirstOfKindIsIndexOf(contacts, r[i]);
      FirstOfKindIsIndexOf(contacts, r[j]);
    }
  }

  /** There are at most five choices besides 'all', one per contact type. */
  lemma ContactTypesAtMostFive(contacts: seq<Contact>)
    ensures |ContactTypes(contacts)| <= 5
  {
    var r := ContactTypes(contacts);
    NoDupCard(r);
    var present := set t | t in r;
    var all := {Parent, DCFS, Teacher, Administrator, Other};
    forall t | t in present ensures t in all {
      match t
      case Parent =>
      case DCFS =>
      case Teacher =>
      case Administrator =>
      case Other =>
    }
    SubsetCard(present, all);
  }

  /** The position of the first contact of type `t` (the directory's length when there is none). */
  function FirstOfKind(contacts: seq<Contact>, t: ContactType): (i: nat)
    ensures i <= |contacts|
    ensures forall k :: 0 <= k < i ==> contacts[k].kind != t
    ensures i < |contacts| ==> contacts[i].kind == t
  {
    if contacts == [] || contacts[0].kind == t then 0 else 1 + FirstOfKind(contacts[1..], t)
  }

  lemma FirstOfKindIsIndexOf(contacts: seq<Contact>, t: ContactType)
    requires t in Map(contacts, KindOf())
    ensures FirstOfKind(contacts, t) == IndexOf(Map(contacts, KindOf()), t)
  {
    var kinds := Map(contacts, KindOf());
    var i := IndexOf(kinds, t);
    var f := FirstOfKind(contacts, t);
    assert contacts[i].kind == t;
    assert f < |contacts| ==> kinds[f] == t;
  }

  /** A subset has no more elements than its superset. */
  lemma {:induction false} SubsetCard<T>(a: set<T>, b: set<T>)
    requires a <= b
    ensures |a| <= |b|
    decreases |a|
  {
    if a != {} {
      var x :| x in a;
      SubsetCard(a - {x}, b - {x});
    }
  }

  // ---------------------------------------------------------------------------
  // The figure on a contact card
  // ---------------------------------------------------------------------------

  datatype ContactStats = ContactStats(totalInteractions: nat)

  /** `getContactStats`: the number of records of type Contact whose person is the contact. */
  function GetContactStats(interactions: seq<Interaction>, contactId: string): (r: ContactStats)
    ensures r.totalInteractions <= |interactions|
  {
    ContactStats(|Filter(interactions, WithPerson(ForContact, contactId))|)
  }

  /**
   * A record logged for the contact (added at the front, as the store does)
   * counts once; a record of anyone else, or of a student with the same id,
   * changes nothing.
   */
  lemma ContactStatsAfterPrepend(x: Interaction, interactions: seq<Interaction>, contactId: string)
    ensures GetContactStats([x] + interactions, contactId).totalInteractions
         == GetContactStats(interactions, contactId).totalInteractions
            + if x.kind == ForContact && x.personId == contactId then 1 else 0
  {
    FilterCons(x, interactions, WithPerson(ForContact, contactId));
  }

  /** A contact without records shows zero; one with records shows how many there are. */
  lemma ContactStatsZero(interactions: seq<Interaction>, contactId: string)
    ensures GetContactStats(interactions, contactId).totalInteractions == 0
        <==> forall k :: 0 <= k < |interactions| ==> !(interactions[k].kind == ForContact && interactions[k].personId == contactId)
  {
    var p := WithPerson(ForContact, contactId);
    var mine := Filter(interactions, p);
    if k :| 0 <= k < |interactions| && p(interactions[k]) {
      assert interactions[k] in mine;
    }
    if |mine| > 0 {
      assert mine[0] in interactions;
    }
  }
}
