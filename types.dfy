/**
 * The entities of the counseling record: students, their contacts, the catalogue
 * of interaction reasons, the logged interactions and the counselor statistics.
 */
module Types {
  import opened Wrappers
  import opened Seqs

  datatype Student = Student(id: string, firstName: string, lastName: string, grade: string, notes: string)

  /** The five kinds of contact a student can have. */
  datatype ContactType = Parent | DCFS | Teacher | Administrator | Other

  /** A contact; the fields the form may leave out are optional. */
  datatype Contact = Contact(
    id: string,
    kind: ContactType,
    firstName: string,
    lastName: string,
    relation: Option<string>,
    phone: Option<string>,
    email: Option<string>,
    notes: Option<string>)

  /** One entry of the reason catalogue: a category and a subcategory within it. */
  datatype Reason = Reason(id: string, category: string, subcategory: string)

  /** Whom an interaction was with: a student or one of the contacts. */
  datatype InteractionType = ForStudent | ForContact

  /**
   * One logged meeting. `duration` is in minutes and may be negative (the store
   * recomputes it from the times without clamping); `personName` is a copy of
   * the person's name taken when the record was written.
   */
  datatype Interaction = Interaction(
    id: string,
    date: string,
    startTime: string,
    endTime: string,
    duration: int,
    kind: InteractionType,
    personId: string,
    personName: string,
    reasonIds: seq<string>,
    notes: string,
    followUpNeeded: bool,
    followUpDate: Option<string>)

  datatype CounselorStats = CounselorStats(
    totalInteractions: nat,
    totalTimeSpent: int,
    studentInteractions: nat,
    contactInteractions: nat,
    followUpsNeeded: nat)

  /** A counselor account, as far as reports read it. */
  datatype Profile = Profile(id: string, firstName: string, lastName: string)

  /** The display name `${firstName} ${lastName}`. */
  function FullName(firstName: string, lastName: string): string {
    firstName + " " + lastName
  }

  /** The type as the source spells it ('Student' or 'Contact'). */
  function TypeName(t: InteractionType): string {
    match t
    case ForStudent => "Student"
    case ForContact => "Contact"
  }

  function ContactTypeName(t: ContactType): string {
    match t
    case Parent => "Parent"
    case DCFS => "DCFS"
    case Teacher => "Teacher"
    case Administrator => "Administrator"
    case Other => "Other"
  }

  // The `x => x.id === id` callbacks, named so that every use denotes the same function.

  function StudentHasId(id: string): Student -> bool {
    (s: Student) => s.id == id
  }

  function ContactHasId(id: string): Contact -> bool {
    (c: Contact) => c.id == id
  }

  function InteractionHasId(id: string): Interaction -> bool {
    (i: Interaction) => i.id == id
  }

  function ReasonHasId(id: string): Reason -> bool {
    (r: Reason) => r.id == id
  }

  function ProfileHasId(id: string): Profile -> bool {
    (p: Profile) => p.id == id
  }

  /** `interaction.type === t` */
  function OfType(t: InteractionType): Interaction -> bool {
    (i: Interaction) => i.kind == t
  }

  /** `interaction.followUpNeeded` */
  function NeedsFollowUp(): Interaction -> bool {
    (i: Interaction) => i.followUpNeeded
  }

  /** `interaction.type === t && interaction.personId === id`: one person's interactions. */
  function WithPerson(t: InteractionType, id: string): Interaction -> bool {
    (i: Interaction) => i.kind == t && i.personId == id
  }

  /** `reasons.find(r => r.id === id)`: the first reason with that id, or `undefined`. */
  function FindReason(reasons: seq<Reason>, id: string): (r: Option<Reason>)
    ensures r.Some? ==> r.value in reasons && r.value.id == id
    ensures r.Some? ==> exists i :: FirstMatch(reasons, ReasonHasId(id), i) && reasons[i] == r.value
    ensures r.None? <==> forall k :: 0 <= k < |reasons| ==> reasons[k].id != id
  {
    Find(reasons, ReasonHasId(id))
  }
}
