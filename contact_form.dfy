/**
 * The form that adds a contact to the directory or edits one: the type, the
 * name, the optional details and the notes, their error messages, the
 * validation (required names, an email address of the form `x@y.z` when one is
 * given) and the submission to the store.
 */
module ContactForm {
  import opened Wrappers
  import opened Seqs
  import opened Strings
  import opened Types
  import opened FormErrors
  import AppContext

  /** The fields of the form; the optional details are plain strings, "" when not given. */
  datatype FormData = FormData(
    kind: ContactType,
    firstName: string,
    lastName: string,
    relation: string,
    phone: string,
    email: string,
    notes: string)

  /** The inputs of the form, by their `name` attribute. */
  datatype Field = TypeField | FirstNameField | LastNameField | RelationField | PhoneField | EmailField | NotesField

  /** A parent, with every field empty. */
  const EmptyForm := FormData(Parent, "", "", "", "", "", "")

  /** The fields of a contact, loaded for editing; a missing detail becomes "". */
  function FromContact(c: Contact): FormData {
    FormData(c.kind, c.firstName, c.lastName, c.relation.GetOr(""), c.phone.GetOr(""), c.email.GetOr(""),
             c.notes.GetOr(""))
  }

  /**
   * `{ ...contact, ...formData }`: every field from the form over the contact,
   * whose id stays; the details are stored as given, "" included.
   */
  function Merge(c: Contact, data: FormData): Contact {
    Contact(c.id, data.kind, data.firstName, data.lastName, Some(data.relation), Some(data.phone),
            Some(data.email), Some(data.notes))
  }

  /** `addContact(formData)`: the fields as a record; the store supplies the id. */
  function ToContact(data: FormData): Contact {
    Merge(Contact("", data.kind, "", "", None, None, None, None), data)
  }

  /**
   * A merge keeps the id and loading its result shows the form again; loading
   * a contact and submitting it unchanged gives the contact back, except that a
   * detail it did not have is now stored as "".
   */
  lemma MergeRoundTrip(c: Contact, data: FormData)
    ensures Merge(c, data).id == c.id
    ensures FromContact(Merge(c, data)) == data
    ensures Merge(c, FromContact(c)) ==
              c.(relation := Some(c.relation.GetOr("")), phone := Some(c.phone.GetOr("")),
                 email := Some(c.email.GetOr("")), notes := Some(c.notes.GetOr("")))
    ensures c.relation.Some? && c.phone.Some? && c.email.Some? && c.notes.Some? ==> Merge(c, FromContact(c)) == c
  {
  }

  // ---------------------------------------------------------------------------
  // The email pattern
  // ---------------------------------------------------------------------------

  /** No character of `s` is white space (`\S+` matches it whole). */
  predicate NoSpace(s: string) {
    forall i :: 0 <= i < |s| ==> !IsSpace(s[i])
  }

  /**
   * `/^\S+@\S+\.\S+$/.test(s)`: no white space, and an `@` after at least one
   * character that is followed, after at least one more character, by a `.`
   * with at least one character after it.
   */
  predicate EmailPattern(s: string) {
    && NoSpace(s)
    && exists at | 0 < at < |s| :: s[at] == '@' && exists dot | at + 1 < dot < |s| - 1 :: s[dot] == '.'
  }

  /** `s` is `local@domain.suffix` with three parts that are not empty and hold no white space. */
  ghost predicate SplitsAs(s: string, local: string, domain: string, suffix: string) {
    && s == local + "@" + domain + "." + suffix
    && |local| > 0 && |domain| > 0 && |suffix| > 0
    && NoSpace(local) && NoSpace(domain) && NoSpace(suffix)
  }

  /** The pattern matches exactly the strings that split into three white-space-free parts around an `@` and a later `.`. */
  lemma EmailPatternIff(s: string)
    ensures EmailPattern(s) <==> exists local, domain, suffix :: SplitsAs(s, local, domain, suffix)
  {
    if EmailPattern(s) {
      var at :| 0 < at < |s| && s[at] == '@' && exists dot | at + 1 < dot < |s| - 1 :: s[dot] == '.';
      var dot :| at + 1 < dot < |s| - 1 && s[dot] == '.';
      var local, domain, suffix := s[..at], s[at + 1..dot], s[dot + 1..];
      assert s == local + "@" + domain + "." + suffix;
      assert SplitsAs(s, local, domain, suffix);
    }
    if exists local, domain, suffix :: SplitsAs(s, local, domain, suffix) {
      var local, domain, suffix :| SplitsAs(s, local, domain, suffix);
      var at := |local|;
      var dot := |local| + 1 + |domain|;
      assert s[at] == '@' && s[dot] == '.';
      forall i | 0 <= i < |s| ensures !IsSpace(s[i]) {
        if i < at {
          assert s[i] == local[i];
        } else if at < i < dot {
          assert s[i] == domain[i - at - 1];
        } else if dot < i {
          assert s[i] == suffix[i - dot - 1];
        }
      }
    }
  }

  /** An address with a domain and a suffix fits; one without a dot after the `@`, or with a space, does not. */
  lemma EmailPatternExamples()
    ensures EmailPattern("a@b.c")
    ensures !EmailPattern("a@bc") && !EmailPattern("a@.c") && !EmailPattern("a @b.c")
  {
    assert "a@b.c"[1] == '@' && "a@b.c"[3] == '.';
    assert IsSpace("a @b.c"[1]);
  }

  // ---------------------------------------------------------------------------
  // Validation
  // ---------------------------------------------------------------------------

  /** `!value.trim()` */
  predicate Blank(value: string) {
    Trim(value) == ""
  }

  /** `formData.email && !pattern.test(formData.email)`: an address is given and it does not fit. */
  predicate BadEmail(email: string) {
    email != "" && !EmailPattern(email)
  }

  /**
   * The input fails its check. The type check (`!formData.type`) never fails:
   * the selector only offers the five types.
   */
  predicate Fails(data: FormData, field: Field) {
    match field
    case FirstNameField => Blank(data.firstName)
    case LastNameField => Blank(data.lastName)
    case EmailField => BadEmail(data.email)
    case _ => false
  }

  function FailedFields(data: FormData): set<Field> {
    set field: Field | Fails(data, field)
  }

  function Message(field: Field): string {
    match field
    case FirstNameField => "First name is required"
    case LastNameField => "Last name is required"
    case TypeField => "Type is required"
    case EmailField => "Please enter a valid email address"
    case _ => ""
  }

  /** An empty address passes, so the email is optional; a given one passes exactly when it fits the pattern. */
  lemma EmailOptional(data: FormData)
    ensures data.email == "" ==> !Fails(data, EmailField)
    ensures data.email != "" ==> (Fails(data, EmailField) <==> !EmailPattern(data.email))
  {
  }

  /** The statements of `validate` in their order, starting from no messages. */
  function AllChecks(data: FormData): map<Field, string> {
    var errors := Require(map[], Blank(data.firstName), FirstNameField, Message(FirstNameField));
    var errors := Require(errors, Blank(data.lastName), LastNameField, Message(LastNameField));
    Require(errors, BadEmail(data.email), EmailField, Message(EmailField))
  }

  /** After all the statements there is one message per failed input, that input's own. */
  lemma AllChecksReport(data: FormData)
    ensures AllChecks(data).Keys == FailedFields(data)
    ensures forall k :: k in AllChecks(data) ==> AllChecks(data)[k] == Message(k)
  {
    assert FailedFields(data) == (if Blank(data.firstName) then {FirstNameField} else {})
                               + (if Blank(data.lastName) then {LastNameField} else {})
                               + (if BadEmail(data.email) then {EmailField} else {});
  }

  // ---------------------------------------------------------------------------
  // Changes
  // ---------------------------------------------------------------------------

  /** One change event, by the input's `name`, with its new value. */
  datatype Change =
    | SetType(kind: ContactType)
    | SetText(field: Field, value: string)

  /** `{ ...formData, [name]: value }`; the type arrives through the selector. */
  function Apply(data: FormData, change: Change): FormData {
    match change
    case SetType(k) => data.(kind := k)
    case SetText(field, v) =>
      match field
      case FirstNameField => data.(firstName := v)
      case LastNameField => data.(lastName := v)
      case RelationField => data.(relation := v)
      case PhoneField => data.(phone := v)
      case EmailField => data.(email := v)
      case NotesField => data.(notes := v)
      case TypeField => data
  }

  /** The input that fired the change. */
  function FieldOf(change: Change): Field {
    match change
    case SetType(_) => TypeField
    case SetText(field, _) => field
  }

  /** The text an input shows ("" for the type selector). */
  function Text(data: FormData, field: Field): string {
    match field
    case FirstNameField => data.firstName
    case LastNameField => data.lastName
    case RelationField => data.relation
    case PhoneField => data.phone
    case EmailField => data.email
    case NotesField => data.notes
    case TypeField => ""
  }

  /** A text change shows the new value in its input and leaves the type and every other input alone. */
  lemma ApplyOnlyThatField(data: FormData, field: Field, value: string)
    requires field != TypeField
    ensures Apply(data, SetText(field, value)).kind == data.kind
    ensures forall f: Field :: f != TypeField ==>
              Text(Apply(data, SetText(field, value)), f) == if f == field then value else Text(data, f)
  {
  }

  datatype SubmitOutcome = Rejected | Updated(id: string) | Added(id: string)

  class FormState {
    const isEditing: bool
    const contact: Option<Contact>
    var formData: FormData
    var errors: map<Field, string>

    /** The empty form; in edit mode the load effect then fills it from the contact. */
    constructor(contact: Option<Contact>, isEditing: bool)
      ensures this.contact == contact && this.isEditing == isEditing
      ensures formData == EmptyForm && errors == map[]
    {
      this.contact := contact;
      this.isEditing := isEditing;
      formData := EmptyForm;
      errors := map[];
    }

    /** The load effect: in edit mode with a contact, the form shows that contact's fields. */
    method LoadForEdit()
      modifies this`formData
      ensures contact.Some? && isEditing ==> formData == FromContact(contact.value)
      ensures !(contact.Some? && isEditing) ==> formData == old(formData)
    {
      if contact.Some? && isEditing {
        formData := FromContact(contact.value);
      }
    }

    /** `handleChange` */
    method HandleChange(change: Change)
      modifies this`formData, this`errors
      ensures formData == Apply(old(formData), change)
      ensures errors == ClearError(old(errors), FieldOf(change))
    {
      formData := Apply(formData, change);
      var name := FieldOf(change);
      if name in errors && errors[name] != "" {
        errors := errors[name := ""];
      }
    }

    /** `validate`: one message per failed input, and success exactly when none fails. */
    method Validate() returns (ok: bool)
      modifies this`errors
      ensures errors.Keys == FailedFields(formData)
      ensures forall k :: k in errors ==> errors[k] == Message(k)
      ensures ok <==> FailedFields(formData) == {}
    {
      var data := formData;
      var newErrors: map<Field, string> := map[];
      newErrors := Require(newErrors, Trim(data.firstName) == "", FirstNameField, "First name is required");
      newErrors := Require(newErrors, Trim(data.lastName) == "", LastNameField, "Last name is required");
      newErrors := Require(newErrors, data.email != "" && !EmailPattern(data.email), EmailField,
                           "Please enter a valid email address");
      assert newErrors == AllChecks(data);
      AllChecksReport(data);
      errors := newErrors;
      ok := |newErrors| == 0;
    }

    /**
     * `handleSubmit`: a form that fails validation changes nothing; otherwise
     * the contact being edited is updated with the form's fields under its own
     * id, or a new contact is added.
     */
    method HandleSubmit(store: AppContext.Store, newId: string) returns (outcome: SubmitOutcome)
      requires store.Valid()
      modifies this`errors, store`contacts, store`interactions
      ensures outcome.Rejected? <==> FailedFields(formData) != {}
      ensures errors.Keys == FailedFields(formData)
      ensures outcome.Rejected? ==> store.contacts == old(store.contacts) && store.interactions == old(store.interactions)
      ensures outcome.Updated? <==> FailedFields(formData) == {} && isEditing && contact.Some?
      ensures outcome.Updated? ==>
                && outcome.id == contact.value.id
                && store.contacts == ReplaceWhere(old(store.contacts), ContactHasId(outcome.id), Merge(contact.value, formData))
                && store.interactions == AppContext.RenamePerson(old(store.interactions), outcome.id,
                                                                 FullName(formData.firstName, formData.lastName))
      ensures outcome.Added? ==>
                && outcome.id == newId
                && store.contacts == old(store.contacts) + [ToContact(formData).(id := newId)]
                && store.interactions == old(store.interactions)
      ensures store.Valid()
    {
      var ok := Validate();
      if !ok {
        return Rejected;
      }
      if isEditing && contact.Some? {
        store.UpdateContact(Merge(contact.value, formData));
        outcome := Updated(contact.value.id);
      } else {
        store.AddContact(ToContact(formData), newId);
        outcome := Added(newId);
      }
    }
  }
}
