/**
 * The form that logs or edits an interaction: its state (the field values,
 * the error messages and the displayed duration), the change handlers, the
 * validation and the submission to the store.
 */
module InteractionForm {
  import opened Wrappers
  import opened Seqs
  import opened Strings
  import opened Types
  import opened Time
  import opened FormErrors
  import AppContext

  /** The fields of the form; the follow-up date is a plain string, "" when not set. */
  datatype FormData = FormData(
    date: string,
    startTime: string,
    endTime: string,
    kind: InteractionType,
    personId: string,
    reasonIds: seq<string>,
    notes: string,
    followUpNeeded: bool,
    followUpDate: string)

  /** What a `type="time"` input can hold: a clock time, or nothing once cleared. */
  predicate TimeInput(s: string) {
    s == "" || IsTime(s)
  }

  // ---------------------------------------------------------------------------
  // Defaults and loading
  // ---------------------------------------------------------------------------

  /** The query parameters the calendar passes to a new form. */
  datatype Query = Query(
    date: Option<string>,
    startTime: Option<string>,
    endTime: Option<string>,
    kind: Option<InteractionType>,
    personId: Option<string>)

  /** `searchParams.get(name) || fallback`: a missing or empty parameter gives the fallback. */
  function ParamOr(param: Option<string>, fallback: string): (r: string)
    ensures param.Some? && param.value != "" ==> r == param.value
    ensures param.None? || param.value == "" ==> r == fallback
  {
    if param.Some? && param.value != "" then param.value else fallback
  }

  /** The initial fields: today from 08:00 to 08:30 with a student, no reasons and no follow-up, unless the query says otherwise. */
  function Defaults(query: Query, today: string): FormData {
    FormData(
      ParamOr(query.date, today),
      ParamOr(query.startTime, "08:00"),
      ParamOr(query.endTime, "08:30"),
      query.kind.GetOr(ForStudent),
      ParamOr(query.personId, ""),
      [], "", false, "")
  }

  /** The fields of a stored record, loaded for editing; a missing follow-up date becomes "". */
  function FromInteraction(x: Interaction): FormData {
    FormData(x.date, x.startTime, x.endTime, x.kind, x.personId, x.reasonIds, x.notes,
             x.followUpNeeded, x.followUpDate.GetOr(""))
  }

  // ---------------------------------------------------------------------------
  // Duration
  // ---------------------------------------------------------------------------

  /**
   * The duration effect: the store's calculation when it is not negative, and
   * 0 otherwise. A cleared time makes the calculation NaN, which is not `>= 0`,
   * so it gives 0 as well.
   */
  function FormDuration(startTime: string, endTime: string): int {
    if IsTime(startTime) && IsTime(endTime) then
      var calculated := AppContext.CalculateInteractionDuration(startTime, endTime);
      if calculated >= 0 then calculated else 0
    else 0
  }

  /**
   * The displayed duration is never negative: it is the minutes from start to
   * end when the end is not before the start, and 0 when it is.
   */
  lemma FormDurationClamp(startTime: string, endTime: string)
    requires IsTime(startTime) && IsTime(endTime)
    ensures FormDuration(startTime, endTime) >= 0
    ensures TotalMinutes(startTime) <= TotalMinutes(endTime) ==>
              FormDuration(startTime, endTime) == TotalMinutes(endTime) - TotalMinutes(startTime)
    ensures TotalMinutes(endTime) < TotalMinutes(startTime) ==> FormDuration(startTime, endTime) == 0
  {
  }

  /** The default times give the thirty minutes the duration starts at. */
  lemma DefaultDuration()
    ensures IsTime("08:00") && IsTime("08:30") && FormDuration("08:00", "08:30") == 30
  {
    assert NatToString(30) == NatToString(3) + [DigitChar(0)];
    assert ClockText(8, 0) == "08:00";
    assert ClockText(8, 30) == "08:30";
    ClockTextParses(8, 0);
    ClockTextParses(8, 30);
  }

  // ---------------------------------------------------------------------------
  // Validation
  // ---------------------------------------------------------------------------

  /** The inputs of the form, by their `name` attribute; the error messages are keyed by them. */
  datatype Field =
    | DateField | StartTimeField | EndTimeField | TypeField | PersonField | ReasonsField
    | NotesField | FollowUpNeededField | FollowUpDateField

  /** The inputs `validate` can report. */
  const RequiredFields: set<Field> := {DateField, StartTimeField, EndTimeField, PersonField, ReasonsField, FollowUpDateField}

  /** The input has no usable value (the follow-up date only counts when a follow-up is wanted). */
  predicate IsMissing(data: FormData, field: Field) {
    match field
    case DateField => data.date == ""
    case StartTimeField => data.startTime == ""
    case EndTimeField => data.endTime == ""
    case PersonField => data.personId == ""
    case ReasonsField => |data.reasonIds| == 0
    case FollowUpDateField => data.followUpNeeded && data.followUpDate == ""
    case _ => false
  }

  function MissingFields(data: FormData): set<Field> {
    set field | field in RequiredFields && IsMissing(data, field)
  }

  /** The message `validate` stores for a missing input. */
  function RequiredMessage(field: Field): string {
    match field
    case DateField => "Date is required"
    case StartTimeField => "Start time is required"
    case EndTimeField => "End time is required"
    case PersonField => "Please select a person"
    case ReasonsField => "At least one reason is required"
    case FollowUpDateField => "Follow-up date is required"
    case _ => ""
  }

  /** Everything `validate` asks for. */
  predicate Complete(data: FormData) {
    && data.date != "" && data.startTime != "" && data.endTime != "" && data.personId != ""
    && |data.reasonIds| > 0
    && (data.followUpNeeded ==> data.followUpDate != "")
  }

  /** Nothing is missing exactly when the form is complete. */
  lemma MissingFieldsEmpty(data: FormData)
    ensures MissingFields(data) == {} <==> Complete(data)
  {
    if data.date == "" { assert DateField in MissingFields(data); }
    if data.startTime == "" { assert StartTimeField in MissingFields(data); }
    if data.endTime == "" { assert EndTimeField in MissingFields(data); }
    if data.personId == "" { assert PersonField in MissingFields(data); }
    if |data.reasonIds| == 0 { assert ReasonsField in MissingFields(data); }
    if data.followUpNeeded && data.followUpDate == "" { assert FollowUpDateField in MissingFields(data); }
  }

  /** The messages so far: one per missing input among those checked, each the required-field message. */
  predicate Reports(errors: map<Field, string>, data: FormData, checked: set<Field>) {
    && (forall f :: f in errors <==> f in checked && IsMissing(data, f))
    && (forall f :: f in errors ==> errors[f] == RequiredMessage(f))
  }

  /** One statement of `validate`: the message for the input when it is missing. */
  function Check(errors: map<Field, string>, data: FormData, field: Field): map<Field, string> {
    Require(errors, IsMissing(data, field), field, RequiredMessage(field))
  }

  /** The statements of `validate` in their order, starting from no messages. */
  function AllChecks(data: FormData): map<Field, string> {
    var errors := Check(map[], data, DateField);
    var errors := Check(errors, data, StartTimeField);
    var errors := Check(errors, data, EndTimeField);
    var errors := Check(errors, data, PersonField);
    var errors := Check(errors, data, ReasonsField);
    Check(errors, data, FollowUpDateField)
  }

  /** Checking one more input keeps the messages in step with what is missing. */
  lemma CheckStep(errors: map<Field, string>, data: FormData, checked: set<Field>, field: Field)
    requires Reports(errors, data, checked)
    ensures Reports(Check(errors, data, field), data, checked + {field})
  {
  }

  /** After all the statements there is one message per missing input, the required-field one. */
  lemma AllChecksReport(data: FormData)
    ensures AllChecks(data).Keys == MissingFields(data)
    ensures forall k :: k in AllChecks(data) ==> AllChecks(data)[k] == RequiredMessage(k)
  {
    var e0: map<Field, string> := map[];
    CheckStep(e0, data, {}, DateField);
    var e1 := Check(e0, data, DateField);
    CheckStep(e1, data, {DateField}, StartTimeField);
    var e2 := Check(e1, data, StartTimeField);
    CheckStep(e2, data, {DateField, StartTimeField}, EndTimeField);
    var e3 := Check(e2, data, EndTimeField);
    CheckStep(e3, data, {DateField, StartTimeField, EndTimeField}, PersonField);
    var e4 := Check(e3, data, PersonField);
    CheckStep(e4, data, {DateField, StartTimeField, EndTimeField, PersonField}, ReasonsField);
    var e5 := Check(e4, data, ReasonsField);
    CheckStep(e5, data, {DateField, StartTimeField, EndTimeField, PersonField, ReasonsField}, FollowUpDateField);
    assert {DateField, StartTimeField, EndTimeField, PersonField, ReasonsField} + {FollowUpDateField} == RequiredFields;
  }

  /**
   * An end time before the start time passes validation: the duration shows 0
   * and no field is reported for it, since the `duration < 0` check never fires.
   */
  lemma EndBeforeStartPasses(data: FormData)
    requires IsTime(data.startTime) && IsTime(data.endTime)
    requires TotalMinutes(data.endTime) < TotalMinutes(data.startTime)
    ensures FormDuration(data.startTime, data.endTime) == 0
    ensures EndTimeField !in MissingFields(data)
  {
  }

  // ---------------------------------------------------------------------------
  // Field changes
  // ---------------------------------------------------------------------------

  /** One change event of an input, by the input's `name`, with its new value (or checked state). */
  datatype Change =
    | SetDate(value: string)
    | SetStartTime(value: string)
    | SetEndTime(value: string)
    | SetType(kind: InteractionType)
    | SetPerson(value: string)
    | SetNotes(value: string)
    | SetFollowUpNeeded(checked: bool)
    | SetFollowUpDate(value: string)

  /** The input that fired the change. */
  function FieldOf(change: Change): Field {
    match change
    case SetDate(_) => DateField
    case SetStartTime(_) => StartTimeField
    case SetEndTime(_) => EndTimeField
    case SetType(_) => TypeField
    case SetPerson(_) => PersonField
    case SetNotes(_) => NotesField
    case SetFollowUpNeeded(_) => FollowUpNeededField
    case SetFollowUpDate(_) => FollowUpDateField
  }

  /** `{ ...formData, [name]: value }` (or `checked` for the checkbox). */
  function Apply(data: FormData, change: Change): FormData {
    match change
    case SetDate(v) => data.(date := v)
    case SetStartTime(v) => data.(startTime := v)
    case SetEndTime(v) => data.(endTime := v)
    case SetType(k) => data.(kind := k)
    case SetPerson(v) => data.(personId := v)
    case SetNotes(v) => data.(notes := v)
    case SetFollowUpNeeded(c) => data.(followUpNeeded := c)
    case SetFollowUpDate(v) => data.(followUpDate := v)
  }

  /**
   * `handleReasonChange`: a checked reason is appended at the end; an
   * unchecked one is removed wherever it occurs.
   */
  function ToggleReason(reasonIds: seq<string>, value: string, checked: bool): seq<string> {
    if checked then reasonIds + [value] else Filter(reasonIds, Negate(IsId(value)))
  }

  function IsId(value: string): string -> bool {
    (id: string) => id == value
  }

  /**
   * Unchecking removes every occurrence and keeps the other ids in their order
   * and number; checking appends the id and keeps the rest in front.
   */
  lemma ToggleReasonSpec(reasonIds: seq<string>, value: string)
    ensures value !in ToggleReason(reasonIds, value, false)
    ensures forall id :: id != value ==> multiset(ToggleReason(reasonIds, value, false))[id] == multiset(reasonIds)[id]
    ensures Subseq(ToggleReason(reasonIds, value, false), reasonIds)
    ensures ToggleReason(reasonIds, value, true) == reasonIds + [value]
  {
  }

  /** Checking a reason that was not selected and unchecking it again restores the selection. */
  lemma {:induction false} ToggleReasonRoundTrip(reasonIds: seq<string>, value: string)
    requires value !in reasonIds
    ensures ToggleReason(ToggleReason(reasonIds, value, true), value, false) == reasonIds
  {
    var p := Negate(IsId(value));
    FilterAppend(reasonIds, [value], p);
    assert Filter([value], p) == [] by {
      assert [value][1..] == [];
    }
    FilterKeepsAll(reasonIds, p);
  }

  // ---------------------------------------------------------------------------
  // Submission
  // ---------------------------------------------------------------------------

  /**
   * The person's name for the record: "first last" of the student or the
   * contact with the id, according to the type, or "" when there is none.
   */
  function PersonName(kind: InteractionType, personId: string, students: seq<Student>, contacts: seq<Contact>): string {
    match kind
    case ForStudent =>
      (match Find(students, StudentHasId(personId))
       case Some(s) => FullName(s.firstName, s.lastName)
       case None => "")
    case ForContact =>
      (match Find(contacts, ContactHasId(personId))
       case Some(c) => FullName(c.firstName, c.lastName)
       case None => "")
  }

  /**
   * The name is empty exactly when no person of the selected type has the id
   * (a full name always holds the separating space); switching the type
   * therefore invalidates an id of the other type.
   */
  lemma PersonNameEmptyIff(kind: InteractionType, personId: string, students: seq<Student>, contacts: seq<Contact>)
    ensures PersonName(kind, personId, students, contacts) == "" <==>
              match kind
              case ForStudent => forall k :: 0 <= k < |students| ==> students[k].id != personId
              case ForContact => forall k :: 0 <= k < |contacts| ==> contacts[k].id != personId
  {
    match kind {
      case ForStudent =>
        var found := Find(students, StudentHasId(personId));
        if found.Some? {
          assert |FullName(found.value.firstName, found.value.lastName)| > 0;
        }
      case ForContact =>
        var found := Find(contacts, ContactHasId(personId));
        if found.Some? {
          assert |FullName(found.value.firstName, found.value.lastName)| > 0;
        }
    }
  }

  /** `{ ...formData, personName, duration }`; the store gives it its id. */
  function Submitted(data: FormData, personName: string, duration: int): Interaction {
    Interaction("", data.date, data.startTime, data.endTime, duration, data.kind, data.personId, personName,
                data.reasonIds, data.notes, data.followUpNeeded, Some(data.followUpDate))
  }

  /** `isEditing && id`: the id of the record being edited, when there is one. */
  function EditTarget(isEditing: bool, routeId: Option<string>): Option<string> {
    if isEditing && routeId.Some? && routeId.value != "" then routeId else None
  }

  datatype SubmitOutcome = Rejected | UnknownPerson | Updated(id: string) | Added(id: string)

  class FormState {
    const isEditing: bool
    const routeId: Option<string>
    var formData: FormData
    var errors: map<Field, string>
    var duration: int

    /** The time inputs hold clock times or nothing, and the duration follows them. */
    ghost predicate Valid()
      reads this`formData, this`duration
    {
      && TimeInput(formData.startTime) && TimeInput(formData.endTime)
      && duration == FormDuration(formData.startTime, formData.endTime)
    }

    /** The new form, its fields from the query; the duration effect has run. */
    constructor(isEditing: bool, routeId: Option<string>, query: Query, today: string)
      requires query.startTime.None? || TimeInput(query.startTime.value)
      requires query.endTime.None? || TimeInput(query.endTime.value)
      ensures this.isEditing == isEditing && this.routeId == routeId
      ensures formData == Defaults(query, today) && errors == map[]
      ensures Valid()
    {
      this.isEditing := isEditing;
      this.routeId := routeId;
      DefaultDuration();
      formData := Defaults(query, today);
      errors := map[];
      duration := FormDuration(Defaults(query, today).startTime, Defaults(query, today).endTime);
    }

    /** The load effect: in edit mode the record with the route's id, when found, fills the form. */
    method LoadForEdit(interactions: seq<Interaction>)
      requires Valid()
      requires forall k :: 0 <= k < |interactions| ==> IsTime(interactions[k].startTime) && IsTime(interactions[k].endTime)
      modifies this`formData, this`duration
      ensures (isEditing && routeId.Some? && routeId.value != "" && Find(interactions, InteractionHasId(routeId.value)).Some?)
              ==> formData == FromInteraction(Find(interactions, InteractionHasId(routeId.value)).value)
      ensures !(isEditing && routeId.Some? && routeId.value != "" && Find(interactions, InteractionHasId(routeId.value)).Some?)
              ==> formData == old(formData)
      ensures Valid()
    {
      if isEditing && routeId.Some? && routeId.value != "" {
        var interaction := Find(interactions, InteractionHasId(routeId.value));
        if interaction.Some? {
          formData := FromInteraction(interaction.value);
          duration := FormDuration(formData.startTime, formData.endTime);
        }
      }
    }

    /** `handleChange`, followed by the duration effect. */
    method HandleChange(change: Change)
      requires Valid()
      requires change.SetStartTime? || change.SetEndTime? ==> TimeInput(change.value)
      modifies this`formData, this`errors, this`duration
      ensures formData == Apply(old(formData), change)
      ensures errors == ClearError(old(errors), FieldOf(change))
      ensures Valid()
    {
      formData := Apply(formData, change);
      var name := FieldOf(change);
      if name in errors && errors[name] != "" {
        errors := errors[name := ""];
      }
      duration := FormDuration(formData.startTime, formData.endTime);
    }

    /** `handleReasonChange`, which also blanks the reasons' message. */
    method HandleReasonChange(value: string, checked: bool)
      requires Valid()
      modifies this`formData, this`errors
      ensures formData == old(formData).(reasonIds := ToggleReason(old(formData.reasonIds), value, checked))
      ensures errors == ClearError(old(errors), ReasonsField)
      ensures Valid()
    {
      if checked {
        formData := formData.(reasonIds := formData.reasonIds + [value]);
      } else {
        formData := formData.(reasonIds := Filter(formData.reasonIds, Negate(IsId(value))));
      }
      if ReasonsField in errors && errors[ReasonsField] != "" {
        errors := errors[ReasonsField := ""];
      }
    }

    /**
     * `validate`: one message per missing field, and success exactly when the
     * form is complete. The end-time message is the required-field one,
     * because the displayed duration is never negative.
     */
    method Validate() returns (ok: bool)
      requires Valid()
      modifies this`errors
      ensures errors.Keys == MissingFields(formData)
      ensures forall k :: k in errors ==> errors[k] == RequiredMessage(k)
      ensures ok <==> Complete(formData)
    {
      var data := formData;
      var newErrors: map<Field, string> := map[];
      newErrors := Check(newErrors, data, DateField);
      newErrors := Check(newErrors, data, StartTimeField);
      newErrors := Check(newErrors, data, EndTimeField);
      // The displayed duration is clamped at 0, so this message is never set.
      if duration < 0 { newErrors := newErrors[EndTimeField := "End time must be after start time"]; }
      newErrors := Check(newErrors, data, PersonField);
      newErrors := Check(newErrors, data, ReasonsField);
      newErrors := Check(newErrors, data, FollowUpDateField);
      AllChecksReport(data);
      errors := newErrors;
      MissingFieldsEmpty(data);
      ok := |newErrors| == 0;
    }

    /**
     * `handleSubmit`: an incomplete form is rejected with its messages; a
     * person that cannot be resolved leaves only the person message; otherwise
     * the record is sent to the store, as an update of the edited id or as a
     * new record. The store recomputes the duration from the times.
     */
    method HandleSubmit(store: AppContext.Store, newId: string) returns (outcome: SubmitOutcome)
      requires Valid()
      modifies this`errors, store`interactions, store`stats
      ensures outcome.Rejected? <==> !Complete(formData)
      ensures outcome.Rejected? ==> errors.Keys == MissingFields(formData)
      ensures outcome.UnknownPerson? <==>
                Complete(formData) && PersonName(formData.kind, formData.personId, store.students, store.contacts) == ""
      ensures outcome.UnknownPerson? ==> errors == map[PersonField := "Invalid person selected"]
      ensures outcome.Rejected? || outcome.UnknownPerson? ==>
                store.interactions == old(store.interactions) && store.stats == old(store.stats)
      ensures outcome.Updated? ==> EditTarget(isEditing, routeId) == Some(outcome.id)
      ensures outcome.Added? ==> EditTarget(isEditing, routeId).None? && outcome.id == newId
      ensures outcome.Updated? || outcome.Added? ==>
                var record := Submitted(formData, PersonName(formData.kind, formData.personId, store.students, store.contacts), duration)
                              .(id := outcome.id);
                var stored := record.(duration := AppContext.CalculateInteractionDuration(record.startTime, record.endTime));
                && IsTime(record.startTime) && IsTime(record.endTime)
                && store.Valid()
                && (outcome.Updated? ==> store.interactions == ReplaceWhere(old(store.interactions), InteractionHasId(outcome.id), stored))
                && (outcome.Added? ==> store.interactions == [stored] + old(store.interactions))
    {
      var ok := Validate();
      if !ok {
        return Rejected;
      }
      var personName := PersonName(formData.kind, formData.personId, store.students, store.contacts);
      if personName == "" {
        errors := map[PersonField := "Invalid person selected"];
        return UnknownPerson;
      }
      var record := Submitted(formData, personName, duration);
      var target := EditTarget(isEditing, routeId);
      if target.Some? {
        store.UpdateInteraction(record.(id := target.value));
        outcome := Updated(target.value);
      } else {
        store.AddInteraction(record, newId);
        outcome := Added(newId);
      }
    }
  }
}
