/**
 * The form that adds a student to the roster or edits one: the four fields,
 * their error messages, the validation of the required fields and the
 * submission to the store.
 */
module StudentForm {
  import opened Wrappers
  import opened Seqs
  import opened Strings
  import opened Types
  import opened FormErrors
  import AppContext

  datatype FormData = FormData(firstName: string, lastName: string, grade: string, notes: string)

  /** The inputs of the form, by their `name` attribute. */
  datatype Field = FirstNameField | LastNameField | GradeField | NotesField

  const EmptyForm := FormData("", "", "", "")

  /** The values of the grade selector, after its empty "Select Grade" entry. */
  const GradeChoices: seq<string> := ["K", "1", "2", "3", "4", "5", "6", "7", "8", "9", "10", "11", "12"]

  /** The fields of a student, loaded for editing. */
  function FromStudent(s: Student): FormData {
    FormData(s.firstName, s.lastName, s.grade, s.notes)
  }

  /** `{ ...student, ...formData }`: the edited fields over the student, whose id stays. */
  function Merge(s: Student, data: FormData): Student {
    s.(firstName := data.firstName, lastName := data.lastName, grade := data.grade, notes := data.notes)
  }

  /** `addStudent(formData)`: the fields as a record; the store supplies the id. */
  function ToStudent(data: FormData): Student {
    Student("", data.firstName, data.lastName, data.grade, data.notes)
  }

  /**
   * Loading a student and submitting the form unchanged gives the same student
   * back; a merge keeps the id and takes every field from the form, so loading
   * the merged student shows the form again.
   */
  lemma MergeRoundTrip(s: Student, data: FormData)
    ensures Merge(s, FromStudent(s)) == s
    ensures Merge(s, data).id == s.id
    ensures FromStudent(Merge(s, data)) == data
  {
  }

  // ---------------------------------------------------------------------------
  // Validation
  // ---------------------------------------------------------------------------

  /** `!value.trim()` */
  predicate Blank(value: string) {
    Trim(value) == ""
  }

  /** The input fails the required-field check. */
  predicate IsMissing(data: FormData, field: Field) {
    match field
    case FirstNameField => Blank(data.firstName)
    case LastNameField => Blank(data.lastName)
    case GradeField => Blank(data.grade)
    case NotesField => false
  }

  function MissingFields(data: FormData): set<Field> {
    set field: Field | IsMissing(data, field)
  }

  function RequiredMessage(field: Field): string {
    match field
    case FirstNameField => "First name is required"
    case LastNameField => "Last name is required"
    case GradeField => "Grade is required"
    case NotesField => ""
  }

  /** A value is blank exactly when it holds white space only; the notes are never checked. */
  lemma MissingIffSpaceOnly(data: FormData, field: Field)
    ensures IsMissing(data, field) <==>
              match field
              case FirstNameField => AllSpace(data.firstName)
              case LastNameField => AllSpace(data.lastName)
              case GradeField => AllSpace(data.grade)
              case NotesField => false
  {
    TrimEmptyIff(data.firstName);
    TrimEmptyIff(data.lastName);
    TrimEmptyIff(data.grade);
  }

  /** Any grade the selector offers passes the grade check; its empty entry does not. */
  lemma GradeChoicesPass(data: FormData)
    ensures data.grade in GradeChoices ==> !IsMissing(data, GradeField)
    ensures data.grade == "" ==> IsMissing(data, GradeField)
  {
    TrimEmptyIff(data.grade);
    if data.grade in GradeChoices {
      assert !IsSpace(data.grade[0]);
    }
  }

  /** The statements of `validate` in their order, starting from no messages. */
  function AllChecks(data: FormData): map<Field, string> {
    var errors := Require(map[], Blank(data.firstName), FirstNameField, RequiredMessage(FirstNameField));
    var errors := Require(errors, Blank(data.lastName), LastNameField, RequiredMessage(LastNameField));
    Require(errors, Blank(data.grade), GradeField, RequiredMessage(GradeField))
  }

  /** After all the statements there is one message per missing input, the required-field one. */
  lemma AllChecksReport(data: FormData)
    ensures AllChecks(data).Keys == MissingFields(data)
    ensures forall k :: k in AllChecks(data) ==> AllChecks(data)[k] == RequiredMessage(k)
  {
    assert MissingFields(data) == (if Blank(data.firstName) then {FirstNameField} else {})
                                + (if Blank(data.lastName) then {LastNameField} else {})
                                + (if Blank(data.grade) then {GradeField} else {});
  }

  // ---------------------------------------------------------------------------
  // Changes
  // ---------------------------------------------------------------------------

  /** `{ ...formData, [name]: value }` */
  function Apply(data: FormData, field: Field, value: string): FormData {
    match field
    case FirstNameField => data.(firstName := value)
    case LastNameField => data.(lastName := value)
    case GradeField => data.(grade := value)
    case NotesField => data.(notes := value)
  }

  /** The value an input shows. */
  function Value(data: FormData, field: Field): string {
    match field
    case FirstNameField => data.firstName
    case LastNameField => data.lastName
    case GradeField => data.grade
    case NotesField => data.notes
  }

  /** The changed input shows the new value and every other input keeps its own. */
  lemma ApplyOnlyThatField(data: FormData, field: Field, value: string)
    ensures forall f: Field :: Value(Apply(data, field, value), f) == if f == field then value else Value(data, f)
  {
  }

  datatype SubmitOutcome = Rejected | Updated(id: string) | Added(id: string)

  class FormState {
    const isEditing: bool
    const student: Option<Student>
    var formData: FormData
    var errors: map<Field, string>

    /** The empty form; in edit mode the load effect then fills it from the student. */
    constructor(student: Option<Student>, isEditing: bool)
      ensures this.student == student && this.isEditing == isEditing
      ensures formData == EmptyForm && errors == map[]
    {
      this.student := student;
      this.isEditing := isEditing;
      formData := EmptyForm;
      errors := map[];
    }

    /** The load effect: in edit mode with a student, the form shows that student's fields. */
    method LoadForEdit()
      modifies this`formData
      ensures student.Some? && isEditing ==> formData == FromStudent(student.value)
      ensures !(student.Some? && isEditing) ==> formData == old(formData)
    {
      if student.Some? && isEditing {
        formData := FromStudent(student.value);
      }
    }

    /** `handleChange` */
    method HandleChange(field: Field, value: string)
      modifies this`formData, this`errors
      ensures formData == Apply(old(formData), field, value)
      ensures errors == ClearError(old(errors), field)
    {
      formData := Apply(formData, field, value);
      if field in errors && errors[field] != "" {
        errors := errors[field := ""];
      }
    }

    /** `validate`: one message per blank required field, and success exactly when there is none. */
    method Validate() returns (ok: bool)
      modifies this`errors
      ensures errors.Keys == MissingFields(formData)
      ensures forall k :: k in errors ==> errors[k] == RequiredMessage(k)
      ensures ok <==> MissingFields(formData) == {}
    {
      var data := formData;
      var newErrors: map<Field, string> := map[];
      newErrors := Require(newErrors, Trim(data.firstName) == "", FirstNameField, "First name is required");
      newErrors := Require(newErrors, Trim(data.lastName) == "", LastNameField, "Last name is required");
      newErrors := Require(newErrors, Trim(data.grade) == "", GradeField, "Grade is required");
      assert newErrors == AllChecks(data);
      AllChecksReport(data);
      errors := newErrors;
      ok := |newErrors| == 0;
    }

    /**
     * `handleSubmit`: a form with a blank required field changes nothing;
     * otherwise the student being edited is updated with the form's fields
     * under its own id, or a new student is added.
     */
    method HandleSubmit(store: AppContext.Store, newId: string) returns (outcome: SubmitOutcome)
      requires store.Valid()
      modifies this`errors, store`students, store`interactions
      ensures outcome.Rejected? <==> MissingFields(formData) != {}
      ensures errors.Keys == MissingFields(formData)
      ensures outcome.Rejected? ==> store.students == old(store.students) && store.interactions == old(store.interactions)
      ensures outcome.Updated? <==> MissingFields(formData) == {} && isEditing && student.Some?
      ensures outcome.Updated? ==>
                && outcome.id == student.value.id
                && store.students == ReplaceWhere(old(store.students), StudentHasId(outcome.id), Merge(student.value, formData))
                && store.interactions == AppContext.RenamePerson(old(store.interactions), outcome.id,
                                                                 FullName(formData.firstName, formData.lastName))
      ensures outcome.Added? ==>
                && outcome.id == newId
                && store.students == old(store.students) + [ToStudent(formData).(id := newId)]
                && store.interactions == old(store.interactions)
      ensures store.Valid()
    {
      var ok := Validate();
      if !ok {
        return Rejected;
      }
      if isEditing && student.Some? {
        store.UpdateStudent(Merge(student.value, formData));
        outcome := Updated(student.value.id);
      } else {
        store.AddStudent(ToStudent(formData), newId);
        outcome := Added(newId);
      }
    }
  }
}
