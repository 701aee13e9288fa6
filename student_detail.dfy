/**
 * A student's detail page: the student looked up by the id in the address, the
 * student's interaction history latest first with its totals, and the delete
 * action.
 */
module StudentDetail {
  import opened Wrappers
  import opened Seqs
  import opened Types
  import MockData
  import TimeFormat
  import PersonHistory
  import StudentList
  import AppContext

  const NotFoundMessage := "Student not found."

  /** What the page renders: the not-found message, or the student with the history and its totals. */
  datatype StudentPage =
    | StudentNotFound
    | StudentFound(student: Student, history: seq<Interaction>, totalInteractions: nat, totalMinutes: int,
                   timeText: string, followUpsNeeded: nat)

  /**
   * `students.find(s => s.id === id)`; when found, the history, its length,
   * its summed durations (shown through `formatTime`) and how many entries are
   * flagged for follow-up.
   */
  function View(students: seq<Student>, interactions: seq<Interaction>, id: string): StudentPage {
    match Find(students, StudentHasId(id))
    case None => StudentNotFound
    case Some(student) =>
      var history := PersonHistory.History(interactions, ForStudent, student.id);
      var totalMinutes := MockData.SumDurations(history);
      StudentFound(student, history, |history|, totalMinutes, TimeFormat.FormatTime(totalMinutes),
                   |Filter(history, NeedsFollowUp())|)
  }

  /** The page is found exactly when some student has the id, and then shows the first such student. */
  lemma ViewLooksUp(students: seq<Student>, interactions: seq<Interaction>, id: string)
    ensures View(students, interactions, id).StudentNotFound? <==> forall k :: 0 <= k < |students| ==> students[k].id != id
    ensures View(students, interactions, id).StudentFound? ==>
              exists k :: FirstMatch(students, StudentHasId(id), k) && View(students, interactions, id).student == students[k]
  {
  }

  /**
   * The page's figures agree with the student's card on the roster: the same
   * count, the same minutes, and a positive follow-up count exactly when the
   * card shows the follow-up marker; the follow-up count never exceeds the count.
   */
  lemma ViewAgreesWithCard(students: seq<Student>, interactions: seq<Interaction>, id: string)
    requires View(students, interactions, id).StudentFound?
    ensures var page := View(students, interactions, id);
            var card := StudentList.GetStudentStats(interactions, id);
            && page.totalInteractions == card.totalInteractions
            && page.totalMinutes == card.totalMinutes
            && page.timeText == TimeFormat.FormatTime(card.totalMinutes)
            && (page.followUpsNeeded > 0 <==> card.hasFollowUp)
            && page.followUpsNeeded <= page.totalInteractions
  {
    var page := View(students, interactions, id);
    assert page.student.id == id;
    PersonHistory.HistoryTotals(interactions, ForStudent, id);
    StudentList.AnyFollowUpCount(Filter(interactions, WithPerson(ForStudent, id)));
  }

  /**
   * `handleDelete`: the student leaves the roster; the student's interactions
   * stay in the log (the store does not cascade the deletion).
   */
  method HandleDelete(store: AppContext.Store, student: Student)
    requires store.Valid()
    modifies store`students
    ensures store.students == Filter(old(store.students), Negate(StudentHasId(student.id)))
    ensures forall k :: 0 <= k < |store.students| ==> store.students[k].id != student.id
    ensures store.interactions == old(store.interactions)
  {
    store.DeleteStudent(student.id);
  }
}
