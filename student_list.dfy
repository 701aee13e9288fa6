/**
 * The student roster page: the case-insensitive search over a student's names,
 * grade and notes, and the figures each student card shows.
 */
module StudentList {
  import opened Seqs
  import opened Strings
  import opened Types
  import MockData

  /** The lower-cased term occurs in the lower-cased first name, last name, grade or notes. */
  predicate StudentMatches(s: Student, searchTerm: string) {
    var term := Lower(searchTerm);
    || Contains(Lower(s.firstName), term)
    || Contains(Lower(s.lastName), term)
    || Contains(Lower(s.grade), term)
    || Contains(Lower(s.notes), term)
  }

  function MatchesSearch(searchTerm: string): Student -> bool {
    (s: Student) => StudentMatches(s, searchTerm)
  }

  /** `filteredStudents`: the matching students, in roster order. */
  function FilterStudents(students: seq<Student>, searchTerm: string): seq<Student> {
    Filter(students, MatchesSearch(searchTerm))
  }

  /** The empty search box lists the whole roster. */
  lemma EmptySearchKeepsAll(students: seq<Student>)
    ensures FilterStudents(students, "") == students
  {
    forall i | 0 <= i < |students| ensures MatchesSearch("")(students[i]) {
      ContainsEmpty(Lower(students[i].firstName));
    }
    FilterKeepsAll(students, MatchesSearch(""));
  }

  /** The case of the term makes no difference. */
  lemma SearchIgnoresCase(students: seq<Student>, searchTerm: string)
    ensures FilterStudents(students, Lower(searchTerm)) == FilterStudents(students, searchTerm)
  {
    LowerIdempotent(searchTerm);
    FilterExt(students, MatchesSearch(Lower(searchTerm)), MatchesSearch(searchTerm));
  }

  /**
   * Typing more narrows the list: the students matching a longer term are the
   * ones of the shorter term's list that match it, in the same order.
   */
  lemma LongerTermNarrows(students: seq<Student>, term: string, more: string)
    ensures FilterStudents(students, term + more) == Filter(FilterStudents(students, term), MatchesSearch(term + more))
    ensures Subseq(FilterStudents(students, term + more), FilterStudents(students, term))
  {
    LowerAppend(term, more);
    var t, m := Lower(term), Lower(more);
    forall i | 0 <= i < |students|
      ensures MatchesSearch(term + more)(students[i]) ==> MatchesSearch(term)(students[i])
    {
      var s := students[i];
      if Contains(Lower(s.firstName), t + m) { ContainsPrefixOf(Lower(s.firstName), t, m); }
      if Contains(Lower(s.lastName), t + m) { ContainsPrefixOf(Lower(s.lastName), t, m); }
      if Contains(Lower(s.grade), t + m) { ContainsPrefixOf(Lower(s.grade), t, m); }
      if Contains(Lower(s.notes), t + m) { ContainsPrefixOf(Lower(s.notes), t, m); }
    }
    FilterNarrow(students, MatchesSearch(term + more), MatchesSearch(term));
  }

  // ---------------------------------------------------------------------------
  // The figures on a student card
  // ---------------------------------------------------------------------------

  datatype StudentStats = StudentStats(totalInteractions: nat, totalMinutes: int, hasFollowUp: bool)

  /** `studentInteractions.some(i => i.followUpNeeded)` */
  predicate AnyFollowUp(s: seq<Interaction>) {
    exists k :: 0 <= k < |s| && s[k].followUpNeeded
  }

  /**
   * `getStudentStats`: over the records of type Student whose person is the
   * student, their number, their summed durations and whether any is flagged.
   */
  function GetStudentStats(interactions: seq<Interaction>, studentId: string): (r: StudentStats)
    ensures r.totalInteractions <= |interactions|
  {
    var mine := Filter(interactions, WithPerson(ForStudent, studentId));
    StudentStats(|mine|, MockData.SumDurations(mine), AnyFollowUp(mine))
  }

  /** The card's follow-up marker shows exactly when some record of this student in the log is flagged. */
  lemma HasFollowUpIff(interactions: seq<Interaction>, studentId: string)
    ensures GetStudentStats(interactions, studentId).hasFollowUp
        <==> exists k :: 0 <= k < |interactions| && interactions[k].kind == ForStudent
                         && interactions[k].personId == studentId && interactions[k].followUpNeeded
  {
    var p := WithPerson(ForStudent, studentId);
    var mine := Filter(interactions, p);
    if k :| 0 <= k < |mine| && mine[k].followUpNeeded {
      assert mine[k] in interactions;
      var j :| 0 <= j < |interactions| && interactions[j] == mine[k];
      assert p(interactions[j]);
    }
    if j :| 0 <= j < |interactions| && p(interactions[j]) && interactions[j].followUpNeeded {
      assert interactions[j] in mine;
      var k :| 0 <= k < |mine| && mine[k] == interactions[j];
      assert mine[k].followUpNeeded;
    }
  }

  /** Some record is flagged exactly when filtering the flagged ones leaves something. */
  lemma AnyFollowUpCount(s: seq<Interaction>)
    ensures AnyFollowUp(s) <==> |Filter(s, NeedsFollowUp())| > 0
  {
    var flagged := Filter(s, NeedsFollowUp());
    if k :| 0 <= k < |s| && s[k].followUpNeeded {
      assert s[k] in flagged;
    }
    if |flagged| > 0 {
      assert flagged[0] in s;
    }
  }

  /** One more record in front is flagged, or one of the rest is. */
  lemma AnyFollowUpCons(x: Interaction, s: seq<Interaction>)
    ensures AnyFollowUp([x] + s) <==> x.followUpNeeded || AnyFollowUp(s)
  {
    var s' := [x] + s;
    assert s'[0] == x;
    if k :| 0 <= k < |s| && s[k].followUpNeeded {
      assert s'[k + 1].followUpNeeded;
    }
    if k :| 0 < k < |s'| && s'[k].followUpNeeded {
      assert s[k - 1].followUpNeeded;
    }
  }

  /**
   * A record logged for the student (added at the front, as the store does)
   * counts once, adds its duration and can raise the follow-up marker; a record
   * of anyone else, or of a contact with the same id, changes nothing.
   */
  lemma StudentStatsAfterPrepend(x: Interaction, interactions: seq<Interaction>, studentId: string)
    ensures var before := GetStudentStats(interactions, studentId);
            var after := GetStudentStats([x] + interactions, studentId);
            if x.kind == ForStudent && x.personId == studentId then
              after == StudentStats(before.totalInteractions + 1, before.totalMinutes + x.duration,
                                    before.hasFollowUp || x.followUpNeeded)
            else after == before
  {
    var p := WithPerson(ForStudent, studentId);
    var mine := Filter(interactions, p);
    FilterCons(x, interactions, p);
    if p(x) {
      assert ([x] + mine)[1..] == mine;
      AnyFollowUpCons(x, mine);
    }
  }
}
