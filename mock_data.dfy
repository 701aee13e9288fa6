/**
 * The seed data of the store: random start times, end times computed from a
 * start and a duration, the generated interaction log sorted newest first, and
 * the statistics over it.
 *
 * `Math.random()` draws are nondeterministic choices within the range each draw
 * can produce; the calendar dates of the last 30 days are an input.
 */
module MockData {
  import opened Wrappers
  import opened Seqs
  import opened Strings
  import opened Numbers
  import opened Types
  import opened Time

  // ---------------------------------------------------------------------------
  // Times
  // ---------------------------------------------------------------------------

  /**
   * `getRandomTime`: hours `floor(r * 8) + 8`, minutes `floor(r * 4) * 15`, both
   * zero-padded to two digits, for the draws `hourDraw` and `quarterDraw`.
   */
  function RandomTime(hourDraw: nat, quarterDraw: nat): (t: string)
    requires hourDraw < 8 && quarterDraw < 4
    ensures IsTime(t) && 8 <= Hours(t) <= 15
    ensures Minutes(t) in {0, 15, 30, 45}
    ensures |t| == 5 && t[2] == ':'
  {
    ClockTextParses(hourDraw + 8, quarterDraw * 15);
    ClockTextShort(hourDraw + 8, quarterDraw * 15);
    ClockText(hourDraw + 8, quarterDraw * 15)
  }

  /**
   * `calculateEndTime`: the start plus the duration, as hours `Math.floor(total / 60)`
   * and minutes `total % 60` (JavaScript remainder), each padded to two digits.
   * Hours are not wrapped at 24. When the total is not negative the result reads
   * back as exactly that many minutes.
   */
  function CalculateEndTime(startTime: string, durationMinutes: int): (endTime: string)
    requires IsTime(startTime)
    ensures TotalMinutes(startTime) + durationMinutes >= 0 ==>
              IsTime(endTime) && TotalMinutes(endTime) == TotalMinutes(startTime) + durationMinutes
  {
    var total := TotalMinutes(startTime) + durationMinutes;
    var endTime := PadStart2(IntToString(FloorDiv(total, 60))) + ":" + PadStart2(IntToString(TruncRem(total, 60)));
    if total >= 0 then
      ClockTextParses(total / 60, total % 60);
      assert endTime == ClockText(total / 60, total % 60);
      endTime
    else
      endTime
  }

  // ---------------------------------------------------------------------------
  // Statistics
  // ---------------------------------------------------------------------------

  /** `reduce((total, i) => total + i.duration, 0)` */
  function SumDurations(s: seq<Interaction>): int {
    if s == [] then 0 else s[0].duration + SumDurations(s[1..])
  }

  /**
   * `calculateStats`: the count, the summed durations, the counts by type and the
   * number of records flagged for follow-up. Every record is of exactly one type.
   */
  function CalculateStats(s: seq<Interaction>): (r: CounselorStats)
    ensures r.totalInteractions == |s|
    ensures r.studentInteractions + r.contactInteractions == r.totalInteractions
    ensures r.followUpsNeeded <= r.totalInteractions
  {
    FilterPartition(s, OfType(ForStudent));
    FilterExt(s, Negate(OfType(ForStudent)), OfType(ForContact));
    CounselorStats(
      |s|,
      SumDurations(s),
      |Filter(s, OfType(ForStudent))|,
      |Filter(s, OfType(ForContact))|,
      |Filter(s, NeedsFollowUp())|)
  }

  // ---------------------------------------------------------------------------
  // Generated records
  // ---------------------------------------------------------------------------

  /** Every id names a reason of the catalogue. */
  predicate ReasonIdsFrom(ids: seq<string>, reasons: seq<Reason>) {
    forall k :: 0 <= k < |ids| ==> exists r :: r in reasons && r.id == ids[k]
  }

  /** What holds of every generated record, whoever it is with. */
  predicate WellFormedRecord(x: Interaction, reasons: seq<Reason>, recentDates: seq<string>) {
    && IsTime(x.startTime) && IsTime(x.endTime)
    && 8 <= Hours(x.startTime) <= 15
    && x.duration == TotalMinutes(x.endTime) - TotalMinutes(x.startTime)
    && 1 <= |x.reasonIds| && NoDup(x.reasonIds) && ReasonIdsFrom(x.reasonIds, reasons)
    && x.date in recentDates
    && (x.followUpDate.Some? ==> x.followUpDate.value in recentDates)
  }

  /** A student record: up to three reasons, 15 to 60 minutes, named after its student. */
  predicate StudentRecord(x: Interaction, students: seq<Student>) {
    && x.kind == ForStudent
    && |x.reasonIds| <= 3
    && x.duration in {15, 30, 45, 60}
    && exists s :: s in students && x.personId == s.id && x.personName == FullName(s.firstName, s.lastName)
  }

  /** A contact record: up to two reasons, 15 to 45 minutes, named after its contact. */
  predicate ContactRecord(x: Interaction, contacts: seq<Contact>) {
    && x.kind == ForContact
    && |x.reasonIds| <= 2
    && x.duration in {15, 30, 45}
    && exists c :: c in contacts && x.personId == c.id && x.personName == FullName(c.firstName, c.lastName)
  }

  /** `${opening}${firstName} regarding ${subcategory of the first reason || 'various topics'}.` */
  function SeedNotes(opening: string, firstName: string, reasons: seq<Reason>, reasonIds: seq<string>): string
    requires |reasonIds| > 0
  {
    var topic := match FindReason(reasons, reasonIds[0])
      case Some(r) => if r.subcategory != "" then r.subcategory else "various topics"
      case None => "various topics";
    opening + firstName + " regarding " + topic + "."
  }

  /**
   * The reason-picking loop: `numReasons` random draws from the catalogue, each
   * kept only when its id is not already in the list.
   */
  method PickReasons(reasons: seq<Reason>, numReasons: nat) returns (reasonIds: seq<string>)
    requires |reasons| > 0 && numReasons >= 1
    ensures 1 <= |reasonIds| <= numReasons
    ensures NoDup(reasonIds) && ReasonIdsFrom(reasonIds, reasons)
  {
    reasonIds := [];
    var j := 0;
    while j < numReasons
      invariant 0 <= j <= numReasons
      invariant |reasonIds| <= j && (j > 0 ==> |reasonIds| >= 1)
      invariant NoDup(reasonIds) && ReasonIdsFrom(reasonIds, reasons)
    {
      var randomIndex :| 0 <= randomIndex < |reasons|;
      if reasons[randomIndex].id !in reasonIds {
        reasonIds := reasonIds + [reasons[randomIndex].id];
      }
      j := j + 1;
    }
  }

  /** `Math.random() > p ? getRandomDate() : undefined`: a date of the last 30 days, or none. */
  method DrawFollowUpDate(recentDates: seq<string>) returns (followUpDate: Option<string>)
    requires |recentDates| == 30
    ensures followUpDate.Some? ==> followUpDate.value in recentDates
  {
    var drawn: bool :| true;
    if drawn {
      var daysAgo :| 0 <= daysAgo < 30;
      followUpDate := Some(recentDates[daysAgo]);
    } else {
      followUpDate := None;
    }
  }

  /** One generated record for `student`. */
  method StudentInteraction(student: Student, reasons: seq<Reason>, recentDates: seq<string>)
    returns (x: Interaction)
    requires |reasons| > 0 && |recentDates| == 30
    ensures WellFormedRecord(x, reasons, recentDates)
    ensures x.kind == ForStudent && |x.reasonIds| <= 3 && x.duration in {15, 30, 45, 60}
    ensures x.personId == student.id && x.personName == FullName(student.firstName, student.lastName)
  {
    var daysAgo :| 0 <= daysAgo < 30;
    var hourDraw :| 0 <= hourDraw < 8;
    var quarterDraw :| 0 <= quarterDraw < 4;
    var startTime := RandomTime(hourDraw, quarterDraw);
    var durationDraw :| 0 <= durationDraw < 4;
    var duration: nat := [15, 30, 45, 60][durationDraw];
    assert duration in {15, 30, 45, 60};
    var endTime := CalculateEndTime(startTime, duration);
    var numReasons :| 1 <= numReasons <= 3;
    var reasonIds := PickReasons(reasons, numReasons);
    var newId: string :| true;
    var followUpNeeded: bool :| true;
    var followUpDate := DrawFollowUpDate(recentDates);
    x := Interaction(newId, recentDates[daysAgo], startTime, endTime, duration, ForStudent, student.id,
                     FullName(student.firstName, student.lastName), reasonIds,
                     SeedNotes("Meeting with ", student.firstName, reasons, reasonIds),
                     followUpNeeded, followUpDate);
  }

  /** One generated record for `contact`. */
  method ContactInteraction(contact: Contact, reasons: seq<Reason>, recentDates: seq<string>)
    returns (x: Interaction)
    requires |reasons| > 0 && |recentDates| == 30
    ensures WellFormedRecord(x, reasons, recentDates)
    ensures x.kind == ForContact && |x.reasonIds| <= 2 && x.duration in {15, 30, 45}
    ensures x.personId == contact.id && x.personName == FullName(contact.firstName, contact.lastName)
  {
    var daysAgo :| 0 <= daysAgo < 30;
    var hourDraw :| 0 <= hourDraw < 8;
    var quarterDraw :| 0 <= quarterDraw < 4;
    var startTime := RandomTime(hourDraw, quarterDraw);
    var durationDraw :| 0 <= durationDraw < 3;
    var duration: nat := [15, 30, 45][durationDraw];
    assert duration in {15, 30, 45};
    var endTime := CalculateEndTime(startTime, duration);
    var numReasons :| 1 <= numReasons <= 2;
    var reasonIds := PickReasons(reasons, numReasons);
    var newId: string :| true;
    var followUpNeeded: bool :| true;
    var followUpDate := DrawFollowUpDate(recentDates);
    x := Interaction(newId, recentDates[daysAgo], startTime, endTime, duration, ForContact, contact.id,
                     FullName(contact.firstName, contact.lastName), reasonIds,
                     SeedNotes("Discussion with ", contact.firstName, reasons, reasonIds),
                     followUpNeeded, followUpDate);
  }

  // ---------------------------------------------------------------------------
  // The final sort
  // ---------------------------------------------------------------------------

  /** The comparator of the final sort: the later date first, then the later start time. */
  predicate NewestFirst(a: Interaction, b: Interaction) {
    Less(b.date, a.date) || (a.date == b.date && Less(b.startTime, a.startTime))
  }

  lemma NewestFirstOrder()
    ensures StrictWeakOrder(NewestFirst)
  {
    forall a, b | NewestFirst(a, b) ensures !NewestFirst(b, a) {
      LessIrreflexive(a.date);
      if Less(b.date, a.date) {
        LessAsymmetric(b.date, a.date);
      } else {
        LessAsymmetric(b.startTime, a.startTime);
      }
    }
    forall a, b, c | NewestFirst(a, c) ensures NewestFirst(a, b) || NewestFirst(b, c) {
      if Less(c.date, a.date) {
        LessSplit(c.date, b.date, a.date);
      } else {
        LessTrichotomy(b.date, a.date);
        if a.date == b.date {
          LessSplit(c.startTime, b.startTime, a.startTime);
        }
      }
    }
  }

  /** The record is about `student`: a student record with the student's id and full name. */
  predicate OfStudent(x: Interaction, student: Student) {
    x.kind == ForStudent && x.personId == student.id && x.personName == FullName(student.firstName, student.lastName)
  }

  /** The record is about `contact`: a contact record with the contact's id and full name. */
  predicate OfContact(x: Interaction, contact: Contact) {
    x.kind == ForContact && x.personId == contact.id && x.personName == FullName(contact.firstName, contact.lastName)
  }

  /** The blocks one after the other, in order. */
  ghost function Flatten(blocks: seq<seq<Interaction>>): seq<Interaction> {
    if |blocks| == 0 then [] else Flatten(blocks[..|blocks| - 1]) + blocks[|blocks| - 1]
  }

  /**
   * `generateMockInteractions`: one to three records per student, then one record
   * for each contact that draws one (a 70% chance), sorted newest first. The
   * ghost `perStudent` and `perContact` are the records pushed for each person,
   * in the order of the rosters; the result is those records, rearranged.
   */
  method GenerateMockInteractions(students: seq<Student>, contacts: seq<Contact>, reasons: seq<Reason>,
                                  recentDates: seq<string>)
    returns (result: seq<Interaction>, ghost perStudent: seq<seq<Interaction>>, ghost perContact: seq<seq<Interaction>>)
    requires |reasons| > 0 && |recentDates| == 30
    ensures |perStudent| == |students| && |perContact| == |contacts|
    ensures forall i :: 0 <= i < |students| ==>
              1 <= |perStudent[i]| <= 3 && forall x :: x in perStudent[i] ==> OfStudent(x, students[i])
    ensures forall i :: 0 <= i < |contacts| ==>
              |perContact[i]| <= 1 && forall x :: x in perContact[i] ==> OfContact(x, contacts[i])
    ensures multiset(result) == multiset(Flatten(perStudent) + Flatten(perContact))
    ensures |students| <= |result| <= 3 * |students| + |contacts|
    ensures forall x :: x in result ==> WellFormedRecord(x, reasons, recentDates)
    ensures forall x :: x in result ==> StudentRecord(x, students) || ContactRecord(x, contacts)
    ensures SortedBy(result, NewestFirst)
  {
    var interactions: seq<Interaction> := [];
    perStudent := [];
    var si := 0;
    while si < |students|
      invariant 0 <= si <= |students|
      invariant |perStudent| == si && interactions == Flatten(perStudent)
      invariant forall i :: 0 <= i < si ==>
                  1 <= |perStudent[i]| <= 3 && forall x :: x in perStudent[i] ==> OfStudent(x, students[i])
      invariant si <= |interactions| <= 3 * si
      invariant forall x :: x in interactions ==> WellFormedRecord(x, reasons, recentDates) && StudentRecord(x, students)
    {
      var student := students[si];
      var numInteractions :| 1 <= numInteractions <= 3;
      var block: seq<Interaction> := [];
      var i := 0;
      while i < numInteractions
        invariant 0 <= i <= numInteractions
        invariant |block| == i
        invariant forall x :: x in block ==>
                    WellFormedRecord(x, reasons, recentDates) && StudentRecord(x, students) && OfStudent(x, student)
      {
        var x := StudentInteraction(student, reasons, recentDates);
        block := block + [x];
        i := i + 1;
      }
      assert (perStudent + [block])[..si] == perStudent;
      perStudent := perStudent + [block];
      interactions := interactions + block;
      si := si + 1;
    }
    ghost var studentPart := interactions;
    perContact := [];
    var ci := 0;
    while ci < |contacts|
      invariant 0 <= ci <= |contacts|
      invariant |perContact| == ci && interactions == studentPart + Flatten(perContact)
      invariant forall i :: 0 <= i < ci ==>
                  |perContact[i]| <= 1 && forall x :: x in perContact[i] ==> OfContact(x, contacts[i])
      invariant |students| <= |interactions| <= 3 * |students| + ci
      invariant forall x :: x in interactions ==>
                  WellFormedRecord(x, reasons, recentDates) && (StudentRecord(x, students) || ContactRecord(x, contacts))
    {
      var contact := contacts[ci];
      var block: seq<Interaction> := [];
      var hasInteraction: bool :| true;
      if hasInteraction {
        var x := ContactInteraction(contact, reasons, recentDates);
        block := [x];
      }
      assert (perContact + [block])[..ci] == perContact;
      perContact := perContact + [block];
      interactions := interactions + block;
      ci := ci + 1;
    }
    NewestFirstOrder();
    result := SortBy(interactions, NewestFirst);
    forall x | x in result ensures x in interactions {
      assert x in multiset(result);
    }
  }
}
