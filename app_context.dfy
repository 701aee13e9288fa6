/**
 * The application store: the profiles, students, contacts, interaction log and
 * reason catalogue the views read, the counselor statistics cached beside the
 * log, and the operations that add, replace and remove records.
 *
 * Each store operation is one atomic method. Ids that the source draws at random
 * are parameters of the add operations.
 */
module AppContext {
  import opened Wrappers
  import opened Seqs
  import opened Types
  import opened Time
  import opened MockData

  // ---------------------------------------------------------------------------
  // Durations
  // ---------------------------------------------------------------------------

  /**
   * `calculateInteractionDuration`: end minus start in minutes, neither clamped nor
   * wrapped, so an end before the start gives a negative duration.
   */
  function CalculateInteractionDuration(startTime: string, endTime: string): (d: int)
    requires IsTime(startTime) && IsTime(endTime)
    ensures TotalMinutes(startTime) + d == TotalMinutes(endTime)
    ensures d < 0 <==> TotalMinutes(endTime) < TotalMinutes(startTime)
  {
    TotalMinutes(endTime) - TotalMinutes(startTime)
  }

  /** The duration between a start and the end time computed from it is the duration it was computed from. */
  lemma EndTimeRoundTrip(startTime: string, d: int)
    requires IsTime(startTime) && d >= 0
    ensures IsTime(CalculateEndTime(startTime, d))
    ensures CalculateInteractionDuration(startTime, CalculateEndTime(startTime, d)) == d
  {
  }

  // ---------------------------------------------------------------------------
  // Statistics over the log
  // ---------------------------------------------------------------------------

  lemma {:induction false} SumDurationsPointwise(a: seq<Interaction>, b: seq<Interaction>)
    requires |a| == |b|
    requires forall k :: 0 <= k < |a| ==> a[k].duration == b[k].duration
    ensures SumDurations(a) == SumDurations(b)
  {
    if a != [] {
      SumDurationsPointwise(a[1..], b[1..]);
    }
  }

  /**
   * The statistics read only the duration, the type and the follow-up flag of
   * each record, so logs that agree on those have the same statistics.
   */
  lemma StatsPointwise(a: seq<Interaction>, b: seq<Interaction>)
    requires |a| == |b|
    requires forall k :: 0 <= k < |a| ==>
               a[k].duration == b[k].duration && a[k].kind == b[k].kind && a[k].followUpNeeded == b[k].followUpNeeded
    ensures CalculateStats(a) == CalculateStats(b)
  {
    SumDurationsPointwise(a, b);
    FilterLengthPointwise(a, b, OfType(ForStudent), OfType(ForStudent));
    FilterLengthPointwise(a, b, OfType(ForContact), OfType(ForContact));
    FilterLengthPointwise(a, b, NeedsFollowUp(), NeedsFollowUp());
  }

  /** Prepending a record adds it to every statistic it takes part in. */
  lemma StatsAfterPrepend(x: Interaction, s: seq<Interaction>)
    ensures CalculateStats([x] + s).totalInteractions == CalculateStats(s).totalInteractions + 1
    ensures CalculateStats([x] + s).totalTimeSpent == CalculateStats(s).totalTimeSpent + x.duration
    ensures CalculateStats([x] + s).studentInteractions
         == CalculateStats(s).studentInteractions + (if x.kind == ForStudent then 1 else 0)
    ensures CalculateStats([x] + s).contactInteractions
         == CalculateStats(s).contactInteractions + (if x.kind == ForContact then 1 else 0)
    ensures CalculateStats([x] + s).followUpsNeeded
         == CalculateStats(s).followUpsNeeded + (if x.followUpNeeded then 1 else 0)
  {
    assert ([x] + s)[1..] == s;
  }

  /** Removing the records with one id lowers the count by exactly the number removed. */
  lemma StatsAfterDelete(s: seq<Interaction>, id: string)
    ensures CalculateStats(Filter(s, Negate(InteractionHasId(id)))).totalInteractions
         == |s| - |Filter(s, InteractionHasId(id))|
  {
    FilterPartition(s, InteractionHasId(id));
  }

  // ---------------------------------------------------------------------------
  // Name propagation
  // ---------------------------------------------------------------------------

  /**
   * `interactions.map(i => i.personId === personId ? { ...i, personName } : i)`:
   * the name is rewritten on every record of that person id, whatever its type,
   * and every other record is kept as it was.
   */
  function RenamePerson(s: seq<Interaction>, personId: string, personName: string): seq<Interaction> {
    if s == [] then []
    else [if s[0].personId == personId then s[0].(personName := personName) else s[0]]
         + RenamePerson(s[1..], personId, personName)
  }

  lemma {:induction false} RenamePersonSpec(s: seq<Interaction>, personId: string, personName: string)
    ensures |RenamePerson(s, personId, personName)| == |s|
    ensures forall k :: 0 <= k < |s| ==>
              RenamePerson(s, personId, personName)[k]
              == if s[k].personId == personId then s[k].(personName := personName) else s[k]
  {
    if s != [] {
      RenamePersonSpec(s[1..], personId, personName);
    }
  }

  /** Renaming never changes the statistics. */
  lemma RenameKeepsStats(s: seq<Interaction>, personId: string, personName: string)
    ensures CalculateStats(RenamePerson(s, personId, personName)) == CalculateStats(s)
  {
    RenamePersonSpec(s, personId, personName);
    StatsPointwise(RenamePerson(s, personId, personName), s);
  }

  // ---------------------------------------------------------------------------
  // The store
  // ---------------------------------------------------------------------------

  class Store {
    var profiles: seq<Profile>
    var students: seq<Student>
    var contacts: seq<Contact>
    var interactions: seq<Interaction>
    var reasons: seq<Reason>
    var stats: CounselorStats

    /** The cached statistics are those of the current interaction log. */
    ghost predicate Valid()
      reads this`stats, this`interactions
    {
      stats == CalculateStats(interactions)
    }

    /** The provider's initial state: the seed collections and `calculateStats()` over the seed log. */
    constructor(initialProfiles: seq<Profile>, initialStudents: seq<Student>, initialContacts: seq<Contact>,
                initialInteractions: seq<Interaction>, initialReasons: seq<Reason>)
      ensures profiles == initialProfiles && students == initialStudents && contacts == initialContacts
      ensures interactions == initialInteractions && reasons == initialReasons
      ensures Valid()
    {
      profiles := initialProfiles;
      students := initialStudents;
      contacts := initialContacts;
      interactions := initialInteractions;
      reasons := initialReasons;
      stats := CalculateStats(initialInteractions);
    }

    // Profiles

    method AddProfile(profileData: Profile, newId: string)
      requires Valid()
      modifies this`profiles
      ensures profiles == old(profiles) + [profileData.(id := newId)]
      ensures Valid()
    {
      profiles := profiles + [profileData.(id := newId)];
    }

    method UpdateProfile(updated: Profile)
      requires Valid()
      modifies this`profiles
      ensures profiles == ReplaceWhere(old(profiles), ProfileHasId(updated.id), updated)
      ensures (forall k :: 0 <= k < |old(profiles)| ==> old(profiles)[k].id != updated.id) ==> profiles == old(profiles)
      ensures Valid()
    {
      if forall k :: 0 <= k < |profiles| ==> profiles[k].id != updated.id {
        ReplaceWhereNoMatch(profiles, ProfileHasId(updated.id), updated);
      }
      profiles := ReplaceWhere(profiles, ProfileHasId(updated.id), updated);
    }

    method DeleteProfile(id: string)
      requires Valid()
      modifies this`profiles
      ensures profiles == Filter(old(profiles), Negate(ProfileHasId(id)))
      ensures Valid()
    {
      profiles := Filter(profiles, Negate(ProfileHasId(id)));
    }

    /** `getProfileById`: the first profile with the id, or `undefined`. */
    function GetProfileById(id: string): (r: Option<Profile>)
      reads this
      ensures r.Some? ==> r.value in profiles && r.value.id == id
      ensures r.Some? ==> exists i :: FirstMatch(profiles, ProfileHasId(id), i) && profiles[i] == r.value
      ensures r.None? <==> forall k :: 0 <= k < |profiles| ==> profiles[k].id != id
    {
      Find(profiles, ProfileHasId(id))
    }

    // Students

    /** `addStudent`: the new student, with a fresh id, goes at the end; the rest is unchanged. */
    method AddStudent(studentData: Student, newId: string)
      requires Valid()
      modifies this`students
      ensures students == old(students) + [studentData.(id := newId)]
      ensures Valid()
    {
      students := students + [studentData.(id := newId)];
    }

    /**
     * `updateStudent`: every student with the id is replaced, then the name is
     * rewritten on every interaction with that person id.
     */
    method UpdateStudent(updated: Student)
      requires Valid()
      modifies this`students, this`interactions
      ensures students == ReplaceWhere(old(students), StudentHasId(updated.id), updated)
      ensures interactions == RenamePerson(old(interactions), updated.id, FullName(updated.firstName, updated.lastName))
      ensures (forall k :: 0 <= k < |old(students)| ==> old(students)[k].id != updated.id) ==> students == old(students)
      ensures Valid()
    {
      var fullName := FullName(updated.firstName, updated.lastName);
      var updatedStudents := ReplaceWhere(students, StudentHasId(updated.id), updated);
      var updatedInteractions := RenamePerson(interactions, updated.id, fullName);
      if forall k :: 0 <= k < |students| ==> students[k].id != updated.id {
        ReplaceWhereNoMatch(students, StudentHasId(updated.id), updated);
      }
      RenameKeepsStats(interactions, updated.id, fullName);
      students := updatedStudents;
      interactions := updatedInteractions;
    }

    /** `deleteStudent`: only the student list changes; interactions that name the student stay. */
    method DeleteStudent(id: string)
      requires Valid()
      modifies this`students
      ensures students == Filter(old(students), Negate(StudentHasId(id)))
      ensures Valid()
    {
      students := Filter(students, Negate(StudentHasId(id)));
    }

    // Contacts

    method AddContact(contactData: Contact, newId: string)
      requires Valid()
      modifies this`contacts
      ensures contacts == old(contacts) + [contactData.(id := newId)]
      ensures Valid()
    {
      contacts := contacts + [contactData.(id := newId)];
    }

    method UpdateContact(updated: Contact)
      requires Valid()
      modifies this`contacts, this`interactions
      ensures contacts == ReplaceWhere(old(contacts), ContactHasId(updated.id), updated)
      ensures interactions == RenamePerson(old(interactions), updated.id, FullName(updated.firstName, updated.lastName))
      ensures (forall k :: 0 <= k < |old(contacts)| ==> old(contacts)[k].id != updated.id) ==> contacts == old(contacts)
      ensures Valid()
    {
      var fullName := FullName(updated.firstName, updated.lastName);
      var updatedContacts := ReplaceWhere(contacts, ContactHasId(updated.id), updated);
      var updatedInteractions := RenamePerson(interactions, updated.id, fullName);
      if forall k :: 0 <= k < |contacts| ==> contacts[k].id != updated.id {
        ReplaceWhereNoMatch(contacts, ContactHasId(updated.id), updated);
      }
      RenameKeepsStats(interactions, updated.id, fullName);
      contacts := updatedContacts;
      interactions := updatedInteractions;
    }

    method DeleteContact(id: string)
      requires Valid()
      modifies this`contacts
      ensures contacts == Filter(old(contacts), Negate(ContactHasId(id)))
      ensures Valid()
    {
      contacts := Filter(contacts, Negate(ContactHasId(id)));
    }

    // Interactions

    /** `updateStatsFromInteractions`: the statistics are recomputed from the given log. */
    method UpdateStatsFromInteractions(current: seq<Interaction>)
      modifies this`stats
      ensures stats == CalculateStats(current)
    {
      stats := CalculateStats(current);
    }

    /**
     * `addInteraction`: the record gets a fresh id and the duration recomputed
     * from its times (any duration it carried is discarded), goes in front of
     * the log, and the statistics follow the new log.
     */
    method AddInteraction(interactionData: Interaction, newId: string)
      requires IsTime(interactionData.startTime) && IsTime(interactionData.endTime)
      modifies this`interactions, this`stats
      ensures interactions == [interactionData.(id := newId,
                 duration := CalculateInteractionDuration(interactionData.startTime, interactionData.endTime))]
               + old(interactions)
      ensures Valid()
    {
      var newInteraction := interactionData.(id := newId,
        duration := CalculateInteractionDuration(interactionData.startTime, interactionData.endTime));
      var updatedInteractions := [newInteraction] + interactions;
      interactions := updatedInteractions;
      UpdateStatsFromInteractions(updatedInteractions);
    }

    /**
     * `updateInteraction`: every record with the id is replaced by the input with
     * its duration recomputed, and an unknown id changes nothing (the length is
     * kept: `Seqs.ReplaceWhereSpec`).
     */
    method UpdateInteraction(updated: Interaction)
      requires IsTime(updated.startTime) && IsTime(updated.endTime)
      modifies this`interactions, this`stats
      ensures interactions == ReplaceWhere(old(interactions), InteractionHasId(updated.id),
                                updated.(duration := CalculateInteractionDuration(updated.startTime, updated.endTime)))
      ensures (forall k :: 0 <= k < |old(interactions)| ==> old(interactions)[k].id != updated.id) ==>
                interactions == old(interactions)
      ensures Valid()
    {
      var duration := CalculateInteractionDuration(updated.startTime, updated.endTime);
      var interactionWithDuration := updated.(duration := duration);
      if forall k :: 0 <= k < |interactions| ==> interactions[k].id != updated.id {
        ReplaceWhereNoMatch(interactions, InteractionHasId(updated.id), interactionWithDuration);
      }
      var updatedInteractions := ReplaceWhere(interactions, InteractionHasId(updated.id), interactionWithDuration);
      interactions := updatedInteractions;
      UpdateStatsFromInteractions(updatedInteractions);
    }

    /** `deleteInteraction`: exactly the records with the id go; the rest keep their order. */
    method DeleteInteraction(id: string)
      modifies this`interactions, this`stats
      ensures interactions == Filter(old(interactions), Negate(InteractionHasId(id)))
      ensures (forall k :: 0 <= k < |old(interactions)| ==> old(interactions)[k].id != id) ==>
                interactions == old(interactions)
      ensures Valid()
    {
      if forall k :: 0 <= k < |interactions| ==> interactions[k].id != id {
        FilterKeepsAll(interactions, Negate(InteractionHasId(id)));
      }
      var updatedInteractions := Filter(interactions, Negate(InteractionHasId(id)));
      interactions := updatedInteractions;
      UpdateStatsFromInteractions(updatedInteractions);
    }

    // Reasons

    method AddReason(reasonData: Reason, newId: string)
      requires Valid()
      modifies this`reasons
      ensures reasons == old(reasons) + [reasonData.(id := newId)]
      ensures Valid()
    {
      reasons := reasons + [reasonData.(id := newId)];
    }

    method UpdateReason(updated: Reason)
      requires Valid()
      modifies this`reasons
      ensures reasons == ReplaceWhere(old(reasons), ReasonHasId(updated.id), updated)
      ensures (forall k :: 0 <= k < |old(reasons)| ==> old(reasons)[k].id != updated.id) ==> reasons == old(reasons)
      ensures Valid()
    {
      if forall k :: 0 <= k < |reasons| ==> reasons[k].id != updated.id {
        ReplaceWhereNoMatch(reasons, ReasonHasId(updated.id), updated);
      }
      reasons := ReplaceWhere(reasons, ReasonHasId(updated.id), updated);
    }

    /** `deleteReason`: interactions that still list the id are not touched. */
    method DeleteReason(id: string)
      requires Valid()
      modifies this`reasons
      ensures reasons == Filter(old(reasons), Negate(ReasonHasId(id)))
      ensures Valid()
    {
      reasons := Filter(reasons, Negate(ReasonHasId(id)));
    }

    /** `getReasonById`: the first reason with the id, or `undefined`. */
    function GetReasonById(id: string): (r: Option<Reason>)
      reads this
      ensures r.Some? ==> r.value in reasons && r.value.id == id
      ensures r.Some? ==> exists i :: FirstMatch(reasons, ReasonHasId(id), i) && reasons[i] == r.value
      ensures r.None? <==> forall k :: 0 <= k < |reasons| ==> reasons[k].id != id
    {
      FindReason(reasons, id)
    }

    /** `updateStats`: the statistics are recomputed from the current log. */
    method UpdateStats()
      modifies this`stats
      ensures Valid()
    {
      UpdateStatsFromInteractions(interactions);
    }
  }
}
