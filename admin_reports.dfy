/**
 * The administrator's report: the interactions in a date range (and of one
 * person id when a counselor is chosen), their summary figures, the reason
 * distribution, and the CSV export with its file name.
 */
module AdminReports {
  import opened Wrappers
  import opened Seqs
  import opened Strings
  import opened Types
  import opened Numbers
  import opened MockData
  import opened CategoryCounts

  /** The selector value that applies no counselor filter. */
  const AllCounselors := "all"

  // ---------------------------------------------------------------------------
  // The report's interactions
  // ---------------------------------------------------------------------------

  /**
   * `interactionDate >= startDate && interactionDate <= endDate` with the end
   * moved to the last second of its day: on ISO dates, the date lies between
   * the two, both ends included. An empty text (a cleared date input) makes an
   * invalid `Date`, against which every comparison is false.
   */
  predicate InDateRange(date: string, startDate: string, endDate: string) {
    && date != "" && startDate != "" && endDate != ""
    && !Less(date, startDate) && !Less(endDate, date)
  }

  /** `selectedCounselor === 'all' || interaction.personId === selectedCounselor` */
  predicate MatchesCounselor(x: Interaction, selectedCounselor: string) {
    selectedCounselor == AllCounselors || x.personId == selectedCounselor
  }

  function InReport(startDate: string, endDate: string, selectedCounselor: string): Interaction -> bool {
    (x: Interaction) => InDateRange(x.date, startDate, endDate) && MatchesCounselor(x, selectedCounselor)
  }

  function FilteredInteractions(interactions: seq<Interaction>, startDate: string, endDate: string,
                                selectedCounselor: string): seq<Interaction> {
    Filter(interactions, InReport(startDate, endDate, selectedCounselor))
  }

  /**
   * The report keeps, in log order and with every copy, exactly the records
   * dated from the start through the end day whose person id is the chosen one
   * (any person id under 'all'); a record dated on the end day is kept. A
   * cleared start or end date empties the report.
   */
  lemma FilteredKeeps(interactions: seq<Interaction>, startDate: string, endDate: string, selectedCounselor: string)
    ensures var r := FilteredInteractions(interactions, startDate, endDate, selectedCounselor);
            && Subseq(r, interactions)
            && (forall x :: multiset(r)[x] ==
                  if x.date != "" && startDate != "" && endDate != ""
                     && !Less(x.date, startDate) && !Less(endDate, x.date)
                     && (selectedCounselor == "all" || x.personId == selectedCounselor)
                  then multiset(interactions)[x] else 0)
    ensures startDate == "" || endDate == "" ==> FilteredInteractions(interactions, startDate, endDate, selectedCounselor) == []
    ensures startDate != "" && endDate != "" && !Less(endDate, startDate) ==>
              InDateRange(endDate, startDate, endDate) && InDateRange(startDate, startDate, endDate)
  {
    LessIrreflexive(startDate);
    LessIrreflexive(endDate);
    if startDate == "" || endDate == "" {
      FilterKeepsNone(interactions, InReport(startDate, endDate, selectedCounselor));
    }
  }

  // ---------------------------------------------------------------------------
  // Summary figures
  // ---------------------------------------------------------------------------

  datatype ReportStats = ReportStats(
    totalInteractions: nat,
    totalTime: int,
    avgDuration: int,
    studentCount: nat,
    contactCount: nat)

  /** The person ids of the records of one type. */
  function PersonIdsOfType(s: seq<Interaction>, t: InteractionType): seq<string> {
    Map(Filter(s, OfType(t)), (x: Interaction) => x.personId)
  }

  /**
   * `calculateStats`: the count, the summed durations, the average rounded with
   * `Math.round` (0 for an empty report), and the number of distinct person ids
   * among the student and the contact records.
   */
  function CalculateReportStats(filtered: seq<Interaction>): (r: ReportStats)
    ensures r.totalInteractions == |filtered|
    ensures r.totalTime == SumDurations(filtered)
    ensures r.totalInteractions == 0 ==> r.avgDuration == 0
    ensures r.totalInteractions > 0 ==>
              var n := r.totalInteractions;
              2 * r.totalTime - n < 2 * n * r.avgDuration <= 2 * r.totalTime + n
  {
    var total := |filtered|;
    var totalTime := SumDurations(filtered);
    var avg := if total > 0 then Round(totalTime, total) else 0;
    ReportStats(total, totalTime, avg,
                |Dedup(PersonIdsOfType(filtered, ForStudent))|,
                |Dedup(PersonIdsOfType(filtered, ForContact))|)
  }

  /** The ids of the records of one type are the ids of the person records of that type. */
  lemma PersonIdsOfTypeMembers(s: seq<Interaction>, t: InteractionType)
    ensures (set id | id in PersonIdsOfType(s, t)) == (set x | x in s && x.kind == t :: x.personId)
  {
    var f := Filter(s, OfType(t));
    var ids := PersonIdsOfType(s, t);
    forall id | id in ids ensures id in (set x | x in s && x.kind == t :: x.personId) {
      var k :| 0 <= k < |ids| && ids[k] == id;
      assert f[k] in f;
    }
    forall x | x in s && x.kind == t ensures x.personId in ids {
      assert x in f;
      var k :| 0 <= k < |f| && f[k] == x;
      assert ids[k] == x.personId;
    }
  }

  /**
   * `new Set(...).size`: the student and contact figures count each person id
   * once, and never exceed the number of records of that type.
   */
  lemma DistinctPersonCounts(filtered: seq<Interaction>)
    ensures CalculateReportStats(filtered).studentCount
         == |set x | x in filtered && x.kind == ForStudent :: x.personId|
    ensures CalculateReportStats(filtered).contactCount
         == |set x | x in filtered && x.kind == ForContact :: x.personId|
    ensures CalculateReportStats(filtered).studentCount <= |Filter(filtered, OfType(ForStudent))|
    ensures CalculateReportStats(filtered).contactCount <= |Filter(filtered, OfType(ForContact))|
  {
    DedupCount(PersonIdsOfType(filtered, ForStudent));
    DedupCount(PersonIdsOfType(filtered, ForContact));
    PersonIdsOfTypeMembers(filtered, ForStudent);
    PersonIdsOfTypeMembers(filtered, ForContact);
  }

  /**
   * `calculateReasonDistribution` walks the report's records exactly as the
   * dashboard walks the log: one per resolvable reason id of the report,
   * unknown ids ignored, and the figures add up to the resolvable ids.
   */
  lemma ReasonDistributionCounts(filtered: seq<Interaction>, reasons: seq<Reason>, c: string)
    ensures CountOf(Tally(reasons, AllReasonIds(filtered)), c) == |Filter(AllReasonIds(filtered), ResolvesTo(reasons, c))|
    ensures SumValues(Tally(reasons, AllReasonIds(filtered))) == |Filter(AllReasonIds(filtered), Resolves(reasons))|
  {
    TallyCounts(reasons, AllReasonIds(filtered), c);
    TallySum(reasons, AllReasonIds(filtered));
  }

  // ---------------------------------------------------------------------------
  // CSV export
  // ---------------------------------------------------------------------------

  const Headers: seq<string> := [
    "Date", "Counselor", "Start Time", "End Time", "Duration (min)", "Type",
    "Person Name", "Reasons", "Notes", "Follow-up Needed", "Follow-up Date"]

  /**
   * `profiles.find(...)?.first_name + ' ' + profiles.find(...)?.last_name`: a
   * missing profile reads as `undefined` in both places.
   */
  function CounselorName(profiles: seq<Profile>, id: string): string {
    match Find(profiles, ProfileHasId(id))
    case Some(p) => p.firstName + " " + p.lastName
    case None => "undefined undefined"
  }

  /** One reason of the Reasons cell: `${category}: ${subcategory}`, or "" for an unknown id. */
  function ReasonText(reasons: seq<Reason>, id: string): string {
    match FindReason(reasons, id)
    case Some(r) => r.category + ": " + r.subcategory
    case None => ""
  }

  function ReasonsCell(x: Interaction, reasons: seq<Reason>): string {
    Join(Map(x.reasonIds, (id: string) => ReasonText(reasons, id)), "; ")
  }

  /** `notes.replace(/"/g, '""')`: every double quote doubled. */
  function DoubleQuotes(s: string): string {
    if s == [] then ""
    else (if s[0] == '"' then "\"\"" else [s[0]]) + DoubleQuotes(s[1..])
  }

  /** The reading a CSV parser applies inside a quoted field: each doubled quote stands for one. */
  function UndoubleQuotes(s: string): string {
    if s == [] then ""
    else if |s| >= 2 && s[0] == '"' && s[1] == '"' then "\"" + UndoubleQuotes(s[2..])
    else [s[0]] + UndoubleQuotes(s[1..])
  }

  /** The Notes cell: the escaped notes between double quotes. */
  function NotesCell(notes: string): string {
    "\"" + DoubleQuotes(notes) + "\""
  }

  lemma {:induction false} UndoubleDouble(s: string)
    ensures UndoubleQuotes(DoubleQuotes(s)) == s
  {
    if s != [] {
      UndoubleDouble(s[1..]);
      var rest := DoubleQuotes(s[1..]);
      if s[0] == '"' {
        assert DoubleQuotes(s) == "\"\"" + rest;
        assert (("\"\"" + rest)[2..]) == rest;
      } else {
        assert DoubleQuotes(s) == [s[0]] + rest;
        assert ([s[0]] + rest)[1..] == rest;
      }
      assert s == [s[0]] + s[1..];
    }
  }

  /** Stripping the outer quotes of the Notes cell and undoubling gives the notes back. */
  lemma NotesCellRoundTrip(notes: string)
    ensures var cell := NotesCell(notes);
            && |cell| >= 2 && cell[0] == '"' && cell[|cell| - 1] == '"'
            && UndoubleQuotes(cell[1..|cell| - 1]) == notes
  {
    var cell := NotesCell(notes);
    assert cell[1..|cell| - 1] == DoubleQuotes(notes);
    UndoubleDouble(notes);
  }

  /** The eleven cells of one record, in header order. */
  function CsvRow(x: Interaction, profiles: seq<Profile>, reasons: seq<Reason>): (row: seq<string>)
    ensures |row| == |Headers| == 11
  {
    [ x.date,
      CounselorName(profiles, x.personId),
      x.startTime,
      x.endTime,
      IntToString(x.duration),
      TypeName(x.kind),
      x.personName,
      ReasonsCell(x, reasons),
      NotesCell(x.notes),
      if x.followUpNeeded then "Yes" else "No",
      x.followUpDate.GetOr("") ]
  }

  /**
   * The cells say what the record holds: one Reasons segment per reason id,
   * empty exactly for the ids that resolve to nothing; the notes read back from
   * their cell; Yes exactly when a follow-up is needed; the follow-up date or
   * nothing.
   */
  lemma CsvRowCells(x: Interaction, profiles: seq<Profile>, reasons: seq<Reason>)
    ensures var segments := Map(x.reasonIds, (id: string) => ReasonText(reasons, id));
            && |segments| == |x.reasonIds|
            && ReasonsCell(x, reasons) == Join(segments, "; ")
            && forall k :: 0 <= k < |segments| ==> (segments[k] == "" <==> FindReason(reasons, x.reasonIds[k]).None?)
    ensures var cell := CsvRow(x, profiles, reasons)[8];
            UndoubleQuotes(cell[1..|cell| - 1]) == x.notes
    ensures CsvRow(x, profiles, reasons)[9] == "Yes" <==> x.followUpNeeded
    ensures x.followUpDate.Some? ==> CsvRow(x, profiles, reasons)[10] == x.followUpDate.value
    ensures x.followUpDate.None? ==> CsvRow(x, profiles, reasons)[10] == ""
  {
    NotesCellRoundTrip(x.notes);
  }

  function CsvLine(cells: seq<string>): string {
    Join(cells, ",")
  }

  /** The header line, then one line per record of the report, joined by newlines. */
  function CsvContent(filtered: seq<Interaction>, profiles: seq<Profile>, reasons: seq<Reason>): string {
    Join([CsvLine(Headers)] + Map(filtered, (x: Interaction) => CsvLine(CsvRow(x, profiles, reasons))), "\n")
  }

  /**
   * When no cell holds a line break, the content splits back into the header
   * line followed by the line of each record, in report order.
   */
  lemma CsvContentLines(filtered: seq<Interaction>, profiles: seq<Profile>, reasons: seq<Reason>)
    requires forall k :: 0 <= k < |filtered| ==> '\n' !in CsvLine(CsvRow(filtered[k], profiles, reasons))
    ensures var lines := Split(CsvContent(filtered, profiles, reasons), '\n');
            && |lines| == 1 + |filtered|
            && lines[0] == CsvLine(Headers)
            && forall k :: 0 <= k < |filtered| ==> lines[k + 1] == CsvLine(CsvRow(filtered[k], profiles, reasons))
  {
    var rows := Map(filtered, (x: Interaction) => CsvLine(CsvRow(x, profiles, reasons)));
    var parts := [CsvLine(Headers)] + rows;
    HeaderLineOneLine();
    forall i | 0 <= i < |parts| ensures '\n' !in parts[i] {
      if i > 0 {
        assert parts[i] == rows[i - 1] == CsvLine(CsvRow(filtered[i - 1], profiles, reasons));
      }
    }
    JoinSplit(parts, '\n');
    assert CsvContent(filtered, profiles, reasons) == Join(parts, "\n");
    forall k | 0 <= k < |filtered| ensures parts[k + 1] == CsvLine(CsvRow(filtered[k], profiles, reasons)) {
      assert parts[k + 1] == rows[k];
    }
  }

  lemma HeaderLineOneLine()
    ensures '\n' !in CsvLine(Headers)
  {
    assert forall k :: 0 <= k < |Headers| ==> '\n' !in Headers[k];
    JoinAvoids(Headers, ",", '\n');
  }

  /** A join of pieces and a separator that all avoid a character avoids it too. */
  lemma {:induction false} JoinAvoids(parts: seq<string>, sep: string, c: char)
    requires c !in sep
    requires forall k :: 0 <= k < |parts| ==> c !in parts[k]
    ensures c !in Join(parts, sep)
  {
    if |parts| > 1 {
      JoinAvoids(parts[1..], sep, c);
    }
  }

  // ---------------------------------------------------------------------------
  // File name
  // ---------------------------------------------------------------------------

  /** `s.replace(/\s+/g, '_')`: each run of white space becomes one underscore. */
  function CollapseSpaces(s: string): string
    decreases |s|
  {
    if s == [] then ""
    else if IsSpace(s[0]) then "_" + CollapseSpaces(TrimStart(s[1..]))
    else [s[0]] + CollapseSpaces(s[1..])
  }

  lemma {:induction false} TrimStartNoSpaceHead(s: string)
    ensures TrimStart(s) == [] || !IsSpace(TrimStart(s)[0])
    decreases |s|
  {
    if s != [] && IsSpace(s[0]) {
      TrimStartNoSpaceHead(s[1..]);
    }
  }

  /** The result holds no white space. */
  lemma {:induction false} CollapseSpacesNoSpace(s: string)
    ensures forall i :: 0 <= i < |CollapseSpaces(s)| ==> !IsSpace(CollapseSpaces(s)[i])
    decreases |s|
  {
    if s != [] {
      if IsSpace(s[0]) {
        CollapseSpacesNoSpace(TrimStart(s[1..]));
      } else {
        CollapseSpacesNoSpace(s[1..]);
      }
    }
  }

  /** Text without white space is kept as it is. */
  lemma {:induction false} CollapseSpacesNoRun(s: string)
    requires forall i :: 0 <= i < |s| ==> !IsSpace(s[i])
    ensures CollapseSpaces(s) == s
    decreases |s|
  {
    if s != [] {
      CollapseSpacesNoRun(s[1..]);
      assert s == [s[0]] + s[1..];
    }
  }

  /** A run of white space between two words becomes exactly one underscore. */
  lemma {:induction false} CollapseSpacesRun(a: string, w: string, b: string)
    requires forall i :: 0 <= i < |a| ==> !IsSpace(a[i])
    requires |w| > 0 && AllSpace(w)
    requires b == [] || !IsSpace(b[0])
    ensures CollapseSpaces(a + w + b) == a + "_" + CollapseSpaces(b)
    decreases |a|
  {
    if a == [] {
      assert a + w + b == w + b;
      TrimStartSpaces(w[1..], b);
      assert (w + b)[1..] == w[1..] + b;
    } else {
      CollapseSpacesRun(a[1..], w, b);
      assert (a + w + b)[1..] == a[1..] + w + b;
      assert a == [a[0]] + a[1..];
    }
  }

  lemma {:induction false} TrimStartSpaces(w: string, b: string)
    requires AllSpace(w)
    requires b == [] || !IsSpace(b[0])
    ensures TrimStart(w + b) == b
    decreases |w|
  {
    if w == [] {
      assert w + b == b;
    } else {
      assert (w + b)[1..] == w[1..] + b;
      TrimStartSpaces(w[1..], b);
    }
  }

  /** The name shown for the counselor selector: 'All Counselors' or the profile's name. */
  function CounselorLabel(profiles: seq<Profile>, selectedCounselor: string): string {
    if selectedCounselor == AllCounselors then "All Counselors" else CounselorName(profiles, selectedCounselor)
  }

  /** `counseling_report_${counselor.replace(/\s+/g, '_')}_${startDate}_to_${endDate}.csv` */
  function FileName(profiles: seq<Profile>, selectedCounselor: string, startDate: string, endDate: string): string {
    "counseling_report_" + CollapseSpaces(CounselorLabel(profiles, selectedCounselor))
    + "_" + startDate + "_to_" + endDate + ".csv"
  }

  /** The counselor part of the file name holds no white space. */
  lemma FileNameCounselorPart(profiles: seq<Profile>, selectedCounselor: string)
    ensures forall i :: 0 <= i < |CollapseSpaces(CounselorLabel(profiles, selectedCounselor))| ==>
              !IsSpace(CollapseSpaces(CounselorLabel(profiles, selectedCounselor))[i])
  {
    CollapseSpacesNoSpace(CounselorLabel(profiles, selectedCounselor));
  }
}
