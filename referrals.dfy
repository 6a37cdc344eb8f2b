/** The lead logic of the referrals page (app/referrals/page.tsx): date
    formatting, the search box, the date-range test, the four tabs, the derived
    stage of a lead and its business label. The page's React state (search
    text, picked range) is passed in as parameters. */
module Referrals {
  import opened Wrappers
  import opened Seqs
  import opened JsStrings
  import opened Calendar
  import opened MockData

  // ---------------------------------------------------------------- constants of the Leads tab

  const RpReferralCode: string := "JSMITH2024"

  const CrmAllowedStages: seq<string> := [
    "Inbound Calls",
    "Inbound Contact Forms",
    "Invitation Email",
    "RFS Qualified Paused"
  ]

  const RequiredPipeline: string := "Soil Nutrient Load Pipeline"

  // ---------------------------------------------------------------- date formatting

  /** The characters of the split pattern `/[\/-]/`. */
  const DateDelims: set<char> := {'/', '-'}

  /** `formatMMDDYY`: `-` for a missing or empty input, the input itself when it
      has fewer than three `/`- or `-`-separated fields, otherwise
      `mm-dd-yy` with month and day padded to two places and the last two
      characters of the year. */
  function FormatMMDDYY(input: Option<string>): string {
    if input.None? || input.value == "" then "-"
    else
      var parts := SplitOn(input.value, DateDelims);
      if |parts| < 3 then input.value
      else PadStart(parts[0], 2, '0') + "-" + PadStart(parts[1], 2, '0') + "-" + TakeLast(parts[2], 2)
  }

  /** `formatMMDDYYYY`: as `FormatMMDDYY`, but `mm/dd/yyyy` with the year padded
      to four places. */
  function FormatMMDDYYYY(input: Option<string>): string {
    if input.None? || input.value == "" then "-"
    else
      var parts := SplitOn(input.value, DateDelims);
      if |parts| < 3 then input.value
      else PadStart(parts[0], 2, '0') + "/" + PadStart(parts[1], 2, '0') + "/" + PadStart(parts[2], 4, '0')
  }

  /** Padding with a character that is not a delimiter adds no delimiter. */
  lemma PadStartFree(s: string, n: nat, c: char, delims: set<char>)
    requires FreeOf(s, delims) && c !in delims
    ensures FreeOf(PadStart(s, n, c), delims)
  {
    if |s| < n {
      var p := PadStart(s, n, c);
      RepeatAt(c, n - |s|);
      forall i | 0 <= i < |p|
        ensures p[i] !in delims
      {
        if i < n - |s| {
          assert p[i] == Repeat(c, n - |s|)[i];
        } else {
          assert p[i] == s[i - (n - |s|)];
        }
      }
    }
  }

  /** A text with at most one delimiter has fewer than three fields. */
  lemma FewFields(s: string)
    requires forall i, j :: 0 <= i < j < |s| && s[i] in DateDelims ==> s[j] !in DateDelims
    ensures |SplitOn(s, DateDelims)| < 3
  {
    if FreeOf(s, DateDelims) {
      SplitFree(s, DateDelims);
    } else {
      var k :| 0 <= k < |s| && s[k] in DateDelims;
      var a, rest := s[..k], s[k + 1..];
      assert FreeOf(a, DateDelims) by {
        forall i | 0 <= i < |a|
          ensures a[i] !in DateDelims
        {
          assert a[i] == s[i] && i < k;
        }
      }
      assert FreeOf(rest, DateDelims) by {
        forall i | 0 <= i < |rest|
          ensures rest[i] !in DateDelims
        {
          assert rest[i] == s[k + 1 + i];
        }
      }
      assert s == a + [s[k]] + rest;
      SplitAtDelimiter(a, s[k], rest, DateDelims);
      SplitFree(rest, DateDelims);
    }
  }

  /** Both formats return a missing or empty value as `-` and return a text
      with at most one `/` or `-` unchanged. */
  lemma FormatsKeepShortInput(input: Option<string>)
    requires input.Some? ==>
      forall i, j :: 0 <= i < j < |input.value| && input.value[i] in DateDelims ==> input.value[j] !in DateDelims
    ensures input.None? || input.value == "" ==> FormatMMDDYY(input) == "-" && FormatMMDDYYYY(input) == "-"
    ensures input.Some? && input.value != "" ==> FormatMMDDYY(input) == input.value && FormatMMDDYYYY(input) == input.value
  {
    if input.Some? && input.value != "" {
      FewFields(input.value);
    }
  }

  /** `mm`, `dd` and `yyyy` without delimiters, joined by `/` or `-`, come out
      as `mm-dd-yy`: month and day padded to two places, the year cut to its last two
      characters; with at most two-character month and day and an at least
      two-character year the result is eight characters long. */
  lemma FormatMMDDYYOfFields(mm: string, d1: char, dd: string, d2: char, yyyy: string)
    requires FreeOf(mm, DateDelims) && FreeOf(dd, DateDelims) && FreeOf(yyyy, DateDelims)
    requires d1 in DateDelims && d2 in DateDelims
    ensures var r := FormatMMDDYY(Some(mm + [d1] + dd + [d2] + yyyy));
      && r == PadStart(mm, 2, '0') + "-" + PadStart(dd, 2, '0') + "-" + TakeLast(yyyy, 2)
      && (|mm| <= 2 && |dd| <= 2 && |yyyy| >= 2 ==> |r| == 8)
  {
    SplitThree(mm, d1, dd, d2, yyyy, DateDelims);
  }

  /** The same for `mm/dd/yyyy`, with the year padded to four places. */
  lemma FormatMMDDYYYYOfFields(mm: string, d1: char, dd: string, d2: char, yyyy: string)
    requires FreeOf(mm, DateDelims) && FreeOf(dd, DateDelims) && FreeOf(yyyy, DateDelims)
    requires d1 in DateDelims && d2 in DateDelims
    ensures var r := FormatMMDDYYYY(Some(mm + [d1] + dd + [d2] + yyyy));
      && r == PadStart(mm, 2, '0') + "/" + PadStart(dd, 2, '0') + "/" + PadStart(yyyy, 4, '0')
      && (|mm| <= 2 && |dd| <= 2 && |yyyy| <= 4 ==> |r| == 10)
  {
    SplitThree(mm, d1, dd, d2, yyyy, DateDelims);
  }

  /** Formatting a formatted date again changes nothing. */
  lemma FormatMMDDYYIdempotent(input: Option<string>)
    ensures FormatMMDDYY(Some(FormatMMDDYY(input))) == FormatMMDDYY(input)
  {
    if input.None? || input.value == "" {
      assert SplitOn("-", DateDelims) == ["", ""];
    } else {
      var parts := SplitOn(input.value, DateDelims);
      if |parts| >= 3 {
        var a, b, c := PadStart(parts[0], 2, '0'), PadStart(parts[1], 2, '0'), TakeLast(parts[2], 2);
        PadStartFree(parts[0], 2, '0', DateDelims);
        PadStartFree(parts[1], 2, '0', DateDelims);
        assert FreeOf(c, DateDelims) by {
          assert forall i :: 0 <= i < |c| ==> c[i] == parts[2][|parts[2]| - |c| + i];
        }
        assert FormatMMDDYY(input) == a + ['-'] + b + ['-'] + c;
        FormatMMDDYYOfFields(a, '-', b, '-', c);
      }
    }
  }

  lemma FormatMMDDYYYYIdempotent(input: Option<string>)
    ensures FormatMMDDYYYY(Some(FormatMMDDYYYY(input))) == FormatMMDDYYYY(input)
  {
    if input.None? || input.value == "" {
      assert SplitOn("-", DateDelims) == ["", ""];
    } else {
      var parts := SplitOn(input.value, DateDelims);
      if |parts| >= 3 {
        var a, b, c := PadStart(parts[0], 2, '0'), PadStart(parts[1], 2, '0'), PadStart(parts[2], 4, '0');
        PadStartFree(parts[0], 2, '0', DateDelims);
        PadStartFree(parts[1], 2, '0', DateDelims);
        PadStartFree(parts[2], 4, '0', DateDelims);
        assert FormatMMDDYYYY(input) == a + ['/'] + b + ['/'] + c;
        FormatMMDDYYYYOfFields(a, '/', b, '/', c);
      }
    }
  }

  /** A numeral of a number of at least 1000 has at least four digits. */
  lemma FourDigitYear(n: nat)
    requires n >= 1000
    ensures |NatToString(n)| >= 4
  {
    assert NatToString(n) == NatToString(n / 10) + [DigitChar(n % 10)];
    assert NatToString(n / 10) == NatToString(n / 100) + [DigitChar(n / 10 % 10)];
    assert NatToString(n / 100) == NatToString(n / 1000) + [DigitChar(n / 100 % 10)];
  }

  /** The text `addDays` writes for a date with a four-digit year is already in
      `mm/dd/yyyy` form, and `formatMMDDYY` turns it into `mm-dd-yy`. */
  lemma FormatsOfDateText(d: Date)
    requires IsValid(d) && d.year >= 1000
    ensures FormatMMDDYYYY(Some(FormatDate(d))) == FormatDate(d)
    ensures FormatMMDDYY(Some(FormatDate(d))) ==
      FormatDate(d)[..2] + "-" + FormatDate(d)[3..5] + "-" + TakeLast(IntToString(d.year), 2)
  {
    var m := PadStart(IntToString(d.month), 2, '0');
    var dd := PadStart(IntToString(d.day), 2, '0');
    var y := IntToString(d.year);
    PaddedValue(d.month);
    PaddedValue(d.day);
    FourDigitYear(d.year);
    assert FreeOf(m, DateDelims) && FreeOf(dd, DateDelims) && FreeOf(y, DateDelims);
    assert FormatDate(d) == m + ['/'] + dd + ['/'] + y;
    FormatMMDDYYYYOfFields(m, '/', dd, '/', y);
    FormatMMDDYYOfFields(m, '/', dd, '/', y);
    assert FormatDate(d)[..2] == m && FormatDate(d)[3..5] == dd;
  }

  // ---------------------------------------------------------------- search

  /** The fields the search box looks in, in the order they are joined. */
  function HaystackFields(l: LeadData): (fields: seq<string>)
    ensures |fields| == 9
  {
    [l.leadName, l.acres, l.submissionDate, l.closedDate.GetOr(""), l.stage, l.lostReason.GetOr(""),
     l.contact.name, l.contact.email, l.contact.phone]
  }

  /** The lower-cased, space-joined text a lead is searched in. */
  function Haystack(l: LeadData): string {
    ToLower(Join(HaystackFields(l), " "))
  }

  /** The query the search text stands for: trimmed and lower-cased. */
  function Query(searchText: string): (q: string)
    ensures q == [] <==> Trim(searchText) == []
  {
    ToLower(Trim(searchText))
  }

  predicate MatchesSearch(query: string, l: LeadData) {
    query == "" || Includes(Haystack(l), query)
  }

  /** `searchFiltered`: the leads whose haystack contains the query, in their
      order; all of them for a blank search text. */
  function SearchFiltered(leads: seq<LeadData>, searchText: string): (r: seq<LeadData>)
    ensures IsSubsequence(r, leads)
    ensures forall l :: l in r <==> l in leads && MatchesSearch(Query(searchText), l)
    ensures Trim(searchText) == "" ==> r == leads
  {
    var query := Query(searchText);
    var matches := l => MatchesSearch(query, l);
    FilterIsSubsequence(leads, matches);
    if query == "" then
      FilterAll(leads, matches);
      Filter(leads, matches)
    else
      Filter(leads, matches)
  }

  /** A query found in any one field, ignoring case, finds the lead. */
  lemma SearchFindsField(l: LeadData, i: nat, searchText: string)
    requires i < 9 && Includes(ToLower(HaystackFields(l)[i]), Query(searchText))
    ensures MatchesSearch(Query(searchText), l)
  {
    var fields := HaystackFields(l);
    JoinIncludesPart(fields, " ", i);
    ToLowerIncludes(Join(fields, " "), fields[i]);
    IncludesTransitive(Haystack(l), ToLower(fields[i]), Query(searchText));
  }

  // ---------------------------------------------------------------- date range

  /** The range picker's value: each end is a picked day (a day number) or
      cleared. */
  datatype DateRange = DateRange(start: Option<int>, end: Option<int>)

  /** The range has no end set (no range, or both ends cleared). */
  predicate NoBounds(range: Option<DateRange>) {
    range.None? || (range.value.start.None? && range.value.end.None?)
  }

  /** `isWithinRange(dateStr)`. `parse` stands for `new Date(s).getTime()`:
      the millisecond time of a date text, `None` for an Invalid Date (NaN,
      which fails every comparison). */
  function IsWithinRange(range: Option<DateRange>, parse: string -> Option<int>, dateStr: Option<string>): (b: bool)
    ensures NoBounds(range) ==> b
    ensures !NoBounds(range) && (dateStr.None? || dateStr.value == "") ==> !b
    ensures !NoBounds(range) && dateStr.Some? && parse(dateStr.value).None? ==> !b
  {
    if NoBounds(range) then true
    else if dateStr.None? || dateStr.value == "" then false
    else
      var time := parse(dateStr.value);
      var start, end := range.value.start, range.value.end;
      if start.Some? && end.Some? then time.Some? && time.value >= StartOfDay(start.value) && time.value <= EndOfDay(end.value)
      else if start.Some? then time.Some? && time.value >= StartOfDay(start.value)
      else if end.Some? then time.Some? && time.value <= EndOfDay(end.value)
      else true
  }

  /** With an end set and a readable date, the test is inclusive on whole days:
      the date's day lies on or after the start day and on or before the end day. */
  lemma WithinRangeByDay(range: Option<DateRange>, parse: string -> Option<int>, dateStr: string)
    requires !NoBounds(range) && dateStr != "" && parse(dateStr).Some?
    ensures var day := DayOfTime(parse(dateStr).value);
      IsWithinRange(range, parse, Some(dateStr)) <==>
        (range.value.start.None? || range.value.start.value <= day) &&
        (range.value.end.None? || day <= range.value.end.value)
  {
    var t := parse(dateStr).value;
    DayBounds(t, range.value.start.GetOr(0), range.value.end.GetOr(0));
  }

  // ---------------------------------------------------------------- tabs

  predicate IsDecided(l: LeadData) {
    l.stage == "Lost" || l.stage == "Won"
  }

  /** The tests of the Active, Lost and Won tabs. */
  function ActiveTest(range: Option<DateRange>, parse: string -> Option<int>): LeadData -> bool {
    (l: LeadData) => l.stage != "Lost" && l.stage != "Won" && IsWithinRange(range, parse, Some(l.submissionDate))
  }

  function LostTest(range: Option<DateRange>, parse: string -> Option<int>): LeadData -> bool {
    (l: LeadData) => l.stage == "Lost" && IsWithinRange(range, parse, l.closedDate)
  }

  function WonTest(range: Option<DateRange>, parse: string -> Option<int>): LeadData -> bool {
    (l: LeadData) => l.stage == "Won" && IsWithinRange(range, parse, l.closedDate)
  }

  /** `activeData`: undecided leads submitted within the range. */
  function ActiveData(searched: seq<LeadData>, range: Option<DateRange>, parse: string -> Option<int>): (r: seq<LeadData>)
    ensures IsSubsequence(r, searched)
    ensures forall l :: l in r <==> l in searched && !IsDecided(l) && IsWithinRange(range, parse, Some(l.submissionDate))
  {
    FilterIsSubsequence(searched, ActiveTest(range, parse));
    Filter(searched, ActiveTest(range, parse))
  }

  /** `lostData`: lost leads closed within the range. */
  function LostData(searched: seq<LeadData>, range: Option<DateRange>, parse: string -> Option<int>): (r: seq<LeadData>)
    ensures IsSubsequence(r, searched)
    ensures forall l :: l in r <==> l in searched && l.stage == "Lost" && IsWithinRange(range, parse, l.closedDate)
  {
    FilterIsSubsequence(searched, LostTest(range, parse));
    Filter(searched, LostTest(range, parse))
  }

  /** `completedData`, the Won tab: won leads closed within the range. */
  function CompletedData(searched: seq<LeadData>, range: Option<DateRange>, parse: string -> Option<int>): (r: seq<LeadData>)
    ensures IsSubsequence(r, searched)
    ensures forall l :: l in r <==> l in searched && l.stage == "Won" && IsWithinRange(range, parse, l.closedDate)
  {
    FilterIsSubsequence(searched, WonTest(range, parse));
    Filter(searched, WonTest(range, parse))
  }

  /** No lead is in two of the Active, Lost and Won tabs. */
  lemma TabsDisjoint(searched: seq<LeadData>, range: Option<DateRange>, parse: string -> Option<int>, l: LeadData)
    ensures !(l in ActiveData(searched, range, parse) && l in LostData(searched, range, parse))
    ensures !(l in ActiveData(searched, range, parse) && l in CompletedData(searched, range, parse))
    ensures !(l in LostData(searched, range, parse) && l in CompletedData(searched, range, parse))
  {
  }

  /** Without a range the three tabs split the searched leads: each lead lands
      in exactly one of them, so their sizes add up. */
  lemma TabsCoverWithoutRange(searched: seq<LeadData>, range: Option<DateRange>, parse: string -> Option<int>)
    requires NoBounds(range)
    ensures |ActiveData(searched, range, parse)| + |LostData(searched, range, parse)| + |CompletedData(searched, range, parse)| == |searched|
  {
    FilterPartition3(searched, ActiveTest(range, parse), LostTest(range, parse), WonTest(range, parse), l => 0);
  }

  // ---------------------------------------------------------------- open status

  /** `isOpen`: a non-empty `dealStatus` decides (only `Open` is open);
      otherwise a lead is open while it is neither won nor lost. */
  predicate IsOpen(l: LeadData) {
    if l.dealStatus.Some? && l.dealStatus.value != "" then l.dealStatus.value == "Open"
    else !IsDecided(l)
  }

  /** A lead without a non-empty `dealStatus` is open exactly when it is neither
      won nor lost; one with a status is open exactly when the status is `Open`,
      whatever its stage. */
  lemma OpenByStatusOrStage(l: LeadData)
    ensures (l.dealStatus.None? || l.dealStatus.value == "") ==> (IsOpen(l) <==> l.stage != "Lost" && l.stage != "Won")
    ensures l.dealStatus.Some? && l.dealStatus.value != "" ==> (IsOpen(l) <==> l.dealStatus.value == "Open")
  {
  }

  /** In the Active tab, a lead without a deal status is always open, so for such
      leads `activeDealsFiltered` keeps exactly those whose derived stage is allowed. */
  lemma ActiveDealsWithoutStatus(searched: seq<LeadData>, range: Option<DateRange>, parse: string -> Option<int>)
    requires forall l :: l in searched ==> l.dealStatus.None? || l.dealStatus.value == ""
    ensures forall l :: l in ActiveDealsFiltered(ActiveData(searched, range, parse)) <==>
      l in ActiveData(searched, range, parse) && DeriveStage(l) in ActiveAllowedStages
  {
  }

  /** Every sample lead lacks a deal status, so it is open exactly when it is
      neither won nor lost. */
  lemma LeadsDataOpenIffUndecided()
    ensures forall l :: l in LeadsData ==> (IsOpen(l) <==> !IsDecided(l))
  {
    LeadsDataLacksExtraFields();
  }

  // ---------------------------------------------------------------- derived stage

  predicate Completed(s: SubStage) {
    s.completed
  }

  /** `stages.find((s) => s.current)`. */
  function FindCurrent(stages: seq<SubStage>): Option<SubStage> {
    if stages == [] then None
    else if IsCurrent(stages[0]) then Some(stages[0])
    else FindCurrent(stages[1..])
  }

  /** The last element of `stages.filter((s) => s.completed)`. */
  function LastCompleted(stages: seq<SubStage>): Option<SubStage> {
    var completed := Filter(stages, Completed);
    if |completed| > 0 then Some(completed[|completed| - 1]) else None
  }

  /** Step `i` is the first current step. */
  predicate FirstCurrentAt(stages: seq<SubStage>, i: int) {
    0 <= i < |stages| && IsCurrent(stages[i]) && forall j :: 0 <= j < i ==> !IsCurrent(stages[j])
  }

  /** Step `i` is the last completed step. */
  predicate LastCompletedAt(stages: seq<SubStage>, i: int) {
    0 <= i < |stages| && stages[i].completed && forall j :: i < j < |stages| ==> !stages[j].completed
  }

  lemma {:induction false} FindCurrentSpec(stages: seq<SubStage>)
    ensures FindCurrent(stages).None? <==> forall i :: 0 <= i < |stages| ==> !IsCurrent(stages[i])
    ensures forall i :: FirstCurrentAt(stages, i) ==> FindCurrent(stages) == Some(stages[i])
  {
    if stages != [] && !IsCurrent(stages[0]) {
      FindCurrentSpec(stages[1..]);
      forall i | FirstCurrentAt(stages, i)
        ensures FindCurrent(stages) == Some(stages[i])
      {
        assert FirstCurrentAt(stages[1..], i - 1);
      }
      if FindCurrent(stages).None? {
        forall i | 0 <= i < |stages|
          ensures !IsCurrent(stages[i])
        {
          if i > 0 {
            assert stages[i] == stages[1..][i - 1];
          }
        }
      }
    }
  }

  /** The last element of a filtered list is the last element of the input
      that passes the filter. */
  lemma {:induction false} FilterLast<T(!new)>(s: seq<T>, p: T -> bool)
    requires Filter(s, p) != []
    ensures exists i :: (0 <= i < |s| && p(s[i]) && Filter(s, p)[|Filter(s, p)| - 1] == s[i] &&
      forall j :: i < j < |s| ==> !p(s[j]))
  {
    var rest := Filter(s[1..], p);
    if rest != [] {
      FilterLast(s[1..], p);
      var i :| 0 <= i < |s[1..]| && p(s[1..][i]) && rest[|rest| - 1] == s[1..][i] &&
        forall j :: i < j < |s[1..]| ==> !p(s[1..][j]);
      assert Filter(s, p)[|Filter(s, p)| - 1] == rest[|rest| - 1];
      forall j | i + 1 < j < |s|
        ensures !p(s[j])
      {
        assert s[j] == s[1..][j - 1];
      }
      assert 0 <= i + 1 < |s| && p(s[i + 1]) && Filter(s, p)[|Filter(s, p)| - 1] == s[i + 1];
    } else {
      assert Filter(s, p) == [s[0]];
      forall j | 0 < j < |s|
        ensures !p(s[j])
      {
        assert s[j] in s[1..];
      }
      assert p(s[0]) && Filter(s, p)[|Filter(s, p)| - 1] == s[0];
    }
  }

  lemma LastCompletedSpec(stages: seq<SubStage>)
    ensures LastCompleted(stages).None? <==> forall i :: 0 <= i < |stages| ==> !stages[i].completed
    ensures forall i :: LastCompletedAt(stages, i) ==> LastCompleted(stages) == Some(stages[i])
  {
    var completed := Filter(stages, Completed);
    if completed != [] {
      FilterLast(stages, Completed);
      var k :| 0 <= k < |stages| && Completed(stages[k]) && completed[|completed| - 1] == stages[k] &&
        forall j :: k < j < |stages| ==> !Completed(stages[j]);
      forall i | LastCompletedAt(stages, i)
        ensures LastCompleted(stages) == Some(stages[i])
      {
        assert i == k;
      }
      assert stages[k].completed;
    } else {
      forall i | 0 <= i < |stages|
        ensures !stages[i].completed
      {
        assert stages[i] in stages;
      }
    }
  }

  /** The progress steps of a lead (none without a progress bar). */
  function StagesOf(l: LeadData): seq<SubStage> {
    if l.progress.Some? then l.progress.value.stages else []
  }

  /** `s?.name`, with a missing step read as an empty name. */
  function NameOf(s: Option<SubStage>): string {
    if s.Some? then s.value.name else ""
  }

  /** `deriveStage`: the first non-empty of the current step's name, the last
      completed step's name and the lead's stage, trimmed. */
  function DeriveStage(l: LeadData): string {
    var stages := StagesOf(l);
    var current := NameOf(FindCurrent(stages));
    var last := NameOf(LastCompleted(stages));
    Trim(if current != "" then current else if last != "" then last else l.stage)
  }

  /** The precedence of `deriveStage`, stated on step positions: a named first
      current step wins; failing that, a named last completed step; failing that,
      the lead's own stage. */
  lemma DeriveStageSpec(l: LeadData)
    ensures var st := StagesOf(l);
      forall i :: FirstCurrentAt(st, i) && st[i].name != "" ==> DeriveStage(l) == Trim(st[i].name)
    ensures var st := StagesOf(l);
      (forall i :: FirstCurrentAt(st, i) ==> st[i].name == "") ==>
        forall i :: LastCompletedAt(st, i) && st[i].name != "" ==> DeriveStage(l) == Trim(st[i].name)
    ensures var st := StagesOf(l);
      ((forall i :: FirstCurrentAt(st, i) ==> st[i].name == "") &&
       (forall i :: LastCompletedAt(st, i) ==> st[i].name == "")) ==> DeriveStage(l) == Trim(l.stage)
  {
    var st := StagesOf(l);
    FindCurrentSpec(st);
    LastCompletedSpec(st);
    if FindCurrent(st).Some? {
      var i := FirstCurrentIndex(st);
      assert FirstCurrentAt(st, i);
    }
    if LastCompleted(st).Some? {
      var i := LastCompletedIndex(st);
      assert LastCompletedAt(st, i);
    }
  }

  /** The position of the first current step, when there is one. */
  function FirstCurrentIndex(stages: seq<SubStage>): (i: int)
    requires exists k :: 0 <= k < |stages| && IsCurrent(stages[k])
    ensures FirstCurrentAt(stages, i)
  {
    if IsCurrent(stages[0]) then 0
    else
      assert exists k :: 0 <= k < |stages[1..]| && IsCurrent(stages[1..][k]) by {
        var k :| 0 <= k < |stages| && IsCurrent(stages[k]);
        assert stages[1..][k - 1] == stages[k];
      }
      1 + FirstCurrentIndex(stages[1..])
  }

  /** The position of the last completed step, when there is one. */
  function LastCompletedIndex(stages: seq<SubStage>): (i: int)
    requires exists k :: 0 <= k < |stages| && stages[k].completed
    ensures LastCompletedAt(stages, i)
  {
    if stages[|stages| - 1].completed then |stages| - 1
    else
      var front := stages[..|stages| - 1];
      assert exists k :: 0 <= k < |front| && front[k].completed by {
        var k :| 0 <= k < |stages| && stages[k].completed;
        assert front[k] == stages[k];
      }
      var i := LastCompletedIndex(front);
      assert forall j :: i < j < |front| ==> front[j] == stages[j];
      i
  }

  // ---------------------------------------------------------------- Active Deals and Leads tabs

  /** `ACTIVE_ALLOWED_STAGES`: the business stages and their synonyms. */
  const ActiveAllowedStages: set<string> := {
    "RFS Submitted",
    "Request for Services Submitted",
    "Contact Form Submitted",
    "Docusign",
    "Agreement Sent",
    "Service Contract Under Review",
    "Soil Team",
    "Soil Data Collection",
    "Soils Complete/Analyst Queue",
    "Analyst Team",
    "Report Complete",
    "Report Complete/Not Paid",
    "Report Review NOT PAID"
  }

  predicate IsActiveDeal(l: LeadData) {
    IsOpen(l) && DeriveStage(l) in ActiveAllowedStages
  }

  /** `activeDealsFiltered`: the open leads of the Active tab whose derived
      stage is an allowed one. */
  function ActiveDealsFiltered(activeData: seq<LeadData>): (r: seq<LeadData>)
    ensures IsSubsequence(r, activeData)
    ensures forall l :: l in r <==> l in activeData && IsOpen(l) && DeriveStage(l) in ActiveAllowedStages
  {
    FilterIsSubsequence(activeData, IsActiveDeal);
    Filter(activeData, IsActiveDeal)
  }

  /** The conditions of the Leads tab. */
  function LeadsTabTest(range: Option<DateRange>, parse: string -> Option<int>): LeadData -> bool {
    (l: LeadData) =>
      && l.referralCode == Some(RpReferralCode)
      && l.pipeline == Some(RequiredPipeline)
      && l.crmStage.Some? && l.crmStage.value != "" && l.crmStage.value in CrmAllowedStages
      && IsOpen(l)
      && IsWithinRange(range, parse, Some(l.submissionDate))
  }

  /** `leadsTabData`: the searched leads with the partner's referral code, the
      soil pipeline, an allowed CRM stage, an open status and a submission date
      within the range. */
  function LeadsTabData(searched: seq<LeadData>, range: Option<DateRange>, parse: string -> Option<int>): (r: seq<LeadData>)
    ensures IsSubsequence(r, searched)
    ensures forall l :: l in r <==>
      && l in searched
      && l.referralCode == Some("JSMITH2024")
      && l.pipeline == Some("Soil Nutrient Load Pipeline")
      && l.crmStage.Some? && l.crmStage.value in CrmAllowedStages
      && IsOpen(l)
      && IsWithinRange(range, parse, Some(l.submissionDate))
  {
    FilterIsSubsequence(searched, LeadsTabTest(range, parse));
    Filter(searched, LeadsTabTest(range, parse))
  }

  /** Leads without a referral code never reach the Leads tab. */
  lemma LeadsTabNeedsReferralCode(searched: seq<LeadData>, range: Option<DateRange>, parse: string -> Option<int>)
    requires forall l :: l in searched ==> l.referralCode.None?
    ensures LeadsTabData(searched, range, parse) == []
  {
    FilterNone(searched, LeadsTabTest(range, parse));
  }

  /** No sample lead carries a referral code, so the Leads tab is empty on the
      sample data whatever the search and range. */
  lemma LeadsTabEmptyOnSampleData(searchText: string, range: Option<DateRange>, parse: string -> Option<int>)
    ensures LeadsTabData(SearchFiltered(LeadsData, searchText), range, parse) == []
  {
    LeadsDataLacksExtraFields();
    LeadsTabNeedsReferralCode(SearchFiltered(LeadsData, searchText), range, parse);
  }

  // ---------------------------------------------------------------- business labels

  /** The labels `mapToBusinessStage` produces for the allowed stages. */
  const BusinessLabels: set<string> := {
    "RFS Submitted",
    "Docusign",
    "Soil Team",
    "Soils Complete/Analyst Queue",
    "Analyst Team",
    "Report Complete",
    "Report Review NOT PAID"
  }

  /** `mapToBusinessStage`: synonyms to their business label; any other name
      passes through unchanged. An allowed stage is exactly a name that maps to
      a business label. */
  function MapToBusinessStage(name: string): (r: string)
    ensures name !in ActiveAllowedStages ==> r == name
    ensures name in ActiveAllowedStages <==> r in BusinessLabels
  {
    if name in {"Request for Services Submitted", "Contact Form Submitted", "RFS Submitted"} then "RFS Submitted"
    else if name in {"Agreement Sent", "Service Contract Under Review", "Docusign"} then "Docusign"
    else if name in {"Soil Data Collection", "Soil Team"} then "Soil Team"
    else if name == "Soils Complete/Analyst Queue" then "Soils Complete/Analyst Queue"
    else if name == "Analyst Team" then "Analyst Team"
    else if name == "Report Complete" then "Report Complete"
    else if name in {"Report Complete/Not Paid", "Report Review NOT PAID"} then "Report Review NOT PAID"
    else name
  }

  /** Mapping a label again changes nothing. */
  lemma MapToBusinessStageIdempotent(name: string)
    ensures MapToBusinessStage(MapToBusinessStage(name)) == MapToBusinessStage(name)
  {
  }

  /** Every row of the Active Deals tab shows a business label. */
  lemma ActiveDealsShowLabels(activeData: seq<LeadData>)
    ensures forall l :: l in ActiveDealsFiltered(activeData) ==> MapToBusinessStage(DeriveStage(l)) in BusinessLabels
  {
  }
}
