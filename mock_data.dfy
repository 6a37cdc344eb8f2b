/** The lead record, the `addDays` date helper and the sample lead list that
    every page reads (lib/mock-data.ts). */
module MockData {
  import opened Wrappers
  import opened JsStrings
  import opened Calendar

  // ---------------------------------------------------------------- the record

  datatype Contact = Contact(name: string, email: string, phone: string)

  /** One step of a lead's progress bar. `current` is optional in the record. */
  datatype SubStage = SubStage(name: string, completed: bool, date: Option<string>, current: Option<bool>)

  datatype Progress = Progress(stages: seq<SubStage>)

  /** A lead. The last four fields are not declared by the interface but are read
      by the referrals page; they are absent in every sample record. */
  datatype LeadData = LeadData(
    key: string,
    leadName: string,
    acres: string,
    submissionDate: string,
    closedDate: Option<string>,
    stage: string,
    stageColor: string,
    lostReason: Option<string>,
    contact: Contact,
    progress: Option<Progress>,
    dealStatus: Option<string>,
    referralCode: Option<string>,
    pipeline: Option<string>,
    crmStage: Option<string>)

  /** `s.current` read as a condition: only a present `true` counts. */
  predicate IsCurrent(s: SubStage) {
    s.current == Some(true)
  }

  // ---------------------------------------------------------------- a JavaScript Date

  /** `new Date(y, …)` reads a year from 0 to 99 as 1900 + y. */
  function FullYear(y: int): int {
    if 0 <= y <= 99 then 1900 + y else y
  }

  /** A local-time `Date`, kept as its calendar fields; `valid` is false for an
      Invalid Date, whose getters return NaN. */
  class JsDate {
    var valid: bool
    var year: int
    var month: int
    var date: int

    ghost predicate Valid()
      reads this
    {
      valid ==> IsValid(Date(year, month, date))
    }

    /** The day number of the stored date. */
    function Day(): int
      reads this
      requires Valid() && valid
    {
      DayNumber(Date(year, month, date))
    }

    /** `new Date(y, monthIndex, day)`; a NaN year gives an Invalid Date. */
    constructor (y: Option<int>, monthIndex: int, day: int)
      ensures Valid()
      ensures valid == y.Some?
      ensures valid ==> Day() == MakeDay(FullYear(y.value), monthIndex, day)
    {
      if y.Some? {
        var yr := FullYear(y.value);
        var d := Normalize(yr + monthIndex / 12, monthIndex % 12 + 1, day);
        valid, year, month, date := true, d.year, d.month, d.day;
      } else {
        valid, year, month, date := false, 1970, 1, 1;
      }
    }

    /** `getDate()`. */
    function GetDate(): Option<int>
      reads this
    {
      if valid then Some(date) else None
    }

    /** `getMonth()`: 0 for January. */
    function GetMonth(): Option<int>
      reads this
    {
      if valid then Some(month - 1) else None
    }

    /** `getFullYear()`. */
    function GetFullYear(): Option<int>
      reads this
    {
      if valid then Some(year) else None
    }

    /** `setDate(n)`: day `n` of the stored month, rolled over into the
        neighbouring months; a NaN argument makes the date invalid. */
    method SetDate(n: Option<int>)
      requires Valid()
      modifies this
      ensures Valid()
      ensures valid == (old(valid) && n.Some?)
      ensures valid ==> Day() == DayNumber(Date(old(year), old(month), 1)) + n.value - 1
    {
      if valid && n.Some? {
        var d := Normalize(year, month, n.value);
        year, month, date := d.year, d.month, d.day;
      } else {
        valid := false;
      }
    }
  }

  // ---------------------------------------------------------------- addDays

  /** `x || 1` for a number: NaN and 0 are replaced by 1. */
  function OrOne(x: Option<int>): int {
    if x.None? || x.value == 0 then 1 else x.value
  }

  /** Element `i` of `dateStr.split("/").map((s) => parseInt(s, 10))`; a missing
      element (undefined) behaves like NaN. */
  function FieldAt(parts: seq<string>, i: nat): Option<int> {
    if i < |parts| then JsParseInt(parts[i]) else None
  }

  /** `n.toString()` for a number that may be NaN. */
  function NumberToString(n: Option<int>): string {
    if n.None? then "NaN" else IntToString(n.value)
  }

  function OptionAdd(a: Option<int>, b: int): Option<int> {
    if a.None? then None else Some(a.value + b)
  }

  /** The `MM/DD/YYYY` text of a date: month and day padded to two digits, the
      year as `toString` writes it. */
  function FormatDate(d: Date): string {
    PadStart(IntToString(d.month), 2, '0') + "/" + PadStart(IntToString(d.day), 2, '0') + "/" + IntToString(d.year)
  }

  /** The day number of `new Date(yyyy, (mm || 1) - 1, dd || 1)` for the
      `mm/dd/yyyy` fields of `dateStr`: a missing, zero or unreadable month or
      day counts as 1; `None` when the year is unreadable (an Invalid Date). */
  function ParsedDay(dateStr: string): Option<int> {
    var parts := SplitOn(dateStr, {'/'});
    var year := FieldAt(parts, 2);
    if year.None? then None
    else Some(MakeDay(FullYear(year.value), OrOne(FieldAt(parts, 0)) - 1, OrOne(FieldAt(parts, 1))))
  }

  /** The text `addDays` writes for a day number moved by `days`; an Invalid
      Date prints each field as `NaN`. */
  function ShiftedText(start: Option<int>, days: int): string {
    if start.None? then "NaN/NaN/NaN" else FormatDate(FromDayNumber(start.value + days))
  }

  /** What `addDays(dateStr, days)` returns. */
  function AddDaysResult(dateStr: string, days: int): string {
    ShiftedText(ParsedDay(dateStr), days)
  }

  /** The template `${mm}/${dd}/${yyyy}` of `addDays` over the getters of a valid
      date is `FormatDate` of that date. */
  lemma GettersFormat(mo: Option<int>, da: Option<int>, ye: Option<int>, e: Date)
    requires mo == Some(e.month - 1) && da == Some(e.day) && ye == Some(e.year)
    ensures PadStart(NumberToString(OptionAdd(mo, 1)), 2, '0') + "/" + PadStart(NumberToString(da), 2, '0')
      + "/" + NumberToString(ye) == FormatDate(e)
  {
  }

  /** The shifted text of a valid start day is the formatted date `days` later. */
  lemma ShiftedValid(start: int, days: int, e: Date)
    requires IsValid(e) && DayNumber(e) == start + days
    ensures ShiftedText(Some(start), days) == FormatDate(e)
  {
    FromDayNumberOf(e, start + days);
  }

  /** `addDays` as the source runs it: build the Date, move it with `setDate`,
      then format its fields. */
  method AddDays(dateStr: string, days: int) returns (r: string)
    ensures r == AddDaysResult(dateStr, days)
  {
    var parts := SplitOn(dateStr, {'/'});
    var mm, dd, yyyy := FieldAt(parts, 0), FieldAt(parts, 1), FieldAt(parts, 2);
    var d := new JsDate(yyyy, OrOne(mm) - 1, OrOne(dd));
    ghost var start := if d.valid then d.Day() else 0;
    assert d.valid ==> ParsedDay(dateStr) == Some(start);
    d.SetDate(OptionAdd(d.GetDate(), days));
    var mo, da, ye := d.GetMonth(), d.GetDate(), d.GetFullYear();
    var m := PadStart(NumberToString(OptionAdd(mo, 1)), 2, '0');
    var day := PadStart(NumberToString(da), 2, '0');
    var y := NumberToString(ye);
    r := m + "/" + day + "/" + y;
    if d.valid {
      var e := Date(d.year, d.month, d.date);
      GettersFormat(mo, da, ye, e);
      ShiftedValid(start, days, e);
    } else {
      assert r == "NaN/NaN/NaN";
    }
  }

  /** Every result of `addDays` is `NaN/NaN/NaN` or the formatted text of a valid date. */
  lemma AddDaysShape(dateStr: string, days: int)
    ensures var r := AddDaysResult(dateStr, days);
      r == "NaN/NaN/NaN" || exists d :: IsValid(d) && r == FormatDate(d)
  {
    var start := ParsedDay(dateStr);
    if start.Some? {
      var d := FromDayNumber(start.value + days);
      assert IsValid(d) && AddDaysResult(dateStr, days) == FormatDate(d);
    }
  }

  /** The formatted text is two digits, `/`, two digits, `/`, then the year:
      the month numeral reads as 1 to 12 and the day as a day of that month. */
  lemma FormatDateFields(d: Date)
    requires IsValid(d)
    ensures var s := FormatDate(d);
      && |s| >= 7 && s[2] == '/' && s[5] == '/'
      && AllDigits(s[..2]) && AllDigits(s[3..5])
      && DecimalValue(s[..2]) == d.month && DecimalValue(s[3..5]) == d.day
      && s[6..] == IntToString(d.year)
  {
    var s := FormatDate(d);
    var m := PadStart(IntToString(d.month), 2, '0');
    var dd := PadStart(IntToString(d.day), 2, '0');
    PaddedValue(d.month);
    PaddedValue(d.day);
    assert s == m + "/" + dd + "/" + IntToString(d.year);
    assert s[..2] == m && s[3..5] == dd;
  }

  /** A one- or two-digit number padded to two places reads back as itself. */
  lemma PaddedValue(n: nat)
    requires n < 100
    ensures var p := PadStart(IntToString(n), 2, '0');
      |p| == 2 && AllDigits(p) && DecimalValue(p) == n
  {
    var s := NatToString(n);
    var p := PadStart(s, 2, '0');
    assert |s| <= 2 by {
      if n >= 10 {
        assert NatToString(n / 10) == [DigitChar(n / 10)];
      }
    }
    assert p == Zeros(|p| - |s|) + s;
    DecimalValueLeadingZeros(|p| - |s|, s);
    DecimalValueOfNatToString(n);
  }

  /** Reading the formatted text of a date back: the split gives its three fields. */
  lemma SplitFormatted(d: Date)
    requires IsValid(d)
    ensures var parts := SplitOn(FormatDate(d), {'/'});
      && FieldAt(parts, 0) == Some(d.month)
      && FieldAt(parts, 1) == Some(d.day)
      && FieldAt(parts, 2) == Some(d.year)
  {
    var m := PadStart(IntToString(d.month), 2, '0');
    var dd := PadStart(IntToString(d.day), 2, '0');
    var y := IntToString(d.year);
    PaddedValue(d.month);
    PaddedValue(d.day);
    assert FreeOf(y, {'/'}) by {
      if d.year < 0 {
        assert y == "-" + NatToString(-d.year);
      }
    }
    SplitThree(m, '/', dd, '/', y, {'/'});
    assert FormatDate(d) == m + ['/'] + dd + ['/'] + y;
    ParseIntOfPadded(d.month, 2);
    ParseIntOfPadded(d.day, 2);
    ParseIntOfIntToString(d.year);
  }

  /** The text of a date reads back as its day number (for years the `Date`
      constructor does not remap, that is, outside 0 to 99). */
  lemma ParsedDayOfFormatted(d: Date)
    requires IsValid(d) && !(0 <= d.year <= 99)
    ensures ParsedDay(FormatDate(d)) == Some(DayNumber(d))
  {
    SplitFormatted(d);
    MakeDayInRange(d.year, d.month, d.day);
  }

  /** Day arithmetic with roll-over: adding `n` days to the text of a date gives
      the text of the date `n` days later. */
  lemma AddDaysOfFormatted(d: Date, n: int)
    requires IsValid(d) && !(0 <= d.year <= 99)
    ensures AddDaysResult(FormatDate(d), n) == FormatDate(FromDayNumber(DayNumber(d) + n))
  {
    ParsedDayOfFormatted(d);
  }

  /** Adding no days to the text of a date gives the same text back. */
  lemma AddZeroDays(d: Date)
    requires IsValid(d) && !(0 <= d.year <= 99)
    ensures AddDaysResult(FormatDate(d), 0) == FormatDate(d)
  {
    AddDaysOfFormatted(d, 0);
    FromDayNumberOfDayNumber(d);
  }

  /** Adding `a` days and then `b` days is adding `a + b` days, as long as the
      intermediate year is not one the constructor remaps. */
  lemma AddDaysTwice(s: string, a: int, b: int)
    requires ParsedDay(s).Some? ==> !(0 <= FromDayNumber(ParsedDay(s).value + a).year <= 99)
    ensures AddDaysResult(AddDaysResult(s, a), b) == AddDaysResult(s, a + b)
  {
    if ParsedDay(s).Some? {
      ShiftTwice(ParsedDay(s).value, a, b);
    } else {
      InvalidStaysInvalid(b);
    }
  }

  /** `NaN` is not a number, so the text of an Invalid Date stays invalid. */
  lemma InvalidStaysInvalid(days: int)
    ensures AddDaysResult("NaN/NaN/NaN", days) == "NaN/NaN/NaN"
  {
    var nan := "NaN";
    assert JsParseInt(nan).None? by {
      assert TrimStart(nan) == nan && SignFree(nan) == nan;
      assert DigitPrefix(nan) == [];
    }
    assert FreeOf(nan, {'/'});
    ParsedDayOfFields(nan, nan, nan);
    assert nan + "/" + nan + "/" + nan == "NaN/NaN/NaN";
  }

  lemma ShiftTwice(k: int, a: int, b: int)
    requires !(0 <= FromDayNumber(k + a).year <= 99)
    ensures AddDaysResult(ShiftedText(Some(k), a), b) == ShiftedText(Some(k), a + b)
  {
    var mid := FromDayNumber(k + a);
    AddDaysOfFormatted(mid, b);
    assert k + a + b == DayNumber(mid) + b;
  }

  /** A month or day that is missing, zero or not a number counts as 1. */
  lemma AddDaysDefaultsToFirst(m: string, d: string, y: string, days: int)
    requires FreeOf(m, {'/'}) && FreeOf(d, {'/'}) && FreeOf(y, {'/'})
    requires OrOne(JsParseInt(m)) == 1 && OrOne(JsParseInt(d)) == 1
    ensures ParsedDay(m + "/" + d + "/" + y) == ParsedDay("1" + "/" + "1" + "/" + y)
    ensures AddDaysResult(m + "/" + d + "/" + y, days) == AddDaysResult("1" + "/" + "1" + "/" + y, days)
  {
    ParsedDayOfFields(m, d, y);
    ParseOne();
    ParsedDayOfFields("1", "1", y);
  }

  /** The day `ParsedDay` reads from three slash-free fields. */
  lemma ParsedDayOfFields(m: string, d: string, y: string)
    requires FreeOf(m, {'/'}) && FreeOf(d, {'/'}) && FreeOf(y, {'/'})
    ensures ParsedDay(m + "/" + d + "/" + y) ==
      if JsParseInt(y).None? then None
      else Some(MakeDay(FullYear(JsParseInt(y).value), OrOne(JsParseInt(m)) - 1, OrOne(JsParseInt(d))))
  {
    SplitThree(m, '/', d, '/', y, {'/'});
    assert m + "/" + d + "/" + y == m + ['/'] + d + ['/'] + y;
  }

  lemma ParseOne()
    ensures FreeOf("1", {'/'}) && JsParseInt("1") == Some(1)
  {
    ParseIntOfNumeral("1");
    assert "1"[..0] == [];
  }

  /** Adding `n` days to the text of `d` gives the text of `e`, the date `n`
      days later. */
  lemma Example(d: Date, n: int, e: Date)
    requires IsValid(d) && IsValid(e) && !(0 <= d.year <= 99)
    requires DayNumber(e) == DayNumber(d) + n
    ensures AddDaysResult(FormatDate(d), n) == FormatDate(e)
  {
    AddDaysOfFormatted(d, n);
    FromDayNumberOfDayNumber(e);
  }

  /** Roll-over across a year end: three days after 30 December 2025. */
  lemma AddDaysAcrossYearEnd()
    ensures AddDaysResult(FormatDate(Date(2025, 12, 30)), 3) == FormatDate(Date(2026, 1, 2))
  {
    YearStep(2025);
    Example(Date(2025, 12, 30), 3, Date(2026, 1, 2));
  }

  /** Roll-over onto the leap day of 2024. */
  lemma AddDaysOntoLeapDay()
    ensures AddDaysResult(FormatDate(Date(2024, 2, 28)), 1) == FormatDate(Date(2024, 2, 29))
  {
    Example(Date(2024, 2, 28), 1, Date(2024, 2, 29));
  }

  /** Roll-over past the end of February in the common year 2025. */
  lemma AddDaysPastFebruary()
    ensures AddDaysResult(FormatDate(Date(2025, 2, 28)), 1) == FormatDate(Date(2025, 3, 1))
  {
    Example(Date(2025, 2, 28), 1, Date(2025, 3, 1));
  }

  /** Three days within October 2025, as the sample lost leads use it. */
  lemma AddThreeDaysInOctober(d: int)
    requires 1 <= d <= 28
    ensures AddDaysResult(FormatDate(Date(2025, 10, d)), 3) == FormatDate(Date(2025, 10, d + 3))
  {
    Example(Date(2025, 10, d), 3, Date(2025, 10, d + 3));
  }

  // ---------------------------------------------------------------- the sample leads

  /** A completed step with its date. */
  function Done(name: string, date: string): SubStage {
    SubStage(name, true, Some(date), None)
  }

  /** A step not yet reached. */
  function Todo(name: string): SubStage {
    SubStage(name, false, None, None)
  }

  /** The step the lead is at. */
  function At(name: string, completed: bool): SubStage {
    SubStage(name, completed, None, Some(true))
  }

  function Lead(key: string, leadName: string, acres: string, submitted: string, closed: Option<string>,
                stage: string, color: string, lostReason: Option<string>, contact: Contact,
                progress: Option<Progress>): LeadData {
    LeadData(key, leadName, acres, submitted, closed, stage, color, lostReason, contact, progress,
             None, None, None, None)
  }

  /** `leadsData`. The closing dates of the four lost leads are written as the
      text `addDays(submissionDate, 3)` returns for them (see
      `LostClosingDatesAreAddDays`). The sample has two open leads at "Invitation Sent", two at "Contact Info
      Only", one in soil sampling, two won and four lost. */
  const LeadsData: seq<LeadData> := [
    Lead("1", "Roger Bohenkamp", "1,020 acres", "10/01/2025", None, "Invitation Sent", "blue", None,
      Contact("Roger Bohenkamp", "roger.bohenkamp@williamscompany.com", "(555) 555-5555"),
      Some(Progress([
        Done("Contact Form Submitted", "08/21/2025"), Done("Request for Services Submitted", "08/29/2025"),
        Done("Agreement Sent", "09/12/2025"), At("Service Contract Under Review", true),
        Todo("Soil Data Collection"), Todo("Analyst Team"), Todo("Report Complete/Not Paid"), Todo("Won")]))),
    Lead("10", "Green Valley Partners", "520 acres", "10/17/2025", Some("10/17/2025"), "Won", "green", None,
      Contact("Lena Hart", "lena.hart@greenvalley.com", "(555) 555-5610"),
      Some(Progress([
        Done("Contact Form Submitted", "09/12/2025"), Done("Request for Services Submitted", "09/18/2025"),
        Done("Agreement Sent", "09/22/2025"), Done("Service Contract Under Review", "09/28/2025"),
        Done("Soil Data Collection", "10/02/2025"), Done("Analyst Team", "10/08/2025"),
        Done("Report Complete/Not Paid", "10/12/2025"), Done("Won", "10/17/2025")]))),
    Lead("11", "Blue River Co-op", "305 acres", "10/19/2025", Some("10/19/2025"), "Won", "green", None,
      Contact("Marcus Lee", "mlee@blueriver.coop", "(555) 555-5611"),
      Some(Progress([
        Done("Contact Form Submitted", "09/20/2025"), Done("Request for Services Submitted", "09/24/2025"),
        Done("Agreement Sent", "09/29/2025"), Done("Service Contract Under Review", "10/03/2025"),
        Done("Soil Data Collection", "10/06/2025"), Done("Analyst Team", "10/10/2025"),
        Done("Report Complete/Not Paid", "10/14/2025"), Done("Won", "10/19/2025")]))),
    Lead("2", "David & Valier Appley", "282 acres", "09/23/2025", None, "Contact Info Only", "purple", None,
      Contact("David & Valier Appley", "david.appley@example.com", "(555) 555-5556"),
      Some(Progress([
        Done("Contact Form Submitted", "09/23/2025"), At("Request for Services Submitted", false),
        Todo("Agreement Sent"), Todo("Service Contract Under Review"), Todo("Soil Data Collection"),
        Todo("Analyst Team"), Todo("Report Complete/Not Paid"), Todo("Won")]))),
    Lead("3", "Steve L. Irlbeck", "190 acres", "09/16/2025", None, "Soil Sampling & Data Collection", "orange", None,
      Contact("Steve L. Irlbeck", "steve.irlbeck@example.com", "(555) 555-5557"),
      Some(Progress([
        Done("Contact Form Submitted", "09/16/2025"), Done("Request for Services Submitted", "09/18/2025"),
        Done("Agreement Sent", "09/25/2025"), Done("Service Contract Under Review", "10/02/2025"),
        At("Soil Data Collection", true), Todo("Analyst Team"), Todo("Report Complete/Not Paid"), Todo("Won")]))),
    Lead("4", "Brian Fuller", "316 acres", "08/28/2025", None, "Invitation Sent", "blue", None,
      Contact("Brian Fuller", "brian.fuller@example.com", "(555) 555-5558"),
      Some(Progress([
        Done("Contact Form Submitted", "08/28/2025"), Done("Request for Services Submitted", "09/05/2025"),
        Done("Agreement Sent", "09/15/2025"), At("Service Contract Under Review", false),
        Todo("Soil Data Collection"), Todo("Analyst Team"), Todo("Report Complete/Not Paid"), Todo("Won")]))),
    Lead("5", "Jeff Nunn", "148 acres", "08/09/2025", None, "Contact Info Only", "purple", None,
      Contact("Jeff Nunn", "jeff.nunn@example.com", "(555) 555-5559"),
      Some(Progress([
        Done("Contact Form Submitted", "08/09/2025"), At("Request for Services Submitted", false),
        Todo("Agreement Sent"), Todo("Service Contract Under Review"), Todo("Soil Data Collection"),
        Todo("Analyst Team"), Todo("Report Complete/Not Paid"), Todo("Won")]))),
    Lead("6", "Golden Valley Farms", "100 acres", "10/05/2025", Some("10/08/2025"), "Lost", "red",
      Some("Internal Testing"), Contact("QA Team", "qa@example.com", "(555) 555-5600"), None),
    Lead("7", "Redwood Ridge Holdings", "2 acres", "10/08/2025", Some("10/11/2025"), "Lost", "red",
      Some("Spam"), Contact("Unknown", "spam@example.com", "(555) 555-5601"), None),
    Lead("8", "Prairie Creek Co-op", "245 acres", "10/12/2025", Some("10/15/2025"), "Lost", "red",
      Some("Submitted by Mistake"), Contact("Clerk Office", "clerk@example.com", "(555) 555-5602"), None),
    Lead("9", "Silver Brook Agriculture", "380 acres", "10/14/2025", Some("10/17/2025"), "Lost", "red",
      Some("Split Submission"), Contact("Records Dept", "records@example.com", "(555) 555-5603"), None)
  ]

  /** A lead has a closing date exactly when it is won or lost. */
  predicate ClosedWhenDecided(l: LeadData) {
    l.closedDate.Some? <==> (l.stage == "Won" || l.stage == "Lost")
  }

  /** A lead records why it was lost exactly when it is lost. */
  predicate ReasonWhenLost(l: LeadData) {
    l.lostReason.Some? <==> l.stage == "Lost"
  }

  /** At most one step of a progress list is current. */
  predicate AtMostOneCurrent(stages: seq<SubStage>) {
    forall i, j :: 0 <= i < |stages| && 0 <= j < |stages| && IsCurrent(stages[i]) && IsCurrent(stages[j]) ==> i == j
  }

  /** Step `k` is the current one and no other step is; `k == -1` when none is. */
  predicate CurrentExactlyAt(stages: seq<SubStage>, k: int) {
    forall i :: 0 <= i < |stages| ==> (IsCurrent(stages[i]) <==> i == k)
  }

  lemma CurrentExactlyAtOne(stages: seq<SubStage>, k: int)
    requires CurrentExactlyAt(stages, k)
    ensures AtMostOneCurrent(stages)
  {
  }

  /** A sample lead has a closing date exactly when it is won or lost. */
  lemma LeadsDataClosedWhenDecided()
    ensures forall i :: 0 <= i < |LeadsData| ==> ClosedWhenDecided(LeadsData[i])
  {
  }

  /** The lost sample leads, and only they, record a reason. */
  lemma LeadsDataReasonWhenLost()
    ensures forall i :: 0 <= i < |LeadsData| ==> ReasonWhenLost(LeadsData[i])
  {
  }

  /** No sample record sets the four fields the interface leaves out. */
  lemma LeadsDataLacksExtraFields()
    ensures forall l :: l in LeadsData ==>
      l.dealStatus.None? && l.referralCode.None? && l.pipeline.None? && l.crmStage.None?
  {
    assert forall i :: 0 <= i < |LeadsData| ==>
      LeadsData[i].dealStatus.None? && LeadsData[i].referralCode.None? &&
      LeadsData[i].pipeline.None? && LeadsData[i].crmStage.None?;
  }

  /** Leads 1 and 4, at "Invitation Sent", stand at "Service Contract Under
      Review" (step 3). */
  lemma InvitedLeadsCurrentStep()
    ensures LeadsData[0].progress.Some? && CurrentExactlyAt(LeadsData[0].progress.value.stages, 3)
    ensures LeadsData[5].progress.Some? && CurrentExactlyAt(LeadsData[5].progress.value.stages, 3)
  {
  }

  /** The won leads 10 and 11 stand at no step. */
  lemma WonLeadsCurrentStep()
    ensures LeadsData[1].progress.Some? && CurrentExactlyAt(LeadsData[1].progress.value.stages, -1)
    ensures LeadsData[2].progress.Some? && CurrentExactlyAt(LeadsData[2].progress.value.stages, -1)
  {
  }

  /** Leads 2 and 5, at "Contact Info Only", stand at "Request for Services
      Submitted" (step 1). */
  lemma ContactLeadsCurrentStep()
    ensures LeadsData[3].progress.Some? && CurrentExactlyAt(LeadsData[3].progress.value.stages, 1)
    ensures LeadsData[6].progress.Some? && CurrentExactlyAt(LeadsData[6].progress.value.stages, 1)
  {
  }

  /** Lead 3 stands at "Soil Data Collection" (step 4); the lost leads have no
      progress bar. */
  lemma OtherLeadsCurrentStep()
    ensures LeadsData[4].progress.Some? && CurrentExactlyAt(LeadsData[4].progress.value.stages, 4)
    ensures forall i :: 7 <= i < 11 ==> LeadsData[i].progress.None?
  {
  }

  /** No sample progress list has two current steps. */
  lemma LeadsDataAtMostOneCurrent()
    ensures forall i :: 0 <= i < |LeadsData| && LeadsData[i].progress.Some? ==>
      AtMostOneCurrent(LeadsData[i].progress.value.stages)
  {
    InvitedLeadsCurrentStep();
    WonLeadsCurrentStep();
    ContactLeadsCurrentStep();
    OtherLeadsCurrentStep();
    forall i | 0 <= i < |LeadsData| && LeadsData[i].progress.Some?
      ensures AtMostOneCurrent(LeadsData[i].progress.value.stages)
    {
      var k := if i == 0 || i == 5 then 3 else if i == 3 || i == 6 then 1 else if i == 4 then 4 else -1;
      CurrentExactlyAtOne(LeadsData[i].progress.value.stages, k);
    }
  }

  /** The numeral of a two-digit number. */
  lemma TwoDigitNumeral(n: nat)
    requires 10 <= n < 100
    ensures IntToString(n) == [DigitChar(n / 10), DigitChar(n % 10)]
  {
    assert NatToString(n / 10) == [DigitChar(n / 10)];
  }

  /** The text of a two-digit day of October 2025. */
  lemma OctoberText(d: nat)
    requires 10 <= d <= 31
    ensures FormatDate(Date(2025, 10, d)) == "10/" + [DigitChar(d / 10), DigitChar(d % 10)] + "/2025"
  {
    TwoDigitNumeral(d);
  }

  /** The text of a one-digit day of October 2025. */
  lemma OctoberTextOneDigit(d: nat)
    requires 1 <= d <= 9
    ensures FormatDate(Date(2025, 10, d)) == "10/0" + [DigitChar(d)] + "/2025"
  {
  }

  /** `addDays` of the four lost sample leads' submission dates and three days. */
  lemma AddDaysToOctober5()
    ensures AddDaysResult("10/05/2025", 3) == "10/08/2025"
  {
    var from, to := FormatDate(Date(2025, 10, 5)), FormatDate(Date(2025, 10, 8));
    assert from == "10/05/2025" by { OctoberTextOneDigit(5); }
    assert to == "10/08/2025" by { OctoberTextOneDigit(8); }
    AddThreeDaysInOctober(5);
    assert AddDaysResult(from, 3) == to;
  }

  lemma AddDaysToOctober8()
    ensures AddDaysResult("10/08/2025", 3) == "10/11/2025"
  {
    var from, to := FormatDate(Date(2025, 10, 8)), FormatDate(Date(2025, 10, 11));
    assert from == "10/08/2025" by { OctoberTextOneDigit(8); }
    assert to == "10/11/2025" by { OctoberText(11); }
    AddThreeDaysInOctober(8);
    assert AddDaysResult(from, 3) == to;
  }

  lemma AddDaysToOctober12()
    ensures AddDaysResult("10/12/2025", 3) == "10/15/2025"
  {
    var from, to := FormatDate(Date(2025, 10, 12)), FormatDate(Date(2025, 10, 15));
    assert from == "10/12/2025" by { OctoberText(12); }
    assert to == "10/15/2025" by { OctoberText(15); }
    AddThreeDaysInOctober(12);
    assert AddDaysResult(from, 3) == to;
  }

  lemma AddDaysToOctober14()
    ensures AddDaysResult("10/14/2025", 3) == "10/17/2025"
  {
    var from, to := FormatDate(Date(2025, 10, 14)), FormatDate(Date(2025, 10, 17));
    assert from == "10/14/2025" by { OctoberText(14); }
    assert to == "10/17/2025" by { OctoberText(17); }
    AddThreeDaysInOctober(14);
    assert AddDaysResult(from, 3) == to;
  }

  lemma LostLead7ClosingDate()
    ensures LeadsData[7].closedDate == Some(AddDaysResult(LeadsData[7].submissionDate, 3))
  {
    var l := LeadsData[7];
    assert l.submissionDate == "10/05/2025" && l.closedDate == Some("10/08/2025");
    AddDaysToOctober5();
  }

  lemma LostLead8ClosingDate()
    ensures LeadsData[8].closedDate == Some(AddDaysResult(LeadsData[8].submissionDate, 3))
  {
    var l := LeadsData[8];
    assert l.submissionDate == "10/08/2025" && l.closedDate == Some("10/11/2025");
    AddDaysToOctober8();
  }

  lemma LostLead9ClosingDate()
    ensures LeadsData[9].closedDate == Some(AddDaysResult(LeadsData[9].submissionDate, 3))
  {
    var l := LeadsData[9];
    assert l.submissionDate == "10/12/2025" && l.closedDate == Some("10/15/2025");
    AddDaysToOctober12();
  }

  lemma LostLead10ClosingDate()
    ensures LeadsData[10].closedDate == Some(AddDaysResult(LeadsData[10].submissionDate, 3))
  {
    var l := LeadsData[10];
    assert l.submissionDate == "10/14/2025" && l.closedDate == Some("10/17/2025");
    AddDaysToOctober14();
  }

  /** The closing dates of the four lost sample leads are what `addDays` returns
      for their submission dates and three days. */
  lemma LostClosingDatesAreAddDays()
    ensures forall i :: 7 <= i < 11 ==> LeadsData[i].closedDate == Some(AddDaysResult(LeadsData[i].submissionDate, 3))
  {
    LostLead7ClosingDate();
    LostLead8ClosingDate();
    LostLead9ClosingDate();
    LostLead10ClosingDate();
    forall i | 7 <= i < 11
      ensures LeadsData[i].closedDate == Some(AddDaysResult(LeadsData[i].submissionDate, 3))
    {
      assert i == 7 || i == 8 || i == 9 || i == 10;
    }
  }
}
