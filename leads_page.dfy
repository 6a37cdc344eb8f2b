/** The Leads page (app/leads/page.tsx): the search, year and stage filters, the
    text of the CSV export and the sorted list of stages offered by the stage
    selector. */
module LeadsPage {
  import opened Wrappers
  import opened Seqs
  import opened JsStrings
  import opened MockData

  // ---------------------------------------------------------------- filters

  /** The search box: an empty text matches every lead; any other text must occur,
      ignoring case, in the lead name, the contact name or the contact email. */
  predicate MatchesSearch(l: LeadData, searchText: string) {
    || searchText == ""
    || Includes(ToLower(l.leadName), ToLower(searchText))
    || Includes(ToLower(l.contact.name), ToLower(searchText))
    || Includes(ToLower(l.contact.email), ToLower(searchText))
  }

  /** The year selector. `yearOf` stands for `new Date(text).getFullYear()`, with
      `None` for an unreadable date (NaN is equal to no year); `currentYear` is
      the year of the clock. "This year" and "Last year" compare the lead's year;
      "All years" and every other value keep the lead. */
  predicate MatchesYear(l: LeadData, yearFilter: string, currentYear: int, yearOf: string -> Option<int>) {
    if yearFilter == "This year" then yearOf(l.submissionDate) == Some(currentYear)
    else if yearFilter == "Last year" then yearOf(l.submissionDate) == Some(currentYear - 1)
    else true
  }

  /** The stage selector: "All" and the placeholder "Stage Type" keep every lead;
      any other value must equal the lead's stage. */
  predicate MatchesStage(l: LeadData, stageFilter: string) {
    stageFilter == "All" || stageFilter == "Stage Type" || l.stage == stageFilter
  }

  /** The settings of the three controls. */
  datatype Controls = Controls(searchText: string, yearFilter: string, stageFilter: string)

  function SearchTest(searchText: string): LeadData -> bool {
    (l: LeadData) => MatchesSearch(l, searchText)
  }

  function YearTest(yearFilter: string, currentYear: int, yearOf: string -> Option<int>): LeadData -> bool {
    (l: LeadData) => MatchesYear(l, yearFilter, currentYear, yearOf)
  }

  function StageTest(stageFilter: string): LeadData -> bool {
    (l: LeadData) => MatchesStage(l, stageFilter)
  }

  function LeadTest(c: Controls, currentYear: int, yearOf: string -> Option<int>): LeadData -> bool {
    (l: LeadData) =>
      MatchesSearch(l, c.searchText) && MatchesYear(l, c.yearFilter, currentYear, yearOf) && MatchesStage(l, c.stageFilter)
  }

  /** `filteredData`: the leads that pass all three controls, in their order. */
  function FilteredData(leads: seq<LeadData>, c: Controls, currentYear: int, yearOf: string -> Option<int>): (r: seq<LeadData>)
    ensures IsSubsequence(r, leads)
    ensures forall l :: l in r <==>
      && l in leads
      && MatchesSearch(l, c.searchText)
      && MatchesYear(l, c.yearFilter, currentYear, yearOf)
      && MatchesStage(l, c.stageFilter)
  {
    FilterIsSubsequence(leads, LeadTest(c, currentYear, yearOf));
    Filter(leads, LeadTest(c, currentYear, yearOf))
  }

  /** The empty search text needs no special case: the empty text occurs in
      every name. */
  lemma EmptySearchIsIncluded(l: LeadData, searchText: string)
    ensures MatchesSearch(l, searchText) <==>
      || Includes(ToLower(l.leadName), ToLower(searchText))
      || Includes(ToLower(l.contact.name), ToLower(searchText))
      || Includes(ToLower(l.contact.email), ToLower(searchText))
  {
    if searchText == "" {
      IncludesEmpty(ToLower(l.leadName));
    }
  }

  /** The search ignores the case of its text as well. */
  lemma SearchIgnoresCase(l: LeadData, searchText: string)
    ensures MatchesSearch(l, searchText) <==> MatchesSearch(l, ToLower(searchText))
  {
    ToLowerIdempotent(searchText);
  }

  /** A year filter other than "This year" and "Last year" keeps every lead. */
  lemma OtherYearFilterKeepsAll(l: LeadData, yearFilter: string, currentYear: int, yearOf: string -> Option<int>)
    requires yearFilter != "This year" && yearFilter != "Last year"
    ensures MatchesYear(l, yearFilter, currentYear, yearOf)
  {
  }

  /** "This year" and "Last year" never both keep a lead. */
  lemma YearFiltersDisjoint(l: LeadData, currentYear: int, yearOf: string -> Option<int>)
    ensures !(MatchesYear(l, "This year", currentYear, yearOf) && MatchesYear(l, "Last year", currentYear, yearOf))
  {
  }

  /** The filters applied one after the other, in any grouping, give the same list. */
  lemma FilteredDataInStages(leads: seq<LeadData>, c: Controls, currentYear: int, yearOf: string -> Option<int>)
    ensures FilteredData(leads, c, currentYear, yearOf) ==
      Filter(Filter(Filter(leads, SearchTest(c.searchText)), YearTest(c.yearFilter, currentYear, yearOf)), StageTest(c.stageFilter))
  {
    var search, year, stage := SearchTest(c.searchText), YearTest(c.yearFilter, currentYear, yearOf), StageTest(c.stageFilter);
    var searchYear := (l: LeadData) => search(l) && year(l);
    FilterFilter(leads, search, year, searchYear);
    FilterFilter(Filter(leads, searchYear), searchYear, stage, LeadTest(c, currentYear, yearOf));
    FilterFilter(leads, searchYear, stage, LeadTest(c, currentYear, yearOf));
  }

  /** With an empty search, "All years" and "All" stages every lead is listed. */
  lemma NoFilterKeepsAll(leads: seq<LeadData>, currentYear: int, yearOf: string -> Option<int>)
    ensures FilteredData(leads, Controls("", "All years", "All"), currentYear, yearOf) == leads
  {
    FilterAll(leads, LeadTest(Controls("", "All years", "All"), currentYear, yearOf));
  }

  /** Choosing a stage lists only leads of that stage. */
  lemma StageFilterExact(leads: seq<LeadData>, c: Controls, currentYear: int, yearOf: string -> Option<int>)
    requires c.stageFilter != "All" && c.stageFilter != "Stage Type"
    ensures forall i :: 0 <= i < |FilteredData(leads, c, currentYear, yearOf)| ==>
      FilteredData(leads, c, currentYear, yearOf)[i].stage == c.stageFilter
  {
    var r := FilteredData(leads, c, currentYear, yearOf);
    forall i | 0 <= i < |r|
      ensures r[i].stage == c.stageFilter
    {
      assert r[i] in r;
    }
  }

  // ---------------------------------------------------------------- CSV text

  /** The header row of the export. */
  const CsvHeaders: seq<string> := ["Lead Name", "Acres", "Submission Date", "Stage", "Contact Name", "Email", "Phone"]

  /** The seven cells of a lead, in the order of the headers. */
  function Cells(l: LeadData): (cells: seq<string>)
    ensures |cells| == |CsvHeaders|
  {
    [l.leadName, l.acres, l.submissionDate, l.stage, l.contact.name, l.contact.email, l.contact.phone]
  }

  /** A cell between double quotes; a quote inside the cell is not escaped. */
  function Quote(cell: string): string {
    "\"" + cell + "\""
  }

  function QuoteAll(cells: seq<string>): (q: seq<string>)
    ensures |q| == |cells|
    ensures forall i :: 0 <= i < |cells| ==> q[i] == Quote(cells[i])
  {
    seq(|cells|, i requires 0 <= i < |cells| => Quote(cells[i]))
  }

  /** One data line: the quoted cells joined by commas. */
  function RowText(cells: seq<string>): string {
    Join(QuoteAll(cells), ",")
  }

  /** The header line: the names joined by commas. */
  function HeaderLine(): string {
    Join(CsvHeaders, ",")
  }

  /** The lines of the export: the header line, then one line per lead in order. */
  function CsvLines(leads: seq<LeadData>): (lines: seq<string>)
    ensures |lines| == 1 + |leads|
    ensures lines[0] == HeaderLine()
    ensures forall i :: 0 <= i < |leads| ==> lines[i + 1] == RowText(Cells(leads[i]))
  {
    [HeaderLine()] + seq(|leads|, i requires 0 <= i < |leads| => RowText(Cells(leads[i])))
  }

  /** `csvContent`: the lines joined by newlines. */
  function CsvContent(leads: seq<LeadData>): string {
    Join(CsvLines(leads), "\n")
  }

  /** No cell of the lead holds a line break. */
  predicate SingleLine(l: LeadData) {
    forall i :: 0 <= i < |Cells(l)| ==> FreeOf(Cells(l)[i], {'\n'})
  }

  lemma QuoteFree(cell: string, delims: set<char>)
    requires FreeOf(cell, delims) && '"' !in delims
    ensures FreeOf(Quote(cell), delims)
  {
    var q := Quote(cell);
    forall i | 0 <= i < |q|
      ensures q[i] !in delims
    {
      if 0 < i < |q| - 1 {
        assert q[i] == cell[i - 1];
      }
    }
  }

  /** A data line of a lead without line breaks is a single line. */
  lemma RowTextSingleLine(l: LeadData)
    requires SingleLine(l)
    ensures FreeOf(RowText(Cells(l)), {'\n'})
  {
    var q := QuoteAll(Cells(l));
    forall i | 0 <= i < |q|
      ensures FreeOf(q[i], {'\n'})
    {
      QuoteFree(Cells(l)[i], {'\n'});
    }
    JoinFree(q, ",", {'\n'});
  }

  lemma HeaderSingleLine()
    ensures FreeOf(HeaderLine(), {'\n'})
  {
    JoinFree(CsvHeaders, ",", {'\n'});
  }

  /** Split at its line breaks, the export text of leads without line breaks in
      their cells gives back the header line followed by one line per lead: one
      more line than there are leads. */
  lemma CsvContentLines(leads: seq<LeadData>)
    requires forall i :: 0 <= i < |leads| ==> SingleLine(leads[i])
    ensures SplitOn(CsvContent(leads), {'\n'}) == CsvLines(leads)
    ensures |SplitOn(CsvContent(leads), {'\n'})| == 1 + |leads|
  {
    var lines := CsvLines(leads);
    forall i | 0 <= i < |lines|
      ensures FreeOf(lines[i], {'\n'})
    {
      if i == 0 {
        HeaderSingleLine();
      } else {
        RowTextSingleLine(leads[i - 1]);
      }
    }
    SplitJoin(lines, '\n');
  }

  /** The parts a data line splits into at its double quotes: the empty text,
      then each cell followed by "," (after the last cell, the empty text). */
  function QuotedParts(cells: seq<string>): (parts: seq<string>)
    requires |cells| >= 1
    ensures |parts| == 2 * |cells| + 1
  {
    if |cells| == 1 then ["", cells[0], ""] else ["", cells[0], ","] + QuotedParts(cells[1..])[1..]
  }

  /** Part `2 i + 1` is cell `i`, the parts between cells are "," and the first
      and last parts are empty. */
  lemma {:induction false} QuotedPartsAt(cells: seq<string>)
    requires |cells| >= 1
    ensures var parts := QuotedParts(cells);
      && parts[0] == "" && parts[2 * |cells|] == ""
      && (forall i :: 0 <= i < |cells| ==> parts[2 * i + 1] == cells[i])
      && (forall i :: 0 < i < |cells| ==> parts[2 * i] == ",")
  {
    if |cells| > 1 {
      QuotedPartsAt(cells[1..]);
      var parts, tail := QuotedParts(cells), QuotedParts(cells[1..]);
      forall i | 0 < i < |cells|
        ensures parts[2 * i + 1] == cells[i] && parts[2 * i] == ","
      {
        assert parts[2 * i + 1] == tail[2 * (i - 1) + 1];
        if i > 1 {
          assert parts[2 * i] == tail[2 * (i - 1)];
        }
      }
    }
  }

  /** Split at its double quotes, a data line whose cells hold no double quote
      gives its `QuotedParts`. */
  lemma {:induction false} RowTextSplit(cells: seq<string>)
    requires |cells| >= 1
    requires forall i :: 0 <= i < |cells| ==> FreeOf(cells[i], {'"'})
    ensures SplitOn(RowText(cells), {'"'}) == QuotedParts(cells)
  {
    if |cells| == 1 {
      RowTextOne(cells[0]);
    } else {
      RowTextSplit(cells[1..]);
      RowTextStep(cells);
    }
  }

  /** A data line whose cells hold no double quote reads back: split at its
      quotes, it alternates between the cells and the commas, so a comma inside a
      cell stays inside its part. */
  lemma RowTextReadsBack(cells: seq<string>)
    requires |cells| >= 1
    requires forall i :: 0 <= i < |cells| ==> FreeOf(cells[i], {'"'})
    ensures var parts := SplitOn(RowText(cells), {'"'});
      && |parts| == 2 * |cells| + 1
      && parts[0] == "" && parts[2 * |cells|] == ""
      && (forall i :: 0 <= i < |cells| ==> parts[2 * i + 1] == cells[i])
      && (forall i :: 0 < i < |cells| ==> parts[2 * i] == ",")
  {
    RowTextSplit(cells);
    QuotedPartsAt(cells);
  }

  /** A line of one cell splits into the empty text, the cell and the empty text. */
  lemma RowTextOne(cell: string)
    requires FreeOf(cell, {'"'})
    ensures SplitOn(RowText([cell]), {'"'}) == ["", cell, ""]
  {
    RowTextCons([cell]);
    SplitAfterQuote(cell + ['"'] + "");
    SplitAtDelimiter(cell, '"', "", {'"'});
  }

  /** A line opens with a quote; after it come the first cell, its closing quote
      and, when more cells follow, a comma and the line of the other cells. */
  lemma RowTextCons(cells: seq<string>)
    requires |cells| >= 1
    ensures RowText(cells) == [] + ['"'] + (cells[0] + ['"'] + (if |cells| == 1 then "" else "," + RowText(cells[1..])))
  {
    if |cells| > 1 {
      assert QuoteAll(cells)[1..] == QuoteAll(cells[1..]);
    }
  }

  /** Splitting text that opens with a quote gives an empty first part. */
  lemma SplitAfterQuote(t: string)
    ensures SplitOn([] + ['"'] + t, {'"'}) == [""] + SplitOn(t, {'"'})
  {
    SplitAtDelimiter([], '"', t, {'"'});
  }

  /** The first cell of a longer line is split off with the comma after it. */
  lemma RowTextStep(cells: seq<string>)
    requires |cells| > 1
    requires FreeOf(cells[0], {'"'})
    ensures SplitOn(RowText(cells), {'"'}) == ["", cells[0], ","] + SplitOn(RowText(cells[1..]), {'"'})[1..]
  {
    var rest := cells[1..];
    var y := rest[0] + ['"'] + (if |rest| == 1 then "" else "," + RowText(rest[1..]));
    RowTextCons(rest);
    SplitAfterQuote(y);
    var x := cells[0] + ['"'] + ("," + RowText(rest));
    RowTextCons(cells);
    SplitAfterQuote(x);
    SplitAtDelimiter(cells[0], '"', "," + RowText(rest), {'"'});
    assert "," + RowText(rest) == "," + ['"'] + y;
    SplitAtDelimiter(",", '"', y, {'"'});
  }

  // ---------------------------------------------------------------- stage list

  /** The stage of every lead, in order. */
  function StagesOf(leads: seq<LeadData>): (stages: seq<string>)
    ensures |stages| == |leads|
    ensures forall i :: 0 <= i < |leads| ==> stages[i] == leads[i].stage
  {
    seq(|leads|, i requires 0 <= i < |leads| => leads[i].stage)
  }

  /** `Array.from(new Set(xs))`: the first occurrence of every value, in order. */
  function Distinct(xs: seq<string>): (r: seq<string>)
    ensures forall x :: x in r <==> x in xs
    ensures forall i, j :: 0 <= i < j < |r| ==> r[i] != r[j]
  {
    if xs == [] then []
    else
      var front := Distinct(xs[..|xs| - 1]);
      var x := xs[|xs| - 1];
      assert forall y :: y in xs <==> y in xs[..|xs| - 1] || y == x by {
        assert xs == xs[..|xs| - 1] + [x];
      }
      if x in front then front else front + [x]
  }

  /** Strictly ascending in the default `sort` order. */
  predicate StrictlySorted(xs: seq<string>) {
    forall i, j :: 0 <= i < j < |xs| ==> StrLess(xs[i], xs[j])
  }

  /** `x` put into its place in an ascending list. */
  function Insert(x: string, xs: seq<string>): (r: seq<string>)
    ensures |r| == |xs| + 1
    ensures forall y :: y in r <==> y == x || y in xs
    ensures multiset(r) == multiset(xs) + multiset{x}
  {
    if xs == [] then [x]
    else if StrLess(x, xs[0]) then [x] + xs
    else
      assert xs == [xs[0]] + xs[1..];
      [xs[0]] + Insert(x, xs[1..])
  }

  /** `xs.sort()` (insertion sort): a permutation of the input, ascending when
      the input has no repeated values (see `SortSorted`). */
  function Sort(xs: seq<string>): (r: seq<string>)
    ensures |r| == |xs|
    ensures forall y :: y in r <==> y in xs
    ensures multiset(r) == multiset(xs)
  {
    if xs == [] then []
    else
      assert xs == [xs[0]] + xs[1..];
      Insert(xs[0], Sort(xs[1..]))
  }

  /** Inserting a new value into a strictly ascending list keeps it strictly ascending. */
  lemma {:induction false} InsertSorted(x: string, xs: seq<string>)
    requires StrictlySorted(xs) && x !in xs
    ensures StrictlySorted(Insert(x, xs))
  {
    if xs != [] {
      if StrLess(x, xs[0]) {
        var r := [x] + xs;
        forall i, j | 0 <= i < j < |r|
          ensures StrLess(r[i], r[j])
        {
          if i == 0 && j > 1 {
            StrLessTransitive(x, xs[0], xs[j - 1]);
          }
        }
      } else {
        StrLessTotal(x, xs[0]);
        InsertSorted(x, xs[1..]);
        var t := Insert(x, xs[1..]);
        var r := [xs[0]] + t;
        forall k | 0 <= k < |t|
          ensures StrLess(xs[0], t[k])
        {
          if t[k] != x {
            assert t[k] in xs[1..];
            var m :| 0 <= m < |xs[1..]| && xs[1..][m] == t[k];
            assert xs[m + 1] == t[k];
          }
        }
        forall i, j | 0 <= i < j < |r|
          ensures StrLess(r[i], r[j])
        {
          if i > 0 {
            assert r[i] == t[i - 1] && r[j] == t[j - 1];
          } else {
            assert r[j] == t[j - 1];
          }
        }
      }
    }
  }

  /** Sorting a list of distinct values gives a strictly ascending list. */
  lemma {:induction false} SortSorted(xs: seq<string>)
    requires forall i, j :: 0 <= i < j < |xs| ==> xs[i] != xs[j]
    ensures StrictlySorted(Sort(xs))
  {
    if xs != [] {
      SortSorted(xs[1..]);
      assert xs[0] !in xs[1..];
      InsertSorted(xs[0], Sort(xs[1..]));
    }
  }

  /** `uniqueStages`: the distinct stages of the leads, sorted. */
  function UniqueStages(leads: seq<LeadData>): (r: seq<string>)
    ensures forall s :: s in r <==> exists i :: 0 <= i < |leads| && leads[i].stage == s
  {
    var stages := StagesOf(leads);
    assert forall s :: s in stages <==> exists i :: 0 <= i < |leads| && leads[i].stage == s by {
      forall s | s in stages
        ensures exists i :: 0 <= i < |leads| && leads[i].stage == s
      {
        var i :| 0 <= i < |stages| && stages[i] == s;
        assert leads[i].stage == s;
      }
    }
    Sort(Distinct(stages))
  }

  /** The stage list is strictly ascending, so no stage is offered twice. */
  lemma UniqueStagesSorted(leads: seq<LeadData>)
    ensures StrictlySorted(UniqueStages(leads))
    ensures forall i, j :: 0 <= i < j < |UniqueStages(leads)| ==> UniqueStages(leads)[i] != UniqueStages(leads)[j]
  {
    var r := UniqueStages(leads);
    SortSorted(Distinct(StagesOf(leads)));
    forall i, j | 0 <= i < j < |r|
      ensures r[i] != r[j]
    {
      if r[i] == r[j] {
        StrLessIrreflexive(r[i]);
      }
    }
  }

  /** Every sample lead's stage can be chosen in the stage selector. */
  lemma EveryStageSelectable(i: nat)
    requires i < |LeadsData|
    ensures LeadsData[i].stage in UniqueStages(LeadsData)
  {
  }
}
