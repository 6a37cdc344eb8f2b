# Partner portal lead pipeline — a Dafny model

The partner portal shows a land-management partner the leads (referrals) they brought in. The leads are farms, with acreage, a submission date, a pipeline stage, contact details and an optional progress bar of sub-stages. This project models the logic behind three pages. The UI around that logic is not modelled.

- **Sample data and its date helper** (`lib/mock-data.ts`): the `LeadData` record, `addDays` and the `leadsData` sample list.
  - `addDays` builds a JavaScript `Date` from an `MM/DD/YYYY` text, moves it with `setDate`, and formats it again.
  - It is modelled as a method over a small `JsDate` class. The class keeps calendar fields that `setDate` updates in place, with roll-over across months and years.
  - The method is proved against a reference function. It is also proved against proleptic Gregorian day arithmetic (module `Calendar`).
- **Dashboard** (`app/page.tsx`):
  - `parseAcres`;
  - the headline won / lost / in-process figures;
  - the stage table. The loop that tallies in-process leads into five buckets is modelled as a method over a `map` proved to equal a fold. The fold's buckets are proved to hold the number and acres of the leads put into each. The rows are proved to add up to the in-process figures.
- **Referrals page** (`app/referrals/page.tsx`):
  - the two date formatters;
  - the free-text search;
  - the inclusive date-range test;
  - the Active / Lost / Won tab splits;
  - `isOpen` and `deriveStage`;
  - the Active Deals and Leads tab filters;
  - `mapToBusinessStage`.
- **Leads page** (`app/leads/page.tsx`):
  - the three-control filter;
  - the CSV text;
  - the sorted list of distinct stages.

## How JavaScript is modelled

In the model, JavaScript values and built-ins work as follows.

- **Strings and missing values.** Strings are `seq<char>`; optional fields and `undefined` are `Option`. JavaScript truthiness on strings means "present and non-empty". `a || b` on strings picks the first non-empty text.
- **Numbers.** A number is `Option<int>`, where `None` is `NaN`.
- **String built-ins:**
  - `trim` and `parseInt` skip the ECMAScript white-space set;
  - `toLowerCase` maps `A`–`Z`;
  - `includes`, `padStart`, `slice(-n)`, `join` and `split` (on a set of one-character delimiters) are written out in `JsStrings`.
- **Sorting.** `sort()` order is modelled as lexicographic order on characters.
- **Inputs taken as parameters:**
  - parsing a date text (`new Date(text).getTime()` and `getFullYear()`) is the `parse` / `yearOf` function parameter;
  - the current year is the `currentYear` parameter;
  - a range-picker end is the day number it picked.

## Model

| member | source | states |
|---|---|---|
| MockData.IsCurrent | lib/mock-data.ts:17-24 | defined as `current` being present and true, the reading `find((s) => s.current)` gives the optional flag of a progress step |
| MockData.FullYear | lib/mock-data.ts:30 | defined as 1900 + y for a year from 0 to 99 and the year itself otherwise, the way `new Date(y, m, d)` reads its year argument |
| MockData.JsDate.constructor | lib/mock-data.ts:30 | `new Date(y, m, d)` is valid exactly when the year is a number; a valid date stands on MakeDay of the year (0–99 read as 19xx), month index and day, any of which may be out of range |
| MockData.JsDate.SetDate | lib/mock-data.ts:31 | `setDate(n)` moves the date, in place, to day `n` of its stored month counted from the 1st (rolling over into other months and years); a NaN argument leaves an Invalid Date |
| MockData.JsDate.GetDate | lib/mock-data.ts:32 | defined as the stored day of the month of a valid date and NaN for an Invalid Date |
| MockData.JsDate.GetMonth | lib/mock-data.ts:33 | defined as the stored month minus one (0 for January) of a valid date and NaN for an Invalid Date |
| MockData.JsDate.GetFullYear | lib/mock-data.ts:34 | defined as the stored year of a valid date and NaN for an Invalid Date |
| MockData.AddDays | lib/mock-data.ts:28-36 | the method (split, `parseInt` each field, a missing or zero month and day taken as 1, `new Date`, `setDate(getDate() + days)`, the three getters, padding, template) returns exactly `AddDaysResult` |
| MockData.OrOne | lib/mock-data.ts:30 | defined as 1 for NaN and for 0 and the number otherwise, the fallback to 1 the constructor call applies to a month or day |
| MockData.FieldAt | lib/mock-data.ts:29 | defined as `parseInt(_, 10)` of field `i` of the split text, NaN for a missing field (undefined) |
| MockData.NumberToString | lib/mock-data.ts:32-35 | defined as `NaN` for NaN and the decimal numeral otherwise, the `toString` of a getter result |
| MockData.FormatDate | lib/mock-data.ts:32-35 | defined as month and day padded with `0` to two places and the year numeral, joined by `/` |
| MockData.ParsedDay | lib/mock-data.ts:29-30 | defined as the day number of `new Date(yyyy, (mm or 1) - 1, dd or 1)` on the split fields, and none when the year field is not a number |
| MockData.ShiftedText | lib/mock-data.ts:31-35 | defined as `NaN/NaN/NaN` for an Invalid Date and otherwise the text of the date `days` after the start day |
| MockData.AddDaysResult | lib/mock-data.ts:28-36 | defined as the text of the parsed date moved by `days` (the reference function `MockData.AddDays` is proved to return) |
| MockData.AddDaysShape | lib/mock-data.ts:28-36 | every result is `NaN/NaN/NaN` or the `MM/DD/YYYY` text of a valid calendar date |
| MockData.GettersFormat | lib/mock-data.ts:32-35 | the getters of a valid date, padded and joined by the template, give that date's `MM/DD/YYYY` text |
| MockData.ShiftedValid | lib/mock-data.ts:31-35 | a start day moved by `days` is written as the text of the valid date with that day number |
| MockData.FormatDateFields | lib/mock-data.ts:32-35 | the written text is two digits, `/`, two digits, `/`, year; the month digits read as the month and the day digits as the day |
| MockData.PaddedValue | lib/mock-data.ts:32-33 | a number below 100 padded to two places has two digits and reads back as itself |
| MockData.SplitFormatted | lib/mock-data.ts:29 | splitting the written text at `/` gives three fields that `parseInt` reads as month, day and year |
| MockData.ParsedDayOfFormatted | lib/mock-data.ts:29-30 | the text of a date (year outside 0–99) parses back to that date's day number |
| MockData.AddDaysOfFormatted | lib/mock-data.ts:28-36 | adding `n` days to the text of a date gives the text of the date `n` days later, across month and year ends |
| MockData.AddZeroDays | lib/mock-data.ts:28-36 | adding zero days returns the date's text unchanged |
| MockData.AddDaysTwice | lib/mock-data.ts:28-36 | adding `a` then `b` days equals adding `a + b` days, for any unreadable text (`NaN/NaN/NaN` both ways), and for a readable one whose date after `a` days has a year outside 0–99 |
| MockData.InvalidStaysInvalid | lib/mock-data.ts:29-35 | the text `NaN/NaN/NaN` of an Invalid Date, moved by any number of days, is `NaN/NaN/NaN` again |
| MockData.ShiftTwice | lib/mock-data.ts:31-36 | the same composition law stated from a start day number, when the date `a` days after it has a year outside 0–99 |
| MockData.AddDaysDefaultsToFirst | lib/mock-data.ts:29-30 | a month or day field that is missing, zero or not a number is read as 1 |
| MockData.ParsedDayOfFields | lib/mock-data.ts:29-30 | three slash-free fields give no day when the year is NaN, otherwise MakeDay of the year, month minus one and day, a missing or zero month or day taken as 1 |
| MockData.ParseOne | lib/mock-data.ts:30 | the default field `1` is slash-free and parses as 1 |
| MockData.Example | lib/mock-data.ts:28-36 | the text of `d` moved by `n` days is the text of any valid `e` whose day number is `n` more, for `d` with a year outside 0–99 |
| MockData.AddDaysAcrossYearEnd | lib/mock-data.ts:28-36 | 12/30/2025 plus 3 days is 01/02/2026 |
| MockData.AddDaysOntoLeapDay | lib/mock-data.ts:28-36 | 02/28/2024 plus 1 day is 02/29/2024 |
| MockData.AddDaysPastFebruary | lib/mock-data.ts:28-36 | 02/28/2025 plus 1 day is 03/01/2025 |
| MockData.AddThreeDaysInOctober | lib/mock-data.ts:223-268 | day `d` (1–28) of October 2025 plus 3 days is day `d + 3`, the arithmetic the lost samples' closing dates use |
| MockData.TwoDigitNumeral | lib/mock-data.ts:32-34 | a number from 10 to 99 is written as its tens digit and its units digit |
| MockData.OctoberText | lib/mock-data.ts:32-35 | the text of day 10 to 31 of October 2025 is `10/`, the two digits of the day and `/2025` |
| MockData.OctoberTextOneDigit | lib/mock-data.ts:32-35 | the text of day 1 to 9 of October 2025 is `10/0`, the digit of the day and `/2025` |
| MockData.AddDaysToOctober5 | lib/mock-data.ts:223 | `addDays("10/05/2025", 3)` is `10/08/2025` |
| MockData.AddDaysToOctober8 | lib/mock-data.ts:238 | `addDays("10/08/2025", 3)` is `10/11/2025` |
| MockData.AddDaysToOctober12 | lib/mock-data.ts:253 | `addDays("10/12/2025", 3)` is `10/15/2025` |
| MockData.AddDaysToOctober14 | lib/mock-data.ts:268 | `addDays("10/14/2025", 3)` is `10/17/2025` |
| MockData.LostLead7ClosingDate | lib/mock-data.ts:218-232 | the sample lead at index 7 (key 6): its stored closing date is `addDays` of its submission date and 3 |
| MockData.LostLead8ClosingDate | lib/mock-data.ts:233-247 | the sample lead at index 8 (key 7): its stored closing date is `addDays` of its submission date and 3 |
| MockData.LostLead9ClosingDate | lib/mock-data.ts:248-262 | the sample lead at index 9 (key 8): its stored closing date is `addDays` of its submission date and 3 |
| MockData.LostLead10ClosingDate | lib/mock-data.ts:263-277 | the sample lead at index 10 (key 9): its stored closing date is `addDays` of its submission date and 3 |
| MockData.LostClosingDatesAreAddDays | lib/mock-data.ts:218-277 | the closing dates written in the sample list for the four lost leads are exactly what `addDays(submissionDate, 3)` returns |
| MockData.ClosedWhenDecided | lib/mock-data.ts:1-25 | defined as: a closing date is present exactly when the stage is Won or Lost, the shape the sample leads follow |
| MockData.ReasonWhenLost | lib/mock-data.ts:1-25 | defined as: a lost reason is present exactly when the stage is Lost |
| MockData.AtMostOneCurrent | lib/mock-data.ts:17-24 | defined as: no two positions of a progress list are both current |
| MockData.CurrentExactlyAt | lib/mock-data.ts:17-24 | defined as: the steps that are current are exactly the one at position `k` (none for `k == -1`) |
| MockData.CurrentExactlyAtOne | lib/mock-data.ts:17-24 | a list whose only current step is `k` has at most one current step |
| MockData.LeadsDataClosedWhenDecided | lib/mock-data.ts:38-278 | a sample lead has a closing date exactly when its stage is Won or Lost |
| MockData.LeadsDataReasonWhenLost | lib/mock-data.ts:38-278 | a sample lead has a lost reason exactly when it is Lost |
| MockData.LeadsDataLacksExtraFields | lib/mock-data.ts:1-25 | no sample lead sets `dealStatus`, `referralCode`, `pipeline` or `crmStage` (the interface does not declare them) |
| MockData.InvitedLeadsCurrentStep | lib/mock-data.ts:39-63 | leads 1 and 4 have exactly one current step, step 3 ("Service Contract Under Review") |
| MockData.WonLeadsCurrentStep | lib/mock-data.ts:65-116 | the won leads 10 and 11 have a progress bar with no current step |
| MockData.ContactLeadsCurrentStep | lib/mock-data.ts:117-217 | leads 2 and 5 have exactly one current step, step 1 ("Request for Services Submitted") |
| MockData.OtherLeadsCurrentStep | lib/mock-data.ts:142-277 | lead 3's only current step is step 4 ("Soil Data Collection"); the four lost leads have no progress bar |
| MockData.LeadsDataAtMostOneCurrent | lib/mock-data.ts:38-278 | no sample progress bar has two current steps |
| Dashboard.ParseAcres | app/page.tsx:21-24 | the result is 0 when the text has no digit, otherwise the decimal value of its digits in order (what `parseInt` reads from them); never negative |
| Dashboard.ParseAcresOfNumeral | app/page.tsx:21-24 | a plain numeral reads as its decimal value |
| Dashboard.ParseAcresSkips | app/page.tsx:22 | a non-digit character anywhere (a thousands separator) is ignored |
| Dashboard.ParseAcresIgnoresUnit | app/page.tsx:22 | a digit-free unit after the number (` acres`) does not change it |
| Dashboard.LeadAcres | app/page.tsx:21-24 | defined as `parseAcres` of the lead's acres text |
| Dashboard.TotalAcres | app/page.tsx:28-45 | defined as the sum of `parseAcres` over the leads, the `reduce` the figures use |
| Dashboard.IsWon | app/page.tsx:29 | defined as the stage being `Won` |
| Dashboard.IsLost | app/page.tsx:30 | defined as the stage being `Lost` |
| Dashboard.IsInProcess | app/page.tsx:31 | defined as the stage being neither `Won` nor `Lost` |
| Dashboard.WonLeads | app/page.tsx:29 | defined as the won leads in order |
| Dashboard.LostLeads | app/page.tsx:30 | defined as the lost leads in order |
| Dashboard.ActiveLeads | app/page.tsx:31 | defined as the leads neither won nor lost, in order |
| Dashboard.TallyOf | app/page.tsx:33-45 | defined as the number of leads and the sum of their acres, the deals and acres of a figure |
| Dashboard.DashboardFigures | app/page.tsx:28-45 | REFERRALS is the number of leads; WON, LOST and IN PROCESS are the deal counts and acre sums of the won, lost and in-process lists; those deals add up to REFERRALS and those acres to the total acres |
| Dashboard.Label | app/page.tsx:48-61 | defined as the text of each of the five bucket keys, the strings of `BucketKey` that the rows show |
| Dashboard.OrderLists | app/page.tsx:48-61 | every bucket is in `order`, exactly once among five, and distinct buckets have distinct titles |
| Dashboard.EveryKeyInOrder | app/page.tsx:55-61 | `order` lists every bucket key |
| Dashboard.BucketOf | app/page.tsx:75-96 | each of the four later buckets is chosen exactly for its case labels (two synonyms for Agreement Sent); every other name falls to RFS Submitted |
| Dashboard.KeyOf | app/page.tsx:68-96 | defined as the bucket of the lead's derived stage, the derivation and `switch` of the loop body |
| Dashboard.TallyIn | app/page.tsx:98-99 | defined as the number and acres of the leads put into bucket `k` |
| Dashboard.EmptyBuckets | app/page.tsx:63-65 | the initial table has every bucket at zero deals and zero acres |
| Dashboard.AddLead | app/page.tsx:98-99 | adding a lead keeps the table's set of buckets, adds one deal and the lead's acres to its own bucket, and leaves every other bucket unchanged |
| Dashboard.Bucketed | app/page.tsx:67-100 | the table after the loop has every bucket |
| Dashboard.TallyInStep | app/page.tsx:98-99 | one more lead adds one deal and its acres to its own bucket's tally and nothing to the others |
| Dashboard.BucketedStepAt | app/page.tsx:98-99 | the same step for the table: only the lead's bucket changes, by one deal and its acres |
| Dashboard.BucketedTallies | app/page.tsx:67-100 | after the loop each bucket holds the number of leads whose stage maps to it and the sum of their acres |
| Dashboard.BucketedStep | app/page.tsx:67-99 | one iteration updates the table for the next lead |
| Dashboard.StageTable | app/page.tsx:63-100 | the loop over the in-process leads builds exactly the table `Bucketed(activeLeads, KeyOf)` |
| Dashboard.TallyInCons | app/page.tsx:98-99 | a bucket's tally, taking the first lead off the list |
| Dashboard.BucketsCover | app/page.tsx:67-100 | every lead falls into exactly one bucket: the five deal counts add up to the number of leads and the five acre sums to their total acres |
| Dashboard.StageRows | app/page.tsx:102-106 | one row per bucket, in the order of `order`, with that bucket's title, deals and acres |
| Dashboard.RowDeals | app/page.tsx:102-106 | defined as a row's deal count |
| Dashboard.RowAcres | app/page.tsx:102-106 | defined as a row's acres |
| Dashboard.SumOfFive | app/page.tsx:102-106 | a sum over the five rows is the sum of the five terms |
| Dashboard.RowsSum | app/page.tsx:102-106 | the rows' deals and acres add up the five buckets |
| Dashboard.BucketedCover | app/page.tsx:63-100 | the buckets of a table built from a lead list hold all its deals and acres |
| Dashboard.RowsCover | app/page.tsx:63-106 | the rows of a table built from a lead list add up to its deal count and total acres |
| Dashboard.StageRowsTotals | app/page.tsx:31-106 | the stage table has five rows whose deals and acres add up to the IN PROCESS figures |
| Referrals.FormatMMDDYY | app/referrals/page.tsx:30-39 | defined as `-` for a missing or empty input, the input itself with fewer than three fields split at `/` or `-`, and otherwise month and day padded to two places and the last two year characters joined by `-` |
| Referrals.FormatMMDDYYYY | app/referrals/page.tsx:42-51 | defined as `formatMMDDYY` but joined by `/` with the year padded to four places |
| Referrals.FormatsKeepShortInput | app/referrals/page.tsx:30-51 | both formatters give `-` for a missing or empty input and return an input with at most one `/` or `-` (fewer than three fields) unchanged |
| Referrals.FewFields | app/referrals/page.tsx:32-33 | a text with at most one `/` or `-` splits into fewer than three fields |
| Referrals.PadStartFree | app/referrals/page.tsx:36-37 | padding with `0` adds no delimiter |
| Referrals.FormatMMDDYYOfFields | app/referrals/page.tsx:30-39 | `mm d dd d yyyy` becomes `mm` and `dd` padded to two places and the last two characters of the year, joined by `-`; eight characters for short fields and a year of two or more characters |
| Referrals.FormatMMDDYYYYOfFields | app/referrals/page.tsx:42-51 | `mm d dd d yyyy` becomes `mm` and `dd` padded to two places and the year padded to four, joined by `/`; ten characters for short fields and a year of at most four characters |
| Referrals.FormatMMDDYYIdempotent | app/referrals/page.tsx:30-39 | formatting an `mm-dd-yy` result again changes nothing |
| Referrals.FormatMMDDYYYYIdempotent | app/referrals/page.tsx:42-51 | formatting an `mm/dd/yyyy` result again changes nothing |
| Referrals.FourDigitYear | app/referrals/page.tsx:49 | the numeral of a year from 1000 up needs no padding to four places |
| Referrals.FormatsOfDateText | app/referrals/page.tsx:30-51 | the text `addDays` writes for a four-digit year is a fixed point of `formatMMDDYYYY`, and `formatMMDDYY` turns it into month-day-last two year digits |
| Referrals.HaystackFields | app/referrals/page.tsx:57-67 | the nine searched fields, in order, with the optional ones as empty text |
| Referrals.Haystack | app/referrals/page.tsx:57-69 | defined as the nine fields joined by spaces and lower-cased |
| Referrals.MatchesSearch | app/referrals/page.tsx:70-71 | defined as an empty query, or the haystack containing the query |
| Referrals.Query | app/referrals/page.tsx:55 | the query is empty exactly when the trimmed search text is |
| Referrals.SearchFiltered | app/referrals/page.tsx:54-73 | the leads whose lower-cased, space-joined haystack contains the query, in input order; an all-blank search keeps every lead |
| Referrals.SearchFindsField | app/referrals/page.tsx:57-71 | a query found, ignoring case, in any single field finds the lead |
| Referrals.IsWithinRange | app/referrals/page.tsx:76-86 | true without a set end; with one, false for a missing, empty or unparsable date |
| Referrals.WithinRangeByDay | app/referrals/page.tsx:79-84 | with an end set and a readable date, the test holds exactly when the date's day is on or after the start day and on or before the end day, each end that is set (inclusive whole days) |
| Referrals.IsDecided | app/referrals/page.tsx:89-104 | defined as the stage being Lost or Won |
| Referrals.ActiveTest | app/referrals/page.tsx:89-95 | defined as neither Lost nor Won with the submission date within the range |
| Referrals.LostTest | app/referrals/page.tsx:96-99 | defined as Lost with the closing date within the range |
| Referrals.WonTest | app/referrals/page.tsx:100-104 | defined as Won with the closing date within the range |
| Referrals.ActiveData | app/referrals/page.tsx:89-95 | the searched leads neither Won nor Lost whose submission date is within the range, in order |
| Referrals.LostData | app/referrals/page.tsx:96-99 | the searched Lost leads whose closing date is within the range, in order |
| Referrals.CompletedData | app/referrals/page.tsx:100-104 | the searched Won leads whose closing date is within the range, in order |
| Referrals.TabsDisjoint | app/referrals/page.tsx:88-104 | no lead is in two of the Active, Lost and Won tabs |
| Referrals.TabsCoverWithoutRange | app/referrals/page.tsx:88-104 | without a range the three tabs together list every searched lead exactly once |
| Referrals.IsOpen | app/referrals/page.tsx:107-110 | defined as: a non-empty `dealStatus` decides, and only `Open` is open; otherwise a lead is open while neither Won nor Lost (the same test as lines 151-154) |
| Referrals.OpenByStatusOrStage | app/referrals/page.tsx:107-110 | for every lead: without a non-empty status it is open exactly when neither Won nor Lost; with one, exactly when the status is `Open`, whatever the stage |
| Referrals.ActiveDealsWithoutStatus | app/referrals/page.tsx:139-147 | for leads without a deal status, the Active Deals list keeps exactly the Active-tab leads whose derived stage is allowed: the open test removes none of them |
| Referrals.LeadsDataOpenIffUndecided | app/referrals/page.tsx:106-110 | with no deal status, a sample lead is open exactly when it is neither Won nor Lost |
| Referrals.FindCurrent | app/referrals/page.tsx:115 | defined as the first current step of the list, none when no step is current |
| Referrals.LastCompleted | app/referrals/page.tsx:116-117 | defined as the last completed step of the list, none when no step is completed |
| Referrals.StagesOf | app/referrals/page.tsx:114 | defined as the lead's progress steps, none without a progress bar |
| Referrals.NameOf | app/referrals/page.tsx:115-117 | defined as the step's name, empty text for a missing step |
| Referrals.DeriveStage | app/referrals/page.tsx:113-119 | defined as the trimmed first non-empty of the current step's name, the last completed step's name and the lead's stage |
| Referrals.FindCurrentSpec | app/referrals/page.tsx:115 | `find` gives nothing exactly when no step is current, and otherwise the first current step |
| Referrals.FilterLast | app/referrals/page.tsx:116-117 | the last element of a filtered list is the last input element that passes, with none passing after it |
| Referrals.LastCompletedSpec | app/referrals/page.tsx:116-117 | the last completed step is missing exactly when no step is completed, and otherwise it is the last completed one |
| Referrals.FirstCurrentIndex | app/referrals/page.tsx:115 | the position of the first current step |
| Referrals.LastCompletedIndex | app/referrals/page.tsx:116-117 | the position of the last completed step |
| Referrals.DeriveStageSpec | app/referrals/page.tsx:113-119 | the derived stage is the trimmed name of the first current step if it has one, else of the last completed step if it has one, else the trimmed lead stage |
| Referrals.IsActiveDeal | app/referrals/page.tsx:122-147 | defined as open with a derived stage among the thirteen names of `ACTIVE_ALLOWED_STAGES` |
| Referrals.ActiveDealsFiltered | app/referrals/page.tsx:121-147 | the open Active-tab leads whose derived stage is an allowed business stage or synonym, in order |
| Referrals.LeadsTabTest | app/referrals/page.tsx:155-162 | defined as referral code JSMITH2024, pipeline Soil Nutrient Load Pipeline, a non-empty CRM stage among the four allowed ones (the constants of lines 12-20), open, and a submission date within the range |
| Referrals.LeadsTabData | app/referrals/page.tsx:150-163 | the searched leads with referral code JSMITH2024, the soil nutrient pipeline, a CRM stage in the four allowed ones, open status and a submission date within the range, in order |
| Referrals.LeadsTabNeedsReferralCode | app/referrals/page.tsx:155-162 | leads without a referral code never reach the Leads tab |
| Referrals.LeadsTabEmptyOnSampleData | app/referrals/page.tsx:150-163 | on the sample data the Leads tab is empty, whatever the search and range |
| Referrals.MapToBusinessStage | app/referrals/page.tsx:312-337 | names outside the allowed set are returned unchanged; a name is in the allowed set exactly when its label is a business label |
| Referrals.MapToBusinessStageIdempotent | app/referrals/page.tsx:312-337 | mapping a label again changes nothing |
| Referrals.ActiveDealsShowLabels | app/referrals/page.tsx:139-147 | every Active Deals row shows a business label |
| LeadsPage.MatchesSearch | app/leads/page.tsx:17-21 | defined as an empty search text, or the lower-cased text occurring in the lower-cased lead name, contact name or email |
| LeadsPage.MatchesYear | app/leads/page.tsx:23-32 | defined as the lead's year being the current year for This year, the one before for Last year, and true for any other choice |
| LeadsPage.MatchesStage | app/leads/page.tsx:34 | defined as All, the placeholder Stage Type, or the chosen stage equal to the lead's |
| LeadsPage.LeadTest | app/leads/page.tsx:36 | defined as the conjunction of the three matches |
| LeadsPage.FilteredData | app/leads/page.tsx:15-38 | the leads that match the search, the year selector and the stage selector, in their order |
| LeadsPage.EmptySearchIsIncluded | app/leads/page.tsx:17-21 | the `searchText === ""` case is redundant: the match is the same with it dropped |
| LeadsPage.SearchIgnoresCase | app/leads/page.tsx:17-21 | lower-casing the search text does not change which leads match |
| LeadsPage.OtherYearFilterKeepsAll | app/leads/page.tsx:25-32 | any year choice other than "This year" and "Last year" keeps every lead |
| LeadsPage.YearFiltersDisjoint | app/leads/page.tsx:25-29 | "This year" and "Last year" never both keep a lead |
| LeadsPage.FilteredDataInStages | app/leads/page.tsx:15-38 | filtering by search, year and stage one after the other gives the same list |
| LeadsPage.NoFilterKeepsAll | app/leads/page.tsx:15-38 | with an empty search, "All years" and "All" stages every lead is listed in order |
| LeadsPage.StageFilterExact | app/leads/page.tsx:34 | with a concrete stage chosen every listed lead has that stage |
| LeadsPage.HeaderLine | app/leads/page.tsx:41 | defined as the seven header names joined by commas |
| LeadsPage.Quote | app/leads/page.tsx:52 | defined as the cell between two double quotes, inner quotes not escaped |
| LeadsPage.RowText | app/leads/page.tsx:42-52 | defined as the quoted cells of a line joined by commas |
| LeadsPage.CsvContent | app/leads/page.tsx:52 | defined as the header line and the lead lines joined by line breaks |
| LeadsPage.Cells | app/leads/page.tsx:42-50 | a lead has one cell per header |
| LeadsPage.QuoteAll | app/leads/page.tsx:52 | each cell is wrapped in double quotes, one per cell |
| LeadsPage.CsvLines | app/leads/page.tsx:40-52 | the header line, then one line per lead in order, each the quoted cells joined by commas |
| LeadsPage.QuoteFree | app/leads/page.tsx:52 | quoting adds only double quotes |
| LeadsPage.RowTextSingleLine | app/leads/page.tsx:52 | a lead without line breaks gives a data line without line breaks |
| LeadsPage.HeaderSingleLine | app/leads/page.tsx:41-52 | the header line holds no line break |
| LeadsPage.CsvContentLines | app/leads/page.tsx:52 | split at its line breaks the export gives back exactly the header line and the lead lines, one more than the leads |
| LeadsPage.QuotedParts | app/leads/page.tsx:52 | a line of `n` cells has `2n + 1` quote-delimited parts |
| LeadsPage.QuotedPartsAt | app/leads/page.tsx:52 | in those parts, cell `i` sits at position `2i + 1`, commas sit between the cells, and both ends are empty |
| LeadsPage.RowTextSplit | app/leads/page.tsx:52 | a line whose cells hold no quote splits at its quotes into exactly those parts |
| LeadsPage.RowTextReadsBack | app/leads/page.tsx:52 | such a line reads back: its odd parts are the cells in order, separated by commas |
| LeadsPage.RowTextOne | app/leads/page.tsx:52 | a one-cell line splits into empty text, the cell and empty text |
| LeadsPage.RowTextCons | app/leads/page.tsx:52 | a line is a quote, the first cell, a quote, and a comma and the rest when there is more |
| LeadsPage.SplitAfterQuote | app/leads/page.tsx:52 | text that opens with a quote splits into an empty part and the rest |
| LeadsPage.RowTextStep | app/leads/page.tsx:52 | the first cell of a longer line splits off with the comma after it |
| LeadsPage.StagesOf | app/leads/page.tsx:66 | the stage of every lead, in order |
| LeadsPage.Distinct | app/leads/page.tsx:66 | `Array.from(new Set(...))` holds exactly the input values, none twice |
| LeadsPage.Insert | app/leads/page.tsx:67 | insertion adds exactly one value: the result is the input plus `x` as a multiset |
| LeadsPage.Sort | app/leads/page.tsx:67 | sorting gives a permutation of the input: the same multiset of values |
| LeadsPage.InsertSorted | app/leads/page.tsx:67 | inserting a new value keeps a list strictly ascending |
| LeadsPage.SortSorted | app/leads/page.tsx:67 | sorting distinct values gives a strictly ascending list |
| LeadsPage.UniqueStages | app/leads/page.tsx:65-68 | a stage is offered exactly when some lead has it |
| LeadsPage.UniqueStagesSorted | app/leads/page.tsx:65-68 | the offered stages are strictly ascending and none is offered twice |
| LeadsPage.EveryStageSelectable | app/leads/page.tsx:65-68 | every sample lead's stage is offered in the stage selector |
| JsStrings.Trim | app/referrals/page.tsx:55 | trimming never lengthens the text |
| JsStrings.TrimSpec | app/referrals/page.tsx:55 | the trimmed text is a piece of the input that neither starts nor ends with white space, empty exactly when the input is all white space |
| JsStrings.ToLower | app/referrals/page.tsx:69 | lower-casing keeps the length and maps each character |
| JsStrings.ToLowerIdempotent | app/leads/page.tsx:19-21 | lower-casing twice is lower-casing once |
| JsStrings.ToLowerIncludes | app/referrals/page.tsx:68-71 | an occurrence survives lower-casing both sides |
| JsStrings.IncludesIff | app/referrals/page.tsx:71 | `includes` holds exactly when the query occurs at some position |
| JsStrings.JoinIncludesPart | app/referrals/page.tsx:68 | each joined part occurs in the joined text |
| JsStrings.PadStart | app/referrals/page.tsx:36-37 | the result is `n` long, or the input's length when that is more |
| JsStrings.PadStartContents | app/referrals/page.tsx:36-37 | the padded text ends with the input, and every character before it is the fill character |
| JsStrings.PadStartIdempotent | app/referrals/page.tsx:36-49 | padding twice is padding once |
| JsStrings.TakeLast | app/referrals/page.tsx:35 | `slice(-n)` is the last `n` characters, or the whole text when it is shorter |
| JsStrings.SplitOn | app/referrals/page.tsx:32 | splitting gives at least one part and no part holds a delimiter |
| JsStrings.SplitJoin | app/leads/page.tsx:52 | delimiter-free parts joined by the delimiter split back into the same parts |
| JsStrings.JsParseInt | lib/mock-data.ts:29 | `parseInt` is NaN exactly when no digit follows the leading white space and optional sign |
| JsStrings.ParseIntOfIntToString | lib/mock-data.ts:32-34 | `parseInt` reads back `toString` of any integer |
| JsStrings.ParseIntOfPadded | lib/mock-data.ts:32-33 | `parseInt` reads a zero-padded numeral as its value |
| JsStrings.KeepDigits | app/page.tsx:22 | `replace(/[^0-9]/g, "")` leaves only digits |
| JsStrings.StrLessTransitive | app/leads/page.tsx:67 | the sort order is transitive |
| JsStrings.StrLessTotal | app/leads/page.tsx:67 | any two distinct texts are ordered one way |
| JsStrings.StrLessAsymmetric | app/leads/page.tsx:67 | no two texts are ordered both ways |
| Calendar.Normalize | lib/mock-data.ts:30-31 | Date roll-over: the valid date `d - 1` days after the first of the month, for any day `d` |
| Calendar.NormalizeUnique | lib/mock-data.ts:30-31 | roll-over picks the only valid date with that day number |
| Calendar.DayNumberInjective | lib/mock-data.ts:30-31 | distinct valid dates have distinct day numbers |
| Calendar.FromDayNumber | lib/mock-data.ts:31-34 | the valid date with a given day number |
| Calendar.FromDayNumberOfDayNumber | lib/mock-data.ts:31-34 | day number and date are inverse on valid dates |
| Calendar.MakeDayInRange | lib/mock-data.ts:30 | for month indexes 0–11, MakeDay is the day number of the date |
| Calendar.DayBounds | app/referrals/page.tsx:80-84 | a time is at or after the start of a day, or at or before its end, exactly when the time's day is on the right side of it |

## Left out

- Rendering is not modelled. That covers JSX, antd tables and tabs, hooks and `useMemo` caching, the header, footer and layout components, icons, the colours and the progress bar percentage.
- The CSV download is not modelled: the Blob, the object URL, the hidden link, the click and the file name built from the current date (app/leads/page.tsx:54-62). Only the CSV text is modelled.
- Parsing a date text and the range picker's dayjs values are parameters. `new Date(text)`, `dayjs`, time zones and daylight saving are outside the model.
- Leads page: the current year is the parameter `currentYear`.
- The `Date` of `addDays` is kept as calendar fields, not milliseconds. The `TimeClip` range limit of ECMAScript dates is not modelled.
- Numbers are unbounded integers. `parseInt` losing precision above 2^53 is not modelled.
- MockData.AddDays: the `days` argument is an integer. A NaN or fractional day count, which `setDate` would turn into an Invalid Date or truncate, is not modelled; the sample list only passes 3.
- `toLocaleString` (`fmt`) is not modelled: IN PROCESS acres are kept as the unformatted number.
- `toLowerCase` is modelled on ASCII letters only.
- The modelled sort order compares characters, not UTF-16 code units. The two agree on the texts of this system.
- The column sorters (`localeCompare`, `parseInt` on acres) and the table column definitions are not modelled.
- Dashboard.StageTable: the loop derives each lead's stage inline (app/page.tsx:68-72). The model calls `Referrals.DeriveStage`, which is the same expression (app/referrals/page.tsx:113-119).
- The closing dates of the four lost sample leads are `addDays` calls in the sample list. `MockData.LeadsData` holds their results as text, and `MockData.LostClosingDatesAreAddDays` proves each text equal to what `addDays(submissionDate, 3)` returns.
- MockData.ParsedDayOfFormatted, MockData.AddDaysOfFormatted, MockData.AddZeroDays and MockData.Example exclude a start year from 0 to 99, and MockData.AddDaysTwice and MockData.ShiftTwice exclude such a year for the date after the first shift. The `Date` constructor reads those years as 1900 onwards, so these laws fail there, as they do in the source.
- Referrals.LeadsTabData: the `as any` cast on the CRM stage has no runtime effect and is not modelled.
- LeadsPage.RowTextReadsBack requires cells without double quotes. The CSV text does not escape quotes, so a cell holding one cannot be read back.
- LeadsPage.CsvContentLines requires cells without line breaks, for the same reason.
- LeadsPage.Distinct: the insertion order of the `Set` is modelled, but only the sorted result is used.
