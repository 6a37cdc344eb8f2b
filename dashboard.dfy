/** The figures of the dashboard page (app/page.tsx): acreage parsing, the
    Won / Lost / In-Process totals and the five-row stage table that an
    accumulation loop fills for the in-process leads. */
module Dashboard {
  import opened Wrappers
  import opened Seqs
  import opened JsStrings
  import opened MockData
  import opened Referrals

  // ---------------------------------------------------------------- acreage

  /** `parseAcres`: the digits of the text, in order, read in base 10; 0 when
      the text has no digit. */
  function ParseAcres(acres: string): (n: int)
    ensures KeepDigits(acres) == "" ==> n == 0
    ensures KeepDigits(acres) != "" ==> JsParseInt(KeepDigits(acres)) == Some(n)
    ensures KeepDigits(acres) != "" ==> n == DecimalValue(KeepDigits(acres))
    ensures n >= 0
  {
    var digits := KeepDigits(acres);
    if digits == "" then 0
    else
      ParseIntOfNumeral(digits);
      JsParseInt(digits).value
  }

  /** A numeral reads as its value. */
  lemma ParseAcresOfNumeral(ds: string)
    requires ds != [] && AllDigits(ds)
    ensures ParseAcres(ds) == DecimalValue(ds)
  {
    KeepDigitsOfNumeral(ds);
    ParseIntOfNumeral(ds);
  }

  /** A character that is not a digit, such as a thousands separator or a
      letter of the unit, is skipped. */
  lemma ParseAcresSkips(a: string, c: char, b: string)
    requires !IsDigit(c)
    ensures ParseAcres(a + [c] + b) == ParseAcres(a + b)
  {
    KeepDigitsSkips(a, c, b);
  }

  /** A unit without digits after the number does not change the reading. */
  lemma ParseAcresIgnoresUnit(number: string, unit: string)
    requires forall i :: 0 <= i < |unit| ==> !IsDigit(unit[i])
    ensures ParseAcres(number + unit) == ParseAcres(number)
  {
    KeepDigitsAppendNone(number, unit);
  }

  function LeadAcres(l: LeadData): int {
    ParseAcres(l.acres)
  }

  /** `leads.reduce((sum, l) => sum + parseAcres(l.acres), 0)`. */
  function TotalAcres(leads: seq<LeadData>): int {
    Sum(leads, LeadAcres)
  }

  // ---------------------------------------------------------------- Won / Lost / In-Process

  predicate IsWon(l: LeadData) {
    l.stage == "Won"
  }

  predicate IsLost(l: LeadData) {
    l.stage == "Lost"
  }

  predicate IsInProcess(l: LeadData) {
    l.stage != "Won" && l.stage != "Lost"
  }

  /** A count of deals and their acres. */
  datatype Tally = Tally(deals: int, acres: int)

  /** The deals and acres of a list of leads. */
  function TallyOf(leads: seq<LeadData>): Tally {
    Tally(|leads|, TotalAcres(leads))
  }

  /** The dashboard's headline figures; the in-process acres are kept as a
      number (the page formats them for display). */
  datatype Figures = Figures(referrals: int, inProcess: Tally, won: Tally, lost: Tally)

  function WonLeads(leads: seq<LeadData>): seq<LeadData> {
    Filter(leads, IsWon)
  }

  function LostLeads(leads: seq<LeadData>): seq<LeadData> {
    Filter(leads, IsLost)
  }

  /** `activeLeads`: the leads neither won nor lost. */
  function ActiveLeads(leads: seq<LeadData>): seq<LeadData> {
    Filter(leads, IsInProcess)
  }

  /** The headline figures. Won, lost and in-process leads split the referrals:
      their deals add up to the number of referrals and their acres to the
      acres of all leads. */
  function DashboardFigures(leads: seq<LeadData>): (f: Figures)
    ensures f.referrals == |leads|
    ensures f.won.deals + f.lost.deals + f.inProcess.deals == f.referrals
    ensures f.won.acres + f.lost.acres + f.inProcess.acres == TotalAcres(leads)
    ensures f.won == TallyOf(WonLeads(leads)) && f.lost == TallyOf(LostLeads(leads))
    ensures f.inProcess == TallyOf(ActiveLeads(leads))
  {
    FilterPartition3(leads, IsWon, IsLost, IsInProcess, LeadAcres);
    Figures(|leads|, TallyOf(ActiveLeads(leads)), TallyOf(WonLeads(leads)), TallyOf(LostLeads(leads)))
  }

  // ---------------------------------------------------------------- stage buckets

  /** The five rows of the stage table. */
  datatype BucketKey = RfsSubmitted | AgreementSent | SoilDataCollection | AnalystTeam | ReportCompleteNotPaid

  /** The row title of a bucket. */
  function Label(k: BucketKey): string {
    match k
    case RfsSubmitted => "RFS Submitted"
    case AgreementSent => "Agreement Sent"
    case SoilDataCollection => "Soil Data Collection"
    case AnalystTeam => "Analyst Team"
    case ReportCompleteNotPaid => "Report Complete | Not Paid"
  }

  /** `order`: the rows from the first stage to the last. */
  const Order: seq<BucketKey> := [RfsSubmitted, AgreementSent, SoilDataCollection, AnalystTeam, ReportCompleteNotPaid]

  /** Every bucket has one place in `order`, and distinct buckets have distinct titles. */
  lemma OrderLists(k: BucketKey, k': BucketKey)
    ensures k in Order
    ensures |Order| == 5 && forall i, j :: 0 <= i < j < |Order| ==> Order[i] != Order[j]
    ensures Label(k) == Label(k') ==> k == k'
  {
  }

  lemma EveryKeyInOrder()
    ensures forall k: BucketKey :: k in Order
  {
    forall k: BucketKey
      ensures k in Order
    {
      OrderLists(k, k);
    }
  }

  /** The `switch` over the derived stage name: two synonyms each for the first
      two buckets, one name for each of the others, and every other name in the
      first bucket. */
  function BucketOf(stageName: string): (k: BucketKey)
    ensures k == AgreementSent <==> stageName in {"Agreement Sent", "Service Contract Under Review"}
    ensures k == SoilDataCollection <==> stageName == "Soil Data Collection"
    ensures k == AnalystTeam <==> stageName == "Analyst Team"
    ensures k == ReportCompleteNotPaid <==> stageName == "Report Complete/Not Paid"
  {
    if stageName in {"Request for Services Submitted", "Contact Form Submitted"} then RfsSubmitted
    else if stageName in {"Agreement Sent", "Service Contract Under Review"} then AgreementSent
    else if stageName == "Soil Data Collection" then SoilDataCollection
    else if stageName == "Analyst Team" then AnalystTeam
    else if stageName == "Report Complete/Not Paid" then ReportCompleteNotPaid
    else RfsSubmitted
  }

  /** The bucket of a lead: that of its derived stage. */
  function KeyOf(l: LeadData): BucketKey {
    BucketOf(DeriveStage(l))
  }

  function HasKey(keyOf: LeadData -> BucketKey, k: BucketKey): LeadData -> bool {
    (l: LeadData) => keyOf(l) == k
  }

  /** The leads of a list that `keyOf` puts into bucket `k`, and their acres.
      The tallies are stated for any bucketing `keyOf`; the page's is `KeyOf`. */
  function TallyIn(leads: seq<LeadData>, keyOf: LeadData -> BucketKey, k: BucketKey): Tally {
    TallyOf(Filter(leads, HasKey(keyOf, k)))
  }

  /** `buckets` as first built: every bucket at zero. */
  function EmptyBuckets(): (m: map<BucketKey, Tally>)
    ensures forall k :: k in m && m[k] == Tally(0, 0)
  {
    EveryKeyInOrder();
    map k | k in Order :: Tally(0, 0)
  }

  /** The last lead of a list adds one deal and its acres to its own bucket and
      leaves the other buckets as they were. */
  lemma TallyInStep(s: seq<LeadData>, keyOf: LeadData -> BucketKey, k: BucketKey)
    requires s != []
    ensures var front, x := s[..|s| - 1], s[|s| - 1];
      TallyIn(s, keyOf, k) ==
        if keyOf(x) == k then Tally(TallyIn(front, keyOf, k).deals + 1, TallyIn(front, keyOf, k).acres + LeadAcres(x))
        else TallyIn(front, keyOf, k)
  {
    var front, x := s[..|s| - 1], s[|s| - 1];
    assert front + [x] == s;
    FilterSnoc(front, x, HasKey(keyOf, k));
    SumAppend(Filter(front, HasKey(keyOf, k)), if keyOf(x) == k then [x] else [], LeadAcres);
    assert Sum([x], LeadAcres) == LeadAcres(x);
  }

  /** `buckets[key].deals += 1; buckets[key].acres += acres`. */
  function AddLead(buckets: map<BucketKey, Tally>, key: BucketKey, acres: int): (m: map<BucketKey, Tally>)
    requires key in buckets
    ensures m.Keys == buckets.Keys
    ensures m[key] == Tally(buckets[key].deals + 1, buckets[key].acres + acres)
    ensures forall k :: k in buckets && k != key ==> m[k] == buckets[k]
  {
    buckets[key := Tally(buckets[key].deals + 1, buckets[key].acres + acres)]
  }

  /** The table once the loop has gone through `leads` in order, bucketing
      each lead with `keyOf`. */
  function Bucketed(leads: seq<LeadData>, keyOf: LeadData -> BucketKey): (m: map<BucketKey, Tally>)
    ensures forall k :: k in m
  {
    if leads == [] then EmptyBuckets()
    else
      var last := leads[|leads| - 1];
      AddLead(Bucketed(leads[..|leads| - 1], keyOf), keyOf(last), LeadAcres(last))
  }

  /** The last lead of a list adds one deal and its acres to its own bucket of
      the table and leaves the other buckets as they were. */
  lemma BucketedStepAt(s: seq<LeadData>, keyOf: LeadData -> BucketKey, k: BucketKey)
    requires s != []
    ensures var front, x := s[..|s| - 1], s[|s| - 1];
      Bucketed(s, keyOf)[k] ==
        if keyOf(x) == k then Tally(Bucketed(front, keyOf)[k].deals + 1, Bucketed(front, keyOf)[k].acres + LeadAcres(x))
        else Bucketed(front, keyOf)[k]
  {
  }

  /** After the loop each bucket holds the number of leads put into it and the
      sum of their acres. */
  lemma {:induction false} BucketedTallies(leads: seq<LeadData>, keyOf: LeadData -> BucketKey)
    ensures forall k :: Bucketed(leads, keyOf)[k] == TallyIn(leads, keyOf, k)
  {
    if leads != [] {
      BucketedTallies(leads[..|leads| - 1], keyOf);
      forall k: BucketKey
        ensures Bucketed(leads, keyOf)[k] == TallyIn(leads, keyOf, k)
      {
        BucketedStepAt(leads, keyOf, k);
        TallyInStep(leads, keyOf, k);
      }
    }
  }

  /** Going through one more lead. */
  lemma BucketedStep(s: seq<LeadData>, i: nat, keyOf: LeadData -> BucketKey)
    requires i < |s|
    ensures Bucketed(s[..i + 1], keyOf) == AddLead(Bucketed(s[..i], keyOf), keyOf(s[i]), LeadAcres(s[i]))
  {
    assert s[..i + 1][..i] == s[..i];
  }

  /** The stage table loop: each in-process lead's derived stage (the loop
      repeats the body of `deriveStage` word for word) picks a bucket, whose
      deals go up by one and whose acres go up by the lead's acres. The table
      ends with each bucket's count of leads and sum of acres. */
  method StageTable(activeLeads: seq<LeadData>) returns (buckets: map<BucketKey, Tally>)
    ensures buckets == Bucketed(activeLeads, KeyOf)
  {
    buckets := EmptyBuckets();
    for i := 0 to |activeLeads|
      invariant buckets == Bucketed(activeLeads[..i], KeyOf)
    {
      var lead := activeLeads[i];
      var key := KeyOf(lead);
      BucketedStep(activeLeads, i, KeyOf);
      buckets := AddLead(buckets, key, ParseAcres(lead.acres));
    }
    assert activeLeads[..|activeLeads|] == activeLeads;
  }

  /** The tally of a bucket, taking the first lead off the list. */
  lemma TallyInCons(s: seq<LeadData>, keyOf: LeadData -> BucketKey, k: BucketKey)
    requires s != []
    ensures TallyIn(s, keyOf, k) ==
      if keyOf(s[0]) == k then Tally(TallyIn(s[1..], keyOf, k).deals + 1, TallyIn(s[1..], keyOf, k).acres + LeadAcres(s[0]))
      else TallyIn(s[1..], keyOf, k)
  {
    if keyOf(s[0]) == k {
      var rest := Filter(s[1..], HasKey(keyOf, k));
      assert Filter(s, HasKey(keyOf, k)) == [s[0]] + rest;
      assert ([s[0]] + rest)[1..] == rest;
    }
  }

  /** Every lead falls into exactly one bucket: the five deal counts add up to the
      number of leads and the five acre sums to their acres. */
  lemma {:induction false} BucketsCover(s: seq<LeadData>, keyOf: LeadData -> BucketKey)
    ensures TallyIn(s, keyOf, RfsSubmitted).deals + TallyIn(s, keyOf, AgreementSent).deals
      + TallyIn(s, keyOf, SoilDataCollection).deals + TallyIn(s, keyOf, AnalystTeam).deals
      + TallyIn(s, keyOf, ReportCompleteNotPaid).deals == |s|
    ensures TallyIn(s, keyOf, RfsSubmitted).acres + TallyIn(s, keyOf, AgreementSent).acres
      + TallyIn(s, keyOf, SoilDataCollection).acres + TallyIn(s, keyOf, AnalystTeam).acres
      + TallyIn(s, keyOf, ReportCompleteNotPaid).acres == TotalAcres(s)
  {
    if s != [] {
      BucketsCover(s[1..], keyOf);
      TallyInCons(s, keyOf, RfsSubmitted);
      TallyInCons(s, keyOf, AgreementSent);
      TallyInCons(s, keyOf, SoilDataCollection);
      TallyInCons(s, keyOf, AnalystTeam);
      TallyInCons(s, keyOf, ReportCompleteNotPaid);
    }
  }

  // ---------------------------------------------------------------- stage rows

  datatype StageRow = StageRow(stage: string, deals: int, acres: int)

  function RowDeals(r: StageRow): int {
    r.deals
  }

  function RowAcres(r: StageRow): int {
    r.acres
  }

  /** `stageRows`: one row per bucket, in the order of `order`, with the
      bucket's title and figures. */
  function StageRows(buckets: map<BucketKey, Tally>): (rows: seq<StageRow>)
    requires forall k :: k in Order ==> k in buckets
    ensures |rows| == |Order|
    ensures forall i :: 0 <= i < |rows| ==>
      rows[i].stage == Label(Order[i]) && rows[i].deals == buckets[Order[i]].deals && rows[i].acres == buckets[Order[i]].acres
  {
    seq(|Order|, i requires 0 <= i < |Order| => StageRow(Label(Order[i]), buckets[Order[i]].deals, buckets[Order[i]].acres))
  }

  /** A sum over five rows. */
  lemma SumOfFive(rows: seq<StageRow>, f: StageRow -> int)
    requires |rows| == 5
    ensures Sum(rows, f) == f(rows[0]) + f(rows[1]) + f(rows[2]) + f(rows[3]) + f(rows[4])
  {
    var r1 := rows[1..];
    var r2 := r1[1..];
    var r3 := r2[1..];
    var r4 := r3[1..];
    assert r4[1..] == [];
    assert Sum(r4, f) == f(rows[4]);
    assert Sum(r3, f) == f(rows[3]) + Sum(r4, f);
    assert Sum(r2, f) == f(rows[2]) + Sum(r3, f);
    assert Sum(r1, f) == f(rows[1]) + Sum(r2, f);
  }

  /** The rows of a table add up its five buckets. */
  lemma RowsSum(buckets: map<BucketKey, Tally>)
    requires forall k :: k in Order ==> k in buckets
    ensures var rows := StageRows(buckets);
      && |rows| == 5
      && Sum(rows, RowDeals) == buckets[RfsSubmitted].deals + buckets[AgreementSent].deals
        + buckets[SoilDataCollection].deals + buckets[AnalystTeam].deals + buckets[ReportCompleteNotPaid].deals
      && Sum(rows, RowAcres) == buckets[RfsSubmitted].acres + buckets[AgreementSent].acres
        + buckets[SoilDataCollection].acres + buckets[AnalystTeam].acres + buckets[ReportCompleteNotPaid].acres
  {
    var rows := StageRows(buckets);
    SumOfFive(rows, RowDeals);
    SumOfFive(rows, RowAcres);
  }

  /** The buckets of a table built from `s` hold, together, all of its deals and acres. */
  lemma BucketedCover(s: seq<LeadData>, keyOf: LeadData -> BucketKey)
    ensures var m := Bucketed(s, keyOf);
      && m[RfsSubmitted].deals + m[AgreementSent].deals + m[SoilDataCollection].deals
        + m[AnalystTeam].deals + m[ReportCompleteNotPaid].deals == |s|
      && m[RfsSubmitted].acres + m[AgreementSent].acres + m[SoilDataCollection].acres
        + m[AnalystTeam].acres + m[ReportCompleteNotPaid].acres == TotalAcres(s)
  {
    var m := Bucketed(s, keyOf);
    BucketedTallies(s, keyOf);
    BucketsCover(s, keyOf);
    assert m[RfsSubmitted] == TallyIn(s, keyOf, RfsSubmitted);
    assert m[AgreementSent] == TallyIn(s, keyOf, AgreementSent);
    assert m[SoilDataCollection] == TallyIn(s, keyOf, SoilDataCollection);
    assert m[AnalystTeam] == TallyIn(s, keyOf, AnalystTeam);
    assert m[ReportCompleteNotPaid] == TallyIn(s, keyOf, ReportCompleteNotPaid);
  }

  /** The rows of a table built from `s` have, together, all of its deals and acres. */
  lemma RowsCover(s: seq<LeadData>, keyOf: LeadData -> BucketKey)
    ensures var rows := StageRows(Bucketed(s, keyOf));
      && |rows| == 5
      && Sum(rows, RowDeals) == |s|
      && Sum(rows, RowAcres) == TotalAcres(s)
  {
    RowsSum(Bucketed(s, keyOf));
    BucketedCover(s, keyOf);
  }

  /** The stage table of the in-process leads has five rows whose deals add up
      to the in-process deal count and whose acres add up to the in-process
      acres. */
  lemma StageRowsTotals(leads: seq<LeadData>)
    ensures var rows := StageRows(Bucketed(ActiveLeads(leads), KeyOf));
      && |rows| == 5
      && Sum(rows, RowDeals) == DashboardFigures(leads).inProcess.deals
      && Sum(rows, RowAcres) == DashboardFigures(leads).inProcess.acres
  {
    RowsCover(ActiveLeads(leads), KeyOf);
  }
}
