/**
 * The AutoScout24 detail-page adapter (src/autoscout/autoscout.specscraper.ts): how `processData`
 * reads a listing's page into a spec and a vehicle category.
 *
 * The page is given by the texts the adapter selects from it; the HTML parsing that finds those texts
 * is not part of this model. Each field rule is a function of its text, and `ProcessData` combines
 * them with the same failure cases as the original: a page whose fifth key fact holds no number
 * throws, a page without make, model or year is dropped, and a displacement label without a number
 * throws.
 */
module AutoscoutSpecScraper {
  import opened Wrappers
  import opened Interfaces
  import opened Text
  import SpecScraperModel

  /** The platform's address, as stored in every listing of this adapter. */
  const Platform := "https://www.autoscout24.hu"
  /** The adapter's initial interval: 0.2 minutes, in tenths of a minute. */
  const InitialSleepTime := 2
  /** Once five exceptions have been counted, the scraper abandons the oldest un-crawled listing. */
  const MaxErrorCount := 5

  /**
   * The texts `processData` selects from a detail page: the `dd` after the make and model `dt`s, the
   * key facts in page order, the `dd` after each labelled `dt` (absent when the page has no such
   * label), the second price block's heading, the vendor's city and the vendor-contact line.
   */
  datatype DetailPage = DetailPage(
    makeText: string,
    modelText: string,
    keyfacts: seq<string>,
    fuelLabel: Option<string>,
    transmissionLabel: Option<string>,
    ccmLabel: Option<string>,
    priceText: string,
    cityText: string,
    zipText: string)

  /** `.eq(i).text()`: the `i`-th key fact, or the empty text when there are fewer. */
  function Keyfact(page: DetailPage, i: nat): string {
    if i < |page.keyfacts| then page.keyfacts[i] else ""
  }

  /** `Number(runs.join(''))` for matches of `/\d+/g`. */
  function JoinedValue(runs: seq<string>): nat
    requires forall k :: 0 <= k < |runs| ==> AllDigits(runs[k])
  {
    ConcatDigits(runs);
    DecimalValue(Concat(runs))
  }

  // ---------------------------------------------------------------------------
  // Field rules

  /**
   * The year: the second number of the registration key fact, 0 when it has only one; `None` when it
   * has none, where the original's non-null assertion throws.
   */
  function AgeOf(text: string): (r: Option<nat>)
    ensures r.None? <==> DigitRuns(text) == []
  {
    var runs := DigitRuns(text);
    if runs == [] then None
    else if |runs| < 2 then Some(0)
    else Some(DecimalValue(runs[1]))
  }

  /** A registration date `month/year` gives the year. */
  lemma RegistrationYear(month: string, year: string)
    requires month != [] && AllDigits(month) && year != [] && AllDigits(year)
    ensures AgeOf(month + "/" + year) == Some(DecimalValue(year))
  {
    TwoRuns(month, '/', year);
  }

  /** The mileage: all numbers of the key fact joined, when there are at least two; otherwise 0. */
  function KmOf(text: string): int {
    var runs := DigitRuns(text);
    if |runs| > 1 then JoinedValue(runs) else 0
  }

  /** A mileage with grouped thousands reads as its digits, every other character dropped. */
  lemma KmIsDigits(text: string)
    ensures |DigitRuns(text)| > 1 ==> KmOf(text) == DecimalValue(OnlyDigits(text))
    ensures |DigitRuns(text)| <= 1 ==> KmOf(text) == 0
  {
    DigitRunsConcat(text);
  }

  /** `125 000` reads as 125000: two groups separated by a space are joined. */
  lemma KmOfGroupedThousands(thousands: string, units: string)
    requires thousands != [] && AllDigits(thousands) && units != [] && AllDigits(units)
    ensures KmOf(thousands + " " + units) == DecimalValue(thousands + units)
  {
    TwoRuns(thousands, ' ', units);
    var runs := [thousands, units];
    assert runs[1..] == [units] && [units][1..] == [];
    assert Concat(runs) == thousands + (units + Concat([]));
    assert units + [] == units;
  }

  /**
   * The power: `Number` of the match array, which is the number when there is exactly one match, NaN
   * when there are several and 0 when there is none; NaN and 0 both give 0.
   */
  function KwOf(text: string): (r: int)
    ensures |DigitRuns(text)| != 1 ==> r == 0
    ensures r >= 0
  {
    var runs := DigitRuns(text);
    if |runs| == 1 then DecimalValue(runs[0]) else 0
  }

  /** The labels counted as diesel. */
  const DieselNames: seq<string> := ["Dízel (Particulate Filter)", "Dízel"]

  /** The labels counted as petrol. */
  const PetrolNames: seq<string> := [
    "Benzin",
    "Benzin (Particulate Filter)",
    "Super 95 (Particulate Filter)",
    "Super 95",
    "91-es normálbenzin",
    "Super E10 Plus 95-ös",
    "Super Plus 98-as",
    "E10-es 91-es normálbenzin",
    "Super Plus E10 98-as"]

  /** `pieces.some(item => names.includes(item.trim()))`. */
  predicate AnyTrimmedIn(pieces: seq<string>, names: seq<string>) {
    exists i :: 0 <= i < |pieces| && Trim(pieces[i]) in names
  }

  /**
   * The fuel: the trimmed label split on `/`; `Dízel` when a piece is a diesel name, otherwise `Benzin`
   * when a piece is a petrol name, otherwise the trimmed label; absent without a label.
   */
  function FuelOf(dd: Option<string>): (r: Option<string>)
    ensures r.Some? <==> dd.Some?
    ensures r.Some? ==> r.value == "Dízel" || r.value == "Benzin" || r.value == Trim(dd.value)
  {
    match dd
    case None => None
    case Some(l) =>
      var pieces := Split(Trim(l), '/');
      if AnyTrimmedIn(pieces, DieselNames) then Some("Dízel")
      else if AnyTrimmedIn(pieces, PetrolNames) then Some("Benzin")
      else Some(Trim(l))
  }

  /** A label of a single fuel is diesel when it is a diesel name, petrol when it is a petrol name, and kept trimmed otherwise. */
  lemma OneFuelLabel(l: string)
    requires '/' !in Trim(l)
    ensures Trim(l) in DieselNames ==> FuelOf(Some(l)) == Some("Dízel")
    ensures Trim(l) !in DieselNames && Trim(l) in PetrolNames ==> FuelOf(Some(l)) == Some("Benzin")
    ensures Trim(l) !in DieselNames && Trim(l) !in PetrolNames ==> FuelOf(Some(l)) == Some(Trim(l))
  {
    var trimmed := Trim(l);
    TrimNoSpace(trimmed);
    assert Split(trimmed, '/') == [trimmed];
    AnyOfOne(trimmed, DieselNames);
    AnyOfOne(trimmed, PetrolNames);
  }

  lemma AnyOfOne(p: string, names: seq<string>)
    ensures AnyTrimmedIn([p], names) <==> Trim(p) in names
  {
    assert [p][0] == p;
  }

  /**
   * A label of two fuels `p/q` is diesel when either is a diesel name, and otherwise petrol when either
   * is a petrol name: diesel wins whichever side it is on.
   */
  lemma TwoFuelLabel(p: string, q: string)
    requires '/' !in p && '/' !in q
    requires p != [] && !IsJsSpace(p[0]) && q != [] && !IsJsSpace(q[|q| - 1])
    ensures Trim(p) in DieselNames || Trim(q) in DieselNames ==> FuelOf(Some(p + "/" + q)) == Some("Dízel")
    ensures && !(Trim(p) in DieselNames || Trim(q) in DieselNames)
            && (Trim(p) in PetrolNames || Trim(q) in PetrolNames)
            ==> FuelOf(Some(p + "/" + q)) == Some("Benzin")
  {
    var l := p + "/" + q;
    assert l[0] == p[0] && l[|l| - 1] == q[|q| - 1];
    TrimNoSpace(l);
    SplitAfterPiece(p, '/', q);
    assert Split(l, '/') == [p, q];
    AnyOfTwo(p, q, DieselNames);
    AnyOfTwo(p, q, PetrolNames);
  }

  lemma AnyOfTwo(p: string, q: string, names: seq<string>)
    ensures AnyTrimmedIn([p, q], names) <==> Trim(p) in names || Trim(q) in names
  {
    var pieces := [p, q];
    assert pieces[0] == p && pieces[1] == q;
    if AnyTrimmedIn(pieces, names) {
      var i :| 0 <= i < |pieces| && Trim(pieces[i]) in names;
      assert i == 0 || i == 1;
    }
  }

  /** The transmission: `Sebességváltó` (gearbox) means manual; any other label is kept, trimmed. */
  function TransmissionOf(dd: Option<string>): (r: Option<string>)
    ensures r.Some? <==> dd.Some?
    ensures dd.Some? && Trim(dd.value) == "Sebességváltó" ==> r == Some("Manuális")
    ensures dd.Some? && Trim(dd.value) != "Sebességváltó" ==> r == Some(Trim(dd.value))
  {
    match dd
    case None => None
    case Some(l) => if Trim(l) == "Sebességváltó" then Some("Manuális") else Some(Trim(l))
  }

  /** The displacement: all numbers of the label joined; absent without a dd. A label with no number throws. */
  function CcmOf(dd: Option<string>): (r: Option<int>)
    requires dd.Some? ==> DigitRuns(dd.value) != []
    ensures r.Some? <==> dd.Some?
    ensures r.Some? ==> r.value == DecimalValue(OnlyDigits(dd.value))
  {
    match dd
    case None => None
    case Some(l) =>
      DigitRunsConcat(l);
      Some(JoinedValue(DigitRuns(l)))
  }

  /** The price: all numbers of the heading joined; NaN (`None`) when it has none. */
  function PriceOf(text: string): (r: Option<int>)
    ensures r.None? <==> DigitRuns(text) == []
    ensures r.Some? ==> r.value == DecimalValue(OnlyDigits(text))
  {
    var runs := DigitRuns(text);
    DigitRunsConcat(text);
    if runs == [] then None else Some(JoinedValue(runs))
  }

  /** The zipcode: `Number` of the contact line's first space-separated token. */
  function ZipcodeOf(text: string): Option<int> {
    ToNumber(Split(text, ' ')[0])
  }

  /** A contact line `1055 Budapest` gives the zipcode 1055: the number before the first space, whatever follows. */
  lemma ZipcodeBeforeCity(n: nat, city: string)
    ensures ZipcodeOf(DecimalString(n) + " " + city) == Some(n)
  {
    var d := DecimalString(n);
    SplitAfterPiece(d, ' ', city);
    NumberOfDecimalString(n);
  }

  // ---------------------------------------------------------------------------
  // processData

  /** The required fields: a non-zero year, a model and a make. */
  predicate HasRequiredFields(page: DetailPage) {
    var age := AgeOf(Keyfact(page, 4));
    age.Some? && age.value != 0 && Trim(page.modelText) != "" && Trim(page.makeText) != ""
  }

  /** `processData(data, id)`: the spec and category of listing `id`, or why there are none. */
  function ProcessData(page: DetailPage, id: nat): (r: SpecScraperModel.ParseOutcome)
    ensures r.ParseError? <==> AgeOf(Keyfact(page, 4)).None?
                               || (HasRequiredFields(page) && page.ccmLabel.Some? && DigitRuns(page.ccmLabel.value) == [])
    ensures r.Incomplete? <==> AgeOf(Keyfact(page, 4)).Some? && !HasRequiredFields(page)
    ensures r.Parsed? ==> && r.spec.id == id
                          && r.vtype.make == Trim(page.makeText) && r.vtype.make != ""
                          && r.vtype.model == Trim(page.modelText) && r.vtype.model != ""
                          && r.vtype.age > 0
  {
    match AgeOf(Keyfact(page, 4))
    case None => SpecScraperModel.ParseError
    case Some(age) =>
      var make, model := Trim(page.makeText), Trim(page.modelText);
      if age == 0 || model == "" || make == "" then SpecScraperModel.Incomplete
      else if page.ccmLabel.Some? && DigitRuns(page.ccmLabel.value) == [] then SpecScraperModel.ParseError
      else
        var spec := VehicleSpec(
          id,
          Some(KmOf(Keyfact(page, 3))),
          Some(KwOf(Keyfact(page, 5))),
          FuelOf(page.fuelLabel),
          TransmissionOf(page.transmissionLabel),
          CcmOf(page.ccmLabel),
          PriceOf(page.priceText),
          Some(page.cityText),
          ZipcodeOf(page.zipText));
        SpecScraperModel.Parsed(spec, VehicleTypePreview(make, model, age))
  }

  /** Every field of a parsed spec follows its rule, whatever the shape of the registration key fact. */
  lemma ParsedFields(page: DetailPage, id: nat)
    requires ProcessData(page, id).Parsed?
    ensures var spec := ProcessData(page, id).spec;
            && spec.km == Some(KmOf(Keyfact(page, 3))) && spec.kw == Some(KwOf(Keyfact(page, 5)))
            && spec.fuel == FuelOf(page.fuelLabel) && spec.transmission == TransmissionOf(page.transmissionLabel)
            && spec.ccm == CcmOf(page.ccmLabel) && spec.price == PriceOf(page.priceText)
            && spec.city == Some(page.cityText) && spec.zipcode == ZipcodeOf(page.zipText)
  {
  }

  /** A parsed page whose registration key fact is `month/year` is filed under that year. */
  lemma ParsedYear(page: DetailPage, id: nat, month: string, year: string)
    requires Keyfact(page, 4) == month + "/" + year
    requires month != [] && AllDigits(month) && year != [] && AllDigits(year)
    requires ProcessData(page, id).Parsed?
    ensures ProcessData(page, id).vtype.age == DecimalValue(year)
  {
    RegistrationYear(month, year);
  }

  /**
   * The adapter inside the shared cycle: when the page of the listing picked for scraping parses,
   * that listing is marked crawled and its spec is stored under the listing's id; an adapter still at
   * its initial 0.2 minutes stays there.
   */
  lemma ParsedPageMarksPicked(s: SpecScraperModel.ScraperState, page: DetailPage)
    requires SpecScraperModel.EntryToScrape(s.tables, Platform).Some?
    requires ProcessData(page, SpecScraperModel.EntryToScrape(s.tables, Platform).value).Parsed?
    requires DigitRuns(page.priceText) != [] && ZipcodeOf(page.zipText).Some?
    ensures var id := SpecScraperModel.EntryToScrape(s.tables, Platform).value;
            var (s', outcome) := SpecScraperModel.Cycle(s, Platform, MaxErrorCount, SpecScraperModel.Page(page), ProcessData);
            && outcome.Saved?
            && id in s'.tables.carlist && s'.tables.carlist[id].crawled
            && |s'.tables.carspec| > 0 && s'.tables.carspec[|s'.tables.carspec| - 1].spec.id == id
            && s'.errorCount == s.errorCount
            && (s.sleepTime == InitialSleepTime ==> s'.sleepTime == InitialSleepTime)
  {
    var id := SpecScraperModel.EntryToScrape(s.tables, Platform).value;
    assert SpecScraperModel.Insertable(ProcessData(page, id).spec) by {
      ParsedFields(page, id);
    }
    SpecScraperModel.SavedCycle(s, Platform, MaxErrorCount, page, ProcessData);
  }

  /**
   * A listing whose price heading holds no number ("price on request") parses, but its spec row is
   * rejected: below the error limit the cycle counts an error, stores no spec and leaves the listing
   * un-crawled.
   */
  lemma PriceOnRequestRetries(s: SpecScraperModel.ScraperState, page: DetailPage)
    requires SpecScraperModel.EntryToScrape(s.tables, Platform).Some?
    requires ProcessData(page, SpecScraperModel.EntryToScrape(s.tables, Platform).value).Parsed?
    requires DigitRuns(page.priceText) == []
    requires s.errorCount + 1 < MaxErrorCount
    ensures var id := SpecScraperModel.EntryToScrape(s.tables, Platform).value;
            var (s', outcome) := SpecScraperModel.Cycle(s, Platform, MaxErrorCount, SpecScraperModel.Page(page), ProcessData);
            && outcome == SpecScraperModel.Retrying
            && s'.errorCount == s.errorCount + 1
            && s'.tables.carspec == s.tables.carspec
            && id in s'.tables.carlist && !s'.tables.carlist[id].crawled
  {
    var id := SpecScraperModel.EntryToScrape(s.tables, Platform).value;
    assert !SpecScraperModel.Insertable(ProcessData(page, id).spec) by {
      ParsedFields(page, id);
    }
    SpecScraperModel.RejectedSpecCycle(s, Platform, MaxErrorCount, page, ProcessData);
  }
}
