/**
 * The booking price calculator of main.js (main.js:545-584): a fixed table
 * from (service, vehicle) to a price, shown as `$` followed by the price with
 * two decimals, or a prompt when the pair has no price. Prices are integer
 * cents, so the table and `toFixed(2)` are exact.
 */
module PriceCalculator {
  import opened Wrappers

  /** The price table in cents (main.js:552-560). */
  const Prices: map<string, map<string, nat> > := map[
    "exterior_wash"    := map["car" := 4999,   "suv" := 5999,   "van" := 6999],
    "bronze_package"   := map["car" := 14999,  "suv" := 16999,  "van" := 19999],
    "silver_package"   := map["car" := 44999,  "suv" := 49999,  "van" := 59999],
    "gold_package"     := map["car" := 59999,  "suv" := 69999,  "van" := 79999],
    "richmond_special" := map["car" := 149999, "suv" := 159999, "van" := 169999],
    "ceramic_coating"  := map["car" := 99999,  "suv" := 99999,  "van" := 99999],
    "gold_wax"         := map["car" := 34999,  "suv" := 39999,  "van" := 49999]
  ]

  /** The text shown when no price applies (main.js:577). */
  const Unset: string := "Select service and vehicle"
  /** The display colours of a price and of the prompt (main.js:572, 578). */
  const PriceColor: string := "#f59e0b"
  const UnsetColor: string := "#94a3b8"

  /** Whether the table has a price for the pair. */
  predicate InTable(service: string, vehicle: string)
  {
    service in Prices && vehicle in Prices[service]
  }

  /** Every price in the table is positive and no key is empty, so the
      truthiness tests of `updatePrice` reject nothing in the table. */
  lemma TablePricesArePositive(service: string, vehicle: string)
    ensures InTable(service, vehicle) ==> Prices[service][vehicle] > 0 && service != "" && vehicle != ""
  {
  }

  /** The guarded lookup of `updatePrice` (main.js:566-567): both selections
      non-empty, the service in the table, and a truthy (non-zero) price for
      the vehicle. It finds a price exactly for the table's 21 pairs. */
  function Lookup(service: string, vehicle: string): (r: Option<nat>)
    ensures r.Some? <==> InTable(service, vehicle)
    ensures r.Some? ==> r.value == Prices[service][vehicle] && r.value > 0
  {
    TablePricesArePositive(service, vehicle);
    if service != "" && vehicle != "" && service in Prices && vehicle in Prices[service]
       && Prices[service][vehicle] != 0
    then Some(Prices[service][vehicle])
    else None
  }

  predicate IsDigit(c: char)
  {
    '0' <= c <= '9'
  }

  predicate AllDigits(s: string)
  {
    forall i :: 0 <= i < |s| ==> IsDigit(s[i])
  }

  function DigitChar(d: nat): (c: char)
    requires d < 10
    ensures IsDigit(c) && (c as int) - ('0' as int) == d
  {
    (('0' as int) + d) as char
  }

  /** The decimal numeral of `n`, without leading zeros. */
  function Decimal(n: nat): (s: string)
    ensures |s| >= 1 && AllDigits(s)
    ensures |s| > 1 ==> s[0] != '0'
  {
    if n < 10 then [DigitChar(n)] else Decimal(n / 10) + [DigitChar(n % 10)]
  }

  /** The value of a string of decimal digits. */
  function DecimalValue(s: string): nat
    requires AllDigits(s)
  {
    if s == [] then 0
    else DecimalValue(s[..|s| - 1]) * 10 + ((s[|s| - 1] as int) - ('0' as int))
  }

  /** Reading a numeral back gives the number. */
  lemma {:induction false} DecimalRoundTrip(n: nat)
    ensures DecimalValue(Decimal(n)) == n
  {
    if n >= 10 {
      var s := Decimal(n);
      assert s[..|s| - 1] == Decimal(n / 10);
      DecimalRoundTrip(n / 10);
    }
  }

  /** A price in cents as `price.toFixed(2)` renders it behind a `$`
      (main.js:568): whole dollars, a point, and exactly two cent digits. */
  function FormatPrice(cents: nat): (s: string)
    ensures |s| >= 5 && s[0] == '$' && s[|s| - 3] == '.'
    ensures |s| > 5 ==> s[1] != '0'
  {
    "$" + Decimal(cents / 100) + "." + [DigitChar(cents % 100 / 10), DigitChar(cents % 10)]
  }

  /** The inverse of FormatPrice: reads `$<digits>.<two digits>` as cents. */
  function ParsePrice(s: string): Option<nat>
  {
    if |s| >= 5 && s[0] == '$' && s[|s| - 3] == '.'
       && AllDigits(s[1..|s| - 3]) && AllDigits(s[|s| - 2..])
    then Some(DecimalValue(s[1..|s| - 3]) * 100 + DecimalValue(s[|s| - 2..]))
    else None
  }

  /** Formatting loses nothing: the rendered text reads back as the same
      number of cents, so distinct prices are shown distinctly. */
  lemma {:induction false} FormatPriceRoundTrip(cents: nat)
    ensures ParsePrice(FormatPrice(cents)) == Some(cents)
  {
    var s := FormatPrice(cents);
    var dollars := Decimal(cents / 100);
    var tail := [DigitChar(cents % 100 / 10), DigitChar(cents % 10)];
    assert s == "$" + dollars + "." + tail;
    assert s[1..|s| - 3] == dollars;
    assert s[|s| - 2..] == tail;
    DecimalRoundTrip(cents / 100);
    assert tail[..1] == [DigitChar(cents % 100 / 10)] && tail[..1][..0] == [];
    assert DecimalValue(tail[..1]) == cents % 100 / 10;
    assert DecimalValue(tail) == (cents % 100 / 10) * 10 + cents % 10;
  }

  /** What `updatePrice` shows. */
  datatype PriceDisplay = PriceDisplay(text: string, color: string)

  /** `updatePrice` (main.js:562-580): the pair's price, formatted and
      highlighted, when the table has one; otherwise the muted prompt. The
      truthiness guards of the source reject no table pair. */
  function UpdatePrice(service: string, vehicle: string): (d: PriceDisplay)
    ensures InTable(service, vehicle) ==>
      d == PriceDisplay(FormatPrice(Prices[service][vehicle]), PriceColor)
    ensures !InTable(service, vehicle) ==> d == PriceDisplay(Unset, UnsetColor)
  {
    match Lookup(service, vehicle)
    case Some(cents) => PriceDisplay(FormatPrice(cents), PriceColor)
    case None => PriceDisplay(Unset, UnsetColor)
  }

  /** The displayed text of a table pair reads back as exactly the table's
      price, and no table price is shown as the prompt. */
  lemma DisplayedPriceIsTablePrice(service: string, vehicle: string)
    requires InTable(service, vehicle)
    ensures ParsePrice(UpdatePrice(service, vehicle).text) == Some(Prices[service][vehicle])
    ensures UpdatePrice(service, vehicle).text != Unset
  {
    FormatPriceRoundTrip(Prices[service][vehicle]);
  }

  // The literal prices of the table as displayed, one pair at a time.

  lemma ShowsExteriorWashCar()
    ensures UpdatePrice("exterior_wash", "car").text == "$49.99"
  {
    assert FormatPrice(4999) == "$49.99";
  }

  lemma ShowsExteriorWashSuv()
    ensures UpdatePrice("exterior_wash", "suv").text == "$59.99"
  {
    assert FormatPrice(5999) == "$59.99";
  }

  lemma ShowsExteriorWashVan()
    ensures UpdatePrice("exterior_wash", "van").text == "$69.99"
  {
    assert FormatPrice(6999) == "$69.99";
  }

  lemma ShowsBronzePackageCar()
    ensures UpdatePrice("bronze_package", "car").text == "$149.99"
  {
    assert FormatPrice(14999) == "$149.99";
  }

  lemma ShowsBronzePackageSuv()
    ensures UpdatePrice("bronze_package", "suv").text == "$169.99"
  {
    assert FormatPrice(16999) == "$169.99";
  }

  lemma ShowsBronzePackageVan()
    ensures UpdatePrice("bronze_package", "van").text == "$199.99"
  {
    assert FormatPrice(19999) == "$199.99";
  }

  lemma ShowsSilverPackageCar()
    ensures UpdatePrice("silver_package", "car").text == "$449.99"
  {
    assert FormatPrice(44999) == "$449.99";
  }

  lemma ShowsSilverPackageSuv()
    ensures UpdatePrice("silver_package", "suv").text == "$499.99"
  {
    assert FormatPrice(49999) == "$499.99";
  }

  lemma ShowsSilverPackageVan()
    ensures UpdatePrice("silver_package", "van").text == "$599.99"
  {
    assert FormatPrice(59999) == "$599.99";
  }

  lemma ShowsGoldPackageCar()
    ensures UpdatePrice("gold_package", "car").text == "$599.99"
  {
    assert FormatPrice(59999) == "$599.99";
  }

  lemma ShowsGoldPackageSuv()
    ensures UpdatePrice("gold_package", "suv").text == "$699.99"
  {
    assert FormatPrice(69999) == "$699.99";
  }

  lemma ShowsGoldPackageVan()
    ensures UpdatePrice("gold_package", "van").text == "$799.99"
  {
    assert FormatPrice(79999) == "$799.99";
  }

  lemma ShowsRichmondSpecialCar()
    ensures UpdatePrice("richmond_special", "car").text == "$1499.99"
  {
    assert FormatPrice(149999) == "$1499.99";
  }

  lemma ShowsRichmondSpecialSuv()
    ensures UpdatePrice("richmond_special", "suv").text == "$1599.99"
  {
    assert FormatPrice(159999) == "$1599.99";
  }

  lemma ShowsRichmondSpecialVan()
    ensures UpdatePrice("richmond_special", "van").text == "$1699.99"
  {
    assert FormatPrice(169999) == "$1699.99";
  }

  lemma ShowsCeramicCoatingCar()
    ensures UpdatePrice("ceramic_coating", "car").text == "$999.99"
  {
    assert FormatPrice(99999) == "$999.99";
  }

  lemma ShowsCeramicCoatingSuv()
    ensures UpdatePrice("ceramic_coating", "suv").text == "$999.99"
  {
    assert FormatPrice(99999) == "$999.99";
  }

  lemma ShowsCeramicCoatingVan()
    ensures UpdatePrice("ceramic_coating", "van").text == "$999.99"
  {
    assert FormatPrice(99999) == "$999.99";
  }

  lemma ShowsGoldWaxCar()
    ensures UpdatePrice("gold_wax", "car").text == "$349.99"
  {
    assert FormatPrice(34999) == "$349.99";
  }

  lemma ShowsGoldWaxSuv()
    ensures UpdatePrice("gold_wax", "suv").text == "$399.99"
  {
    assert FormatPrice(39999) == "$399.99";
  }

  lemma ShowsGoldWaxVan()
    ensures UpdatePrice("gold_wax", "van").text == "$499.99"
  {
    assert FormatPrice(49999) == "$499.99";
  }

  /** An empty selection, of either the service or the vehicle, shows the
      prompt (the truthiness guards of main.js:566). */
  lemma EmptySelectionShowsPrompt(service: string, vehicle: string)
    requires service == "" || vehicle == ""
    ensures UpdatePrice(service, vehicle) == PriceDisplay(Unset, UnsetColor)
  {
    TablePricesArePositive(service, vehicle);
  }

  /** A vehicle the service has no price for shows the prompt. */
  lemma UnknownVehicleShowsPrompt()
    ensures UpdatePrice("gold_package", "motorcycle").text == Unset
  {
  }
}
