/**
  The sales table: one row per transaction, every cell possibly missing, and
  the fixed association between the three known sellers and their regions.
 */
module Sales {
  import opened Optional
  import opened Dates

  /** One record; the source's column names are given beside each field. */
  datatype Row = Row(
    date: Option<string>,       // Datum
    seller: Option<string>,     // Verkäufer
    region: Option<string>,     // Region
    product: Option<string>,    // Produkt
    quantity: Option<int>,      // Verkaufte Menge
    unitPrice: Option<int>,     // Umsatz pro Einheit
    total: Option<int>,         // Gesamtumsatz
    comment: Option<string>,    // Kommentar
    month: Option<YearMonth>)   // Monat, derived during cleaning

  type Table = seq<Row>

  /** The columns duplicate detection compares: all but the comment (and the derived month). */
  datatype DedupKey = DedupKey(
    date: Option<string>, seller: Option<string>, region: Option<string>, product: Option<string>,
    quantity: Option<int>, unitPrice: Option<int>, total: Option<int>)

  function KeyOf(r: Row): DedupKey {
    DedupKey(r.date, r.seller, r.region, r.product, r.quantity, r.unitPrice, r.total)
  }

  /** `fill_verkaeufer`'s lookup: the seller responsible for a region. */
  function SellerForRegion(region: Option<string>): Option<string> {
    if region == Some("AMERICAS") then Some("Peter Schmidt")
    else if region == Some("EMEA") then Some("Stefan Berger")
    else if region == Some("ASIA") then Some("Dirk Donner")
    else None
  }

  /** `fill_region`'s lookup: the region of a seller. */
  function RegionForSeller(seller: Option<string>): Option<string> {
    if seller == Some("Peter Schmidt") then Some("AMERICAS")
    else if seller == Some("Stefan Berger") then Some("EMEA")
    else if seller == Some("Dirk Donner") then Some("ASIA")
    else None
  }

  predicate IsKnownSeller(s: string) {
    s == "Peter Schmidt" || s == "Stefan Berger" || s == "Dirk Donner"
  }

  predicate IsKnownRegion(g: string) {
    g == "AMERICAS" || g == "EMEA" || g == "ASIA"
  }

  /** The two lookups are one bidirectional association over the known names. */
  lemma LookupsAreInverse(seller: string, region: string)
    ensures SellerForRegion(Some(region)) == Some(seller) <==> RegionForSeller(Some(seller)) == Some(region)
    ensures SellerForRegion(Some(region)).Some? <==> IsKnownRegion(region)
    ensures RegionForSeller(Some(seller)).Some? <==> IsKnownSeller(seller)
  {
  }

  /** `Verkaufte Menge * Umsatz pro Einheit`; a missing operand gives a missing product. */
  function Revenue(quantity: Option<int>, unitPrice: Option<int>): Option<int> {
    if quantity.Some? && unitPrice.Some? then Some(quantity.value * unitPrice.value) else None
  }
}
