/**
 * The Open Food Facts client (src/api/openFoodFacts.ts): turning a partial
 * product record into a `Food`, and the decisions `searchFoods` and
 * `fetchFoodByBarcode` take around their HTTP request. The request itself is
 * a function parameter `fetch` from the search terms or the barcode to the
 * response, already decoded from JSON.
 */
module OpenFoodFacts {
  import opened Wrappers
  import opened Types
  import opened Text

  const UnknownName := "Nom inconnu"
  const UnknownBrand := "Marque inconnue"
  const SearchUnavailable := "Recherche Open Food Facts indisponible."
  const ServiceUnavailable := "Service Open Food Facts indisponible."

  /** The `nutriments` object of a product; every field may be missing. */
  datatype Nutriments = Nutriments(
    energyKcal: Option<Num>,
    proteins: Option<Num>,
    carbohydrates: Option<Num>,
    fat: Option<Num>)

  /** A product record as the service returns it; every field may be missing. */
  datatype Product = Product(
    code: Option<string>,
    productName: Option<string>,
    productNameFr: Option<string>,
    productNameEn: Option<string>,
    brands: Option<string>,
    imageUrl: Option<string>,
    nutriscoreGrade: Option<string>,
    nutriments: Option<Nutriments>)

  /** `s?.trim()` is falsy: `s` is missing or holds only whitespace. */
  predicate Blank(s: Option<string>)
    ensures Blank(s) <==> s.None? || AllWhitespace(s.value)
  {
    s.None? || IsBlank(s.value)
  }

  /** `a?.trim() || fallback`. */
  function TrimmedOr(a: Option<string>, fallback: string): (r: string)
    ensures !Blank(a) ==> r == Trim(a.value) && r != []
    ensures Blank(a) ==> r == fallback
  {
    if Blank(a) then fallback else Trim(a.value)
  }

  /** `Number(v ?? 0)`: the nutriment, or 0 when it is missing. */
  function Amount(v: Option<Num>): (r: Num)
    ensures v.Some? ==> r == v.value
    ensures v.None? ==> r == Finite(0)
  {
    v.GetOr(Finite(0))
  }

  /** The name `normalizeFood` picks: the first name that is not blank once trimmed, trimmed. */
  function ProductName(p: Product): (r: string)
    ensures r != [] && IsTrimmed(r)
    ensures !Blank(p.productName) ==> r == Trim(p.productName.value)
    ensures Blank(p.productName) && !Blank(p.productNameFr) ==> r == Trim(p.productNameFr.value)
    ensures Blank(p.productName) && Blank(p.productNameFr) && !Blank(p.productNameEn)
      ==> r == Trim(p.productNameEn.value)
    ensures Blank(p.productName) && Blank(p.productNameFr) && Blank(p.productNameEn)
      ==> r == UnknownName
  {
    TrimmedOr(p.productName, TrimmedOr(p.productNameFr, TrimmedOr(p.productNameEn, UnknownName)))
  }

  /** The shape every normalised food has: trimmed non-empty name and brand, lower-case grade. */
  predicate IsNormal(f: Food) {
    && f.name != [] && IsTrimmed(f.name)
    && f.brand != [] && IsTrimmed(f.brand)
    && IsLower(f.nutriscore)
  }

  /**
   * `normalizeFood`; `fallbackId` stands for the random identifier the
   * source draws when the product has no code.
   */
  function NormalizeFood(p: Product, fallbackId: string): (r: Food)
    ensures p.code.Some? ==> r.id == p.code.value
    ensures p.code.None? ==> r.id == fallbackId
    ensures !Blank(p.productName) ==> r.name == Trim(p.productName.value)
    ensures Blank(p.productName) && !Blank(p.productNameFr) ==> r.name == Trim(p.productNameFr.value)
    ensures Blank(p.productName) && Blank(p.productNameFr) && !Blank(p.productNameEn)
      ==> r.name == Trim(p.productNameEn.value)
    ensures Blank(p.productName) && Blank(p.productNameFr) && Blank(p.productNameEn)
      ==> r.name == UnknownName
    ensures !Blank(p.brands) ==> r.brand == Trim(p.brands.value)
    ensures Blank(p.brands) ==> r.brand == UnknownBrand
    ensures p.imageUrl.Some? ==> r.imageUrl == p.imageUrl.value
    ensures p.imageUrl.None? ==> r.imageUrl == ""
    ensures p.nutriscoreGrade.None? ==> r.nutriscore == ""
    ensures p.nutriscoreGrade.Some? ==> r.nutriscore == LowerCase(p.nutriscoreGrade.value)
    ensures p.nutriments.None? ==> r.calories == r.proteins == r.carbs == r.fats == Finite(0)
    ensures p.nutriments.Some? ==>
      && r.calories == Amount(p.nutriments.value.energyKcal)
      && r.proteins == Amount(p.nutriments.value.proteins)
      && r.carbs == Amount(p.nutriments.value.carbohydrates)
      && r.fats == Amount(p.nutriments.value.fat)
  {
    var n := p.nutriments.GetOr(Nutriments(None, None, None, None));
    Food(
      p.code.GetOr(fallbackId),
      ProductName(p),
      TrimmedOr(p.brands, UnknownBrand),
      p.imageUrl.GetOr(""),
      LowerCase(p.nutriscoreGrade.GetOr("")),
      Amount(n.energyKcal),
      Amount(n.proteins),
      Amount(n.carbohydrates),
      Amount(n.fat))
  }

  /** Whatever the product, the food it normalises to is in normal form. */
  lemma NormalizeFoodIsNormal(p: Product, fallbackId: string)
    ensures IsNormal(NormalizeFood(p, fallbackId))
  {
    var name := ProductName(p);
    var brand := TrimmedOr(p.brands, UnknownBrand);
    var grade := LowerCase(p.nutriscoreGrade.GetOr(""));
    assert brand != [] && IsTrimmed(brand);
    assert IsLower(grade);
    var f := NormalizeFood(p, fallbackId);
    assert f.name == name && f.brand == brand && f.nutriscore == grade;
  }

  /** The product record that carries exactly the fields of `f`. */
  function ProductOf(f: Food): Product {
    Product(
      Some(f.id), Some(f.name), None, None, Some(f.brand), Some(f.imageUrl), Some(f.nutriscore),
      Some(Nutriments(Some(f.calories), Some(f.proteins), Some(f.carbs), Some(f.fats))))
  }

  /** A food already in normal form survives the trip through a product record unchanged. */
  lemma NormalizeRoundTrip(f: Food, fallbackId: string)
    requires IsNormal(f)
    ensures NormalizeFood(ProductOf(f), fallbackId) == f
  {
    TrimFixedPoint(f.name);
    TrimFixedPoint(f.brand);
    LowerCaseFixedPoint(f.nutriscore);
  }

  /** Normalising a normalised food again changes nothing, whatever identifier is offered. */
  lemma NormalizeIdempotent(p: Product, fallbackId: string, otherId: string)
    ensures NormalizeFood(ProductOf(NormalizeFood(p, fallbackId)), otherId) == NormalizeFood(p, fallbackId)
  {
    NormalizeFoodIsNormal(p, fallbackId);
    NormalizeRoundTrip(NormalizeFood(p, fallbackId), otherId);
  }

  /** The decoded body of a search request. */
  datatype SearchResponse = SearchResponse(ok: bool, products: Option<seq<Product>>)

  /** The decoded body of a product request. */
  datatype ProductResponse = ProductResponse(ok: bool, status: Option<int>, product: Option<Product>)

  /**
   * `searchFoods`: no request for a blank query; otherwise the trimmed query
   * is sent, a non-ok response is an error, and every returned product is
   * normalised in order (`fallbackId(i)` is the random identifier of the i-th).
   */
  function SearchFoods(query: string, fetch: string -> SearchResponse, fallbackId: nat -> string)
    : (r: Outcome<seq<Food>>)
    ensures IsBlank(query) ==> r == Done([])
    ensures !IsBlank(query) ==> (r.Failed? <==> !fetch(Trim(query)).ok)
    ensures r.Failed? ==> r.message == SearchUnavailable
    ensures r.Done? && !IsBlank(query) ==>
      var products := fetch(Trim(query)).products.GetOr([]);
      && |r.value| == |products|
      && forall i :: 0 <= i < |products| ==> r.value[i] == NormalizeFood(products[i], fallbackId(i))
  {
    if IsBlank(query) then Done([])
    else
      var response := fetch(Trim(query));
      if !response.ok then Failed(SearchUnavailable)
      else
        var products := response.products.GetOr([]);
        Done(seq(|products|, i requires 0 <= i < |products| => NormalizeFood(products[i], fallbackId(i))))
  }

  /**
   * `fetchFoodByBarcode`: nothing for a blank code; otherwise the trimmed code
   * is looked up, a non-ok response is an error, and a response whose status
   * is not 1 or that has no product is "not found".
   */
  function FetchFoodByBarcode(barcode: string, fetch: string -> ProductResponse, fallbackId: string)
    : (r: Outcome<Option<Food>>)
    ensures IsBlank(barcode) ==> r == Done(None)
    ensures r.Failed? <==> !IsBlank(barcode) && !fetch(Trim(barcode)).ok
    ensures r.Failed? ==> r.message == ServiceUnavailable
    ensures r.Done? && r.value.Some? <==>
      var response := fetch(Trim(barcode));
      !IsBlank(barcode) && response.ok && response.status == Some(1) && response.product.Some?
    ensures r.Done? && r.value.Some? ==>
      r.value.value == NormalizeFood(fetch(Trim(barcode)).product.value, fallbackId)
  {
    var code := Trim(barcode);
    if code == [] then Done(None)
    else
      var response := fetch(code);
      if !response.ok then Failed(ServiceUnavailable)
      else if response.status != Some(1) || response.product.None? then Done(None)
      else Done(Some(NormalizeFood(response.product.value, fallbackId)))
  }
}
