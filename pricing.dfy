/** The price lookups `get_instance_pricing` and `get_ebs_pricing`: build a
    catalog request from the resource type and the region, take the first
    document of the answer's `PriceList`, and read the USD price of the first
    price dimension of its first on-demand term. Whatever goes wrong on the
    way gives exactly 0.0, and both lookups are memoised for CACHE_TTL
    seconds, that 0.0 included. */
module Pricing {
  import opened Wrappers
  import opened Json
  import Memo

  /** REGION_NAME: the catalog location every lookup of the script uses. */
  const Region := "US West (Oregon)"

  /** The price a failed lookup reports. */
  const FallbackPrice := 0.0

  /** One `{'Type': 'TERM_MATCH', 'Field': field, 'Value': value}` filter. */
  datatype Filter = TermMatch(field: string, value: string)

  /** The arguments of one `pricing.get_products` call. */
  datatype ProductsRequest = ProductsRequest(serviceCode: string, filters: seq<Filter>)

  /** A call of one of the two memoised lookups: which function, with which
      arguments. This is the memo key. */
  datatype PriceQuery =
    | InstancePrice(instanceType: string, region: string)
    | EbsPrice(volumeType: string, region: string)

  /** The catalog: the decoded `PriceList` documents it answers a request
      with, or `None` when the call raises. */
  type Catalog = ProductsRequest -> Option<seq<Json>>

  /** Python's `float()` applied to the USD value: `None` where it raises. */
  type ToFloat = Json -> Option<real>

  /** The request each lookup sends. */
  function Request(q: PriceQuery): ProductsRequest {
    match q
    case InstancePrice(instanceType, region) =>
      ProductsRequest("AmazonEC2", [
        TermMatch("instanceType", instanceType),
        TermMatch("location", region),
        TermMatch("preInstalledSw", "NA"),
        TermMatch("operatingSystem", "Linux"),
        TermMatch("tenancy", "Shared"),
        TermMatch("capacitystatus", "UnusedCapacityReservation")])
    case EbsPrice(volumeType, region) =>
      ProductsRequest("AmazonEC2", [
        TermMatch("location", region),
        TermMatch("productFamily", "Storage"),
        TermMatch("volumeApiName", volumeType)])
  }

  /** Distinct lookups send distinct requests: an instance type priced in two
      regions, or an instance and a volume type of the same name, never share
      a catalog answer, and never share a memo entry either. */
  lemma RequestDeterminesQuery(q1: PriceQuery, q2: PriceQuery)
    requires Request(q1) == Request(q2)
    ensures q1 == q2
  {
    var f1, f2 := Request(q1).filters, Request(q2).filters;
    assert |f1| == |f2|;
    if q1.InstancePrice? {
      assert f1[0] == f2[0] && f1[1] == f2[1];
    } else {
      assert f1[0] == f2[0] && f1[2] == f2[2];
    }
  }

  /** `price_list['terms']['OnDemand'][<first key>]['priceDimensions'][<first key>]['pricePerUnit']['USD']`,
      or `None` where that chain of indexing raises. */
  function UsdValue(doc: Json): Option<Json> {
    var terms :- Member(doc, "terms");
    var onDemand :- Member(terms, "OnDemand");
    var termKey :- FirstKey(onDemand);
    var term :- Member(onDemand, termKey);
    var dimensions :- Member(term, "priceDimensions");
    var dimensionKey :- FirstKey(dimensions);
    var dimension :- Member(dimensions, dimensionKey);
    var perUnit :- Member(dimension, "pricePerUnit");
    Member(perUnit, "USD")
  }

  /** The price read from a catalog answer, `None` where the `try` block raises. */
  function Extract(response: Option<seq<Json>>, toFloat: ToFloat): Option<real> {
    var priceList :- response;
    if |priceList| == 0 then None
    else
      var usd :- UsdValue(priceList[0]);
      toFloat(usd)
  }

  /** The undecorated body of `get_instance_pricing` / `get_ebs_pricing`. */
  function Resolve(q: PriceQuery, catalog: Catalog, toFloat: ToFloat): real {
    Extract(catalog(Request(q)), toFloat).GetOr(FallbackPrice)
  }

  /** A lookup gives 0.0 exactly when it fails or the catalog's price is itself
      zero, and any other value is the USD price found in the first document. */
  lemma ResolvedPriceOrigin(q: PriceQuery, catalog: Catalog, toFloat: ToFloat)
    ensures var price := Resolve(q, catalog, toFloat);
      && (Extract(catalog(Request(q)), toFloat).None? ==> price == 0.0)
      && (price == 0.0 ==> Extract(catalog(Request(q)), toFloat) in {None, Some(0.0)})
      && (price != 0.0 ==>
            && catalog(Request(q)).Some?
            && |catalog(Request(q)).value| > 0
            && UsdValue(catalog(Request(q)).value[0]).Some?
            && toFloat(UsdValue(catalog(Request(q)).value[0]).value) == Some(price))
  {
  }

  /** The members standing before and after one looked-up key of an object. */
  datatype Siblings = Siblings(before: seq<(string, Json)>, after: seq<(string, Json)>)

  /** The object binding `key` to `v` among `siblings`. */
  function Amid(key: string, v: Json, siblings: Siblings): Json {
    JObj(siblings.before + [(key, v)] + siblings.after)
  }

  /** No member after `key` binds it again, so indexing by `key` finds `v`. */
  predicate NotRebound(key: string, siblings: Siblings) {
    forall i :: 0 <= i < |siblings.after| ==> siblings.after[i].0 != key
  }

  /** Everything a catalog document holds besides the price the lookup reads:
      the members around "terms" (such as "product", "serviceCode" and
      "version"), around "OnDemand" (such as "Reserved"), the first on-demand
      term's code and the terms after it, the members around "priceDimensions"
      (such as "sku", "effectiveDate" and "offerTermCode"), the first price
      dimension's code and the dimensions after it, the members around
      "pricePerUnit" (such as "unit", "rateCode" and "description"), and the
      currencies around "USD". */
  datatype OfferShape = OfferShape(
    document: Siblings,
    terms: Siblings,
    termCode: string,
    laterTerms: seq<(string, Json)>,
    term: Siblings,
    rateCode: string,
    laterDimensions: seq<(string, Json)>,
    dimension: Siblings,
    perUnit: Siblings)

  /** A catalog document of that shape whose first on-demand term's first
      price dimension quotes `usd`. */
  function OfferDocument(shape: OfferShape, usd: Json): Json {
    var perUnit := Amid("USD", usd, shape.perUnit);
    var dimension := Amid("pricePerUnit", perUnit, shape.dimension);
    var dimensions := JObj([(shape.rateCode, dimension)] + shape.laterDimensions);
    var term := Amid("priceDimensions", dimensions, shape.term);
    var onDemand := JObj([(shape.termCode, term)] + shape.laterTerms);
    var terms := Amid("OnDemand", onDemand, shape.terms);
    Amid("terms", terms, shape.document)
  }

  /** From such a document the lookup reads the USD price of the first term's
      first dimension, whatever the other members, terms, dimensions and
      currencies hold, and whatever later documents quote. */
  lemma OfferDocumentPrice(shape: OfferShape, usd: Json, otherDocuments: seq<Json>, toFloat: ToFloat)
    requires NotRebound("terms", shape.document) && NotRebound("OnDemand", shape.terms)
    requires forall i :: 0 <= i < |shape.laterTerms| ==> shape.laterTerms[i].0 != shape.termCode
    requires NotRebound("priceDimensions", shape.term)
    requires forall i :: 0 <= i < |shape.laterDimensions| ==> shape.laterDimensions[i].0 != shape.rateCode
    requires NotRebound("pricePerUnit", shape.dimension) && NotRebound("USD", shape.perUnit)
    ensures UsdValue(OfferDocument(shape, usd)) == Some(usd)
    ensures Extract(Some([OfferDocument(shape, usd)] + otherDocuments), toFloat) == toFloat(usd)
  {
    var perUnit := Amid("USD", usd, shape.perUnit);
    var dimension := Amid("pricePerUnit", perUnit, shape.dimension);
    var dimensions := JObj([(shape.rateCode, dimension)] + shape.laterDimensions);
    var term := Amid("priceDimensions", dimensions, shape.term);
    var onDemand := JObj([(shape.termCode, term)] + shape.laterTerms);
    var terms := Amid("OnDemand", onDemand, shape.terms);
    BoundAmid(shape.document.before, "terms", terms, shape.document.after);
    BoundAmid(shape.terms.before, "OnDemand", onDemand, shape.terms.after);
    LeadingMember(shape.termCode, term, shape.laterTerms);
    BoundAmid(shape.term.before, "priceDimensions", dimensions, shape.term.after);
    LeadingMember(shape.rateCode, dimension, shape.laterDimensions);
    BoundAmid(shape.dimension.before, "pricePerUnit", perUnit, shape.dimension.after);
    BoundAmid(shape.perUnit.before, "USD", usd, shape.perUnit.after);
  }

  /** The memoised lookup, as the decorated function is called. */
  function Fetcher(catalog: Catalog, toFloat: ToFloat): PriceQuery -> real {
    q => Resolve(q, catalog, toFloat)
  }

  /** `get_instance_pricing(instance_type, region)` or `get_ebs_pricing(volume_type, region)`
      through the memo table at time `now`. */
  method GetPrice(cache: Memo.MemoCache<PriceQuery, real>, q: PriceQuery, now: real, catalog: Catalog, toFloat: ToFloat)
    returns (price: real)
    modifies cache
    ensures (price, cache.entries) == Memo.Call(old(cache.entries), q, now, Fetcher(catalog, toFloat))
  {
    price := cache.Get(q, now, Fetcher(catalog, toFloat));
  }

  /** A lookup whose catalog call raised reports 0.0, and that 0.0 is then
      served for the same query for the next CacheTtl seconds even once the
      catalog answers again. */
  lemma ZeroFallbackIsMemoised(entries: map<PriceQuery, Memo.Entry<real>>, q: PriceQuery, now: real,
                               catalog: Catalog, toFloat: ToFloat, later: real, laterCatalog: Catalog)
    requires Memo.Lookup(entries, q, now).None?
    requires catalog(Request(q)).None?
    requires now <= later < now + Memo.CacheTtl
    ensures Memo.Call(entries, q, now, Fetcher(catalog, toFloat)).0 == 0.0
    ensures var after := Memo.Call(entries, q, now, Fetcher(catalog, toFloat)).1;
      Memo.Call(after, q, later, Fetcher(laterCatalog, toFloat)) == (0.0, after)
  {
    Memo.CallThenServed(entries, q, now, Fetcher(catalog, toFloat), later, Fetcher(laterCatalog, toFloat));
  }
}
