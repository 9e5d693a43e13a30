/** The category listing of the product service (`handleCategories`,
    Question2/main.go): read the category from the path, default the count,
    fetch every company's list in a fixed order (giving up at the first
    failure), rank the merged list, and answer with its first `n` products. */
module Categories {
  import opened Wrappers
  import opened Ranking
  import opened Paths

  /** The companies queried, in the order their lists are concatenated. */
  const Companies: seq<string> := ["AMZ", "FLP", "SNP", "MYN", "AZO"]

  /** The count used when `n` is absent, unparsable or not positive. */
  const DefaultCount: int := 10

  /** What one upstream request carries: the category, the count and the
      price bounds, forwarded unchanged (no price filter is applied locally). */
  datatype Query = Query(category: string, n: int, minPrice: real, maxPrice: real)

  datatype Error =
    | BadPath                                 // the path has no category segment
    | FetchFailed(company: string, cause: string)

  /** The upstream call `fetchProducts(company, ...)`: a decoded list or the
      reason it failed (network, status, or decoding). */
  type Fetcher = (string, Query) -> Result<seq<Product>, string>

  /** The count after defaulting; `parsed` is what `strconv.Atoi` gave for the
      `n` parameter, `None` when it reported an error. */
  function CountParam(parsed: Option<int>): (n: int)
    ensures n >= 1
    ensures parsed.None? || parsed.value <= 0 ==> n == DefaultCount
    ensures parsed.Some? && parsed.value > 0 ==> n == parsed.value
  {
    if parsed.None? || parsed.value <= 0 then DefaultCount else parsed.value
  }

  /** The outcome of the fetch loop over `companies`, stated one company at a
      time from the left: the lists so far extended by the next company's,
      and the first failure reported with its company. */
  function Gather(companies: seq<string>, fetch: Fetcher, q: Query): Result<seq<Product>, Error>
  {
    if companies == [] then Success([])
    else
      var last := companies[|companies| - 1];
      match Gather(companies[..|companies| - 1], fetch, q)
      case Failure(e) => Failure(e)
      case Success(before) =>
        match fetch(last, q)
        case Failure(cause) => Failure(FetchFailed(last, cause))
        case Success(ps) => Success(before + ps)
  }

  /** The loop of `handleCategories` that appends each company's products and
      returns at the first error. */
  method CollectProducts(companies: seq<string>, fetch: Fetcher, q: Query)
    returns (r: Result<seq<Product>, Error>)
    ensures r == Gather(companies, fetch, q)
  {
    var all: seq<Product> := [];
    var i := 0;
    while i < |companies|
      invariant 0 <= i <= |companies|
      invariant Gather(companies[..i], fetch, q) == Success(all)
    {
      var company := companies[i];
      assert companies[..i + 1][..i] == companies[..i];
      match fetch(company, q)
      case Failure(cause) =>
        GatherSucceeds(companies[..i], fetch, q);
        GatherFirstFailure(companies, fetch, q, i);
        return Failure(FetchFailed(company, cause));
      case Success(products) =>
        all := all + products;
      i := i + 1;
    }
    assert companies[..i] == companies;
    r := Success(all);
  }

  /** The reference reading: the companies' lists, concatenated in order. */
  function Fetched(companies: seq<string>, fetch: Fetcher, q: Query): seq<Product>
    requires forall i :: 0 <= i < |companies| ==> fetch(companies[i], q).Success?
  {
    if companies == [] then []
    else fetch(companies[0], q).value + Fetched(companies[1..], fetch, q)
  }

  /** The loop produces a list exactly when every company answers. */
  lemma {:induction false} GatherSucceeds(companies: seq<string>, fetch: Fetcher, q: Query)
    ensures Gather(companies, fetch, q).Success? <==>
      forall i :: 0 <= i < |companies| ==> fetch(companies[i], q).Success?
  {
    if companies != [] {
      var init := companies[..|companies| - 1];
      GatherSucceeds(init, fetch, q);
      assert forall i :: 0 <= i < |init| ==> init[i] == companies[i];
    }
  }

  /** The failure reported is that of the first company that failed. */
  lemma {:induction false} GatherFirstFailure(companies: seq<string>, fetch: Fetcher, q: Query, i: nat)
    requires i < |companies|
    requires forall j :: 0 <= j < i ==> fetch(companies[j], q).Success?
    requires fetch(companies[i], q).Failure?
    ensures Gather(companies, fetch, q) ==
      Failure(FetchFailed(companies[i], fetch(companies[i], q).error))
  {
    var init := companies[..|companies| - 1];
    if i == |companies| - 1 {
      GatherSucceeds(init, fetch, q);
    } else {
      GatherFirstFailure(init, fetch, q, i);
    }
  }

  lemma {:induction false} FetchedAppend(companies: seq<string>, c: string, fetch: Fetcher, q: Query)
    requires forall i :: 0 <= i < |companies| ==> fetch(companies[i], q).Success?
    requires fetch(c, q).Success?
    ensures forall i :: 0 <= i < |companies + [c]| ==> fetch((companies + [c])[i], q).Success?
    ensures Fetched(companies + [c], fetch, q) == Fetched(companies, fetch, q) + fetch(c, q).value
  {
    if companies != [] {
      assert (companies + [c])[1..] == companies[1..] + [c];
      FetchedAppend(companies[1..], c, fetch, q);
    }
  }

  /** On success the merged list is the concatenation of every company's list,
      in the order the companies are queried; nothing is dropped. */
  lemma {:induction false} GatherConcatenates(companies: seq<string>, fetch: Fetcher, q: Query)
    requires Gather(companies, fetch, q).Success?
    ensures forall i :: 0 <= i < |companies| ==> fetch(companies[i], q).Success?
    ensures Gather(companies, fetch, q).value == Fetched(companies, fetch, q)
  {
    GatherSucceeds(companies, fetch, q);
    if companies != [] {
      var init := companies[..|companies| - 1];
      var last := companies[|companies| - 1];
      GatherConcatenates(init, fetch, q);
      FetchedAppend(init, last, fetch, q);
      assert init + [last] == companies;
    }
  }

  /** For the configured companies: every one answered, and the merged list
      is AMZ's, then FLP's, SNP's, MYN's and AZO's. */
  lemma MergedInCompanyOrder(fetch: Fetcher, q: Query)
    requires Gather(Companies, fetch, q).Success?
    ensures fetch("AMZ", q).Success? && fetch("FLP", q).Success? && fetch("SNP", q).Success?
      && fetch("MYN", q).Success? && fetch("AZO", q).Success?
    ensures Gather(Companies, fetch, q).value ==
      fetch("AMZ", q).value + fetch("FLP", q).value + fetch("SNP", q).value
        + fetch("MYN", q).value + fetch("AZO", q).value
  {
    GatherConcatenates(Companies, fetch, q);
    var cs := Companies;
    assert cs[0] == "AMZ" && cs[1] == "FLP" && cs[2] == "SNP" && cs[3] == "MYN" && cs[4] == "AZO";
    assert cs[1..][1..][1..][1..][1..] == [];
    var f := (c: string) requires fetch(c, q).Success? => fetch(c, q).value;
    calc {
      Fetched(cs, fetch, q);
      f("AMZ") + Fetched(cs[1..], fetch, q);
      f("AMZ") + (f("FLP") + Fetched(cs[1..][1..], fetch, q));
      f("AMZ") + (f("FLP") + (f("SNP") + Fetched(cs[1..][1..][1..], fetch, q)));
      f("AMZ") + (f("FLP") + (f("SNP") + (f("MYN") + Fetched(cs[1..][1..][1..][1..], fetch, q))));
      f("AMZ") + (f("FLP") + (f("SNP") + (f("MYN") + (f("AZO") + []))));
    }
  }

  /** The response list: the first `n` ranked products, or all of them when
      there are fewer (a saturating take). */
  function TopN(ranked: seq<Product>, n: nat): (top: seq<Product>)
    ensures |top| <= n && |top| <= |ranked|
    ensures |top| == n || |top| == |ranked|
    ensures top == ranked[..|top|]
  {
    if n <= |ranked| then ranked[..n] else ranked
  }

  /** What the response holds for `all` ranked by `key`: `min(n, |all|)`
      products drawn from `all`, in ranking order, none of them ranked after
      a product that was left out. */
  ghost predicate IsTopN(top: seq<Product>, all: seq<Product>, n: nat, key: SortKey, asc: bool)
  {
    && |top| == (if n <= |all| then n else |all|)
    && multiset(top) <= multiset(all)
    && SortedBy(top, key, asc)
    && forall p, x :: p in top && x in multiset(all) - multiset(top) ==> !Less(key, asc, x, p)
  }

  /** Taking the first `n` of any ranking of `all` gives a top-N of `all`. */
  lemma TopOfRanking(ranked: seq<Product>, all: seq<Product>, n: nat, key: SortKey, asc: bool)
    requires multiset(ranked) == multiset(all)
    requires SortedBy(ranked, key, asc)
    ensures IsTopN(TopN(ranked, n), all, n, key, asc)
  {
    var top := TopN(ranked, n);
    var rest := ranked[|top|..];
    assert |ranked| == |all| by {
      assert |multiset(ranked)| == |multiset(all)|;
    }
    PrefixSorted(ranked, |top|, key, asc);
    SplitMultiset(ranked, |top|);
    HeadBeforeTail(ranked, |top|, key, asc);
  }

  lemma PrefixSorted(s: seq<Product>, k: nat, key: SortKey, asc: bool)
    requires k <= |s| && SortedBy(s, key, asc)
    ensures SortedBy(s[..k], key, asc)
  {
  }

  lemma SplitMultiset(s: seq<Product>, k: nat)
    requires k <= |s|
    ensures multiset(s[..k]) <= multiset(s)
    ensures multiset(s) - multiset(s[..k]) == multiset(s[k..])
  {
    assert s == s[..k] + s[k..];
  }

  /** In a ranking, nothing in the tail is less than anything in the head. */
  lemma HeadBeforeTail(ranked: seq<Product>, k: nat, key: SortKey, asc: bool)
    requires k <= |ranked| && SortedBy(ranked, key, asc)
    ensures forall p, x :: p in ranked[..k] && x in multiset(ranked[k..]) ==> !Less(key, asc, x, p)
  {
  }

  /** `handleCategories` with the parsed query parameters: a bad path or a
      failed fetch is an error; otherwise the top `n` of the merged list,
      ranked by `sortBy` and `sortOrder`. */
  method HandleCategories(path: string, nParam: Option<int>, minPrice: real, maxPrice: real,
                          sortBy: string, sortOrder: string, fetch: Fetcher)
    returns (r: Result<seq<Product>, Error>)
    ensures GetCategoryName(path).None? ==> r == Failure(BadPath)
    ensures GetCategoryName(path).Some? ==>
      var q := Query(GetCategoryName(path).value, CountParam(nParam), minPrice, maxPrice);
      match Gather(Companies, fetch, q)
      case Failure(e) => r == Failure(e)
      case Success(all) =>
        r.Success? && IsTopN(r.value, all, CountParam(nParam), KeyOf(sortBy), sortOrder == "asc")
  {
    var category := GetCategoryName(path);
    if category.None? {
      return Failure(BadPath);
    }
    var n := CountParam(nParam);
    var q := Query(category.value, n, minPrice, maxPrice);
    var gathered := CollectProducts(Companies, fetch, q);
    if gathered.Failure? {
      return Failure(gathered.error);
    }
    var all := gathered.value;
    var products := new Product[|all|](i requires 0 <= i < |all| => all[i]);
    assert products[..] == all;
    SortProducts(products, sortBy, sortOrder);
    TopOfRanking(products[..], all, n, KeyOf(sortBy), sortOrder == "asc");
    r := Success(TopN(products[..], n));
  }

  // The top-N slice as written, `allProducts[:n]`. A Go slice expression
  // may reach up to the capacity of the backing array, not only its length;
  // the slots past the length hold zero-valued products.

  /** The zero value of `Product`. */
  const ZeroProduct := Product("", "", 0.0, "", "", 0.0, 0.0)

  /** `allProducts[:n]` on a slice of length `|sorted|` and capacity
      `capacity`: a panic (`None`) past the capacity, otherwise `n` slots,
      zero-valued past the length. */
  function TopAsWritten(sorted: seq<Product>, capacity: nat, n: nat): (r: Option<seq<Product>>)
    requires |sorted| <= capacity
    ensures r.None? <==> n > capacity
    ensures r.Some? ==> |r.value| == n
    ensures r.Some? ==> forall i :: 0 <= i < n ==>
      r.value[i] == if i < |sorted| then sorted[i] else ZeroProduct
  {
    if n > capacity then None
    else Some((sorted + seq(capacity - |sorted|, _ => ZeroProduct))[..n])
  }

  /** Within the list the slice agrees with the saturating take. */
  lemma TopAsWrittenWithinLength(sorted: seq<Product>, capacity: nat, n: nat)
    requires |sorted| <= capacity && n <= |sorted|
    ensures TopAsWritten(sorted, capacity, n) == Some(TopN(sorted, n))
  {
    var padded := sorted + seq(capacity - |sorted|, _ => ZeroProduct);
    assert padded[..n] == sorted[..n];
  }

  /** Past the list the slice never answers with the available products: it
      panics, or pads the answer with zero-valued products. */
  lemma TopAsWrittenPastLength(sorted: seq<Product>, capacity: nat, n: nat)
    requires |sorted| <= capacity && |sorted| < n
    ensures TopAsWritten(sorted, capacity, n) != Some(TopN(sorted, n))
    ensures TopAsWritten(sorted, capacity, n).Some? ==>
      TopAsWritten(sorted, capacity, n).value[|sorted|] == ZeroProduct
  {
  }

  /** With `n` left at its default and five products in a slice of capacity
      five (no company list padded the backing array), the slice panics where
      the saturating take answers with the five products. */
  lemma DefaultCountOverFiveProducts(five: seq<Product>)
    requires |five| == 5
    ensures TopAsWritten(five, 5, CountParam(None)).None?
    ensures TopN(five, CountParam(None)) == five
  {
  }

  /** With `?n=8` and five companies answering one product each, appending
      grows the capacity to 8: the slice pads the five products with three
      zero-valued ones. */
  lemma EightOverFiveProducts(five: seq<Product>)
    requires |five| == 5
    ensures TopAsWritten(five, 8, CountParam(Some(8))) ==
      Some(five + [ZeroProduct, ZeroProduct, ZeroProduct])
    ensures TopN(five, CountParam(Some(8))) == five
  {
    var padded := five + seq(8 - |five|, _ => ZeroProduct);
    assert CountParam(Some(8)) == 8;
    assert padded[..8] == padded;
    assert padded == five + [ZeroProduct, ZeroProduct, ZeroProduct];
  }
}
