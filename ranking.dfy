/** Products and the ranking step of the category endpoint (`sortProducts`,
    Question2/main.go): the merged list is sorted in place by one key chosen
    by the `sortBy` parameter, ascending only for `sortOrder == "asc"`. */
module Ranking {
  import opened GoStrings

  /** One product as decoded from an upstream source. The float64 fields are
      reals: JSON cannot carry NaN, so `<` on them is a total order. */
  datatype Product = Product(
    id: string,
    name: string,
    price: real,
    company: string,
    category: string,
    rating: real,
    discount: real)

  /** The field the comparator of `sortProducts` looks at. */
  datatype SortKey = ByRating | ByPrice | ByCompany | ByDiscount | ByName

  /** The `switch sortBy`: four named keys, and the name for everything else
      (an absent parameter included). */
  function KeyOf(sortBy: string): (key: SortKey)
    ensures key == ByName <==> sortBy !in {"rating", "price", "company", "discount"}
    ensures sortBy == "rating" <==> key == ByRating
    ensures sortBy == "price" <==> key == ByPrice
    ensures sortBy == "company" <==> key == ByCompany
    ensures sortBy == "discount" <==> key == ByDiscount
  {
    match sortBy
    case "rating" => ByRating
    case "price" => ByPrice
    case "company" => ByCompany
    case "discount" => ByDiscount
    case _ => ByName
  }

  /** The `less(i, j)` closure handed to `sort.Slice`: `<` on the key when
      ascending, `>` otherwise. It only holds between products whose key
      fields differ. */
  predicate Less(key: SortKey, asc: bool, p: Product, q: Product): (r: bool)
    ensures r ==> p != q
    ensures r && (key == ByRating || key == ByPrice || key == ByDiscount) ==>
      NumericField(key, p) != NumericField(key, q)
    ensures r && (key == ByCompany || key == ByName) ==> TextField(key, p) != TextField(key, q)
  {
    match key
    case ByRating => if asc then p.rating < q.rating else p.rating > q.rating
    case ByPrice => if asc then p.price < q.price else p.price > q.price
    case ByCompany => if asc then StrLess(p.company, q.company) else StrLess(q.company, p.company)
    case ByDiscount => if asc then p.discount < q.discount else p.discount > q.discount
    case ByName => if asc then StrLess(p.name, q.name) else StrLess(q.name, p.name)
  }

  /** What `sort.Slice` promises: no element is less than one before it. */
  ghost predicate SortedBy(s: seq<Product>, key: SortKey, asc: bool)
  {
    forall i, j :: 0 <= i < j < |s| ==> !Less(key, asc, s[j], s[i])
  }

  lemma LessAsymmetric(key: SortKey, asc: bool, p: Product, q: Product)
    ensures Less(key, asc, p, q) ==> !Less(key, asc, q, p)
  {
    StrLessAsymmetric(p.name, q.name);
    StrLessAsymmetric(q.name, p.name);
    StrLessAsymmetric(p.company, q.company);
    StrLessAsymmetric(q.company, p.company);
  }

  lemma StrNotLessTransitive(a: string, b: string, c: string)
    ensures !StrLess(b, a) && !StrLess(c, b) ==> !StrLess(c, a)
  {
    StrLessTotal(a, b);
    StrLessTotal(b, c);
    StrLessTransitive(a, b, c);
    StrLessTransitive(c, a, b);
    StrLessTransitive(b, c, a);
  }

  /** "Not after" is transitive: the comparator is a strict weak order, which
      is what `sort.Slice` needs of it. */
  lemma NotLessTransitive(key: SortKey, asc: bool, p: Product, q: Product, r: Product)
    ensures !Less(key, asc, q, p) && !Less(key, asc, r, q) ==> !Less(key, asc, r, p)
  {
    StrNotLessTransitive(p.name, q.name, r.name);
    StrNotLessTransitive(r.name, q.name, p.name);
    StrNotLessTransitive(p.company, q.company, r.company);
    StrNotLessTransitive(r.company, q.company, p.company);
  }

  /** `sortProducts`: sorts the products in place by the requested key and
      direction; the elements are permuted, never added or dropped. */
  method SortProducts(a: array<Product>, sortBy: string, sortOrder: string)
    modifies a
    ensures SortedBy(a[..], KeyOf(sortBy), sortOrder == "asc")
    ensures multiset(a[..]) == old(multiset(a[..]))
  {
    var key, asc := KeyOf(sortBy), sortOrder == "asc";
    if a.Length == 0 {
      return;
    }
    var i := 1;
    while i < a.Length
      invariant 1 <= i <= a.Length
      invariant SortedBy(a[..i], key, asc)
      invariant multiset(a[..]) == old(multiset(a[..]))
    {
      InsertLast(a, i, key, asc);
      i := i + 1;
    }
    assert a[..a.Length] == a[..];
  }

  /** One insertion step: moves `a[i]` left past the elements it is less
      than, so that `a[..i+1]` is sorted when `a[..i]` was. */
  method InsertLast(a: array<Product>, i: nat, key: SortKey, asc: bool)
    requires i < a.Length
    requires SortedBy(a[..i], key, asc)
    modifies a
    ensures SortedBy(a[..i + 1], key, asc)
    ensures multiset(a[..]) == old(multiset(a[..]))
  {
    var j := i;
    InsertStart(a[..], i, key, asc);
    while j > 0 && Less(key, asc, a[j], a[j - 1])
      invariant 0 <= j <= i
      invariant Inserting(a[..], i, j, key, asc)
      invariant multiset(a[..]) == old(multiset(a[..]))
    {
      InsertSwap(a[..], i, j, key, asc);
      a[j - 1], a[j] := a[j], a[j - 1];
      j := j - 1;
    }
    InsertDone(a[..], i, j, key, asc);
  }

  /** While `a[j]` travels left: the first `i + 1` elements are in order
      except for the traveller, which is not after anything to its right. */
  ghost predicate Inserting(s: seq<Product>, i: nat, j: nat, key: SortKey, asc: bool)
    requires j <= i < |s|
  {
    && (forall k, m :: 0 <= k < m <= i && k != j && m != j ==> !Less(key, asc, s[m], s[k]))
    && (forall m :: j < m <= i ==> !Less(key, asc, s[m], s[j]))
  }

  lemma InsertStart(s: seq<Product>, i: nat, key: SortKey, asc: bool)
    requires i < |s| && SortedBy(s[..i], key, asc)
    ensures Inserting(s, i, i, key, asc)
  {
  }

  lemma InsertSwap(s: seq<Product>, i: nat, j: nat, key: SortKey, asc: bool)
    requires 0 < j <= i < |s| && Inserting(s, i, j, key, asc)
    requires Less(key, asc, s[j], s[j - 1])
    ensures Inserting(s[j - 1 := s[j]][j := s[j - 1]], i, j - 1, key, asc)
  {
    LessAsymmetric(key, asc, s[j], s[j - 1]);
  }

  lemma InsertDone(s: seq<Product>, i: nat, j: nat, key: SortKey, asc: bool)
    requires j <= i < |s| && Inserting(s, i, j, key, asc)
    requires j == 0 || !Less(key, asc, s[j], s[j - 1])
    ensures SortedBy(s[..i + 1], key, asc)
  {
    forall k, m | 0 <= k < m <= i
      ensures !Less(key, asc, s[m], s[k])
    {
      if m == j && k < j - 1 {
        NotLessTransitive(key, asc, s[k], s[j - 1], s[j]);
      }
    }
  }

  /** The real-valued field behind a numeric key. */
  function NumericField(key: SortKey, p: Product): real
    requires key == ByRating || key == ByPrice || key == ByDiscount
  {
    match key
    case ByRating => p.rating
    case ByPrice => p.price
    case ByDiscount => p.discount
  }

  /** The string field behind a text key. */
  function TextField(key: SortKey, p: Product): string
    requires key == ByCompany || key == ByName
  {
    if key == ByCompany then p.company else p.name
  }

  /** Go's `a <= b` on strings. */
  predicate StrLessEq(a: string, b: string)
  {
    a == b || StrLess(a, b)
  }

  /** For price, rating and discount, sorted means non-decreasing in that
      field when ascending and non-increasing otherwise, and conversely. */
  lemma SortedByNumber(s: seq<Product>, key: SortKey, asc: bool)
    requires key == ByRating || key == ByPrice || key == ByDiscount
    ensures SortedBy(s, key, asc) <==>
      forall i, j :: 0 <= i < j < |s| ==>
        if asc then NumericField(key, s[i]) <= NumericField(key, s[j])
        else NumericField(key, s[i]) >= NumericField(key, s[j])
  {
  }

  /** For company and name, sorted means non-decreasing in Go's string order
      when ascending and non-increasing otherwise, and conversely. */
  lemma SortedByText(s: seq<Product>, key: SortKey, asc: bool)
    requires key == ByCompany || key == ByName
    ensures SortedBy(s, key, asc) <==>
      forall i, j :: 0 <= i < j < |s| ==>
        if asc then StrLessEq(TextField(key, s[i]), TextField(key, s[j]))
        else StrLessEq(TextField(key, s[j]), TextField(key, s[i]))
  {
    forall i, j | 0 <= i < j < |s|
      ensures !Less(key, asc, s[j], s[i]) <==>
        if asc then StrLessEq(TextField(key, s[i]), TextField(key, s[j]))
        else StrLessEq(TextField(key, s[j]), TextField(key, s[i]))
    {
      var x, y := TextField(key, s[i]), TextField(key, s[j]);
      StrLessTotal(x, y);
      StrLessAsymmetric(x, y);
      StrLessIrreflexive(x);
    }
  }
}
