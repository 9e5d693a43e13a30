/** Path handling of the product service (Question2/main.go): a request path
    is split on '/', the empty pieces are dropped, and the category name and
    the product identifier are read from the second and fourth segments. */
module Paths {
  import opened Wrappers
  import opened GoStrings

  /** The input with every empty string dropped, the rest in their order. */
  function WithoutEmpty(strs: seq<string>): (r: seq<string>)
    ensures |r| <= |strs|
    ensures forall i :: 0 <= i < |r| ==> r[i] != ""
  {
    if strs == [] then []
    else (if strs[0] == "" then [] else [strs[0]]) + WithoutEmpty(strs[1..])
  }

  /** Dropping empty strings distributes over concatenation. */
  lemma {:induction false} WithoutEmptyConcat(a: seq<string>, b: seq<string>)
    ensures WithoutEmpty(a + b) == WithoutEmpty(a) + WithoutEmpty(b)
  {
    if a == [] {
      assert a + b == b;
    } else {
      assert (a + b)[0] == a[0];
      assert (a + b)[1..] == a[1..] + b;
      WithoutEmptyConcat(a[1..], b);
    }
  }

  /** A string survives exactly when it was in the input and is not empty. */
  lemma {:induction false} WithoutEmptyMembers(strs: seq<string>, x: string)
    ensures x in WithoutEmpty(strs) <==> x in strs && x != ""
  {
    if strs != [] {
      WithoutEmptyMembers(strs[1..], x);
      assert strs == [strs[0]] + strs[1..];
    }
  }

  /** Nothing is dropped from a list without empty strings. */
  lemma {:induction false} WithoutEmptyKeepsNonEmpty(strs: seq<string>)
    requires forall i :: 0 <= i < |strs| ==> strs[i] != ""
    ensures WithoutEmpty(strs) == strs
  {
    if strs != [] {
      WithoutEmptyKeepsNonEmpty(strs[1..]);
    }
  }

  /** `removeEmptyStrings`: a loop appending every non-empty string. */
  method RemoveEmptyStrings(strs: seq<string>) returns (result: seq<string>)
    ensures result == WithoutEmpty(strs)
  {
    result := [];
    var i := 0;
    while i < |strs|
      invariant 0 <= i <= |strs|
      invariant result == WithoutEmpty(strs[..i])
    {
      assert strs[..i + 1] == strs[..i] + [strs[i]];
      WithoutEmptyConcat(strs[..i], [strs[i]]);
      if strs[i] != "" {
        result := result + [strs[i]];
      }
      i := i + 1;
    }
    assert strs[..i] == strs;
  }

  /** `splitPath`: the non-empty '/'-separated segments of a path. */
  function SplitPath(path: string): (segments: seq<string>)
    ensures forall i :: 0 <= i < |segments| ==> segments[i] != "" && '/' !in segments[i]
  {
    var parts := Split(path, '/');
    var r := WithoutEmpty(parts);
    SplitPiecesClean(path, '/');
    forall i | 0 <= i < |r|
      ensures '/' !in r[i]
    {
      WithoutEmptyMembers(parts, r[i]);
    }
    r
  }

  /** `getCategoryName`: segment 1. Go indexes without a check and panics
      when the path has fewer than two segments; that is `None` here. */
  function GetCategoryName(path: string): (name: Option<string>)
    ensures name.Some? <==> |SplitPath(path)| >= 2
    ensures name.Some? ==> name.value != "" && '/' !in name.value
  {
    var segments := SplitPath(path);
    if |segments| >= 2 then Some(segments[1]) else None
  }

  /** `getProductID`: segment 3, `None` where Go would panic. */
  function GetProductID(path: string): (id: Option<string>)
    ensures id.Some? <==> |SplitPath(path)| >= 4
    ensures id.Some? ==> id.value != "" && '/' !in id.value
  {
    var segments := SplitPath(path);
    if |segments| >= 4 then Some(segments[3]) else None
  }

  /** Joining clean segments with '/' and splitting again gives them back. */
  lemma {:induction false} SplitJoin(segments: seq<string>)
    requires |segments| >= 1
    requires forall i :: 0 <= i < |segments| ==> '/' !in segments[i]
    ensures Split(Join(segments, '/'), '/') == segments
  {
    if |segments| == 1 {
      SplitNoSeparator(segments[0], '/');
    } else {
      SplitJoin(segments[1..]);
      SplitAtSeparator(segments[0], Join(segments[1..], '/'), '/');
      SplitNoSeparator(segments[0], '/');
    }
  }

  /** The segments of a path whose '/'-pieces are known. */
  lemma SplitPathOf(path: string, parts: seq<string>)
    requires Split(path, '/') == parts
    ensures SplitPath(path) == WithoutEmpty(parts)
  {
  }

  /** A path written as '/' followed by non-empty segments separated by '/'
      splits into exactly those segments. */
  lemma CleanPath(segments: seq<string>)
    requires |segments| >= 1
    requires forall i :: 0 <= i < |segments| ==> segments[i] != "" && '/' !in segments[i]
    ensures SplitPath("/" + Join(segments, '/')) == segments
  {
    var joined := Join(segments, '/');
    var path := "/" + joined;
    assert path == "" + ['/'] + joined;
    SplitAtSeparator("", joined, '/');
    SplitJoin(segments);
    var parts := [""] + segments;
    assert Split(path, '/') == parts;
    SplitPathOf(path, parts);
    WithoutEmptyConcat([""], segments);
    WithoutEmptyKeepsNonEmpty(segments);
  }

  /** A path routed to the category listing, `/categories/<c>`, names
      category `c` and no product. */
  lemma CategoryRoute(c: string)
    requires c != "" && '/' !in c
    ensures GetCategoryName("/categories/" + c) == Some(c)
    ensures GetProductID("/categories/" + c) == None
  {
    var segments := ["categories", c];
    assert Join(segments[1..], '/') == c;
    assert "/categories/" + c == "/" + Join(segments, '/');
    CleanPath(segments);
  }

  /** A path routed to the product details, `/categories/<c>/products/<id>`,
      names category `c` and product `id`. */
  lemma DetailRoute(c: string, id: string)
    requires c != "" && '/' !in c && id != "" && '/' !in id
    ensures GetCategoryName("/categories/" + c + "/products/" + id) == Some(c)
    ensures GetProductID("/categories/" + c + "/products/" + id) == Some(id)
  {
    var segments := ["categories", c, "products", id];
    assert Join(segments[3..], '/') == id;
    assert Join(segments[2..], '/') == "products/" + id;
    assert Join(segments[1..], '/') == c + "/products/" + id;
    assert "/categories/" + c + "/products/" + id == "/" + Join(segments, '/');
    CleanPath(segments);
  }
}
