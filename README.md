# Product ranking and number window: a Dafny model

This project models the data logic of two small Go HTTP services.

**Products (Question2/main.go).** A request for `/categories/<name>` asks five
companies (AMZ, FLP, SNP, MYN, AZO) for their products, in that order. If any
company fails, the request gives up. Otherwise it concatenates the lists and
sorts them in place by `sortBy` (rating, price, company, discount, or name for
any other value). The order is ascending only when `sortOrder` is `asc`. The
reply holds the first `min(n, len)` products of the ranked list, where `n`
defaults to 10 when the parameter is missing, unparsable or not positive (the
code's `allProducts[:n]` panics or pads with zero-valued products when `n`
exceeds the number of products; see "## Findings"). The category name and the product
identifier come from the second and fourth non-empty segments of the path.

**Number window (Question1/main.go).** A request for `/numbers/<id>` accepts
only `p`, `f`, `e` and `r`. Each identifier selects a fixed list of five
numbers. The numbers are appended to a shared window that keeps only the latest
10. The reply shows the new numbers, the part of the previous window still kept
(its last `10 - len(nums)` numbers), the new window, and the average of the
new window.

Modules, one per concern:

- `Wrappers` (wrappers.dfy): `Option` and `Result`.
- `GoStrings` (go_strings.dfy): Go's `<` on strings and `strings.Split`.
- `Ranking` (ranking.dfy): `Product`, the comparator and `sortProducts`.
- `Paths` (paths.dfy): `removeEmptyStrings`, `splitPath`, `getCategoryName`
  and `getProductID`.
- `Categories` (categories.dfy): the logic of `handleCategories`.
- `Numbers` (numbers.dfy): the whole of Question1/main.go except HTTP.

Stateful code is imperative Dafny. `SortProducts` sorts an `array<Product>` in
place. The fetch loop, the filter loop and the summing loop are `while`/`for`
loops with invariants. The package-level window is a class `NumberWindow` with
a `numbers` field. Each such method is proved against a function that specifies it
(`Gather`, `WithoutEmpty`, `Sum`, `KeepLast`, `SortedBy`), and the lemmas state
what those functions mean.

Two facts about the category endpoint:

- There is no local price filter. `minPrice` and `maxPrice` are only forwarded
  to the upstream URL (Question2/main.go:123). In the model the bounds travel
  in `Query` to the fetch oracle, and every product of the merged list
  reaches ranking.
- The merged list is the companies' lists concatenated in the fixed company
  order, which `Categories.MergedInCompanyOrder` proves.

## Model

| member | source | states |
|---|---|---|
| GoStrings.StrLess | Question2/main.go:189-212 | Go's `<` on strings holds only between different strings, never when the second is empty, and never when the first string's first character is the larger |
| GoStrings.StrLessIrreflexive | Question2/main.go:189-195 | no string is less than itself under Go's `<` |
| GoStrings.StrLessAsymmetric | Question2/main.go:189-195 | `a < b` and `b < a` never both hold |
| GoStrings.StrLessTransitive | Question2/main.go:204-212 | Go's string `<` is transitive |
| GoStrings.StrLessTotal | Question2/main.go:204-212 | two different strings are always ordered one way or the other |
| GoStrings.PrefixIsLess | Question2/main.go:204-212 | a proper prefix sorts before the longer string |
| GoStrings.Split | Question2/main.go:104 | `strings.Split` always yields at least one piece |
| GoStrings.SplitPiecesClean | Question2/main.go:104 | no piece of `strings.Split(s, "/")` contains `/` |
| GoStrings.JoinSplit | Question2/main.go:104 | joining the pieces with the separator gives the input back |
| GoStrings.SplitNoSeparator | Question2/main.go:104 | a string without the separator splits into itself alone |
| GoStrings.SplitAtSeparator | Question2/main.go:104 | splitting `a + "/" + b` gives the pieces of `a` followed by the pieces of `b` |
| Ranking.KeyOf | Question2/main.go:171-213 | `rating`, `price`, `company` and `discount` select their own key; every other value, the empty one included, selects the name |
| Ranking.Less | Question2/main.go:173-212 | each `less(i, j)` closure answers true only for products whose field under the selected key differs |
| Ranking.LessAsymmetric | Question2/main.go:173-212 | no comparator closure answers true for both `(p, q)` and `(q, p)` |
| Ranking.NotLessTransitive | Question2/main.go:173-212 | "not after" is transitive for every key and direction, so each closure is a strict weak order |
| Ranking.SortProducts | Question2/main.go:167-214 | after the call the array is sorted by the selected key (ascending only for `sortOrder == "asc"`), and it is a permutation of the input |
| Ranking.SortedByNumber | Question2/main.go:172-203 | for rating, price and discount, sorted means non-decreasing in that field when ascending and non-increasing otherwise, in both directions of the equivalence |
| Ranking.SortedByText | Question2/main.go:188-212 | for company and name, sorted means non-decreasing in Go's string order when ascending and non-increasing otherwise, in both directions |
| Paths.WithoutEmpty | Question2/main.go:107-115 | the result has no empty string and is no longer than the input |
| Paths.WithoutEmptyConcat | Question2/main.go:107-115 | dropping empty strings distributes over concatenation, so relative order is kept |
| Paths.WithoutEmptyMembers | Question2/main.go:107-115 | a string is in the result exactly when it is in the input and is not empty |
| Paths.WithoutEmptyKeepsNonEmpty | Question2/main.go:107-115 | a list without empty strings is returned unchanged |
| Paths.RemoveEmptyStrings | Question2/main.go:107-115 | the append loop returns exactly the input with its empty strings removed |
| Paths.SplitPath | Question2/main.go:103-105 | every segment is non-empty and free of `/` |
| Paths.SplitJoin | Question2/main.go:103-105 | splitting `/`-joined segments that contain no `/` gives them back |
| Paths.CleanPath | Question2/main.go:103-105 | the path `/s1/s2/...` of non-empty segments splits into exactly `[s1, s2, ...]` |
| Paths.GetCategoryName | Question2/main.go:93-96 | defined exactly when the path has at least 2 segments, and then a non-empty segment without `/` |
| Paths.GetProductID | Question2/main.go:98-101 | defined exactly when the path has at least 4 segments, and then a non-empty segment without `/` |
| Paths.CategoryRoute | Question2/main.go:93-101 | `/categories/<c>` names category `c` and has no product identifier |
| Paths.DetailRoute | Question2/main.go:93-101 | `/categories/<c>/products/<id>` names category `c` and product `id` |
| Categories.CountParam | Question2/main.go:47-50 | the count is at least 1; it is 10 when parsing failed or gave a value of 0 or less, and otherwise the parsed value |
| Categories.CollectProducts | Question2/main.go:56-65 | the fetch loop returns what `Gather` specifies: the lists appended in order, or the first failure tagged with its company |
| Categories.GatherSucceeds | Question2/main.go:58-64 | a product list is produced exactly when every company's fetch succeeds |
| Categories.GatherFirstFailure | Question2/main.go:59-62 | when a fetch fails, the error names the first failing company and carries its cause |
| Categories.GatherConcatenates | Question2/main.go:57-65 | on success the merged list is the in-order concatenation of every company's list, with nothing dropped or filtered |
| Categories.MergedInCompanyOrder | Question2/main.go:56-65 | on success every company answered, and the merged list is AMZ's, then FLP's, SNP's, MYN's and AZO's |
| Categories.TopN | Question2/main.go:70-73 | the reply is a prefix of the ranked list of length `min(n, len)` (the corrected slice) |
| Categories.TopOfRanking | Question2/main.go:67-73 | the first `n` of a sorted permutation of the merged list form a top-N: `min(n, len)` products, drawn from the list, sorted, and none ranked after a product that was left out |
| Categories.HandleCategories | Question2/main.go:43-75 | a path without a category fails; otherwise the fetch outcome decides: a failure is returned as is, and a success yields a top-N of the merged list under the requested key and order |
| Categories.TopAsWritten | Question2/main.go:72 | `allProducts[:n]` panics exactly when `n` exceeds the slice capacity; otherwise it gives `n` slots, zero-valued past the length |
| Categories.TopAsWrittenWithinLength | Question2/main.go:72 | while `n <= len`, the slice as written agrees with the saturating take |
| Categories.TopAsWrittenPastLength | Question2/main.go:72 | once `n > len`, the slice as written never returns the available products: it panics or pads with a zero-valued product |
| Categories.DefaultCountOverFiveProducts | Question2/main.go:47-50 | with `n` left at its default and five products in a slice of capacity 5, the slice as written panics while the saturating take returns the five products |
| Categories.EightOverFiveProducts | Question2/main.go:47-72 | with `n = 8` and five products in a slice of capacity 8, the slice as written returns the five products followed by three zero-valued ones, while the saturating take returns the five |
| Numbers.IsValidNumberID | Question1/main.go:49-56 | an identifier is accepted exactly when it is a single letter among `p`, `f`, `e` and `r` |
| Numbers.FetchNumbers | Question1/main.go:49-73 | a fetch succeeds exactly for the identifiers `isValidNumberID` accepts, and then returns five numbers between 0 and 11; otherwise it returns the "unsupported number ID" error |
| Numbers.FetchedListsMatchNames | Question1/main.go:61-69 | `p` yields exactly the primes below 12, `f` the first five Fibonacci numbers, `e` the first five positive even numbers |
| Numbers.KeepLast | Question1/main.go:79-82 | the kept part has length `min(k, len)` and is the suffix of that length |
| Numbers.KeepLastAll | Question1/main.go:79-80 | when old and new numbers fit in the window, nothing is lost |
| Numbers.KeepLastEndsWith | Question1/main.go:79-82 | if at most `window` numbers are added, the window ends with exactly those numbers, in order |
| Numbers.KeepLastBeforeNew | Question1/main.go:34 | `windowPrevState` is the tail of the previous window: its last `window - len(nums)` numbers |
| Numbers.KeepLastBeforeNewIsPrevious | Question1/main.go:34 | `windowPrevState` equals the whole previous window exactly when old and new numbers fit in the window together |
| Numbers.SumConcat | Question1/main.go:86-89 | the accumulated sum of a concatenation is the sum of the sums |
| Numbers.SumBounds | Question1/main.go:86-89 | the sum of numbers between `lo` and `hi` lies between `lo` and `hi` times the count |
| Numbers.CalculateAverage | Question1/main.go:85-91 | the loop's sum divided by the count; there is no average (Go gives NaN) exactly when the list is empty |
| Numbers.AverageBounds | Question1/main.go:85-91 | if every number lies between `lo` and `hi`, so does the average |
| Numbers.NumberWindow.constructor | Question1/main.go:14 | the window starts empty |
| Numbers.NumberWindow.UpdateWindow | Question1/main.go:75-83 | the new window is the last `window` numbers of old ++ new, and it never holds more than `window` |
| Numbers.NumberWindow.PrevState | Question1/main.go:34 | the window minus its last `len(nums)` numbers, which is a prefix of it |
| Numbers.NumberWindow.HandleNumbers | Question1/main.go:17-37 | an invalid identifier gives Bad Request and leaves the window unchanged; a valid one updates the window and replies with the numbers, the tail of the previous window, the new window and its average |

## Left out

- HTTP routing, `main`, `http.Error`, `jsonResponse` and JSON encoding and decoding (Question2/main.go:35-41, 216-219; Question1/main.go:39-46, 94-106). These are I/O plumbing.
- `fetchProducts` (Question2/main.go:117-140) is a network call. It is the oracle `Categories.Fetcher`, which takes the company and the `Query` and returns a list or a failure cause. Formatting the URL is not modelled.
- `fetchProductDetails` and `handleProductDetails` (Question2/main.go:77-91, 142-165) are a single network round trip after `getCategoryName` and `getProductID`. Only those two path helpers are modelled.
- `strconv.Atoi` and `strconv.ParseFloat` (Question2/main.go:47, 52-53) are not modelled. `n` arrives as the parse outcome `Option<int>`, and the price bounds arrive as reals.
- The float64 fields are modelled as `real`. JSON cannot encode NaN, so Go's `<` on these fields is a total order and the comparator is unaffected. The rounding of `float64(sum) / float64(len(nums))` (Question1/main.go:90) is not modelled: the average is the exact real quotient.
- Go's 64-bit `int` is modelled as an unbounded integer. The window holds at most 10 numbers, each between 0 and 11 (`Numbers.FetchNumbers`), so the sum cannot overflow.
- `sort.Slice` is unstable and its pattern-defeating quicksort is not modelled. `Ranking.SortProducts` is an insertion sort, and it promises only what `sort.Slice` promises: sorted and a permutation. The order of ties is left open.
- `Categories.HandleCategories` copies the merged list into a fresh array and sorts that copy. Go sorts the `allProducts` slice in place. The values are the same.
- `Categories.HandleCategories` replies with `Categories.TopN`, the first `min(n, len)` ranked products, where `allProducts[:n]` (Question2/main.go:72) panics when `n` exceeds the slice capacity and pads with zero-valued products when `len < n <= cap`. The slice as written is `Categories.TopAsWritten`; see "## Findings".
- Paths and path segments are modelled as sequences of Unicode scalar values. `r.URL.Path` is percent-decoded, so in Go a segment can hold bytes that are not valid UTF-8 (such as `%FF`); the model cannot represent those. The segments are only forwarded upstream, so no modelled behaviour depends on them.
- A path with fewer than two segments makes `getCategoryName` index out of range (Question2/main.go:95). In Go that panic is recovered by the HTTP server, which drops the connection. In the model it is the error `BadPath`.
- The 500 branch of `handleNumbers` (Question1/main.go:25-28) cannot be reached: `Numbers.FetchNumbers` succeeds for every identifier that passed validation. `Numbers.NumberWindow.HandleNumbers` has no such branch.
- The `sync.Mutex` and the handler's unlocked reads of `numbers` (Question1/main.go:13, 34-36, 76-77) are concurrency, which is not modelled. The window is single-threaded state.
- `Numbers.NumberWindow.HandleNumbers`: `windowPrevState` and `windowCurrState` share the window's backing array in Go. The model compares values only, so aliasing is not modelled.

## Findings

| source | as written | input that shows it | evidently intended | confidence | as-written member | corrected member |
|---|---|---|---|---|---|---|
| Question2/main.go:72 | `allProducts[:n]` slices up to `n` without comparing it with the number of merged products. Go allows the slice up to the capacity, so it panics when `n > cap` and returns zero-valued products when `len < n <= cap`. | `n` absent (so 10) and five merged products in a slice of capacity 5: panic. `?n=8` with five companies returning one product each (capacity grows 1, 2, 4, 4, 8): five products followed by three zero-valued ones (`Categories.EightOverFiveProducts`). | the first `min(n, len)` ranked products | not executed | Categories.TopAsWritten | Categories.TopN |
