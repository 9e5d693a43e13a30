/** The number-window service (Question1/main.go): an identifier selects a
    fixed list of five numbers, the numbers are appended to a window that
    keeps only the latest ten, and the reply shows the part of the previous
    window still kept (its last `10 - len(nums)` numbers), the new window
    and its average. */
module Numbers {
  import opened Wrappers

  /** How many numbers the window keeps (`window`). */
  const Window: nat := 10

  /** The prefix under which the router hands requests to the handler. */
  const Route: string := "/numbers/"

  /** `isValidNumberID`: the four identifiers the service answers, each a
      single letter. */
  predicate IsValidNumberID(id: string): (r: bool)
    ensures r <==> |id| == 1 && id[0] in "pfer"
  {
    assert |id| == 1 ==> id == [id[0]];
    id in {"p", "f", "e", "r"}
  }

  /** `fetchNumbers`: the mocked upstream answer for an identifier. */
  function FetchNumbers(id: string): (r: Result<seq<int>, string>)
    ensures r.Success? <==> IsValidNumberID(id)
    ensures r.Success? ==> |r.value| == 5 && forall i :: 0 <= i < 5 ==> 0 <= r.value[i] <= 11
    ensures r.Failure? ==> r.error == "unsupported number ID"
  {
    match id
    case "p" => Success([2, 3, 5, 7, 11])
    case "f" => Success([0, 1, 1, 2, 3])
    case "e" => Success([2, 4, 6, 8, 10])
    case "r" => Success([7, 3, 9, 5, 1])
    case _ => Failure("unsupported number ID")
  }

  predicate IsPrime(x: int)
  {
    x >= 2 && forall d :: 2 <= d < x ==> x % d != 0
  }

  function Fib(i: nat): nat
  {
    if i < 2 then i else Fib(i - 1) + Fib(i - 2)
  }

  /** The lists are what their identifiers name: the primes below 12, the
      first five Fibonacci numbers, the first five positive even numbers. */
  lemma FetchedListsMatchNames()
    ensures forall x :: 0 <= x < 12 ==> (IsPrime(x) <==> x in FetchNumbers("p").value)
    ensures forall i :: 0 <= i < 5 ==> FetchNumbers("f").value[i] == Fib(i)
    ensures forall i :: 0 <= i < 5 ==> FetchNumbers("e").value[i] == 2 * (i + 1)
  {
    var primes := FetchNumbers("p").value;
    forall x | 0 <= x < 12
      ensures IsPrime(x) <==> x in primes
    {
      if x in primes {
        forall d | 2 <= d < x
          ensures x % d != 0
        {
        }
      } else if x >= 2 {
        assert x % 2 == 0 || x % 3 == 0;
      }
    }
    assert Fib(2) == 1 && Fib(3) == 2 && Fib(4) == 3;
  }

  /** The last `k` elements of `s`, or all of `s` when it is shorter. */
  function KeepLast(s: seq<int>, k: nat): (r: seq<int>)
    ensures |r| == if |s| <= k then |s| else k
    ensures r == s[|s| - |r|..]
  {
    if |s| > k then s[|s| - k..] else s
  }

  /** When everything fits, nothing is lost. */
  lemma KeepLastAll(s: seq<int>, k: nat)
    requires |s| <= k
    ensures KeepLast(s, k) == s
  {
  }

  /** The newest numbers are the last ones kept, in their order. */
  lemma KeepLastEndsWith(prev: seq<int>, nums: seq<int>, k: nat)
    requires |nums| <= k
    ensures var w := KeepLast(prev + nums, k);
      |nums| <= |w| && w[|w| - |nums|..] == nums
  {
  }

  /** What is kept before the newest numbers is the tail of the previous
      window: its last `k - |nums|` elements. */
  lemma KeepLastBeforeNew(prev: seq<int>, nums: seq<int>, k: nat)
    requires |nums| <= k
    ensures var w := KeepLast(prev + nums, k);
      |nums| <= |w| && w[..|w| - |nums|] == KeepLast(prev, k - |nums|)
  {
  }

  /** The part before the newest numbers is the whole previous window exactly
      when old and new numbers fit in the window together. */
  lemma KeepLastBeforeNewIsPrevious(prev: seq<int>, nums: seq<int>, k: nat)
    requires |nums| <= k
    ensures var w := KeepLast(prev + nums, k);
      |nums| <= |w| && (w[..|w| - |nums|] == prev <==> |prev| + |nums| <= k)
  {
  }

  /** The sum the loop of `calculateAverage` accumulates, left to right. */
  function Sum(s: seq<int>): int
  {
    if s == [] then 0 else Sum(s[..|s| - 1]) + s[|s| - 1]
  }

  lemma {:induction false} SumConcat(a: seq<int>, b: seq<int>)
    ensures Sum(a + b) == Sum(a) + Sum(b)
  {
    if b != [] {
      assert (a + b)[..|a + b| - 1] == a + b[..|b| - 1];
      SumConcat(a, b[..|b| - 1]);
    } else {
      assert a + b == a;
    }
  }

  /** The sum of numbers between `lo` and `hi` lies between `lo` and `hi`
      times their count. */
  lemma {:induction false} SumBounds(s: seq<int>, lo: int, hi: int)
    requires forall i :: 0 <= i < |s| ==> lo <= s[i] <= hi
    ensures lo * |s| <= Sum(s) <= hi * |s|
  {
    if s != [] {
      var init := s[..|s| - 1];
      SumBounds(init, lo, hi);
      assert lo * |s| == lo * |init| + lo;
      assert hi * |s| == hi * |init| + hi;
    }
  }

  /** `calculateAverage`: the sum divided by the count; the float division
      of Go gives NaN on an empty list, `None` here. */
  method CalculateAverage(nums: seq<int>) returns (avg: Option<real>)
    ensures avg.None? <==> nums == []
    ensures avg.Some? ==> avg.value == Sum(nums) as real / |nums| as real
  {
    var sum := 0;
    for i := 0 to |nums|
      invariant sum == Sum(nums[..i])
    {
      assert nums[..i + 1][..i] == nums[..i];
      sum := sum + nums[i];
    }
    assert nums[..|nums|] == nums;
    if |nums| == 0 {
      return None;
    }
    avg := Some(sum as real / |nums| as real);
  }

  /** The average of numbers between `lo` and `hi` lies between them. */
  lemma AverageBounds(nums: seq<int>, lo: int, hi: int, avg: real)
    requires nums != []
    requires forall i :: 0 <= i < |nums| ==> lo <= nums[i] <= hi
    requires avg == Sum(nums) as real / |nums| as real
    ensures lo as real <= avg <= hi as real
  {
    SumBounds(nums, lo, hi);
    QuotientOfScaledBounds(Sum(nums), lo, hi, |nums|);
  }

  /** An integer between `lo` and `hi` times a positive count, divided by
      that count as a real, lies between `lo` and `hi`. */
  lemma QuotientOfScaledBounds(total: int, lo: int, hi: int, m: nat)
    requires m > 0 && lo * m <= total <= hi * m
    ensures lo as real <= total as real / m as real <= hi as real
  {
    CastProduct(lo, m);
    CastProduct(hi, m);
    QuotientBounds(total as real, m as real, lo as real, hi as real);
  }

  lemma CastProduct(a: int, m: nat)
    ensures (a * m) as real == a as real * m as real
  {
  }

  /** Dividing by a positive count keeps a bound scaled by that count. */
  lemma QuotientBounds(total: real, n: real, lo: real, hi: real)
    requires n > 0.0
    requires lo * n <= total <= hi * n
    ensures lo <= total / n <= hi
  {
  }

  datatype NumbersResponse = NumbersResponse(
    numbers: seq<int>,
    windowPrevState: seq<int>,
    windowCurrState: seq<int>,
    avg: real)

  /** The HTTP status the handler answers with on failure. */
  datatype Status = BadRequest

  /** The window shared by all requests (the package variable `numbers`). */
  class NumberWindow {
    var numbers: seq<int>

    ghost predicate Valid()
      reads this
    {
      |numbers| <= Window
    }

    constructor ()
      ensures Valid() && numbers == []
    {
      numbers := [];
    }

    /** `updateWindow`: append, then keep the latest `Window` numbers. */
    method UpdateWindow(newNumbers: seq<int>)
      requires Valid()
      modifies this
      ensures Valid()
      ensures numbers == KeepLast(old(numbers) + newNumbers, Window)
    {
      numbers := numbers + newNumbers;
      if |numbers| > Window {
        numbers := numbers[|numbers| - Window..];
      }
    }

    /** The `windowPrevState` expression: the window without its last
        `|nums|` elements. */
    function PrevState(nums: seq<int>): (prev: seq<int>)
      reads this
      requires |nums| <= |numbers|
      ensures |prev| + |nums| == |numbers|
      ensures numbers == prev + numbers[|prev|..]
    {
      numbers[..|numbers| - |nums|]
    }

    /** `handleNumbers` for a request path under `/numbers/`. */
    method HandleNumbers(path: string) returns (r: Result<NumbersResponse, Status>)
      requires Valid()
      requires |Route| <= |path| && path[..|Route|] == Route
      modifies this
      ensures Valid()
      ensures !IsValidNumberID(path[|Route|..]) ==>
        r == Failure(BadRequest) && numbers == old(numbers)
      ensures IsValidNumberID(path[|Route|..]) ==>
        var nums := FetchNumbers(path[|Route|..]).value;
        && numbers == KeepLast(old(numbers) + nums, Window)
        && r.Success?
        && r.value.numbers == nums
        && r.value.windowPrevState == KeepLast(old(numbers), Window - |nums|)
        && r.value.windowCurrState == numbers
        && r.value.avg == Sum(numbers) as real / |numbers| as real
    {
      var numberID := path[|Route|..];
      if !IsValidNumberID(numberID) {
        return Failure(BadRequest);
      }
      var fetched := FetchNumbers(numberID);
      var nums := fetched.value;
      ghost var before := numbers;
      UpdateWindow(nums);
      KeepLastBeforeNew(before, nums, Window);
      var avg := CalculateAverage(numbers);
      r := Success(NumbersResponse(nums, PrevState(nums), numbers, avg.value));
    }
  }
}
