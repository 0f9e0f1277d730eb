/** get_page of main/server/views.py over Django's Paginator (no orphans, an
    empty first page allowed): the requested page when it exists, the first
    page when the parameter is not a number, and the last page otherwise. */
module Paging {

  /** The `page` query parameter, as int() reads it. */
  datatype PageParam = Absent | Numeral(n: int) | NotANumber

  datatype Page<T> = Page(number: int, items: seq<T>)

  /** The index of the first item on page `number`: (number - 1) * perPage,
      written as a sum so that the solver sees no product. */
  function Start(number: int, perPage: nat): (s: nat)
  {
    if number <= 1 then 0 else Start(number - 1, perPage) + perPage
  }

  lemma {:induction false} StartIsProduct(number: int, perPage: nat)
    requires number >= 1
    ensures Start(number, perPage) == (number - 1) * perPage
  {
    if number > 1 {
      StartIsProduct(number - 1, perPage);
    }
  }

  /** Each later page starts at least a full page further on. */
  lemma {:induction false} StartGrows(a: int, b: int, perPage: nat)
    requires 1 <= a < b
    ensures Start(a, perPage) + perPage <= Start(b, perPage)
  {
    if a < b - 1 {
      StartGrows(a, b - 1, perPage);
    }
  }

  /** Paginator.num_pages: ceil(max(1, count) / perPage), so at least one page:
      the page count is the one whose last page holds the last hit. */
  function NumPages(count: nat, perPage: nat): (n: nat)
    requires perPage > 0
    ensures n >= 1
    ensures Start(n, perPage) < (if count == 0 then 1 else count) <= Start(n, perPage) + perPage
  {
    var hits := if count == 0 then 1 else count;
    var n := (hits + perPage - 1) / perPage;
    assert n * perPage <= hits + perPage - 1 < n * perPage + perPage;
    StartIsProduct(n, perPage);
    assert Start(n, perPage) + perPage == n * perPage;
    n
  }

  /** The page number requested: the parameter, defaulting to 1 when absent,
      and 1 when it is not an integer. */
  function Requested(param: PageParam): (pid: int)
    ensures param.Numeral? ==> pid == param.n
    ensures !param.Numeral? ==> pid == 1
  {
    match param
    case Absent => 1
    case Numeral(n) => n
    case NotANumber => 1
  }

  /** Paginator.page(number) for a number validate_number accepts. */
  function PageAt<T>(items: seq<T>, perPage: nat, number: int): (p: Page<T>)
    requires perPage > 0 && 1 <= number <= NumPages(|items|, perPage)
    ensures p.number == number
    ensures |p.items| <= perPage
    ensures Start(number, perPage) + |p.items| <= |items|
    ensures forall k :: 0 <= k < |p.items| ==> p.items[k] == items[Start(number, perPage) + k]
    ensures number < NumPages(|items|, perPage) ==> |p.items| == perPage
    ensures |p.items| == perPage || Start(number, perPage) + |p.items| == |items|
  {
    var bottom := Start(number, perPage);
    StartsInRange(|items|, perPage, number);
    var top := if bottom + perPage >= |items| then |items| else bottom + perPage;
    Page(number, items[bottom..top])
  }

  /** A page that exists starts within the items, and every page before the
      last one is full. */
  lemma StartsInRange(count: nat, perPage: nat, number: int)
    requires perPage > 0 && 1 <= number <= NumPages(count, perPage)
    ensures Start(number, perPage) <= count
    ensures number < NumPages(count, perPage) ==> Start(number, perPage) + perPage <= count
  {
    var last := NumPages(count, perPage);
    if number < last {
      StartGrows(number, last, perPage);
    }
  }

  /** get_page(request, items, perPage) */
  function GetPage<T>(items: seq<T>, param: PageParam, perPage: nat): (p: Page<T>)
    requires perPage > 0
    ensures 1 <= p.number <= NumPages(|items|, perPage)
    ensures p == PageAt(items, perPage, p.number)
    ensures 1 <= Requested(param) <= NumPages(|items|, perPage) ==> p.number == Requested(param)
    ensures !(1 <= Requested(param) <= NumPages(|items|, perPage)) ==> p.number == NumPages(|items|, perPage)
  {
    var last := NumPages(|items|, perPage);
    var pid := Requested(param);
    if 1 <= pid <= last then PageAt(items, perPage, pid) else PageAt(items, perPage, last)
  }

  /** Every item is on the page numbered index / perPage + 1, at position
      index % perPage. */
  lemma ItemOnItsPage<T>(items: seq<T>, perPage: nat, i: nat)
    requires perPage > 0 && i < |items|
    ensures var p := GetPage(items, Numeral(i / perPage + 1), perPage);
      p.number == i / perPage + 1 && i % perPage < |p.items| && p.items[i % perPage] == items[i]
  {
    var q := i / perPage;
    var last := NumPages(|items|, perPage);
    StartIsProduct(q + 1, perPage);
    assert Start(q + 1, perPage) + i % perPage == i by {
      assert i == q * perPage + i % perPage;
    }
    assert q + 1 <= last by {
      if q + 1 > last {
        StartGrows(last, q + 1, perPage);
      }
    }
  }

  /** No other page holds the item at `i`. */
  lemma ItemOnOnePage(count: nat, perPage: nat, i: nat, number: int)
    requires perPage > 0 && i < count
    requires 1 <= number <= NumPages(count, perPage)
    requires Start(number, perPage) <= i < Start(number, perPage) + perPage
    ensures number == i / perPage + 1
  {
    StartIsProduct(number, perPage);
    DivBetween(i, perPage, number - 1);
  }

  lemma MulMono(a: int, b: int, c: nat)
    requires a <= b
    ensures a * c <= b * c
  {
  }

  lemma DivBetween(i: nat, perPage: nat, q: nat)
    requires perPage > 0 && q * perPage <= i < q * perPage + perPage
    ensures i / perPage == q
  {
    var d := i / perPage;
    assert d * perPage <= i < (d + 1) * perPage by {
      assert i == d * perPage + i % perPage;
      assert (d + 1) * perPage == d * perPage + perPage;
    }
    if d > q {
      MulMono(q + 1, d, perPage);
    } else if d < q {
      MulMono(d + 1, q, perPage);
    }
  }

  /** The last page is never empty unless there are no items at all. */
  lemma {:induction false} LastPageNonEmpty<T>(items: seq<T>, perPage: nat)
    requires perPage > 0 && |items| > 0
    ensures |PageAt(items, perPage, NumPages(|items|, perPage)).items| > 0
  {
  }

  /** Out-of-range numbers, zero and negatives included, land on the last page;
      a parameter that is not a number lands on the first. */
  lemma Fallbacks<T>(items: seq<T>, perPage: nat, n: int)
    requires perPage > 0
    ensures (n < 1 || n > NumPages(|items|, perPage)) ==>
      GetPage(items, Numeral(n), perPage) == PageAt(items, perPage, NumPages(|items|, perPage))
    ensures GetPage(items, NotANumber, perPage) == PageAt(items, perPage, 1)
    ensures GetPage(items, Absent, perPage) == GetPage(items, NotANumber, perPage)
  {
  }
}
