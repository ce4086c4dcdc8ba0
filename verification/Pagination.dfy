/** Offset pagination over unsigned 64-bit numbers. */
module Pagination {
  import opened Integers
  import opened Wrappers

  const DEFAULT_PER_PAGE: u64 := 20
  const DEFAULT_MAX_PER_PAGE: u64 := 100

  type u64 = n: int | 0 <= n <= U64_MAX

  datatype Config = Config(defaultPerPage: u64, maxPerPage: u64)

  datatype PageMeta = PageMeta(page: u64, perPage: u64, total: u64, totalPages: u64)

  function SaturatingSub(a: u64, b: u64): u64 {
    if a < b then 0 else a - b
  }

  function SaturatingMul(a: u64, b: u64): u64 {
    if a * b > U64_MAX then U64_MAX else MulIsNat(a, b); a * b
  }

  lemma MulIsNat(a: nat, b: nat)
    ensures 0 <= a * b
  {}

  function Clamp(n: u64, low: u64, high: u64): u64
    requires low <= high
  {
    if n < low then low else if n > high then high else n
  }

  function CeilDiv(a: u64, b: u64): (r: u64)
    requires b > 0
    ensures (r - 1) * b < a <= r * b
  {
    CeilDivFits(a, b);
    a / b + (if a % b == 0 then 0 else 1)
  }

  lemma CeilDivFits(a: u64, b: u64)
    requires b > 0
    ensures var r := a / b + (if a % b == 0 then 0 else 1);
      0 <= r <= U64_MAX && (r - 1) * b < a <= r * b
  {}

  datatype Paginate = Paginate(page: u64, perPage: u64) {

    /** The SQL OFFSET. */
    function Offset(): u64 {
      SaturatingMul(SaturatingSub(page, 1), perPage)
    }

    /** The SQL LIMIT. */
    function Limit(): u64 {
      perPage
    }

    function Respond(total: u64): (r: PageMeta)
      ensures r.page == page && r.perPage == perPage && r.total == total
      ensures perPage == 0 ==> r.totalPages == 0
    {
      PageMeta(page, perPage, total, if perPage == 0 then 0 else CeilDiv(total, perPage))
    }

    /** Whether the page's query returns the item with index `i` of `total`. */
    predicate Shows(i: int, total: u64) {
      Offset() <= i < total && i < Offset() + Limit()
    }
  }

  /** The query parameters, absent or parsed, clamped by the configuration. */
  function FromRequest(page: Option<u64>, perPage: Option<u64>, config: Option<Config>): (r: Paginate)
    ensures r.page >= 1 && r.perPage >= 1
    ensures var max := if config.None? then DEFAULT_MAX_PER_PAGE else Max(config.value.maxPerPage, 1);
      var wanted :=
        if perPage.Some? then perPage.value
        else if config.Some? then config.value.defaultPerPage
        else DEFAULT_PER_PAGE;
      && (1 <= wanted <= max ==> r.perPage == wanted)
      && (wanted > max ==> r.perPage == max) && (wanted == 0 ==> r.perPage == 1)
    ensures page.Some? && page.value >= 1 ==> r.page == page.value
    ensures page.None? || page.value == 0 ==> r.page == 1
  {
    var defaultPerPage := if config.Some? then config.value.defaultPerPage else DEFAULT_PER_PAGE;
    var max := if config.Some? then Max(config.value.maxPerPage, 1) else DEFAULT_MAX_PER_PAGE;
    Paginate(
      Max(if page.Some? then page.value else 1, 1),
      Clamp(if perPage.Some? then perPage.value else defaultPerPage, 1, max))
  }

  /** The page an item is on, without any bound. */
  function PageOf(i: nat, perPage: nat): nat
    requires perPage > 0
  {
    i / perPage + 1
  }

  lemma PageOfBounds(i: nat, perPage: nat)
    requires perPage > 0
    ensures (PageOf(i, perPage) - 1) * perPage <= i < PageOf(i, perPage) * perPage
  {
    var q := i / perPage;
    assert i == perPage * q + i % perPage;
    assert (q + 1) * perPage == q * perPage + perPage;
  }

  lemma MulMonotone(a: int, b: int, c: nat)
    requires a <= b
    ensures a * c <= b * c
  {}

  /**
   Every page number from 1 on, capped product or not: a page shows an item
   exactly if it is the item's page. So each item is on one page.
   */
  lemma ItemIsOnOnePage(p: Paginate, total: u64, i: u64)
    requires p.page >= 1 && p.perPage >= 1 && i < total
    ensures p.Shows(i, total) <==> p.page == PageOf(i, p.perPage)
  {
    var n := PageOf(i, p.perPage);
    var before := (p.page - 1) * p.perPage;
    PageOfBounds(i, p.perPage);
    assert (p.page - 1) * p.perPage + p.perPage == p.page * p.perPage;
    assert before >= 0;
    if p.page < n {
      MulMonotone(p.page, n - 1, p.perPage);
    } else if p.page > n {
      MulMonotone(n, p.page - 1, p.perPage);
    }
  }

  /** The pages 1 to `totalPages` are exactly the pages that show anything. */
  lemma PagesUpToTotal(p: Paginate, total: u64)
    requires p.page >= 1 && p.perPage >= 1
    ensures p.page <= p.Respond(total).totalPages <==> exists i :: p.Shows(i, total)
  {
    var pages := p.Respond(total).totalPages;
    if p.page <= pages {
      MulMonotone(p.page - 1, pages - 1, p.perPage);
      assert (p.page - 1) * p.perPage >= 0;
      assert p.Shows((p.page - 1) * p.perPage, total);
    } else {
      MulMonotone(pages, p.page - 1, p.perPage);
      assert p.Offset() >= total;
    }
  }

  /** How many items a page shows. */
  function Shown(p: Paginate, total: u64): nat {
    if p.Offset() >= total then 0
    else if total - p.Offset() < p.perPage then total - p.Offset()
    else p.perPage
  }

  function ShownUpTo(pages: nat, perPage: u64, total: u64): nat
    requires pages <= U64_MAX
  {
    if pages == 0 then 0 else ShownUpTo(pages - 1, perPage, total) + Shown(Paginate(pages, perPage), total)
  }

  lemma PageStep(page: int, perPage: nat)
    requires page >= 1
    ensures (page - 1) * perPage + perPage == page * perPage && (page - 1) * perPage >= 0
  {}

  /** The first `pages` pages together show the first `pages * perPage` items, as far as there are any. */
  lemma {:induction false} PagesAddUp(pages: nat, perPage: u64, total: u64)
    requires pages <= U64_MAX && perPage >= 1
    ensures ShownUpTo(pages, perPage, total) == Min(pages * perPage, total)
  {
    if pages == 0 {
    } else {
      PagesAddUp(pages - 1, perPage, total);
      PageStep(pages, perPage);
      ShownAfter(pages, perPage, total, (pages - 1) * perPage);
      hide Shown;
      MoreShown((pages - 1) * perPage, perPage, total);
    }
  }

  lemma MoreShown(before: int, perPage: nat, total: nat)
    requires before >= 0
    ensures Min(before, total) + (if before >= total then 0 else Min(total - before, perPage)) ==
      Min(before + perPage, total)
  {}

  lemma ShownAfter(page: u64, perPage: u64, total: u64, before: int)
    requires page >= 1 && before == (page - 1) * perPage && before >= 0
    ensures Shown(Paginate(page, perPage), total) ==
      if before >= total then 0 else Min(total - before, perPage)
  {}
}
