/** Pagination and the status code of error responses (v2/responsew/response.go). */
module Paging {
  import opened Text
  import opened Chunks

  /** A 64-bit signed result, wrapped around in two's complement. */
  function Wrap64(n: int): int { (n + MAX_INT + 1) % (2 * (MAX_INT + 1)) - (MAX_INT + 1) }

  lemma WrapInRange(n: int)
    requires -MAX_INT - 1 <= n <= MAX_INT
    ensures Wrap64(n) == n
  {}

  datatype Page<T> = Page(message: string, items: seq<T>, totalCount: int, page: int, pageSize: int, hasNextPage: bool)

  function HasNextPage(page: int, pageSize: int, totalCount: int): bool {
    Wrap64(page * pageSize) < totalCount
  }

  function Offset(page: int, pageSize: int): int { Wrap64(Wrap64(page - 1) * pageSize) }

  lemma OffsetIsProduct(page: int, pageSize: int)
    ensures 1 <= page <= MAX_INT && 1 <= pageSize && (page - 1) * pageSize <= MAX_INT ==>
              Offset(page, pageSize) == (page - 1) * pageSize
  {
    if 1 <= page <= MAX_INT && 1 <= pageSize && (page - 1) * pageSize <= MAX_INT {
      assert 0 <= (page - 1) * pageSize;
      WrapInRange(page - 1);
      WrapInRange((page - 1) * pageSize);
    }
  }

  class Pagination {
    var page: int
    var perPage: int

    constructor (page: int, perPage: int)
      ensures this.page == page && this.perPage == perPage
    {
      this.page, this.perPage := page, perPage;
    }

    function GetLimit(): (limit: int)
      reads this
      ensures limit == perPage
    {
      perPage
    }

    /** The items of all pages before. */
    function GetOffset(): (offset: int)
      reads this
      ensures 1 <= page <= MAX_INT && 1 <= perPage && (page - 1) * perPage <= MAX_INT ==>
                offset == (page - 1) * perPage
    {
      OffsetIsProduct(page, perPage);
      Offset(page, perPage)
    }

    /** Missing items and an empty message have defaults. */
    method ToResponse<T>(items: Option<seq<T>>, totalCount: int, msg: string) returns (r: Page<T>)
      ensures r.page == page && r.pageSize == perPage && r.totalCount == totalCount
      ensures r.hasNextPage == HasNextPage(page, perPage, totalCount)
      ensures r.items == (if items.Some? then items.value else [])
      ensures r.message == (if msg == "" then "Success" else msg)
    {
      var message, list := msg, [];
      if msg == "" {
        message := "Success";
      }
      if items.Some? {
        list := items.value;
      }
      r := Page(message, list, totalCount, page, perPage, Wrap64(page * perPage) < totalCount);
    }
  }

  // ---------------------------------------------------------------- page walk

  datatype Window = Window(offset: int, limit: int)

  predicate Covers(w: Window, i: int) { w.offset <= i < w.offset + w.limit }

  function Most(a: int, b: int): int { if a >= b then a else b }

  /** A page size and a total count that Go's int64 holds. */
  predicate Sizes(size: int, total: int) { 1 <= size <= MAX_INT && -MAX_INT - 1 <= total <= MAX_INT }

  /** A page that starts before the end of the items, or the first page. */
  predicate OnTheWay(page: int, size: int, total: int) {
    Sizes(size, total) && page >= 1 && (page - 1) * size < Most(total, 1)
  }

  lemma ProductSteps(page: int, size: int)
    requires size >= 1
    ensures page * size == (page - 1) * size + size
    ensures page >= 1 ==> page - 1 <= (page - 1) * size
    ensures page > 1 ==> size <= (page - 1) * size
  {}

  lemma WrapOnce(n: int)
    requires MAX_INT < n <= 2 * MAX_INT
    ensures Wrap64(n) == n - 2 * (MAX_INT + 1)
  {}

  /** has_next_page says whether items remain if and only if the end of the page fits 64 bits; the
      offset is right in either case. */
  lemma HasNextIsExact(page: int, size: int, total: int)
    requires OnTheWay(page, size, total)
    ensures (HasNextPage(page, size, total) <==> page * size < total) <==> page * size <= MAX_INT
    ensures Offset(page, size) == (page - 1) * size
  {
    hide Wrap64;
    ProductSteps(page, size);
    WrapInRange(page - 1);
    WrapInRange((page - 1) * size);
    if page * size <= MAX_INT {
      WrapInRange(page * size);
    } else {
      WrapOnce(page * size);
    }
  }

  function PageCount(size: int, total: int): nat
    requires size >= 1
  {
    if total <= 0 then 1 else CeilDiv(total, size)
  }

  /** The end of the last page fits 64 bits. */
  predicate Fits(size: int, total: int) { Sizes(size, total) && PageCount(size, total) * size <= MAX_INT }

  lemma CeilDivBounds(n: nat, size: nat)
    requires n > 0 && size > 0
    ensures (CeilDiv(n, size) - 1) * size < n <= CeilDiv(n, size) * size
  {
    var q := (n + size - 1) / size;
    assert n + size - 1 == q * size + (n + size - 1) % size;
    assert (q - 1) * size == q * size - size;
  }

  lemma ProductsOrdered(a: int, b: int, size: int)
    requires size >= 0
    ensures a <= b ==> a * size <= b * size
  {}

  /** The pages on the way are the first PageCount ones, and the last of them holds the end. */
  lemma PagesOnTheWay(page: int, size: int, total: int)
    requires Sizes(size, total) && page >= 1
    ensures OnTheWay(page, size, total) <==> page <= PageCount(size, total)
    ensures page * size < total <==> page < PageCount(size, total)
  {
    var n := PageCount(size, total);
    ProductSteps(page, size);
    if total > 0 {
      CeilDivBounds(total, size);
      ProductSteps(n, size);
      ProductsOrdered(page, n, size);
      ProductsOrdered(page, n - 1, size);
      ProductsOrdered(n, page, size);
      ProductsOrdered(n, page - 1, size);
    }
  }

  lemma PageFits(page: int, size: int, total: int)
    requires Sizes(size, total) && 1 <= page <= PageCount(size, total)
    ensures page < PageCount(size, total) ==> page * size <= MAX_INT
    ensures Fits(size, total) ==> page * size <= MAX_INT
  {
    hide PageCount;
    PagesOnTheWay(page, size, total);
    ProductsOrdered(page, PageCount(size, total), size);
  }

  /** The pages before the last announce another one; the last announces none if and only if its end
      fits 64 bits.  So a walk that follows has_next_page ends after the last page exactly then. */
  lemma LastPageAnnounces(size: int, total: int)
    requires Sizes(size, total)
    ensures forall page :: 1 <= page < PageCount(size, total) ==> HasNextPage(page, size, total)
    ensures PageCount(size, total) * size >= total
    ensures HasNextPage(PageCount(size, total), size, total) <==> !Fits(size, total)
  {
    hide PageCount, HasNextPage, OnTheWay;
    var n := PageCount(size, total);
    PageCountPositive(size, total);
    PagesOnTheWay(n, size, total);
    forall page | 1 <= page <= n
      ensures page < n ==> HasNextPage(page, size, total)
      ensures page == n ==> (HasNextPage(page, size, total) <==> page * size > MAX_INT) && page * size >= total
    {
      PagesOnTheWay(page, size, total);
      PageFits(page, size, total);
      HasNextIsExact(page, size, total);
    }
  }

  lemma PageCountPositive(size: int, total: int)
    requires size >= 1
    ensures PageCount(size, total) >= 1
  {
    if total > 0 {
      CeilDivBounds(total, size);
    }
  }

  /** The windows a client reads who starts at some page and follows has_next_page. */
  ghost function Walk(page: int, size: int, total: int): seq<Window>
    requires Fits(size, total) && 1 <= page <= PageCount(size, total)
    decreases PageCount(size, total) - page
  {
    LastPageAnnounces(size, total);
    var w := Window(Offset(page, size), size);
    if HasNextPage(page, size, total) then [w] + Walk(page + 1, size, total) else [w]
  }

  lemma {:induction false} WalkShape(page: int, size: int, total: int)
    requires Fits(size, total) && 1 <= page <= PageCount(size, total)
    ensures |Walk(page, size, total)| == PageCount(size, total) - page + 1
    ensures forall k :: 0 <= k < |Walk(page, size, total)| ==>
              Walk(page, size, total)[k] == Window((page - 1 + k) * size, size)
    decreases PageCount(size, total) - page
  {
    hide PageCount, HasNextPage, Offset, OnTheWay;
    LastPageAnnounces(size, total);
    PagesOnTheWay(page, size, total);
    HasNextIsExact(page, size, total);
    if HasNextPage(page, size, total) {
      WalkShape(page + 1, size, total);
    }
  }

  ghost predicate Covered(ws: seq<Window>, i: int) { exists k :: 0 <= k < |ws| && Covers(ws[k], i) }

  lemma WindowOfItem(ws: seq<Window>, size: int, i: int)
    requires size >= 1 && 0 <= i < |ws| * size
    requires forall k :: 0 <= k < |ws| ==> ws[k] == Window(k * size, size)
    ensures Covered(ws, i)
  {
    var k := i / size;
    assert i == k * size + i % size;
    ProductsOrdered(|ws|, k, size);
    assert Covers(ws[k], i);
  }

  lemma WindowsApart(size: int, k: int, l: int, i: int)
    requires size >= 1 && k < l
    ensures Covers(Window(k * size, size), i) ==> !Covers(Window(l * size, size), i)
  {
    ProductsOrdered(k + 1, l, size);
    ProductSteps(k + 1, size);
  }

  /** The walk reads max(1, ceil(total / size)) pages, and they cover every item exactly once. */
  lemma WalkCoversOnce(size: int, total: int)
    requires Fits(size, total)
    ensures 1 <= PageCount(size, total)
    ensures var ws := Walk(1, size, total);
            && |ws| == PageCount(size, total)
            && (forall i :: 0 <= i < total ==> Covered(ws, i))
            && (forall k, l, i :: 0 <= k < l < |ws| && Covers(ws[k], i) ==> !Covers(ws[l], i))
  {
    hide Walk, PageCount, Covered, Covers;
    PageCountPositive(size, total);
    WalkShape(1, size, total);
    LastPageAnnounces(size, total);
    var ws := Walk(1, size, total);
    forall i | 0 <= i < total ensures Covered(ws, i) {
      WindowOfItem(ws, size, i);
    }
    forall k, l, i | 0 <= k < l < |ws| && Covers(ws[k], i) ensures !Covers(ws[l], i) {
      WindowsApart(size, k, l, i);
    }
  }

  /** A client that asks for the first page and follows has_next_page reads the windows of the walk. */
  method FollowPages(size: int, total: int) returns (ws: seq<Window>)
    requires Fits(size, total)
    ensures ws == Walk(1, size, total)
  {
    ws := [];
    PageCountPositive(size, total);
    var page, more := 1, true;
    while more
      invariant 1 <= page
      invariant more ==> page <= PageCount(size, total) && ws + Walk(page, size, total) == Walk(1, size, total)
      invariant !more ==> ws == Walk(1, size, total)
      decreases PageCount(size, total) - page, more
    {
      var p := new Pagination(page, size);
      var r := p.ToResponse<int>(None, total, "");
      LastPageAnnounces(size, total);
      hide PageCount, HasNextPage, Offset;
      var w := Window(p.GetOffset(), p.GetLimit());
      WindowRead(p, total);
      if r.hasNextPage {
        assert ws + ([w] + Walk(page + 1, size, total)) == (ws + [w]) + Walk(page + 1, size, total);
        page := page + 1;
      } else {
        more := false;
      }
      ws := ws + [w];
    }
  }

  /** What the object gives for a page is the page's window. */
  lemma WindowRead(p: Pagination, total: int)
    requires Fits(p.perPage, total) && 1 <= p.page <= PageCount(p.perPage, total)
    ensures Window(p.GetOffset(), p.GetLimit()) == Window(Offset(p.page, p.perPage), p.perPage)
  {}

  /** A total and a size for which the last page announces another. */
  lemma WrappedWalkGoesOn()
    ensures PageCount(2, MAX_INT) == 0x4000_0000_0000_0000
    ensures !Fits(2, MAX_INT) && HasNextPage(PageCount(2, MAX_INT), 2, MAX_INT)
  {}

  // -------------------------------------------------------------- status code

  datatype AppError<D> =
    | Status(logical: int, custom: string, message: string, data: Option<D>, cause: Option<AppError<D>>)
    | Other(text: string, inner: Option<AppError<D>>)

  /** The error code is the service's own, or the number 500. */
  datatype Detail = Custom(customCode: string, details: string) | Internal(details: string)

  datatype ErrorResponse<D> = ErrorResponse(statusCode: int, message: string, error: Option<Detail>, data: Option<D>)

  /** errors.As for the status error: the outermost one in the chain. */
  function AsStatus<D>(err: AppError<D>): (r: Option<AppError<D>>)
    ensures r.Some? ==> r.value.Status?
  {
    match err
    case Status(_, _, _, _, _) => Some(err)
    case Other(_, inner) => if inner.Some? then AsStatus(inner.value) else None
  }

  /** The number of the three leading decimal digits of another. */
  ghost predicate Leads(code: int, n: int) {
    n >= 100 && 100 <= code <= 999 && |Decimal(n)| >= 3 && Decimal(code) == Decimal(n)[..3]
  }

  lemma {:induction false} DecimalLength(n: nat)
    ensures |Decimal(n)| == 1 <==> n <= 9
    ensures |Decimal(n)| == 2 <==> 10 <= n <= 99
    ensures |Decimal(n)| == 3 <==> 100 <= n <= 999
  {
    if n >= 10 {
      DecimalLength(n / 10);
    }
  }

  lemma LeadsIsUnique(a: int, b: int, n: int)
    requires Leads(a, n) && Leads(b, n)
    ensures a == b
  {
    DecimalValue(a);
    DecimalValue(b);
  }

  /** Cutting the last digit off a number of four or more keeps the leading three. */
  lemma LeadsStep(code: int, n: int)
    requires n > 999
    ensures Leads(code, n / 10) ==> Leads(code, n)
  {
    DecimalLength(n / 10);
    assert Decimal(n)[..|Decimal(n)| - 1] == Decimal(n / 10);
  }

  /** The code-normalising loop: the three leading digits of a code of three or more, and any
      other code unchanged. */
  method LeadingDigits(logical: int) returns (code: int)
    ensures logical >= 100 ==> Leads(code, logical)
    ensures logical < 100 ==> code == logical
  {
    code := logical;
    while code > 999
      invariant logical < 100 ==> code == logical
      invariant logical >= 100 ==> code >= 100
      invariant forall c :: Leads(c, code) ==> Leads(c, logical)
    {
      forall c | Leads(c, code / 10) ensures Leads(c, code) {
        LeadsStep(c, code);
      }
      code := code / 10;
    }
    if logical >= 100 {
      DecimalLength(code);
      assert Decimal(code)[..3] == Decimal(code);
      assert Leads(code, code);
    }
  }

  /** An error behind the texts that wrap it. */
  function Behind<D>(texts: seq<string>, err: AppError<D>): AppError<D> {
    if texts == [] then err else Other(texts[0], Some(Behind(texts[1..], err)))
  }

  /** Through whatever wraps it, the status error is found as it is; without one, none. */
  lemma {:induction false} OutermostIsFound<D>(texts: seq<string>, status: AppError<D>, text: string)
    requires status.Status?
    ensures AsStatus(Behind(texts, status)) == Some(status)
    ensures AsStatus<D>(Behind(texts, Other(text, None))) == None
  {
    if texts != [] {
      OutermostIsFound(texts[1..], status, text);
    }
  }

  /** The HTTP status is the three leading digits of the logical code where those are a status
      (100 to 599), and 500 otherwise. */
  method Error<D>(err: AppError<D>) returns (httpStatusCode: int, resp: ErrorResponse<D>)
    ensures AsStatus(err).None? ==> httpStatusCode == 500
    ensures forall code :: AsStatus(err).Some? && Leads(code, AsStatus(err).value.logical)
              ==> httpStatusCode == if code <= 599 then code else 500
    ensures AsStatus(err).Some? && AsStatus(err).value.logical < 100 ==> httpStatusCode == 500
    ensures resp.statusCode == 1 && resp.message == "Error occurred"
    ensures match AsStatus(err)
            case Some(s) => resp.error == Some(Custom(s.custom, s.message)) && resp.data == s.data
            case None => (err.Other? ==> resp.error == Some(Internal(err.text))) && resp.data == None
  {
    hide Leads;
    resp := ErrorResponse(1, "Error occurred", None, None);
    httpStatusCode := 500;
    var statusErr := AsStatus(err);
    if statusErr.Some? {
      var logical := statusErr.value.logical;
      var code := LeadingDigits(logical);
      if 100 <= code <= 599 {
        httpStatusCode := code;
      }
      resp := resp.(error := Some(Custom(statusErr.value.custom, statusErr.value.message)),
                        data := statusErr.value.data);
      forall c | Leads(c, logical) ensures c == code && code >= 100 {
        LeadsBounds(c, logical);
        LeadsIsUnique(c, code, logical);
      }
      return;
    }
    resp := resp.(error := Some(Internal(err.text)), data := None);
  }

  lemma LeadsBounds(code: int, n: int)
    requires Leads(code, n)
    ensures n >= 100 && 100 <= code <= 999
  {}
}
