/** The page query each service builds from the resolved parameters, and the
    slice of a listing the repository answers it with.

    `getXPage(pageNumber, pageSize, sortField, sortAsc)` builds
    `Sort.by(sortField)` (ascending or descending) and then
    `PageRequest.of(pageNumber - 1, pageSize, sort)`; both library calls
    reject bad arguments with an `IllegalArgumentException` nobody catches.
 */
module Paging {
  import opened Results
  import opened Text

  datatype Direction = Ascending | Descending

  datatype Sort = Sort(property: string, direction: Direction)

  /** A 0-based page index and a page size of at least one. */
  datatype PageRequest = PageRequest(index: nat, size: nat, sort: Sort)

  /** What the repository hands back: the 0-based number of the page, the
      number of pages, the records on this page and the sort they are in. */
  datatype Page<T> = Page(number: nat, totalPages: nat, content: seq<T>, sort: Sort)

  const PropertyMessage: string := "Property must not be null or empty"
  const IndexMessage: string := "Page index must not be less than zero"
  const SizeMessage: string := "Page size must not be less than one"
  const OffsetMessage: string := "Page offset exceeds Integer.MAX_VALUE (2147483647)"

  /** Java `int` arithmetic: the result of an operation taken modulo 2^32. */
  function Wrap(x: int): (r: int32)
    ensures IntMin <= x <= IntMax ==> r as int == x
    ensures (r as int - x) % 0x1_0000_0000 == 0
  {
    var m := (x - IntMin) % 0x1_0000_0000;
    (m + IntMin) as int32
  }

  /** The shared body of the three `getXPage` service methods. */
  function PageQuery(pageNumber: int32, pageSize: int32, sortField: string, sortAsc: bool): (r: Result<PageRequest>)
    ensures r.Ok? <==> !IsBlank(sortField) && (pageNumber >= 1 || pageNumber as int == IntMin) && pageSize >= 1
    ensures r.Ok? ==> r.value.size == pageSize as int && r.value.size >= 1
    ensures r.Ok? ==> r.value.sort == Sort(sortField, if sortAsc then Ascending else Descending)
    ensures r.Ok? && pageNumber as int != IntMin ==> r.value.index + 1 == pageNumber as int
    ensures r.Ok? && pageNumber as int == IntMin ==> r.value.index == IntMax
    ensures r.Err? && IsBlank(sortField) ==> r.failure == Failure(Unhandled, PropertyMessage)
    ensures r.Err? && !IsBlank(sortField) && pageNumber < 1 && pageNumber as int != IntMin ==> r.failure == Failure(Unhandled, IndexMessage)
    ensures r.Err? && !IsBlank(sortField) && (pageNumber >= 1 || pageNumber as int == IntMin) ==> r.failure == Failure(Unhandled, SizeMessage)
  {
    if IsBlank(sortField) then Err(Failure(Unhandled, PropertyMessage))
    else
      var sort := Sort(sortField, if sortAsc then Ascending else Descending);
      var index := Wrap(pageNumber as int - 1);
      if index < 0 then Err(Failure(Unhandled, IndexMessage))
      else if pageSize < 1 then Err(Failure(Unhandled, SizeMessage))
      else Ok(PageRequest(index as nat, pageSize as nat, sort))
  }

  /** What a service's `getXPage` promises about its answer `r` over
      `listing`, the table's rows in the order the query's sort puts them.
      The page asked for is the wrapped `pageNumber - 1`; `OffsetFits`
      spells out which page numbers pass. */
  ghost predicate PageAnswer<T>(listing: seq<T>, pageNumber: int32, pageSize: int32, sortField: string, sortAsc: bool, r: Result<Page<T>>) {
    var index := Wrap(pageNumber as int - 1) as int;
    var offset := index * pageSize as int;
    && (r.Ok? <==> !IsBlank(sortField) && pageSize >= 1 && index >= 0 && offset <= IntMax)
    && (r.Err? ==> r.failure.status == Unhandled)
    && (r.Err? && !IsBlank(sortField) && pageSize >= 1 && index >= 0 ==> r.failure == Failure(Unhandled, OffsetMessage))
    && (r.Ok? ==> r.value.number == index)
    && (r.Ok? ==> r.value.sort == Sort(sortField, if sortAsc then Ascending else Descending))
    && (r.Ok? ==> r.value.totalPages == TotalPages(|listing|, pageSize as nat))
    && (r.Ok? ==> |r.value.content| == Min(pageSize as int, |listing| - Min(offset, |listing|)))
    && (r.Ok? ==> forall i | 0 <= i < |r.value.content| :: offset + i < |listing| && r.value.content[i] == listing[offset + i])
  }

  /** The shared body of the three `getXPage` service methods: the page
      query, then `findAll(pageable)`. */
  function FindPage<T>(listing: seq<T>, pageNumber: int32, pageSize: int32, sortField: string, sortAsc: bool): (r: Result<Page<T>>)
    ensures PageAnswer(listing, pageNumber, pageSize, sortField, sortAsc, r)
  {
    match PageQuery(pageNumber, pageSize, sortField, sortAsc)
    case Err(f) => Err(f)
    case Ok(req) => PageOf(listing, req)
  }

  /** Which page numbers a service answers with a page: a positive one whose
      offset fits in an `int`, or `Integer.MIN_VALUE`, which wraps to the
      largest index, with pages of one record. */
  lemma OffsetFits(pageNumber: int32, pageSize: int32)
    requires pageSize >= 1
    ensures Wrap(pageNumber as int - 1) >= 0 && Wrap(pageNumber as int - 1) as int * pageSize as int <= IntMax
      <==> (pageNumber >= 1 && (pageNumber as int - 1) * pageSize as int <= IntMax) || (pageNumber as int == IntMin && pageSize == 1)
    ensures pageNumber as int != IntMin ==> Wrap(pageNumber as int - 1) as int == pageNumber as int - 1
  {
    if pageNumber as int == IntMin && pageSize >= 2 {
      MulMono(2, pageSize as nat, IntMax);
    }
  }

  /** `Page.getTotalPages`: enough pages of `size` to hold `total` records. */
  function TotalPages(total: nat, size: nat): (n: nat)
    requires size >= 1
    ensures n * size >= total
    ensures n == 0 || (n - 1) * size < total
  {
    (total + size - 1) / size
  }

  function Min(a: int, b: int): int {
    if a <= b then a else b
  }

  /** Records `index * size` up to (not including) `(index + 1) * size`,
      cut at the end of the listing. */
  function Window<T>(items: seq<T>, index: nat, size: nat): seq<T> {
    var lo := Min(index * size, |items|);
    var hi := Min(index * size + size, |items|);
    items[lo..hi]
  }

  /** `findAll(pageable)` on a listing already in sort order. The offset
      `index * size` is a `long`, but the JPA query takes its first result
      as an `int`, so an offset above `Integer.MAX_VALUE` is refused with an
      exception nobody catches. */
  function PageOf<T>(items: seq<T>, req: PageRequest): (r: Result<Page<T>>)
    requires req.size >= 1
    ensures r.Ok? <==> req.index * req.size <= IntMax
    ensures r.Err? ==> r.failure == Failure(Unhandled, OffsetMessage)
    ensures r.Ok? ==> r.value.number == req.index && r.value.totalPages == TotalPages(|items|, req.size)
    ensures r.Ok? ==> r.value.sort == req.sort
    ensures r.Ok? ==> |r.value.content| == Min(req.size, |items| - Min(req.index * req.size, |items|))
    ensures r.Ok? ==> |r.value.content| <= req.size
    ensures r.Ok? ==> (r.value.content != [] <==> req.index < r.value.totalPages)
    ensures r.Ok? && r.value.content != [] ==> req.index * req.size + |r.value.content| <= |items|
    ensures r.Ok? ==> forall i | 0 <= i < |r.value.content| :: r.value.content[i] == items[req.index * req.size + i]
  {
    if req.index * req.size > IntMax then Err(Failure(Unhandled, OffsetMessage))
    else
      var w := Window(items, req.index, req.size);
      WindowFacts(items, req.index, req.size);
      Ok(Page(req.index, TotalPages(|items|, req.size), w, req.sort))
  }

  lemma WindowFacts<T>(items: seq<T>, index: nat, size: nat)
    requires size >= 1
    ensures |Window(items, index, size)| == Min(size, |items| - Min(index * size, |items|))
    ensures |Window(items, index, size)| <= size
    ensures Window(items, index, size) != [] <==> index < TotalPages(|items|, size)
    ensures Window(items, index, size) != [] ==> index * size + |Window(items, index, size)| <= |items|
    ensures forall i | 0 <= i < |Window(items, index, size)| :: Window(items, index, size)[i] == items[index * size + i]
  {
    var n := TotalPages(|items|, size);
    var x := index * size;
    if index < n {
      MulMono(index, n - 1, size);
      assert x < |items|;
    } else {
      MulMono(n, index, size);
      assert x >= |items|;
    }
  }

  lemma MulMono(a: nat, b: nat, c: nat)
    requires a <= b
    ensures a * c <= b * c
  {
  }

  /** The contents of pages `0 .. k-1` laid end to end. */
  function Pages<T>(items: seq<T>, size: nat, k: nat): seq<T> {
    if k == 0 then [] else Pages(items, size, k - 1) + Window(items, k - 1, size)
  }

  lemma {:induction false} PagesArePrefix<T>(items: seq<T>, size: nat, k: nat)
    requires size >= 1
    ensures Pages(items, size, k) == items[..Min(k * size, |items|)]
  {
    if k > 0 {
      PagesArePrefix(items, size, k - 1);
      assert (k - 1) * size + size == k * size;
      MulMono(k - 1, k, size);
    }
  }

  /** Walking the pages in order visits every record of the listing exactly
      once, in listing order. */
  lemma PagesCoverListing<T>(items: seq<T>, size: nat)
    requires size >= 1
    ensures Pages(items, size, TotalPages(|items|, size)) == items
  {
    PagesArePrefix(items, size, TotalPages(|items|, size));
  }

  /** Page 1 of size 5 over three records: page number 0, one page, all
      three records. */
  lemma FirstPageOfThree<T>(a: T, b: T, c: T, field: string)
    requires !IsBlank(field)
    ensures PageQuery(1, 5, field, true).Ok?
    ensures PageOf([a, b, c], PageQuery(1, 5, field, true).value) == Ok(Page(0, 1, [a, b, c], Sort(field, Ascending)))
  {
    assert PageQuery(1, 5, field, true).value == PageRequest(0, 5, Sort(field, Ascending));
    assert Window([a, b, c], 0, 5) == [a, b, c][0..3] == [a, b, c];
    assert TotalPages(3, 5) == 1;
  }

  /** A service asked for page `Integer.MIN_VALUE` of size two, or for page
      300000001 of size ten, fails at the repository call. */
  lemma OversizedPagesFail<T>(listing: seq<T>, field: string)
    requires !IsBlank(field)
    ensures FindPage(listing, IntMin as int32, 2, field, true) == Err(Failure(Unhandled, OffsetMessage))
    ensures FindPage(listing, 300000001, 10, field, true) == Err(Failure(Unhandled, OffsetMessage))
    ensures FindPage(listing, IntMin as int32, 1, field, true).Ok?
  {
  }

  /** A page number of 0 or below is accepted by the resolver but rejected
      here, except `Integer.MIN_VALUE`, whose `pageNumber - 1` wraps round to
      the largest index. */
  lemma IndexWrapsAtIntMin(pageSize: int32, field: string)
    requires pageSize >= 1 && !IsBlank(field)
    ensures PageQuery(0, pageSize, field, true) == Err(Failure(Unhandled, IndexMessage))
    ensures PageQuery(IntMin as int32, pageSize, field, true).Ok?
    ensures PageQuery(IntMin as int32, pageSize, field, true).value.index == IntMax
  {
  }

  /** The wrapped index is accepted by `PageRequest.of` but not by the
      repository: with any page size above one its offset overflows an
      `int`, and so does page 300000001 of size 10. */
  lemma WrappedIndexOverflowsOffset<T>(items: seq<T>, pageSize: int32, field: string)
    requires pageSize >= 2 && !IsBlank(field)
    ensures PageOf(items, PageQuery(IntMin as int32, pageSize, field, true).value) == Err(Failure(Unhandled, OffsetMessage))
    ensures PageQuery(300000001, 10, field, true).Ok?
    ensures PageOf(items, PageQuery(300000001, 10, field, true).value) == Err(Failure(Unhandled, OffsetMessage))
  {
    MulMono(2, pageSize as nat, IntMax);
  }
}
