/**
 * The liked-films listing: pagination parameters, the page window over the
 * stored list (with Go's 64-bit arithmetic and slice-bounds checks) and the
 * optional ascending or descending sort of the page.
 */
module GetLikedFilms {
  import opened Wrappers
  import opened GoRuntime
  import opened GoStrings
  import opened GoStrconv
  import opened Dynamo

  datatype PageableResult = PageableResult(page: int, content: seq<string>, totalCount: int)

  datatype LikedFilmsError =
    | InvalidPagination(size: string, page: string)
    | Panicked(cause: Panic)

  datatype Pagination = Pagination(page: int, size: int)

  /**
   * The `page` and `size` the handler paginates with. Both query parameters
   * must be present to override the defaults (page 0, the whole list); then
   * only the page's parse error is reported, since the size's error is
   * overwritten before it is checked.
   */
  function PaginationParams(totalCount: int, sizeString: string, pageString: string): (r: Result<Pagination, LikedFilmsError>)
    ensures sizeString == "" || pageString == "" ==> r == Ok(Pagination(0, totalCount))
    ensures sizeString != "" && pageString != "" ==> (r.Ok? <==> Atoi(pageString).ok)
    ensures r.Err? ==> r.error == InvalidPagination(sizeString, pageString)
    ensures r.Ok? && sizeString != "" && pageString != "" ==>
      r.value == Pagination(Atoi(pageString).value, Atoi(sizeString).value)
  {
    if sizeString != "" && pageString != "" then
      var size := Atoi(sizeString);
      var page := Atoi(pageString);
      if !page.ok then Err(InvalidPagination(sizeString, pageString))
      else Ok(Pagination(page.value, size.value))
    else Ok(Pagination(0, totalCount))
  }

  /** A size that is not a number is taken as 0 rather than rejected, so the page comes out empty. */
  lemma SizeSyntaxErrorIsIgnored(films: seq<AttributeValue>)
    ensures PaginationParams(|films|, "x", "0") == Ok(Pagination(0, 0))
    ensures Page(films, 0, 0) == Ok([])
  {
  }

  /**
   * The films `paginateFilms` renders: the early return when the start lies
   * past the end, else the slice `[start:end]` with the end clamped to the
   * list, which Go rejects when the start is negative or the end precedes it.
   * Products and sums wrap around as Go's `int` does.
   */
  function Page(films: seq<AttributeValue>, page: int, size: int): (r: Result<seq<AttributeValue>, Panic>)
    ensures r.Err? ==> r.error == SliceBoundsOutOfRange
    ensures r.Ok? ==> |r.value| <= |films|
  {
    var start := Wrap(page * size);
    if start > |films| then Ok([])
    else
      var e := Wrap(start + size);
      var end := if e > |films| then |films| else e;
      if 0 <= start <= end then Ok(films[start..end]) else Err(SliceBoundsOutOfRange)
  }

  /**
   * Without overflow and for non-negative parameters, the page is the films
   * from `page * size` up to `size` further (fewer at the end of the list),
   * and empty when it starts past the end.
   */
  lemma PageWindow(films: seq<AttributeValue>, page: int, size: int)
    requires 0 <= page && 0 <= size && page * size + size <= MaxInt64
    requires IsInt64(|films|)
    ensures page * size > |films| ==> Page(films, page, size) == Ok([])
    ensures page * size <= |films| ==>
      Page(films, page, size) == Ok(films[page * size .. Min(page * size + size, |films|)])
    ensures Page(films, page, size).Ok? && |Page(films, page, size).value| <= size
  {
  }

  /** Every film is on exactly the page and at the position its index determines. */
  lemma FilmOnItsPage(films: seq<AttributeValue>, size: int, k: int)
    requires 0 < size && 0 <= k < |films| && IsInt64(|films|) && |films| + size <= MaxInt64
    ensures var p := Page(films, k / size, size);
      p.Ok? && k % size < |p.value| && p.value[k % size] == films[k]
  {
    var page := k / size;
    var start := page * size;
    DivisionBounds(k, size);
    PageWindow(films, page, size);
    assert films[start .. Min(start + size, |films|)][k % size] == films[k];
  }

  lemma DivisionBounds(k: int, size: int)
    requires 0 < size && 0 <= k
    ensures 0 <= k / size
    ensures (k / size) * size <= k < (k / size) * size + size
    ensures k % size == k - (k / size) * size
  {
  }

  /** With the defaults (page 0, the whole list as one page) every film is listed. */
  lemma DefaultPageIsWholeList(films: seq<AttributeValue>)
    requires IsInt64(|films|)
    ensures Page(films, 0, |films|) == Ok(films)
  {
    PageWindow(films, 0, |films|);
    assert 0 * |films| == 0;
    assert films[0..|films|] == films;
  }

  /** A negative size on a later page reaches the slice with a negative start: a runtime panic. */
  lemma NegativeSizePanics(films: seq<AttributeValue>, page: int, size: int)
    requires 0 < page && size < 0 && IsInt64(page * size)
    ensures Page(films, page, size) == Err(SliceBoundsOutOfRange)
  {
  }

  /** `film.String()` for each film, in order. */
  function Rendered(films: seq<AttributeValue>, render: AttributeValue -> string): (r: seq<string>)
    ensures |r| == |films| && forall i :: 0 <= i < |films| ==> r[i] == render(films[i])
  {
    seq(|films|, i requires 0 <= i < |films| => render(films[i]))
  }

  /** `paginateFilms`: renders the films of the page window, or panics where Go's slice expression would. */
  method PaginateFilms(likedFilms: seq<AttributeValue>, page: int, size: int, render: AttributeValue -> string)
    returns (r: Result<seq<string>, Panic>)
    ensures Page(likedFilms, page, size).Err? ==> r == Err(SliceBoundsOutOfRange)
    ensures Page(likedFilms, page, size).Ok? ==> r == Ok(Rendered(Page(likedFilms, page, size).value, render))
  {
    var paginated: seq<string> := [];
    var start := Wrap(page * size);
    if start > |likedFilms| {
      return Ok(paginated);
    }
    var end := Wrap(start + size);
    if end > |likedFilms| {
      end := |likedFilms|;
    }
    if start < 0 || end < start {
      return Err(SliceBoundsOutOfRange);
    }
    for i := start to end
      invariant paginated == Rendered(likedFilms[start..i], render)
    {
      paginated := paginated + [render(likedFilms[i])];
    }
    assert likedFilms[start..end] == Page(likedFilms, page, size).value;
    r := Ok(paginated);
  }

  /** `x` goes strictly before `y` in the requested direction. */
  predicate Precedes(x: string, y: string, descending: bool)
  {
    if descending then Less(y, x) else Less(x, y)
  }

  /** No film comes before one that should precede it. */
  predicate Ordered(s: seq<string>, descending: bool)
  {
    forall i, j :: 0 <= i < j < |s| ==> !Precedes(s[j], s[i], descending)
  }

  /** Strict precedence is asymmetric, and "not after" is transitive, in both directions. */
  lemma PrecedesOrder(x: string, y: string, z: string, descending: bool)
    ensures Precedes(x, y, descending) ==> !Precedes(y, x, descending)
    ensures !Precedes(y, x, descending) && !Precedes(z, y, descending) ==> !Precedes(z, x, descending)
  {
    LessAsymmetric(x, y);
    LessAsymmetric(y, x);
    if descending {
      LessNegativelyTransitive(z, y, x);
    } else {
      LessNegativelyTransitive(x, y, z);
    }
  }

  /** Once the inner loop stops at `j`, the films `[0, i]` are in order. */
  lemma InsertedInOrder(s: seq<string>, i: int, j: int, descending: bool)
    requires 0 <= j <= i < |s|
    requires forall k, l :: 0 <= k < l <= i && k != j && l != j ==> !Precedes(s[l], s[k], descending)
    requires forall l :: j < l <= i ==> Precedes(s[j], s[l], descending)
    requires j == 0 || !Precedes(s[j], s[j - 1], descending)
    ensures forall k, l :: 0 <= k < l <= i ==> !Precedes(s[l], s[k], descending)
  {
    forall k, l | 0 <= k < l <= i
      ensures !Precedes(s[l], s[k], descending)
    {
      if k == j {
        PrecedesOrder(s[k], s[l], s[l], descending);
      } else if l == j && k < j - 1 {
        PrecedesOrder(s[k], s[j - 1], s[j], descending);
      }
    }
  }

  /** Insertion sort by adjacent swaps: `slices.Sort` (ascending) or `sort.Slice` with `>` (descending). */
  method SortInPlace(a: array<string>, descending: bool)
    modifies a
    ensures Ordered(a[..], descending)
    ensures multiset(a[..]) == multiset(old(a[..]))
  {
    var i := 0;
    while i < a.Length
      invariant 0 <= i <= a.Length
      invariant forall k, l :: 0 <= k < l < i ==> !Precedes(a[l], a[k], descending)
      invariant multiset(a[..]) == multiset(old(a[..]))
    {
      InsertOne(a, i, descending);
      i := i + 1;
    }
  }

  /** One insertion step: `a[i]` moves left past every film it should precede, so `a[..i + 1]` ends up ordered. */
  method InsertOne(a: array<string>, i: int, descending: bool)
    requires 0 <= i < a.Length
    requires forall k, l :: 0 <= k < l < i ==> !Precedes(a[l], a[k], descending)
    modifies a
    ensures forall k, l :: 0 <= k < l <= i ==> !Precedes(a[l], a[k], descending)
    ensures multiset(a[..]) == multiset(old(a[..]))
  {
    var j := i;
    while j > 0 && Precedes(a[j], a[j - 1], descending)
      invariant 0 <= j <= i
      invariant forall k, l :: 0 <= k < l <= i && k != j && l != j ==> !Precedes(a[l], a[k], descending)
      invariant forall l :: j < l <= i ==> Precedes(a[j], a[l], descending)
      invariant multiset(a[..]) == multiset(old(a[..]))
    {
      a[j - 1], a[j] := a[j], a[j - 1];
      j := j - 1;
    }
    InsertedInOrder(a[..], i, j, descending);
  }

  /** What `sortFilms` makes of a page: sorted as asked, or untouched for any other `sort` value. */
  ghost predicate ArrangedAs(sorted: seq<string>, original: seq<string>, sortWay: string)
  {
    && multiset(sorted) == multiset(original)
    && (sortWay == "ASC" ==> Ordered(sorted, false))
    && (sortWay == "DESC" ==> Ordered(sorted, true))
    && (sortWay != "ASC" && sortWay != "DESC" ==> sorted == original)
  }

  /** `sortFilms`: sorts the page in place, ascending for "ASC", descending for "DESC". */
  method SortFilms(likedFilms: array<string>, sortWay: string)
    modifies likedFilms
    ensures ArrangedAs(likedFilms[..], old(likedFilms[..]), sortWay)
  {
    if sortWay == "" {
      return;
    }
    if sortWay == "ASC" {
      SortInPlace(likedFilms, false);
    } else if sortWay == "DESC" {
      SortInPlace(likedFilms, true);
    }
  }

  lemma OrderedTail(s: seq<string>, descending: bool)
    requires |s| > 0 && Ordered(s, descending)
    ensures Ordered(s[1..], descending)
    ensures forall x | x in multiset(s) :: !Precedes(x, s[0], descending)
  {
    forall x | x in multiset(s) ensures !Precedes(x, s[0], descending) {
      assert x in s;
      var k :| 0 <= k < |s| && s[k] == x;
      if k > 0 { assert !Precedes(s[k], s[0], descending); }
      else { LessIrreflexive(x); }
    }
  }

  /** Two ordered arrangements of the same films start with the same film. */
  lemma SameFirst(s: seq<string>, t: seq<string>, descending: bool)
    requires |s| > 0 && Ordered(s, descending) && Ordered(t, descending)
    requires multiset(s) == multiset(t)
    ensures |t| > 0 && s[0] == t[0]
  {
    assert s[0] in s;
    assert |t| > 0 && t[0] in t;
    OrderedTail(s, descending);
    OrderedTail(t, descending);
    assert !Precedes(t[0], s[0], descending) && !Precedes(s[0], t[0], descending);
    LessAntisymmetric(s[0], t[0]);
  }

  /** Two lists with the same multiset and the same first element have tails with the same multiset. */
  lemma TailsSameMultiset(s: seq<string>, t: seq<string>)
    requires |s| > 0 && |t| > 0 && s[0] == t[0] && multiset(s) == multiset(t)
    ensures multiset(s[1..]) == multiset(t[1..])
  {
    assert s == [s[0]] + s[1..] && t == [t[0]] + t[1..];
    assert multiset(s) == multiset{s[0]} + multiset(s[1..]);
    assert multiset(t) == multiset{t[0]} + multiset(t[1..]);
    assert multiset(s[1..]) == multiset(s) - multiset{s[0]};
    assert multiset(t[1..]) == multiset(t) - multiset{t[0]};
  }

  /**
   * Two ordered arrangements of the same films are equal, so the page is
   * fully determined by the films and the direction, whichever sorting
   * algorithm (stable or not) produced it.
   */
  lemma {:induction false} OrderedArrangementIsUnique(s: seq<string>, t: seq<string>, descending: bool)
    requires Ordered(s, descending) && Ordered(t, descending)
    requires multiset(s) == multiset(t)
    ensures s == t
    decreases |s|
  {
    if |s| > 0 {
      SameFirst(s, t, descending);
      OrderedTail(s, descending);
      OrderedTail(t, descending);
      TailsSameMultiset(s, t);
      OrderedArrangementIsUnique(s[1..], t[1..], descending);
      assert s == [s[0]] + s[1..] && t == [t[0]] + t[1..];
    } else {
      assert multiset(t) == multiset{};
    }
  }

  /**
   * The handler's computation after the user lookup: a missing item panics
   * on the nil attribute, otherwise the page of the liked films is rendered,
   * sorted as asked and returned with the page number and the list's length.
   */
  method GetLikedFilms(item: Option<UserFilms>, sizeString: string, pageString: string, sortWay: string,
                       render: AttributeValue -> string)
    returns (r: Result<PageableResult, LikedFilmsError>)
    ensures item.None? ==> r == Err(Panicked(NilPointerDereference))
    ensures item.Some? && PaginationParams(|item.value.likedFilms|, sizeString, pageString).Err? ==>
      r == Err(InvalidPagination(sizeString, pageString))
    ensures item.Some? && PaginationParams(|item.value.likedFilms|, sizeString, pageString).Ok? ==>
      var films := item.value.likedFilms;
      var params := PaginationParams(|films|, sizeString, pageString).value;
      var window := Page(films, params.page, params.size);
      && (window.Err? ==> r == Err(Panicked(SliceBoundsOutOfRange)))
      && (window.Ok? ==>
            && r.Ok?
            && r.value.page == params.page
            && r.value.totalCount == |films|
            && ArrangedAs(r.value.content, Rendered(window.value, render), sortWay))
  {
    if item.None? {
      return Err(Panicked(NilPointerDereference));
    }
    var totalCount := |item.value.likedFilms|;
    var params := PaginationParams(totalCount, sizeString, pageString);
    if params.Err? {
      return Err(params.error);
    }
    var page, size := params.value.page, params.value.size;
    var paginated := PaginateFilms(item.value.likedFilms, page, size, render);
    if paginated.Err? {
      return Err(Panicked(paginated.error));
    }
    var content := paginated.value;
    var likedFilms := new string[|content|](i requires 0 <= i < |content| => content[i]);
    assert likedFilms[..] == content;
    SortFilms(likedFilms, sortWay);
    r := Ok(PageableResult(page, likedFilms[..], totalCount));
  }
}
