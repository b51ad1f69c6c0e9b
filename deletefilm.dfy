/**
 * Removing one film from a user's liked films: the last occurrence of the
 * title is dropped and a conditional update is prepared whose condition
 * compares the stored list with the one read before the removal.
 */
module DeleteLikedFilm {
  import opened Wrappers
  import opened GoRuntime
  import opened Dynamo

  datatype DeleteError =
    | UserNotFound
    | FilmNotFound(film: string)
    | Panicked(cause: Panic)

  /**
   * The `UpdateItem` request: `SET likedFilms = :val` under the condition
   * `attribute_not_exists(likedFilms) OR likedFilms = :oldVal`.
   */
  datatype UpdateRequest = UpdateRequest(newValue: seq<AttributeValue>, oldValue: seq<AttributeValue>)

  /** The store applies the update only if the condition holds; the attribute is present in every stored item. */
  predicate ConditionHolds(stored: seq<AttributeValue>, request: UpdateRequest)
  {
    request.oldValue == stored
  }

  /** Some element has a nil `S`, which `*film.S` dereferences. */
  predicate HasNilString(films: seq<AttributeValue>)
  {
    exists k :: 0 <= k < |films| && films[k].s.None?
  }

  /** The index of the last element holding `film`, or -1 when there is none. */
  function LastIndexOf(films: seq<AttributeValue>, film: string): (r: int)
    ensures -1 <= r < |films|
    ensures r == -1 <==> forall k :: 0 <= k < |films| ==> films[k].s != Some(film)
    ensures r >= 0 ==> films[r].s == Some(film) && forall k :: r < k < |films| ==> films[k].s != Some(film)
    decreases |films|
  {
    if films == [] then -1
    else if films[|films| - 1].s == Some(film) then |films| - 1
    else LastIndexOf(films[..|films| - 1], film)
  }

  /** The scan for the film to remove: every element is dereferenced, the last match wins. */
  method FindFilmToRemove(films: seq<AttributeValue>, filmToRemove: string) returns (r: Result<int, Panic>)
    ensures r.Err? <==> HasNilString(films)
    ensures r.Err? ==> r.error == NilPointerDereference
    ensures r.Ok? ==> r.value == LastIndexOf(films, filmToRemove)
  {
    var filmToRemoveIndex := -1;
    for index := 0 to |films|
      invariant forall k :: 0 <= k < index ==> films[k].s.Some?
      invariant filmToRemoveIndex == LastIndexOf(films[..index], filmToRemove)
    {
      if films[index].s.None? {
        return Err(NilPointerDereference);
      }
      assert films[..index + 1][..index] == films[..index];
      if films[index].s.value == filmToRemove {
        filmToRemoveIndex := index;
      }
    }
    assert films[..|films|] == films;
    r := Ok(filmToRemoveIndex);
  }

  /**
   * `append(old[:i], old[i+1:]...)` on a slice that has room: the tail is
   * shifted one place left inside the same backing array, whose last slot
   * keeps its old element.
   */
  method ShiftOut(a: array<AttributeValue>, i: int)
    requires 0 <= i < a.Length
    modifies a
    ensures forall m :: 0 <= m < i ==> a[m] == old(a[m])
    ensures forall m :: i <= m < a.Length - 1 ==> a[m] == old(a[m + 1])
    ensures a[a.Length - 1] == old(a[a.Length - 1])
  {
    for k := i to a.Length - 1
      invariant forall m :: 0 <= m < i ==> a[m] == old(a[m])
      invariant forall m :: i <= m < k ==> a[m] == old(a[m + 1])
      invariant forall m :: k <= m < a.Length ==> a[m] == old(a[m])
    {
      a[k] := a[k + 1];
    }
  }

  /** The list without its element at `i`. */
  function Removed(films: seq<AttributeValue>, i: int): (r: seq<AttributeValue>)
    requires 0 <= i < |films|
    ensures |r| == |films| - 1
    ensures multiset(r) + multiset{films[i]} == multiset(films)
  {
    assert films == films[..i] + [films[i]] + films[i + 1..];
    films[..i] + films[i + 1..]
  }

  /** What `oldLikedFilms` holds after the in-place removal: the shifted list with the last element repeated. */
  function ShiftedOut(films: seq<AttributeValue>, i: int): (r: seq<AttributeValue>)
    requires 0 <= i < |films|
    ensures |r| == |films|
    ensures forall m :: 0 <= m < i ==> r[m] == films[m]
    ensures forall m :: i <= m < |films| - 1 ==> r[m] == films[m + 1]
    ensures r[|films| - 1] == films[|films| - 1]
  {
    Removed(films, i) + [films[|films| - 1]]
  }

  /** An array that `ShiftOut` produced from `films` reads, as a list, as `ShiftedOut`, and its first `|films| - 1` slots as `Removed`. */
  lemma ShiftedContents(after: seq<AttributeValue>, films: seq<AttributeValue>, i: int)
    requires 0 <= i < |films| && |after| == |films|
    requires forall m :: 0 <= m < i ==> after[m] == films[m]
    requires forall m :: i <= m < |films| - 1 ==> after[m] == films[m + 1]
    requires after[|films| - 1] == films[|films| - 1]
    ensures after[..|films| - 1] == Removed(films, i)
    ensures after == ShiftedOut(films, i)
  {
  }

  /**
   * The handler after the lookup: no item, a nil title in the list and a
   * title that is not there are errors; otherwise the update request as
   * written, whose `:oldVal` aliases the list the removal has shifted.
   */
  method DeleteOneLikedFilm(item: Option<UserFilms>, filmToRemove: string) returns (r: Result<UpdateRequest, DeleteError>)
    ensures item.None? ==> r == Err(UserNotFound)
    ensures item.Some? && HasNilString(item.value.likedFilms) ==> r == Err(Panicked(NilPointerDereference))
    ensures item.Some? && !HasNilString(item.value.likedFilms) ==>
      var films := item.value.likedFilms;
      var i := LastIndexOf(films, filmToRemove);
      && (i == -1 ==> r == Err(FilmNotFound(filmToRemove)))
      && (i >= 0 ==> r == Ok(UpdateRequest(Removed(films, i), ShiftedOut(films, i))))
  {
    if item.None? {
      return Err(UserNotFound);
    }
    var films := item.value.likedFilms;
    var found := FindFilmToRemove(films, filmToRemove);
    if found.Err? {
      return Err(Panicked(found.error));
    }
    var filmToRemoveIndex := found.value;
    if filmToRemoveIndex == -1 {
      return Err(FilmNotFound(filmToRemove));
    }
    var oldLikedFilms := new AttributeValue[|films|](k requires 0 <= k < |films| => films[k]);
    assert oldLikedFilms[..] == films;
    ShiftOut(oldLikedFilms, filmToRemoveIndex);
    ShiftedContents(oldLikedFilms[..], films, filmToRemoveIndex);
    var resultLikedFilms := oldLikedFilms[..|films| - 1];
    r := Ok(UpdateRequest(resultLikedFilms, oldLikedFilms[..]));
  }

  /**
   * The request as written passes its own condition exactly when every
   * element after the removed one equals its successor, which holds for the
   * last element and fails for most others.
   */
  lemma ShiftedOutMatchesStoredIff(films: seq<AttributeValue>, i: int)
    requires 0 <= i < |films|
    ensures ShiftedOut(films, i) == films <==> forall k :: i <= k < |films| - 1 ==> films[k] == films[k + 1]
  {
  }

  /** Removing "A" from ["A", "B"] sends `:oldVal` ["B", "B"], so the stored list never matches and the update is refused. */
  lemma RemovingFirstOfTwoIsRefused()
    ensures var films := [StringValue("A"), StringValue("B")];
      LastIndexOf(films, "A") == 0
      && !ConditionHolds(films, UpdateRequest(Removed(films, 0), ShiftedOut(films, 0)))
  {
  }

  /** The evidently intended handler: `:oldVal` is the list as it was read, so the condition holds against an unchanged store. */
  method DeleteOneLikedFilmCorrected(item: Option<UserFilms>, filmToRemove: string) returns (r: Result<UpdateRequest, DeleteError>)
    ensures item.None? ==> r == Err(UserNotFound)
    ensures item.Some? && HasNilString(item.value.likedFilms) ==> r == Err(Panicked(NilPointerDereference))
    ensures item.Some? && !HasNilString(item.value.likedFilms) ==>
      var films := item.value.likedFilms;
      var i := LastIndexOf(films, filmToRemove);
      && (i == -1 ==> r == Err(FilmNotFound(filmToRemove)))
      && (i >= 0 ==> r == Ok(UpdateRequest(Removed(films, i), films)))
    ensures r.Ok? ==> item.Some? && ConditionHolds(item.value.likedFilms, r.value)
  {
    if item.None? {
      return Err(UserNotFound);
    }
    var films := item.value.likedFilms;
    var found := FindFilmToRemove(films, filmToRemove);
    if found.Err? {
      return Err(Panicked(found.error));
    }
    var filmToRemoveIndex := found.value;
    if filmToRemoveIndex == -1 {
      return Err(FilmNotFound(filmToRemove));
    }
    r := Ok(UpdateRequest(films[..filmToRemoveIndex] + films[filmToRemoveIndex + 1..], films));
  }
}
