# Film recommendation handlers: a verified model

This project models the deterministic logic inside the Go request handlers of the film
recommendation service. The service remembers which films a user liked and disliked,
asks a language model for new titles, and enriches those titles with metadata from The
Movie Database (TMDB). The model covers:

- **Catalog enrichment** (`get-films/tmdb/webClient.go`):
  - choosing a catalog id for a title;
  - keeping the directing credits;
  - shaping the poster and backdrop lists;
  - assembling one output record per recommendation;
  - collecting the per-title results in `NormalizeFilms`.
- **Prompt building** (`get-films/main.go`): the film count sent to the language model, and
  the prompt made from the stored liked and unliked films plus the titles to exclude.
- **Liked-films listing** (`get-liked-films/main.go`): the pagination parameters, the page
  window with Go's 64-bit arithmetic and slice-bounds panics, and the ascending or
  descending sort.
- **Removing a liked film** (`delete-one-liked-films/main.go`): finding the last occurrence,
  shifting it out in place, and the conditional update request.
- **Liking or unliking a film** (`update-user-films/main.go`): extracting the access token,
  finding the e-mail attribute, and merging the new film into the stored lists.

Modules:

| module | file | models |
|---|---|---|
| `Wrappers` | `wrappers.dfy` | `Option` and `Result` |
| `GoRuntime` | `goruntime.dfy` | Go runtime panics and 64-bit `int` wrap-around |
| `GoStrconv` | `gostrconv.dfy` | `strconv.Atoi`, including its range-error clamping |
| `GoStrings` | `gostrings.dfy` | `strings.ReplaceAll`, `TrimPrefix`, `Join`, and Go's byte-wise string order |
| `Dynamo` | `dynamo.dfy` | the stored `AttributeValue` lists of table `user_films` |
| `Tmdb` | `tmdb.dfy` | the catalog client |
| `GetFilms` | `getfilms.dfy` | prompt building |
| `GetLikedFilms` | `likedfilms.dfy` | the liked-films listing |
| `DeleteLikedFilm` | `deletefilm.dfy` | removing a liked film |
| `UpdateUserFilms` | `updatefilms.dfy` | liking and unliking |

Three behaviours of the code are easy to misread. The model keeps the first two as written and leaves the third out:

- **Collection order.** The code pairs the i-th lookup to *arrive* with the i-th title,
  so a record can carry another title's data. `Tmdb.CollectFilms` models this; a
  corrected collection is a separate member (see Findings).
- **Title filter.** The filter uses the title of the *first search result*, not the
  requested title.
- **Sub-fetch errors.** The three sub-fetches write one shared error field, so the last
  writer wins, not the first failure. The model leaves these goroutines out (see Left
  out): a lookup's error field is an input to the collection.

The HTTP fetches with their JSON decoding, the identity provider's user lookup, the
store lookup of the update handler (`getItem`) and `AttributeValue.String()` are function
parameters of the members that call them. The other handlers read the store once before
the modelled logic, so `GetFilms.ConstructMessageContent`, `GetLikedFilms.GetLikedFilms`
and `DeleteLikedFilm.DeleteOneLikedFilm` take the stored item as a value. A missing
stored item is `None`. A Go runtime panic is an `Err` holding a `GoRuntime.Panic`.

## Model

| member | source | states |
|---|---|---|
| GoRuntime.Wrap | get-liked-films/main.go:111-117 | The result is a 64-bit signed integer congruent to the argument modulo 2^64, and an argument already in range is unchanged (Go `int` overflow) |
| GoStrconv.Atoi | get-films/main.go:129 | The value is always in the 64-bit range; on failure it is 0 (syntax error) or the clamped bound (range error); the empty string never parses |
| GoStrconv.ScanDecimal | get-films/main.go:129 | The digit loop of `strconv.ParseUint`: a value it finds is at least the accumulator and at most the largest 64-bit unsigned value |
| GoStrconv.AtoiAcceptsOnlyNumerals | get-films/main.go:129-134 | A string that parses is non-empty and consists of decimal digits with at most a leading sign |
| GoStrconv.AtoiNumeralRoundTrip | get-liked-films/main.go:61-62 | Every 64-bit integer written in decimal (with `-` when negative) parses back to itself with no error |
| GoStrings.ReplaceAllRemovesAll | get-films/main.go:169 | After replacing every occurrence of a pattern by a non-empty replacement that shares no character with it, the pattern no longer occurs |
| GoStrings.ReplaceCharAbsent | get-films/tmdb/webClient.go:128 | Replacing a character leaves a text that does not contain it unchanged, which is why a title without spaces goes into the URL as it is |
| GoStrings.Join | get-films/main.go:158-165 | A non-empty list's join starts with its first element and ends with its last; with two or more elements it is at least as long as they and one separator |
| GoStrings.LessIrreflexive | get-liked-films/main.go:134-139 | No string comes before itself in byte-wise order |
| GoStrings.ProperPrefixIsLess | get-liked-films/main.go:134-139 | A proper prefix comes before the longer string |
| GoStrings.TrimPrefix | update-user-films/main.go:93 | With the prefix present, prefix + result is the input; otherwise the result is the input |
| GoStrings.LessTotal | get-liked-films/main.go:134-139 | Two different strings are ordered one way or the other |
| GoStrings.LessTransitive | get-liked-films/main.go:134-139 | String order is transitive |
| GoStrings.LessAntisymmetric | get-liked-films/main.go:134-139 | Strings neither of which is less than the other are equal |
| GoStrings.LessNegativelyTransitive | get-liked-films/main.go:134-139 | "Not after" is transitive, which lets adjacent swaps sort |
| Tmdb.SearchUrl | get-films/tmdb/webClient.go:128 | The search URL holds no space, and for a title without spaces it is the template with the title in place of `{query}` |
| Tmdb.SearchUrlShape | get-films/tmdb/webClient.go:128 | The search URL is the fixed head, the title with each space written `%20`, and the fixed tail with `{year}` left in place |
| Tmdb.QuerySubstituted | get-films/tmdb/webClient.go:128 | Substituting `{query}` changes only the placeholder and leaves `{year}` |
| Tmdb.SpacesEscaped | get-films/tmdb/webClient.go:128 | Escaping spaces changes only the substituted title |
| Tmdb.FilterResponseResultByName | get-films/tmdb/webClient.go:157-166 | The loop returns the results whose title equals the name, in result order |
| Tmdb.TitleMatchesMembers | get-films/tmdb/webClient.go:157-166 | An entry is kept exactly when it is a result with that title |
| Tmdb.FirstResultMatchesItself | get-films/tmdb/webClient.go:149 | The first result is among the matches of its own title, so indexing the filtered list at 0 is safe |
| Tmdb.MostPopular | get-films/tmdb/webClient.go:150-154 | The chosen entry is one of the candidates and no candidate is more popular |
| Tmdb.TieBreakExample | get-films/tmdb/webClient.go:149-154 | For results X/5, X/9, Y/20 the entry with popularity 9 is chosen |
| Tmdb.SearchForMovie | get-films/tmdb/webClient.go:145-154 | A fetch error or an empty result list gives an error and id 0; otherwise the id belongs to an entry titled like the first result, and no such entry is more popular |
| Tmdb.SearchForDirector | get-films/tmdb/webClient.go:186-197 | The result is the names of the crew whose job is exactly "Director"; none gives `DirectorNotFound` with an empty slice; a fetch error is passed on |
| Tmdb.DirectorNamesMembers | get-films/tmdb/webClient.go:186-191 | A name is listed exactly when some crew entry with that name has the job "Director" |
| Tmdb.DirectorNamesConcat | get-films/tmdb/webClient.go:187-191 | The filter preserves crew order across concatenation |
| Tmdb.DirectorNamesExample | get-films/tmdb/webClient.go:186-191 | Crew A/Director, B/Producer, C/Director gives exactly ["A", "C"] |
| Tmdb.PrefixFirstImages | get-films/tmdb/webClient.go:218-226 | In place, the first min(n, 4) entries get the image prefix and the rest are unchanged; the kept length is min(n, 4) |
| Tmdb.GetImages | get-films/tmdb/webClient.go:218-237 | Posters and backdrops each keep their first min(n, 4) entries, entry k being prefix + original path k; a fetch error gives empty lists |
| Tmdb.SixPostersKeepFour | get-films/tmdb/webClient.go:218-226 | Six posters give exactly four prefixed ones |
| Tmdb.YearOf | get-films/tmdb/webClient.go:91-94 | The year has length 4 when the date has at least 4 characters and 0 otherwise, and is a prefix of the date |
| Tmdb.YearExample | get-films/tmdb/webClient.go:91-94 | "1999-03-12" has the year "1999" |
| Tmdb.GenreNames | get-films/tmdb/webClient.go:86-89 | One name per genre, in order |
| Tmdb.CollectGenreNames | get-films/tmdb/webClient.go:86-89 | The genre loop yields the genre names in order |
| Tmdb.FilmRecordNamedByRecommendation | get-films/tmdb/webClient.go:85-103 | The record is named by the recommended string, carries the genre names in order, and has the 4-character year or the empty one |
| Tmdb.ConstructFilm | get-films/tmdb/webClient.go:85-103 | `constructFilm` builds exactly that record |
| Tmdb.ConstructFilmAndAppend | get-films/tmdb/webClient.go:240-255 | It panics exactly when the release date is shorter than 4 characters; otherwise it appends the record |
| Tmdb.EmptyReleaseDateHasEmptyYear | get-films/tmdb/webClient.go:91-94 | An empty release date gives the empty year rather than a panic |
| Tmdb.Collected | get-films/tmdb/webClient.go:71-79 | On success one record per arrival; a failure carries the error of some arrival |
| Tmdb.CollectFilms | get-films/tmdb/webClient.go:71-79 | The loop over the arrivals computes `Collected`: the first error, or one record per arrival |
| Tmdb.CollectedKeepsError | get-films/tmdb/webClient.go:73-75 | Once a prefix of the arrivals has failed, more arrivals keep that error |
| Tmdb.CollectedFailsOnError | get-films/tmdb/webClient.go:73-75 | One arrival with an error makes the whole collection fail |
| Tmdb.CollectedFirstError | get-films/tmdb/webClient.go:73-75 | A failed collection carries the error of the first arrival that has one; every earlier arrival succeeded |
| Tmdb.CollectedFailsFast | get-films/tmdb/webClient.go:71-75 | Collection fails exactly when some arrival carries an error, and then with the first such error in arrival order |
| Tmdb.CollectedPairsByArrival | get-films/tmdb/webClient.go:71-79 | On success there is one record per arrival; record i is built from arrival i and named `recommendedFilms[i]` |
| Tmdb.CollectedMislabelsOutOfOrderArrivals | get-films/tmdb/webClient.go:77 | When the lookup for "B" arrives first, the record named "A" carries the overview of "B" |
| Tmdb.CollectFilmsInInputOrder | get-films/tmdb/webClient.go:71-79 | Corrected collection: the same fail-fast error, otherwise record p is built from the lookup launched for title p and named by it |
| GetFilms.GetFilmCount | get-films/main.go:123-135 | "5" for an empty parameter, a non-integer or a value ≤ 0; otherwise the parameter unchanged |
| GetFilms.FilmCountIsPositive | get-films/main.go:123-135 | The count always parses as a positive integer, and defaulting it again changes nothing |
| GetFilms.PresentStringsMembers | get-films/main.go:140-151 | A title is collected exactly when some stored element holds it (nil strings skipped) |
| GetFilms.PresentStringsConcat | get-films/main.go:140-151 | Collection keeps stored order |
| GetFilms.ExcludedFilms | get-films/main.go:140-154 | The exclusions start with the caller's titles, and a title is excluded exactly when the caller named it or a stored liked or unliked element holds it |
| GetFilms.CollectStoredFilms | get-films/main.go:140-154 | The two loops collect the stored unliked and liked titles, skipping nil strings, and append them to the caller's exclusions: unliked first, then liked |
| GetFilms.Prompt | get-films/main.go:156-166 | The prompt starts with the template sentence and, with a stored item, ends with the exclude sentence |
| GetFilms.ListSentence | get-films/main.go:157-162 | A list sentence is empty exactly when its list is |
| GetFilms.ConstructMessageContent | get-films/main.go:137-170 | The message is the prompt (template, liked, unliked and exclude sentences; exclusions are the caller's, then unliked, then liked) with `{filmCount}` replaced everywhere |
| GetFilms.MessageWithoutItem | get-films/main.go:165-169 | With no stored item the message is "Recommend me exactly " + count + " film." |
| GetFilms.PromptSentences | get-films/main.go:155-163 | With an item, the liked and unliked sentences appear only for non-empty lists and the exclude sentence always appears |
| GetFilms.FilmCountDisjointFromPlaceholder | get-films/main.go:123-135 | The count is non-empty and has no character of `{filmCount}` |
| GetFilms.MessageHasNoPlaceholder | get-films/main.go:169 | With the count from `getFilmCount`, no `{filmCount}` is left, even one written inside a film name |
| GetLikedFilms.PaginationParams | get-liked-films/main.go:54-71 | Defaults are page 0 and the whole list unless both parameters are present; then only the page's parse error is reported and the size is `Atoi`'s value even on error |
| GetLikedFilms.SizeSyntaxErrorIsIgnored | get-liked-films/main.go:61-64 | size "x" with page "0" is accepted as size 0 and gives an empty page |
| GetLikedFilms.Page | get-liked-films/main.go:108-127 | A panic is a slice-bounds panic; a page is never longer than the list |
| GetLikedFilms.PageWindow | get-liked-films/main.go:111-124 | For non-negative parameters without overflow: empty when `page*size > len`, otherwise elements `[page*size, min(page*size+size, len))`, at most `size` of them |
| GetLikedFilms.FilmOnItsPage | get-liked-films/main.go:111-124 | For size > 0, film k is at position k mod size of page k div size |
| GetLikedFilms.DefaultPageIsWholeList | get-liked-films/main.go:55-73 | With the defaults the page is the entire list |
| GetLikedFilms.NegativeSizePanics | get-liked-films/main.go:111-122 | A negative size on a positive page reaches a negative slice start and panics |
| GetLikedFilms.Rendered | get-liked-films/main.go:122-124 | One rendered string per film, in order |
| GetLikedFilms.PaginateFilms | get-liked-films/main.go:108-127 | The loop renders exactly the films of the page window, or panics where the slice would |
| GetLikedFilms.PrecedesOrder | get-liked-films/main.go:134-139 | In either direction precedence is asymmetric and "not after" is transitive |
| GetLikedFilms.SortInPlace | get-liked-films/main.go:134-139 | The array ends up ordered in the requested direction and is a permutation of the original |
| GetLikedFilms.SortFilms | get-liked-films/main.go:129-143 | "ASC" sorts ascending, "DESC" descending, each a permutation; "" or any other value leaves the array unchanged |
| GetLikedFilms.OrderedArrangementIsUnique | get-liked-films/main.go:134-139 | Two ordered permutations of the same list are equal, so this sort and `slices.Sort` or `sort.Slice` give the same page |
| GetLikedFilms.GetLikedFilms | get-liked-films/main.go:55-79 | No item is a nil-pointer panic; a page parse error is reported; otherwise the page number, the full list's length as `totalCount`, and the rendered page sorted as asked |
| DeleteLikedFilm.LastIndexOf | delete-one-liked-films/main.go:61-66 | -1 exactly when no element holds the film; otherwise an index holding it with no later one |
| DeleteLikedFilm.FindFilmToRemove | delete-one-liked-films/main.go:60-66 | Panics exactly when some element has a nil string; otherwise it returns the last index of the film |
| DeleteLikedFilm.ShiftOut | delete-one-liked-films/main.go:74 | In place, the elements before i stay, those after move one place left, and the last slot keeps its element |
| DeleteLikedFilm.Removed | delete-one-liked-films/main.go:74 | The result is one shorter and, with the removed element added back, the same multiset |
| DeleteLikedFilm.ShiftedOut | delete-one-liked-films/main.go:74 | What `oldLikedFilms` holds after the removal: as long as the list, the same before i, each later element moved one place left, and the last slot unchanged |
| DeleteLikedFilm.DeleteOneLikedFilm | delete-one-liked-films/main.go:51-90 | No item gives "user not found"; a nil title panics; an absent film gives "not found"; otherwise `:val` is the list without its last occurrence and `:oldVal` is that list plus the former last element |
| DeleteLikedFilm.ShiftedOutMatchesStoredIff | delete-one-liked-films/main.go:83-90 | The `:oldVal` sent matches the stored list exactly when every element from the removed position on equals its successor |
| DeleteLikedFilm.RemovingFirstOfTwoIsRefused | delete-one-liked-films/main.go:74-90 | Removing "A" from ["A", "B"] sends ["B", "B"], so the update condition fails |
| DeleteLikedFilm.DeleteOneLikedFilmCorrected | delete-one-liked-films/main.go:51-90 | Corrected: the same errors and `:val`, with `:oldVal` the list as read, so the condition holds |
| UpdateUserFilms.AccessToken | update-user-films/main.go:92-93 | One leading "Bearer " is removed when present; otherwise the header is unchanged |
| UpdateUserFilms.FirstEmail | update-user-films/main.go:103-111 | The value of the first attribute named "email", or "" when there is none |
| UpdateUserFilms.UserAttributes | update-user-films/main.go:97-103 | A failed lookup, whose error is discarded, leaves the SDK's empty output: no attributes, so no e-mail; a successful one gives the returned attributes |
| UpdateUserFilms.GetUserEmail | update-user-films/main.go:91-111 | The scan with `break` returns the first e-mail attribute's value; a failed user lookup has no attributes and gives "" |
| UpdateUserFilms.MergeFilms | update-user-films/main.go:23-59 | The liked (unliked) multiset grows by the film exactly for "like" ("unlike"); nothing is deduplicated |
| UpdateUserFilms.LikePutsFilmFirst | update-user-films/main.go:28-58 | "like" prepends the film to the stored liked list and keeps the unliked list |
| UpdateUserFilms.UnlikePutsFilmFirst | update-user-films/main.go:30-58 | "unlike" prepends the film to the stored unliked list and keeps the liked list |
| UpdateUserFilms.OtherMethodKeepsLists | update-user-films/main.go:28-58 | Any other method writes the stored lists back unchanged |
| UpdateUserFilms.NewUserGetsOnlyNewEntry | update-user-films/main.go:53-55 | With no stored item each list is just the zero-or-one new entry |
| UpdateUserFilms.HandleUpdate | update-user-films/main.go:21-71 | The item put is keyed by the first e-mail and holds the merged lists of the item stored under that e-mail; after a failed user lookup both the read and the put use the key "" |

## Left out

- Concurrency in `NormalizeFilms`:
  - the goroutine per title;
  - the three sub-fetch goroutines with their `WaitGroup`;
  - the channel.

  The collection loop runs over an arbitrary arrival sequence.
- The data race on `data.err` between the three sub-fetch goroutines is not modelled. A lookup's outcome is whatever error field it sends.
- HTTP requests, `io.ReadAll` and `json.Unmarshal` are function parameters yielding the decoded response or an error. Building the details, credits and images URLs from the id is folded into those parameters.
- `searchForMovieDetails` is a fetch and decode only. Its result is the `movie` field of an arrival.
- `json.Marshal` of the records and of the page result is not modelled, nor its error path. JSON `null` versus `[]` for nil and empty slices is not distinguished either.
- DynamoDB calls are not modelled:
  - the stored item is an input;
  - the update and put requests are returned rather than executed;
  - a present item always has both list attributes (a missing one would be a nil-pointer panic).
- The update handler keys items by `email` while the other handlers key by `id`. The store is not modelled, so this is not either.
- The language-model call and the parsing of its answer are not part of this model. `getUserIdAndVerify` (`uuid.Parse`) is not part of it either.
- The identity provider's `GetUser` is a parameter. The code discards its error. The SDK still hands back its allocated, empty output, so a failed lookup has no attributes and the e-mail is "". A nil attribute name or value, which `*attr.Name` and `*attr.Value` would dereference (`update-user-films/main.go:105-106`), is not modelled.
- All four fetchers discard the error of `http.DefaultClient.Do` (`get-films/tmdb/webClient.go:110`, `:132`, `:172`, `:204`). After a transport failure `res` is nil, and `res.Body.Close()` panics inside a goroutine, which ends the process. This crash is not modelled: the `fetch…` parameters yield only the errors of `io.ReadAll` and `json.Unmarshal`, so "a fetch error" in the contracts means one of those.
- All four fetchers also discard the error of `http.NewRequest` (`get-films/tmdb/webClient.go:107`, `:129`, `:169`, `:201`). A URL it rejects leaves `req` nil, and `req.Header.Add` (`:108`, `:130`, `:170`, `:202`) then panics inside a goroutine. The request layer is not modelled, so neither is this crash.
- Tmdb.YearOf and Tmdb.ConstructFilmAndAppend count characters, while Go's `len(movie.ReleaseDate) >= 4`, `[:4]` and `[0:4]` (`get-films/tmdb/webClient.go:92-93`, `:249`) count bytes. The two agree on ASCII dates, which is what TMDB sends (`YYYY-MM-DD` or ""), and differ on a date with a multi-byte character in its first four bytes.
- `AttributeValue.String()` is the SDK's debug formatter and is an opaque `render` parameter.
- `log.Fatalf` exits the process before the error responses it precedes are returned. The model returns the error cause instead, and status codes and bodies are not modelled.
- `clear-state-films/main.go` is only a store delete and is not part of this model.
- Tmdb.SearchUrlShape: only spaces are escaped, as in the code. Other reserved characters are not percent-encoded (section 2.1 of RFC 3986), and the model says nothing about them.
- Tmdb.SearchForMovie: `sort.Slice` is not stable, so among equally popular candidates the code may return any one. The contract promises only an entry that no candidate exceeds.
- Tmdb.MostPopular: float64 popularities are `real`s. They are only compared, and NaN is not modelled.
- GetLikedFilms.SortInPlace: an insertion sort stands in for `slices.Sort` and `sort.Slice`. `OrderedArrangementIsUnique` shows that any correct sort gives the same result.
- GetFilms.ConstructMessageContent: `excludedFilms` may share the caller's backing array when appended to. No caller observes this, so it is not modelled.

## Findings

| source | as written | input that shows it | evidently intended | confidence | as-written member | corrected member |
|---|---|---|---|---|---|---|
| get-films/tmdb/webClient.go:71-79 | The i-th message taken from the channel is named `recommendedFilms[i]`, whatever title it was looked up for | Titles ["A", "B"] where the lookup for "B" finishes first: the record named "A" carries B's year, genres, directors, overview and images | Each record is built from the lookup of its own title, in input order | high, not executed | Tmdb.CollectedMislabelsOutOfOrderArrivals | Tmdb.CollectFilmsInInputOrder |
| delete-one-liked-films/main.go:74-90 | `append(old[:i], old[i+1:]...)` shifts the stored list in its own backing array, and that shifted slice is sent as `:oldVal` | Liked films ["A", "B"], remove "A": `:oldVal` is ["B", "B"], the condition `likedFilms = :oldVal` fails and the update is refused | `:oldVal` is the list as read, so the update succeeds when nothing changed concurrently | high, not executed | DeleteLikedFilm.RemovingFirstOfTwoIsRefused | DeleteLikedFilm.DeleteOneLikedFilmCorrected |
