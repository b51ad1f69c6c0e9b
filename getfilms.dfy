/**
 * The request-shaping part of the recommendation handler: the film count it
 * asks for and the prompt it builds from the stored liked and unliked films
 * and the titles the caller wants excluded.
 */
module GetFilms {
  import opened Wrappers
  import opened GoStrings
  import opened GoStrconv
  import opened Dynamo

  const DefaultFilmCount := "5"
  const FilmCountPlaceholder := "{filmCount}"
  /**
   * Spelt in pieces around the placeholder: "Recommend me exactly {filmCount} film."
   * The short pieces keep the proofs that a brace is absent from them cheap.
   */
  const TemplateHead := "Recommend me exa" + "ctly "
  const TemplateTail := " film."
  const RecommendationTemplateBeginning := TemplateHead + FilmCountPlaceholder + TemplateTail

  const LikedIntro := "\nI like the following films: "
  const UnlikedIntro := "\nI do not like the following films: "
  const ExcludeIntro := "\nExclude the following films: "

  /**
   * `getFilmCount` on the `filmCount` query parameter (the empty string when
   * absent): the default "5" unless the parameter parses as a positive
   * integer, in which case the parameter itself, not a re-formatted number.
   */
  function GetFilmCount(filmCount: string): (r: string)
    ensures filmCount == "" ==> r == DefaultFilmCount
    ensures !Atoi(filmCount).ok || Atoi(filmCount).value <= 0 ==> r == DefaultFilmCount
    ensures Atoi(filmCount).ok && Atoi(filmCount).value > 0 ==> r == filmCount
  {
    if filmCount == "" then DefaultFilmCount
    else
      var parsed := Atoi(filmCount);
      if parsed.value <= 0 || !parsed.ok then DefaultFilmCount else filmCount
  }

  /** The count put into the prompt always reads as a positive integer, and defaulting again changes nothing. */
  lemma FilmCountIsPositive(filmCount: string)
    ensures Atoi(GetFilmCount(filmCount)).ok && Atoi(GetFilmCount(filmCount)).value > 0
    ensures GetFilmCount(GetFilmCount(filmCount)) == GetFilmCount(filmCount)
  {
  }

  /** The non-nil strings of a stored list, in list order (elements whose `S` is nil are skipped). */
  function PresentStrings(films: seq<AttributeValue>): seq<string>
    decreases |films|
  {
    if films == [] then []
    else
      var last := films[|films| - 1];
      PresentStrings(films[..|films| - 1]) + (if last.s.Some? then [last.s.value] else [])
  }

  /** A string is collected exactly when some element holds it. */
  lemma {:induction false} PresentStringsMembers(films: seq<AttributeValue>)
    ensures forall x :: x in PresentStrings(films) <==> exists k :: 0 <= k < |films| && films[k].s == Some(x)
    decreases |films|
  {
    if films != [] {
      var init := films[..|films| - 1];
      PresentStringsMembers(init);
      forall x ensures x in PresentStrings(films) <==> exists k :: 0 <= k < |films| && films[k].s == Some(x) {
        if x in PresentStrings(init) {
          var k :| 0 <= k < |init| && init[k].s == Some(x);
          assert films[k] == init[k];
        }
        if exists k :: 0 <= k < |films| && films[k].s == Some(x) {
          var k :| 0 <= k < |films| && films[k].s == Some(x);
          if k < |init| { assert init[k] == films[k]; }
        }
      }
    }
  }

  /** Collecting keeps list order: the strings of two lists one after the other. */
  lemma {:induction false} PresentStringsConcat(a: seq<AttributeValue>, b: seq<AttributeValue>)
    ensures PresentStrings(a + b) == PresentStrings(a) + PresentStrings(b)
    decreases |b|
  {
    if b == [] {
      assert a + b == a;
    } else {
      var init := b[..|b| - 1];
      PresentStringsConcat(a, init);
      assert (a + b)[..|a + b| - 1] == a + init;
    }
  }

  /** A sentence listing `films`, present only when there is at least one. */
  function ListSentence(intro: string, films: seq<string>): (r: string)
    ensures films == [] <==> r == ""
  {
    if |films| > 0 then intro + Join(films, ", ") + "." else ""
  }

  /**
   * The titles to exclude: the caller's, then the stored unliked films, then
   * the stored liked films; a title is excluded exactly when the caller named
   * it or a stored element of either list holds it.
   */
  function ExcludedFilms(films: UserFilms, filmsToExclude: seq<string>): (r: seq<string>)
    ensures |filmsToExclude| <= |r| && r[..|filmsToExclude|] == filmsToExclude
    ensures forall x :: x in r <==>
      || x in filmsToExclude
      || (exists k :: 0 <= k < |films.unlikedFilms| && films.unlikedFilms[k].s == Some(x))
      || (exists k :: 0 <= k < |films.likedFilms| && films.likedFilms[k].s == Some(x))
  {
    PresentStringsMembers(films.unlikedFilms);
    PresentStringsMembers(films.likedFilms);
    filmsToExclude + PresentStrings(films.unlikedFilms) + PresentStrings(films.likedFilms)
  }

  /**
   * The prompt before `{filmCount}` is substituted: it starts with the
   * template sentence and, when there is a stored item, ends with the
   * exclude sentence.
   */
  function Prompt(item: Option<UserFilms>, filmsToExclude: seq<string>): (r: string)
    ensures HasPrefix(r, RecommendationTemplateBeginning)
    ensures item.Some? ==> HasSuffix(r, ExcludeIntro + Join(ExcludedFilms(item.value, filmsToExclude), ", "))
  {
    match item
    case None => RecommendationTemplateBeginning
    case Some(films) =>
      var liked := ListSentence(LikedIntro, PresentStrings(films.likedFilms));
      var unliked := ListSentence(UnlikedIntro, PresentStrings(films.unlikedFilms));
      var excluded := Join(ExcludedFilms(films, filmsToExclude), ", ");
      ConcatEnds(RecommendationTemplateBeginning, liked, unliked, ExcludeIntro, excluded);
      RecommendationTemplateBeginning + liked + unliked + ExcludeIntro + excluded
  }

  /** A text of five parts starts with the first and ends with the last two. */
  lemma ConcatEnds(a: string, b: string, c: string, d: string, e: string)
    ensures HasPrefix(a + b + c + d + e, a)
    ensures HasSuffix(a + b + c + d + e, d + e)
  {
    var s := a + b + c + d + e;
    assert s == (a + b + c) + (d + e);
  }

  /**
   * The two loops of `constructMessageContent`: the present strings of the
   * stored unliked and liked films, each also appended to the exclusions.
   */
  method CollectStoredFilms(stored: UserFilms, filmsToExclude: seq<string>)
    returns (excludedFilms: seq<string>, unlikedFilms: seq<string>, likedFilms: seq<string>)
    ensures unlikedFilms == PresentStrings(stored.unlikedFilms)
    ensures likedFilms == PresentStrings(stored.likedFilms)
    ensures excludedFilms == ExcludedFilms(stored, filmsToExclude)
  {
    excludedFilms := filmsToExclude;
    unlikedFilms := [];
    likedFilms := [];
    for i := 0 to |stored.unlikedFilms|
      invariant unlikedFilms == PresentStrings(stored.unlikedFilms[..i])
      invariant excludedFilms == filmsToExclude + unlikedFilms
    {
      assert stored.unlikedFilms[..i + 1][..i] == stored.unlikedFilms[..i];
      var v := stored.unlikedFilms[i];
      if v.s.Some? {
        excludedFilms := excludedFilms + [v.s.value];
        unlikedFilms := unlikedFilms + [v.s.value];
      }
    }
    assert stored.unlikedFilms[..|stored.unlikedFilms|] == stored.unlikedFilms;
    for i := 0 to |stored.likedFilms|
      invariant likedFilms == PresentStrings(stored.likedFilms[..i])
      invariant excludedFilms == filmsToExclude + unlikedFilms + likedFilms
    {
      assert stored.likedFilms[..i + 1][..i] == stored.likedFilms[..i];
      var v := stored.likedFilms[i];
      if v.s.Some? {
        excludedFilms := excludedFilms + [v.s.value];
        likedFilms := likedFilms + [v.s.value];
      }
    }
    assert stored.likedFilms[..|stored.likedFilms|] == stored.likedFilms;
  }

  /**
   * `constructMessageContent`: collects the stored films (skipping nil
   * strings), adds the sentences and substitutes the film count everywhere.
   */
  method ConstructMessageContent(item: Option<UserFilms>, filmCount: string, filmsToExclude: seq<string>)
    returns (message: string)
    ensures message == ReplaceAll(Prompt(item, filmsToExclude), FilmCountPlaceholder, filmCount)
  {
    var messageContent: string;
    if item.Some? {
      var excludedFilms, unlikedFilms, likedFilms := CollectStoredFilms(item.value, filmsToExclude);

      messageContent := RecommendationTemplateBeginning;
      if |likedFilms| > 0 {
        messageContent := messageContent + LikedIntro + Join(likedFilms, ", ") + ".";
      }
      assert messageContent == RecommendationTemplateBeginning + ListSentence(LikedIntro, likedFilms);
      if |unlikedFilms| > 0 {
        messageContent := messageContent + UnlikedIntro + Join(unlikedFilms, ", ") + ".";
      }
      assert messageContent == RecommendationTemplateBeginning + ListSentence(LikedIntro, likedFilms)
        + ListSentence(UnlikedIntro, unlikedFilms);
      messageContent := messageContent + ExcludeIntro + Join(excludedFilms, ", ");
      assert messageContent == Prompt(item, filmsToExclude);
    } else {
      messageContent := RecommendationTemplateBeginning;
    }
    message := ReplaceAll(messageContent, FilmCountPlaceholder, filmCount);
  }

  /** Without a stored item the prompt is the template sentence with the count in place of `{filmCount}`. */
  lemma MessageWithoutItem(filmCount: string, filmsToExclude: seq<string>)
    ensures ReplaceAll(Prompt(None, filmsToExclude), FilmCountPlaceholder, filmCount) ==
      TemplateHead + filmCount + TemplateTail
  {
    var p := FilmCountPlaceholder;
    assert '{' !in TemplateHead;
    assert RecommendationTemplateBeginning == TemplateHead + (p + TemplateTail);
    ReplaceAllSkipsPrefix(TemplateHead, p + TemplateTail, p, filmCount);
    ReplaceAllAtFront(TemplateTail, p, filmCount);
    assert ReplaceAll(TemplateTail, p, filmCount) == TemplateTail;
  }

  /**
   * With a stored item the prompt is the template sentence, the liked and the
   * unliked sentences (each only when its list is non-empty) and the exclude
   * sentence, which is always there.
   */
  lemma PromptSentences(films: UserFilms, filmsToExclude: seq<string>)
    ensures var liked, unliked := PresentStrings(films.likedFilms), PresentStrings(films.unlikedFilms);
      Prompt(Some(films), filmsToExclude) ==
        RecommendationTemplateBeginning
        + (if liked == [] then "" else LikedIntro + Join(liked, ", ") + ".")
        + (if unliked == [] then "" else UnlikedIntro + Join(unliked, ", ") + ".")
        + ExcludeIntro + Join(filmsToExclude + unliked + liked, ", ")
  {
  }

  /** A positive-integer count shares no character with `{filmCount}`. */
  lemma FilmCountDisjointFromPlaceholder(param: string)
    ensures |GetFilmCount(param)| > 0 && Disjoint(GetFilmCount(param), FilmCountPlaceholder)
  {
    var fc := GetFilmCount(param);
    FilmCountIsPositive(param);
    AtoiAcceptsOnlyNumerals(fc);
    forall k | 0 <= k < |fc| ensures fc[k] !in FilmCountPlaceholder {
      assert IsDigit(fc[k]) || fc[k] == '-' || fc[k] == '+';
    }
  }

  /**
   * For the count `getFilmCount` yields, no `{filmCount}` is left anywhere in
   * the message, including one written inside a stored or excluded film name.
   */
  lemma MessageHasNoPlaceholder(item: Option<UserFilms>, param: string, filmsToExclude: seq<string>)
    ensures !Contains(ReplaceAll(Prompt(item, filmsToExclude), FilmCountPlaceholder, GetFilmCount(param)), FilmCountPlaceholder)
  {
    FilmCountDisjointFromPlaceholder(param);
    ReplaceAllRemovesAll(Prompt(item, filmsToExclude), FilmCountPlaceholder, GetFilmCount(param));
  }
}
