/**
 * Recording a like or an unlike: the caller's email from the identity
 * provider's user attributes, and the item written back, which puts the new
 * film in front of the stored list.
 */
module UpdateUserFilms {
  import opened Wrappers
  import opened GoStrings
  import opened Dynamo

  /** One attribute of the identity provider's `GetUser` answer. */
  datatype UserAttribute = UserAttribute(name: string, value: string)

  /** The `PutItem` request: the whole item, keyed by the email. */
  datatype PutItemRequest = PutItemRequest(email: string, films: UserFilms)

  const BearerPrefix := "Bearer "

  /** The access token: the `authorization` header without one leading "Bearer ", or the header itself. */
  function AccessToken(authHeader: string): (token: string)
    ensures HasPrefix(authHeader, BearerPrefix) ==> BearerPrefix + token == authHeader
    ensures !HasPrefix(authHeader, BearerPrefix) ==> token == authHeader
  {
    TrimPrefix(authHeader, BearerPrefix)
  }

  /** No attribute before position `k` is named "email". */
  predicate NoEmailBefore(attributes: seq<UserAttribute>, k: int)
  {
    forall j :: 0 <= j < k && j < |attributes| ==> attributes[j].name != "email"
  }

  /** The value of the first attribute named "email", or "" when there is none. */
  function FirstEmail(attributes: seq<UserAttribute>): (r: string)
    ensures (forall k :: 0 <= k < |attributes| ==> attributes[k].name != "email") ==> r == ""
    ensures forall k :: 0 <= k < |attributes| && attributes[k].name == "email" && NoEmailBefore(attributes, k) ==>
      r == attributes[k].value
    decreases |attributes|
  {
    if attributes == [] then ""
    else if attributes[0].name == "email" then attributes[0].value
    else
      var rest := FirstEmail(attributes[1..]);
      assert forall k :: 0 < k < |attributes| ==> attributes[k] == attributes[1..][k - 1];
      rest
  }

  /**
   * The attributes the scan sees. The SDK's `GetUser` hands back the output
   * it allocated together with the error, which the code discards, so a
   * failed lookup (`None`) is a user with no attributes, not a nil user.
   */
  function UserAttributes(user: Option<seq<UserAttribute>>): (r: seq<UserAttribute>)
    ensures user.None? ==> FirstEmail(r) == ""
    ensures user.Some? ==> r == user.value
  {
    match user
    case None => []
    case Some(attributes) => attributes
  }

  /**
   * `getUserEmail`: looks the token up and scans the attributes up to the
   * first "email"; a failed lookup yields the empty email.
   */
  method GetUserEmail(authHeader: string, getUser: string -> Option<seq<UserAttribute>>) returns (userEmail: string)
    ensures userEmail == FirstEmail(UserAttributes(getUser(AccessToken(authHeader))))
    ensures getUser(AccessToken(authHeader)).None? ==> userEmail == ""
  {
    var accessToken := TrimPrefix(authHeader, BearerPrefix);
    var userAttributes := UserAttributes(getUser(accessToken));
    userEmail := "";
    var i := 0;
    while i < |userAttributes|
      invariant 0 <= i <= |userAttributes|
      invariant FirstEmail(userAttributes) == FirstEmail(userAttributes[i..])
      invariant userEmail == ""
    {
      assert userAttributes[i..][1..] == userAttributes[i + 1..];
      if userAttributes[i].name == "email" {
        userEmail := userAttributes[i].value;
        break;
      }
      i := i + 1;
    }
  }

  /** The stored item's lists, or empty lists for a user with no item yet. */
  function Previous(existing: Option<UserFilms>): UserFilms
  {
    match existing
    case None => UserFilms([], [])
    case Some(films) => films
  }

  /**
   * The lists written back: for "like" (resp. "unlike") the film goes in
   * front of the stored liked (resp. unliked) list; any other method rewrites
   * the stored lists unchanged. Nothing is deduplicated or moved between
   * the two lists.
   */
  function MergeFilms(action: string, film: string, existing: Option<UserFilms>): (r: UserFilms)
    ensures multiset(r.likedFilms) ==
      multiset(Previous(existing).likedFilms) + (if action == "like" then multiset{StringValue(film)} else multiset{})
    ensures multiset(r.unlikedFilms) ==
      multiset(Previous(existing).unlikedFilms) + (if action == "unlike" then multiset{StringValue(film)} else multiset{})
  {
    var userLikedFilm := if action == "like" then [StringValue(film)] else [];
    var userUnlikedFilm := if action == "unlike" then [StringValue(film)] else [];
    match existing
    case None => UserFilms(userLikedFilm, userUnlikedFilm)
    case Some(stored) => UserFilms(userLikedFilm + stored.likedFilms, userUnlikedFilm + stored.unlikedFilms)
  }

  /** A like puts the film first in the liked list and leaves the rest, and the unliked list, as stored. */
  lemma LikePutsFilmFirst(film: string, existing: Option<UserFilms>)
    ensures var r := MergeFilms("like", film, existing);
      && |r.likedFilms| == |Previous(existing).likedFilms| + 1
      && r.likedFilms[0] == StringValue(film)
      && r.likedFilms[1..] == Previous(existing).likedFilms
      && r.unlikedFilms == Previous(existing).unlikedFilms
  {
  }

  /** An unlike puts the film first in the unliked list and leaves the rest, and the liked list, as stored. */
  lemma UnlikePutsFilmFirst(film: string, existing: Option<UserFilms>)
    ensures var r := MergeFilms("unlike", film, existing);
      && |r.unlikedFilms| == |Previous(existing).unlikedFilms| + 1
      && r.unlikedFilms[0] == StringValue(film)
      && r.unlikedFilms[1..] == Previous(existing).unlikedFilms
      && r.likedFilms == Previous(existing).likedFilms
  {
  }

  /** Any other method writes the stored lists back as they were (empty lists for a new user). */
  lemma OtherMethodKeepsLists(action: string, film: string, existing: Option<UserFilms>)
    requires action != "like" && action != "unlike"
    ensures MergeFilms(action, film, existing) == Previous(existing)
  {
  }

  /** A user with no stored item gets lists holding just the new entry, if any. */
  lemma NewUserGetsOnlyNewEntry(action: string, film: string)
    ensures var r := MergeFilms(action, film, None);
      && r.likedFilms == (if action == "like" then [StringValue(film)] else [])
      && r.unlikedFilms == (if action == "unlike" then [StringValue(film)] else [])
      && |r.likedFilms| + |r.unlikedFilms| <= 1
  {
  }

  /**
   * The handler after the lookups: the email from the user's attributes (""
   * when the lookup failed), the stored item for that email, and the merged
   * item to put under it.
   */
  method HandleUpdate(authHeader: string, action: string, film: string,
                      getUser: string -> Option<seq<UserAttribute>>, getItem: string -> Option<UserFilms>)
    returns (r: PutItemRequest)
    ensures var email := FirstEmail(UserAttributes(getUser(AccessToken(authHeader))));
      r == PutItemRequest(email, MergeFilms(action, film, getItem(email)))
    ensures getUser(AccessToken(authHeader)).None? ==> r == PutItemRequest("", MergeFilms(action, film, getItem("")))
  {
    var userEmail := GetUserEmail(authHeader, getUser);
    var result := getItem(userEmail);
    r := PutItemRequest(userEmail, MergeFilms(action, film, result));
  }
}
