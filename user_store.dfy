/**
 * The user store: one state record and the actions that update it. Connectivity,
 * the HTTP result, the badge rolls, the cache read and the clock are inputs of
 * the actions; what an action writes to the `cached_users` key comes back as
 * its result.
 */
module Store {
  import opened Types
  import Api

  const FetchFailed: string := "Failed to fetch users"
  const CacheFailed: string := "Failed to load cached users"

  /** What reading `cached_users` and `last_fetch_timestamp` from device storage gives:
      nothing stored, a stored list (with the parsed timestamp, if one was stored),
      or a read or parse that throws. */
  datatype CacheRead = NoCache | Cached(users: seq<User>, timestamp: Option<int>) | Unreadable

  /** Some favourite has this id (`favorites.some(f => f.id === id)`). */
  predicate IsFavorite(favorites: seq<User>, id: int) {
    exists i :: 0 <= i < |favorites| && favorites[i].id == id
  }

  /** `favorites.filter(f => f.id !== id)`. */
  function RemoveById(favorites: seq<User>, id: int): (r: seq<User>)
    ensures forall x :: x in r <==> x in favorites && x.id != id
    ensures !IsFavorite(r, id)
    ensures |r| <= |favorites|
  {
    if favorites == [] then []
    else if favorites[0].id != id then [favorites[0]] + RemoveById(favorites[1..], id)
    else RemoveById(favorites[1..], id)
  }

  /** Filtering distributes over concatenation, so it keeps the surviving entries in order. */
  lemma {:induction false} RemoveByIdAppend(a: seq<User>, b: seq<User>, id: int)
    ensures RemoveById(a + b, id) == RemoveById(a, id) + RemoveById(b, id)
  {
    if a == [] {
      assert a + b == b;
    } else {
      assert (a + b)[0] == a[0];
      assert (a + b)[1..] == a[1..] + b;
      RemoveByIdAppend(a[1..], b, id);
      if a[0].id != id {
        assert [a[0]] + (RemoveById(a[1..], id) + RemoveById(b, id))
          == ([a[0]] + RemoveById(a[1..], id)) + RemoveById(b, id);
      }
    }
  }

  /** Filtering out an id nobody has changes nothing. */
  lemma {:induction false} RemoveAbsentId(favorites: seq<User>, id: int)
    requires !IsFavorite(favorites, id)
    ensures RemoveById(favorites, id) == favorites
  {
    if favorites != [] {
      assert !IsFavorite(favorites[1..], id) by {
        forall i | 0 <= i < |favorites[1..]|
          ensures favorites[1..][i].id != id
        {
          assert favorites[1..][i] == favorites[i + 1];
        }
      }
      RemoveAbsentId(favorites[1..], id);
    }
  }

  /** In a list with distinct ids, the head's id does not occur in the tail. */
  lemma HeadIdNotInTail(favorites: seq<User>)
    requires favorites != [] && DistinctIds(favorites)
    ensures DistinctIds(favorites[1..])
    ensures !IsFavorite(favorites[1..], favorites[0].id)
  {
    forall i, j | 0 <= i < j < |favorites[1..]|
      ensures favorites[1..][i].id != favorites[1..][j].id
    {
      assert favorites[1..][i] == favorites[i + 1] && favorites[1..][j] == favorites[j + 1];
    }
    forall k | 0 <= k < |favorites[1..]|
      ensures favorites[1..][k].id != favorites[0].id
    {
      assert favorites[1..][k] == favorites[k + 1];
    }
  }

  /** Putting a user with a fresh id in front of a list with distinct ids keeps them distinct. */
  lemma ConsKeepsDistinct(head: User, rest: seq<User>)
    requires DistinctIds(rest) && !IsFavorite(rest, head.id)
    ensures DistinctIds([head] + rest)
  {
    var r := [head] + rest;
    forall i, j | 0 <= i < j < |r|
      ensures r[i].id != r[j].id
    {
      assert r[j] == rest[j - 1];
      if i > 0 {
        assert r[i] == rest[i - 1];
      }
    }
  }

  /** Filtering keeps ids distinct. */
  lemma {:induction false} RemoveByIdKeepsDistinct(favorites: seq<User>, id: int)
    requires DistinctIds(favorites)
    ensures DistinctIds(RemoveById(favorites, id))
  {
    if favorites != [] {
      HeadIdNotInTail(favorites);
      RemoveByIdKeepsDistinct(favorites[1..], id);
      if favorites[0].id != id {
        var rest := RemoveById(favorites[1..], id);
        forall k | 0 <= k < |rest|
          ensures rest[k].id != favorites[0].id
        {
          assert rest[k] in favorites[1..];
          var m :| 0 <= m < |favorites[1..]| && favorites[1..][m] == rest[k];
        }
        ConsKeepsDistinct(favorites[0], rest);
      }
    }
  }

  /** The new favourites list of `toggleFavorite(user)`. */
  function ToggleFavorites(favorites: seq<User>, user: User): (r: seq<User>)
    ensures IsFavorite(r, user.id) <==> !IsFavorite(favorites, user.id)
    ensures !IsFavorite(favorites, user.id) ==>
      |r| == |favorites| + 1 && r[..|favorites|] == favorites && r[|favorites|] == user
    ensures IsFavorite(favorites, user.id) ==>
      forall x :: x in r <==> x in favorites && x.id != user.id
  {
    if IsFavorite(favorites, user.id) then
      RemoveById(favorites, user.id)
    else
      assert (favorites + [user])[|favorites|].id == user.id;
      favorites + [user]
  }

  /** Toggling a user who is not a favourite, and toggling again, gives back the list. */
  lemma ToggleTwiceRestores(favorites: seq<User>, user: User)
    requires !IsFavorite(favorites, user.id)
    ensures ToggleFavorites(ToggleFavorites(favorites, user), user) == favorites
  {
    RemoveByIdAppend(favorites, [user], user.id);
    RemoveAbsentId(favorites, user.id);
  }

  /** Toggling a favourite twice drops every entry with its id and puts `user` last. */
  lemma ToggleTwiceMovesToEnd(favorites: seq<User>, user: User)
    requires IsFavorite(favorites, user.id)
    ensures ToggleFavorites(ToggleFavorites(favorites, user), user) == RemoveById(favorites, user.id) + [user]
  {
  }

  /** Toggling keeps the favourite ids pairwise distinct. */
  lemma ToggleKeepsDistinct(favorites: seq<User>, user: User)
    requires DistinctIds(favorites)
    ensures DistinctIds(ToggleFavorites(favorites, user))
  {
    if IsFavorite(favorites, user.id) {
      RemoveByIdKeepsDistinct(favorites, user.id);
    } else {
      var r := favorites + [user];
      forall i, j | 0 <= i < j < |r|
        ensures r[i].id != r[j].id
      {
        if j == |favorites| {
          assert r[i] == favorites[i];
        } else {
          assert r[i] == favorites[i] && r[j] == favorites[j];
        }
      }
    }
  }

  /** `favorites.find(f => f.id === id)`: the first favourite with that id. */
  function FindById(favorites: seq<User>, id: int): (r: Option<User>)
    ensures r.Some? <==> IsFavorite(favorites, id)
    ensures r.Some? ==> r.value.id == id
    ensures r.Some? ==> exists i :: 0 <= i < |favorites| && favorites[i] == r.value && !IsFavorite(favorites[..i], id)
  {
    if favorites == [] then None
    else if favorites[0].id == id then
      assert !IsFavorite(favorites[..0], id);
      Some(favorites[0])
    else
      var r := FindById(favorites[1..], id);
      assert IsFavorite(favorites, id) ==> IsFavorite(favorites[1..], id) by {
        if IsFavorite(favorites, id) {
          var i :| 0 <= i < |favorites| && favorites[i].id == id;
          assert favorites[1..][i - 1] == favorites[i];
        }
      }
      assert IsFavorite(favorites[1..], id) ==> IsFavorite(favorites, id) by {
        if IsFavorite(favorites[1..], id) {
          var i :| 0 <= i < |favorites[1..]| && favorites[1..][i].id == id;
          assert favorites[i + 1] == favorites[1..][i];
        }
      }
      if r.Some? then
        var i :| 0 <= i < |favorites[1..]| && favorites[1..][i] == r.value && !IsFavorite(favorites[1..][..i], id);
        assert favorites[i + 1] == r.value;
        assert favorites[..i + 1] == [favorites[0]] + favorites[1..][..i];
        r
      else
        r
  }

  /** `{ ...current, ...patch }` on one key. */
  function Override<T>(current: Option<T>, patch: Patch<T>): Option<T> {
    match patch
    case Absent => current
    case Given(v) => v
  }

  /** `{ ...filters, ...patch }`: every supplied key takes its supplied value, every other key keeps its own. */
  function MergeFilters(filters: UserFilters, patch: FiltersPatch): (r: UserFilters)
    ensures patch.badge.Given? ==> r.badge == patch.badge.value
    ensures patch.badge.Absent? ==> r.badge == filters.badge
    ensures patch.searchQuery.Given? ==> r.searchQuery == patch.searchQuery.value
    ensures patch.searchQuery.Absent? ==> r.searchQuery == filters.searchQuery
    ensures patch.sortBy.Given? ==> r.sortBy == patch.sortBy.value
    ensures patch.sortBy.Absent? ==> r.sortBy == filters.sortBy
    ensures patch.sortOrder.Given? ==> r.sortOrder == patch.sortOrder.value
    ensures patch.sortOrder.Absent? ==> r.sortOrder == filters.sortOrder
  {
    UserFilters(
      Override(filters.badge, patch.badge),
      Override(filters.searchQuery, patch.searchQuery),
      Override(filters.sortBy, patch.sortBy),
      Override(filters.sortOrder, patch.sortOrder))
  }

  /** Merging into `{}` gives exactly the supplied keys. */
  lemma MergeIntoEmpty(patch: FiltersPatch)
    ensures MergeFilters(NoFilters, patch) ==
      UserFilters(
        if patch.badge.Given? then patch.badge.value else None,
        if patch.searchQuery.Given? then patch.searchQuery.value else None,
        if patch.sortBy.Given? then patch.sortBy.value else None,
        if patch.sortOrder.Given? then patch.sortOrder.value else None)
  {
  }

  /** Applying the same partial filters twice is the same as applying them once. */
  lemma MergeIdempotent(filters: UserFilters, patch: FiltersPatch)
    ensures MergeFilters(MergeFilters(filters, patch), patch) == MergeFilters(filters, patch)
  {
  }

  class UserStore {
    var users: seq<User>
    var favorites: seq<User>
    var loading: bool
    var error: Option<string>
    var currentPage: int
    var hasMore: bool
    var filters: UserFilters
    var lastFetchTimestamp: Option<int>

    /** Pages are numbered from 1. */
    ghost predicate Valid()
      reads this
    {
      currentPage >= 1
    }

    /** On the server's fields, `users` is the first `currentPage` pages of `all`. */
    ghost predicate ShowsPrefixOf(all: seq<User>)
      reads this
    {
      currentPage >= 1 && Erase(users) == Erase(all[..Min(5 * currentPage, |all|)])
    }

    /** The initial state. */
    constructor ()
      ensures Valid()
      ensures users == [] && favorites == [] && !loading && error == None
      ensures currentPage == 1 && hasMore && filters == NoFilters && lastFetchTimestamp == None
    {
      users := [];
      favorites := [];
      loading := false;
      error := None;
      currentPage := 1;
      hasMore := true;
      filters := NoFilters;
      lastFetchTimestamp := None;
    }

    /** What `loadCachedUsers` decides about the list: a stored list replaces `users`, turns
        infinite scroll off and brings its timestamp; otherwise these stay. Favourites and
        filters never change. */
    twostate predicate ListFromCache(cache: CacheRead)
      reads this
    {
      && users == (if cache.Cached? then cache.users else old(users))
      && hasMore == (if cache.Cached? then false else old(hasMore))
      && lastFetchTimestamp == (if cache.Cached? then cache.timestamp else old(lastFetchTimestamp))
      && favorites == old(favorites) && filters == old(filters)
    }

    /** The whole state after `loadCachedUsers`: no stored list changes nothing, a stored
        list clears the error, a failed read records its error; the page never changes. */
    twostate predicate CacheLoaded(cache: CacheRead)
      reads this
    {
      && ListFromCache(cache)
      && currentPage == old(currentPage)
      && loading == (if cache.NoCache? then old(loading) else false)
      && error == (match cache
                   case NoCache => old(error)
                   case Cached(_, _) => None
                   case Unreadable => Some(CacheFailed))
    }

    /** `loadCachedUsers`: a stored list replaces `users` and switches off infinite scroll;
        no stored list changes nothing; a failed read records its error. */
    method LoadCachedUsers(cache: CacheRead)
      requires Valid()
      modifies this
      ensures Valid()
      ensures CacheLoaded(cache)
    {
      match cache
      case NoCache =>
      case Cached(cachedUsers, timestamp) =>
        users := cachedUsers;
        loading := false;
        error := None;
        lastFetchTimestamp := timestamp;
        hasMore := false;
      case Unreadable =>
        error := Some(CacheFailed);
        loading := false;
    }

    /** `fetchUsers`: offline it only loads the cache; online it fetches page 1, and on a
        failed request it loads the cache and then records the fetch error, which wins. */
    method FetchUsers(online: bool, http: Option<seq<User>>, rolls: seq<int>, cache: CacheRead, now: int)
      returns (written: Option<seq<User>>)
      requires Valid()
      requires http.Some? ==> Api.ValidRolls(http.value, rolls)
      modifies this
      ensures Valid()
      // offline: exactly loadCachedUsers
      ensures !online ==> written == None && CacheLoaded(cache)
      // online and the request succeeded: page 1 replaces the list and is cached
      ensures online && http.Some? ==>
        && users == Api.Page(http.value, rolls, 1).data
        && hasMore == (5 < |http.value|)
        && currentPage == 1 && !loading && error == None && lastFetchTimestamp == Some(now)
        && favorites == old(favorites) && filters == old(filters)
        && written == Some(users)
        && ShowsPrefixOf(http.value)
      // online and the request failed: the cache fallback runs, then the fetch error is set
      ensures online && http.None? ==>
        && ListFromCache(cache)
        && error == Some(FetchFailed) && !loading && currentPage == 1
        && written == None
    {
      if !online {
        LoadCachedUsers(cache);
        written := None;
        return;
      }
      loading, error, currentPage := true, None, 1;
      var response := Api.FetchUsers(http, rolls, 1);
      match response
      case Some(page) =>
        written := Some(page.data);
        users := page.data;
        hasMore := page.hasMore;
        loading := false;
        error := None;
        lastFetchTimestamp := Some(now);
        Api.NextPageExtendsPrefix([], http.value, rolls, 0);
      case None =>
        LoadCachedUsers(cache);
        error := Some(FetchFailed);
        loading := false;
        written := None;
    }

    /** `loadMoreUsers`: does nothing while loading, when there is nothing more, offline, or
        when the request fails; otherwise appends the next page and advances. */
    method LoadMoreUsers(online: bool, http: Option<seq<User>>, rolls: seq<int>, now: int)
      returns (written: Option<seq<User>>)
      requires Valid()
      requires http.Some? ==> Api.ValidRolls(http.value, rolls)
      modifies this
      ensures Valid()
      ensures old(loading) || !old(hasMore) || !online || http.None? ==> unchanged(this) && written == None
      ensures !old(loading) && old(hasMore) && online && http.Some? ==>
        && users == old(users) + Api.Page(http.value, rolls, old(currentPage) + 1).data
        && currentPage == old(currentPage) + 1
        && hasMore == (5 * currentPage < |http.value|)
        && !loading && lastFetchTimestamp == Some(now)
        && error == old(error) && favorites == old(favorites) && filters == old(filters)
        && written == Some(users)
      ensures http.Some? && old(ShowsPrefixOf(http.value)) ==> ShowsPrefixOf(http.value)
    {
      if loading || !hasMore {
        return None;
      }
      if !online {
        return None;
      }
      loading := true;
      var nextPage := currentPage + 1;
      var response := Api.FetchUsers(http, rolls, nextPage);
      match response
      case Some(page) =>
        ghost var next := Api.Page(http.value, rolls, nextPage);
        assert page == next;
        if ShowsPrefixOf(http.value) {
          Api.NextPageExtendsPrefix(users, http.value, rolls, currentPage);
        }
        var allUsers := users + page.data;
        assert allUsers == old(users) + next.data;
        written := Some(allUsers);
        users := allUsers;
        currentPage := nextPage;
        hasMore := page.hasMore;
        loading := false;
        lastFetchTimestamp := Some(now);
      case None =>
        loading := false;
        written := None;
    }

    /** `toggleFavorite`: only `favorites` changes, and distinct ids stay distinct. */
    method ToggleFavorite(user: User)
      modifies this`favorites
      ensures favorites == ToggleFavorites(old(favorites), user)
      // for callers: follows from the clause above and the contract of `ToggleFavorites`
      ensures IsFavorite(favorites, user.id) <==> !IsFavorite(old(favorites), user.id)
      ensures DistinctIds(old(favorites)) ==> DistinctIds(favorites)
    {
      if DistinctIds(favorites) {
        ToggleKeepsDistinct(favorites, user);
      }
      favorites := ToggleFavorites(favorites, user);
    }

    /** `filterUsers`: only `filters` changes. */
    method FilterUsers(patch: FiltersPatch)
      modifies this`filters
      ensures filters == MergeFilters(old(filters), patch)
    {
      filters := MergeFilters(filters, patch);
    }

    /** `getFavoriteById`: the first favourite with that id, if any; the state is left alone. */
    method GetFavoriteById(id: int) returns (r: Option<User>)
      ensures r == FindById(favorites, id)
      // for callers: these two follow from the clause above and the contract of `FindById`
      ensures r.Some? <==> IsFavorite(favorites, id)
      ensures r.Some? ==> r.value in favorites && r.value.id == id
    {
      r := FindById(favorites, id);
    }

    /** `clearError`: only `error` changes. */
    method ClearError()
      modifies this`error
      ensures error == None
    {
      error := None;
    }
  }

  /** A refresh that fails after two pages were shown resets `currentPage` to 1. When the
      fallback finds no stored list or cannot read it, both pages and `hasMore` stay, so the
      next "load more" shows page 2 a second time. */
  method RefreshFailureRepeatsPage(all: seq<User>, rolls: seq<int>, cache: CacheRead) returns (shown: seq<User>)
    requires |all| == 12 && Api.ValidRolls(all, rolls)
    requires !cache.Cached?
    ensures |shown| == 15
    ensures Erase(shown[..10]) == Erase(all[..10])
    ensures Erase(shown[10..]) == Erase(all[5..10])
    ensures DistinctIds(all) ==> !DistinctIds(shown)
  {
    var store := new UserStore();
    var written := store.FetchUsers(true, Some(all), rolls, NoCache, 0);
    written := store.LoadMoreUsers(true, Some(all), rolls, 1);
    assert store.currentPage == 2 && store.hasMore && store.ShowsPrefixOf(all);
    ghost var twoPages := store.users;
    written := store.FetchUsers(true, None, rolls, cache, 2);
    assert store.currentPage == 1 && store.hasMore && store.users == twoPages;
    written := store.LoadMoreUsers(true, Some(all), rolls, 3);
    shown := store.users;
    ghost var again := Api.Page(all, rolls, 2).data;
    assert shown == twoPages + again;
    Api.PageErased(all, rolls, 2);
    assert shown[..10] == twoPages && shown[10..] == again;
    assert Unbadged(shown[5]) == Erase(shown[..10])[5] == Unbadged(all[5]);
    assert Unbadged(shown[10]) == Erase(shown[10..])[0] == Unbadged(all[5]);
  }

  /** When the failed refresh's fallback reads back the list the store cached itself, the
      two pages stay, infinite scroll is off and the next "load more" does nothing. */
  method RefreshFailureKeepsCachedPages(all: seq<User>, rolls: seq<int>) returns (shown: seq<User>)
    requires |all| == 12 && Api.ValidRolls(all, rolls)
    ensures |shown| == 10
    ensures Erase(shown) == Erase(all[..10])
    ensures DistinctIds(all) ==> DistinctIds(shown)
  {
    var store := new UserStore();
    var written := store.FetchUsers(true, Some(all), rolls, NoCache, 0);
    written := store.LoadMoreUsers(true, Some(all), rolls, 1);
    assert store.currentPage == 2 && store.ShowsPrefixOf(all);
    ghost var twoPages := store.users;
    written := store.FetchUsers(true, None, rolls, Cached(written.value, Some(1)), 2);
    assert store.users == twoPages && !store.hasMore;
    written := store.LoadMoreUsers(true, Some(all), rolls, 3);
    shown := store.users;
    assert shown == twoPages;
    if DistinctIds(all) {
      forall i, j | 0 <= i < j < |shown|
        ensures shown[i].id != shown[j].id
      {
        assert Unbadged(shown[i]) == Erase(all[..10])[i] == Unbadged(all[i]);
        assert Unbadged(shown[j]) == Erase(all[..10])[j] == Unbadged(all[j]);
      }
    }
  }
}
