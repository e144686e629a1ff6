/**
 * The API client's page slicer. The HTTP request is an input: `None` when the
 * request is rejected, otherwise the full user list the endpoint returned. The
 * random badge is an input too: one roll per user, the value of
 * `Math.floor(Math.random() * 4)`.
 */
module Api {
  import opened Types

  const ItemsPerPage: int := 5

  /** The badge table, indexed by a roll. */
  const Badges: seq<Badge> := [Gold, Silver, Bronze, New]

  /** One roll per user, each a valid index into the badge table. */
  predicate ValidRolls(users: seq<User>, rolls: seq<int>) {
    |rolls| == |users| && forall i :: 0 <= i < |rolls| ==> 0 <= rolls[i] < |Badges|
  }

  function AssignBadge(roll: int): Badge
    requires 0 <= roll < |Badges|
  {
    Badges[roll]
  }

  /** Every user gets the badge of its roll; nothing else about it changes. */
  function Decorate(users: seq<User>, rolls: seq<int>): (r: seq<User>)
    requires ValidRolls(users, rolls)
    ensures |r| == |users|
    ensures forall i :: 0 <= i < |r| ==> Unbadged(r[i]) == Unbadged(users[i])
    ensures forall i :: 0 <= i < |r| ==> r[i].badge.Some? && r[i].badge.value in Badges
    ensures forall i :: 0 <= i < |r| ==> r[i].badge == Some(Badges[rolls[i]])
  {
    seq(|users|, i requires 0 <= i < |users| => users[i].(badge := Some(AssignBadge(rolls[i]))))
  }

  /** `Array.prototype.slice(start, end)` for indices `0 <= start <= end`: clamped to the length. */
  function Slice<T>(s: seq<T>, start: int, end: int): (r: seq<T>)
    requires 0 <= start <= end
    ensures |r| == if start < |s| then Min(end, |s|) - start else 0
    ensures forall i :: 0 <= i < |r| ==> r[i] == s[start + i]
  {
    s[Min(start, |s|)..Min(end, |s|)]
  }

  /** The response for `page` once the request has returned `all`. */
  function Page(all: seq<User>, rolls: seq<int>, page: int): (r: PaginatedResponse<User>)
    requires page >= 1 && ValidRolls(all, rolls)
    ensures r.total == |all| && r.page == page && r.limit == ItemsPerPage
    ensures r.hasMore <==> page * 5 < |all|
    ensures |r.data| <= ItemsPerPage
    ensures |r.data| == if (page - 1) * 5 < |all| then Min(5, |all| - (page - 1) * 5) else 0
    ensures (page - 1) * 5 >= |all| ==> r.data == [] && !r.hasMore
  {
    var start := (page - 1) * ItemsPerPage;
    var end := start + ItemsPerPage;
    var total := |all|;
    var usersWithBadges := Decorate(all, rolls);
    PaginatedResponse(Slice(usersWithBadges, start, end), total, page, ItemsPerPage, end < total)
  }

  /** Entry i of page p is entry (p-1)*5 + i of the decorated list. */
  lemma PageContents(all: seq<User>, rolls: seq<int>, page: int)
    requires page >= 1 && ValidRolls(all, rolls)
    ensures forall i :: 0 <= i < |Page(all, rolls, page).data| ==>
      Page(all, rolls, page).data[i] == Decorate(all, rolls)[(page - 1) * 5 + i]
  {
  }

  /** `fetchUsers(page)`: a rejected request is rethrown, otherwise the page is cut. */
  function FetchUsers(http: Option<seq<User>>, rolls: seq<int>, page: int): (r: Option<PaginatedResponse<User>>)
    requires page >= 1
    requires http.Some? ==> ValidRolls(http.value, rolls)
    ensures r.None? <==> http.None?
    ensures r.Some? ==> r.value == Page(http.value, rolls, page)
    // for callers: follows from the clause above and the contract of `Page`
    ensures r.Some? ==> r.value.page == page && r.value.total == |http.value|
  {
    match http
    case None => None
    case Some(all) => Some(Page(all, rolls, page))
  }

  /** The pages 1..k, one after the other. */
  function Pages(all: seq<User>, rolls: seq<int>, k: nat): seq<User>
    requires ValidRolls(all, rolls)
  {
    if k == 0 then [] else Pages(all, rolls, k - 1) + Page(all, rolls, k).data
  }

  /** Page k is the window (k-1)*5 .. k*5 of the decorated list, clamped to its length. */
  lemma PageIsWindow(all: seq<User>, rolls: seq<int>, k: int)
    requires ValidRolls(all, rolls) && k >= 1
    ensures Page(all, rolls, k).data == Decorate(all, rolls)[Min(5 * (k - 1), |all|)..Min(5 * k, |all|)]
  {
    var d := Decorate(all, rolls);
    var p := Page(all, rolls, k).data;
    var w := d[Min(5 * (k - 1), |all|)..Min(5 * k, |all|)];
    PageContents(all, rolls, k);
    assert |p| == |w|;
    forall i | 0 <= i < |p|
      ensures p[i] == w[i]
    {
    }
  }

  /** Pages 1..k together are exactly the first min(5k, total) decorated users. */
  lemma {:induction false} PagesArePrefix(all: seq<User>, rolls: seq<int>, k: nat)
    requires ValidRolls(all, rolls)
    ensures Pages(all, rolls, k) == Decorate(all, rolls)[..Min(5 * k, |all|)]
  {
    if k > 0 {
      var d := Decorate(all, rolls);
      var lo := Min(5 * (k - 1), |all|);
      var hi := Min(5 * k, |all|);
      assert 0 <= lo <= hi <= |d|;
      PagesArePrefix(all, rolls, k - 1);
      assert Pages(all, rolls, k - 1) == d[..lo];
      PageIsWindow(all, rolls, k);
      assert Page(all, rolls, k).data == d[lo..hi];
      assert Pages(all, rolls, k) == d[..lo] + d[lo..hi];
      assert d[..lo] + d[lo..hi] == d[..hi];
    }
  }

  /** A user on page p carries the id of one of the entries (p-1)*5 .. p*5-1 of the list. */
  lemma PageEntry(all: seq<User>, rolls: seq<int>, p: int, x: User) returns (k: int)
    requires ValidRolls(all, rolls) && p >= 1
    requires x in Page(all, rolls, p).data
    ensures (p - 1) * 5 <= k < p * 5 && k < |all| && x.id == all[k].id
  {
    var a := Page(all, rolls, p).data;
    var i :| 0 <= i < |a| && a[i] == x;
    k := (p - 1) * 5 + i;
    PageContents(all, rolls, p);
    assert a[i] == Decorate(all, rolls)[k];
    assert Unbadged(x) == Unbadged(all[k]);
  }

  /** Two different pages never show the same user when the ids in the list are distinct,
      whatever badges each request rolled. */
  lemma PagesDisjoint(all: seq<User>, rolls1: seq<int>, rolls2: seq<int>, p: int, q: int)
    requires ValidRolls(all, rolls1) && ValidRolls(all, rolls2)
    requires DistinctIds(all)
    requires p >= 1 && q >= 1 && p != q
    ensures forall x, y :: x in Page(all, rolls1, p).data && y in Page(all, rolls2, q).data ==> x.id != y.id
  {
    forall x, y | x in Page(all, rolls1, p).data && y in Page(all, rolls2, q).data
      ensures x.id != y.id
    {
      var i := PageEntry(all, rolls1, p, x);
      var j := PageEntry(all, rolls2, q, y);
      assert i != j;
      if i < j {
        assert all[i].id != all[j].id;
      } else {
        assert all[j].id != all[i].id;
      }
    }
  }

  /** On the server's fields, page p is the window (p-1)*5 .. p*5 of the list itself. */
  lemma PageErased(all: seq<User>, rolls: seq<int>, p: int)
    requires ValidRolls(all, rolls) && p >= 1
    ensures Erase(Page(all, rolls, p).data) == Erase(all[Min(5 * (p - 1), |all|)..Min(5 * p, |all|)])
  {
    var d := Page(all, rolls, p).data;
    var w := all[Min(5 * (p - 1), |all|)..Min(5 * p, |all|)];
    PageContents(all, rolls, p);
    assert |Erase(d)| == |Erase(w)|;
    forall i | 0 <= i < |d|
      ensures Erase(d)[i] == Erase(w)[i]
    {
      assert Unbadged(Decorate(all, rolls)[5 * (p - 1) + i]) == Unbadged(all[5 * (p - 1) + i]);
    }
  }

  /** "Load more" appends page n+1 to the first n pages: on the server's fields the result
      is the first n+1 pages, whatever badges each request rolled. */
  lemma NextPageExtendsPrefix(users: seq<User>, all: seq<User>, rolls: seq<int>, n: nat)
    requires ValidRolls(all, rolls)
    requires Erase(users) == Erase(all[..Min(5 * n, |all|)])
    ensures Erase(users + Page(all, rolls, n + 1).data) == Erase(all[..Min(5 * (n + 1), |all|)])
  {
    var p := Page(all, rolls, n + 1).data;
    var lo := Min(5 * n, |all|);
    var hi := Min(5 * (n + 1), |all|);
    PageErased(all, rolls, n + 1);
    EraseAppend(users, p);
    EraseAppend(all[..lo], all[lo..hi]);
    assert all[..lo] + all[lo..hi] == all[..hi];
  }
}
