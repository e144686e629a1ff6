/** Value types shared by the API client and the user store. */
module Types {

  datatype Option<T> = None | Some(value: T)

  /** The four display badges the client attaches to a user. */
  datatype Badge = Gold | Silver | Bronze | New

  datatype Company = Company(name: string, catchPhrase: string, bs: string)

  datatype Address = Address(street: string, suite: string, city: string, zipcode: string)

  /** A user record as returned by the REST endpoint; `badge` is client-only and optional. */
  datatype User = User(
    id: int,
    name: string,
    email: string,
    phone: string,
    website: string,
    company: Company,
    address: Address,
    badge: Option<Badge>)

  /** One page of a list, with the counts the client needs to paginate. */
  datatype PaginatedResponse<T> = PaginatedResponse(
    data: seq<T>,
    total: int,
    page: int,
    limit: int,
    hasMore: bool)

  datatype SortKey = ByName | ByEmail

  datatype SortOrder = Asc | Desc

  /** Filter criteria; `None` stands for a key that is missing or undefined. */
  datatype UserFilters = UserFilters(
    badge: Option<Badge>,
    searchQuery: Option<string>,
    sortBy: Option<SortKey>,
    sortOrder: Option<SortOrder>)

  /** The empty filter object `{}`. */
  const NoFilters := UserFilters(None, None, None, None)

  /** One key of a partial object: not supplied, or supplied with a value that may itself be undefined. */
  datatype Patch<T> = Absent | Given(value: Option<T>)

  /** A `Partial<UserFilters>` argument. */
  datatype FiltersPatch = FiltersPatch(
    badge: Patch<Badge>,
    searchQuery: Patch<string>,
    sortBy: Patch<SortKey>,
    sortOrder: Patch<SortOrder>)

  function Min(a: int, b: int): int {
    if a <= b then a else b
  }

  /** The user with its client-only badge dropped: every field that comes from the server. */
  function Unbadged(u: User): User {
    u.(badge := None)
  }

  /** A list of users compared on their server fields only. */
  function Erase(s: seq<User>): seq<User> {
    seq(|s|, i requires 0 <= i < |s| => Unbadged(s[i]))
  }

  /** No two entries share an id. */
  predicate DistinctIds(s: seq<User>) {
    forall i, j :: 0 <= i < j < |s| ==> s[i].id != s[j].id
  }

  lemma EraseAppend(a: seq<User>, b: seq<User>)
    ensures Erase(a + b) == Erase(a) + Erase(b)
  {
  }
}
