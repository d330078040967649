/**
 * `src/lib/admin/actions.ts`: the admin's user list, role changes and user
 * search. The `users` table is an input (in `created_at` order, newest
 * first) for the reads and the field of a `UserTable` for the role update;
 * the signed-in user, their role and the failure of each query are inputs.
 */
module AdminActions {
  import opened Wrappers
  import opened Strings
  import opened Arith

  /** A `users` row. */
  datatype UserProfile = UserProfile(id: string, email: Option<string>, fullName: Option<string>, role: string)

  /** `UserFilters`; a missing or zero `page`/`limit` takes the default. */
  datatype UserFilters = UserFilters(search: Option<string>, role: Option<string>, page: Option<nat>, limit: Option<nat>)

  /** `UserListResponse`. */
  datatype UserList = UserList(users: seq<UserProfile>, total: nat, page: nat, limit: nat, totalPages: int)

  /** The caller is signed in and holds the admin role. */
  predicate IsAdmin(user: Option<string>, role: Option<string>) {
    user.Some? && role == Some("admin")
  }

  function AdminError(user: Option<string>, role: Option<string>): (e: string)
    requires !IsAdmin(user, role)
  {
    if user.None? then "Unauthorized: Please login" else "Unauthorized: Admin access required"
  }

  /** `full_name.ilike.%term%,email.ilike.%term%`. */
  predicate SearchMatches(u: UserProfile, term: string) {
    || (u.fullName.Some? && Contains(ToLower(u.fullName.value), ToLower(term)))
    || (u.email.Some? && Contains(ToLower(u.email.value), ToLower(term)))
  }

  /** The conditions `query` has gathered. */
  datatype UserQuery = UserQuery(role: Option<string>, search: Option<string>)

  predicate Matches(u: UserProfile, q: UserQuery) {
    (q.role.Some? ==> u.role == q.role.value) && (q.search.Some? ==> SearchMatches(u, q.search.value))
  }

  function Filtered(rows: seq<UserProfile>, q: UserQuery): (r: seq<UserProfile>)
    ensures |r| <= |rows|
    ensures forall u :: u in r <==> u in rows && Matches(u, q)
  {
    if rows == [] then []
    else
      var rest := Filtered(rows[1..], q);
      assert forall u :: u in rows <==> u == rows[0] || u in rows[1..];
      if Matches(rows[0], q) then [rows[0]] + rest else rest
  }

  /** The filter keeps the order and the repetitions of its input: it distributes over concatenation, and keeps a single row iff it matches. */
  lemma {:induction false} FilteredAppend(a: seq<UserProfile>, b: seq<UserProfile>, q: UserQuery)
    ensures Filtered(a + b, q) == Filtered(a, q) + Filtered(b, q)
    ensures |a| == 1 ==> Filtered(a, q) == if Matches(a[0], q) then a else []
  {
    if a == [] {
      assert a + b == b;
    } else {
      assert (a + b)[1..] == a[1..] + b;
      FilteredAppend(a[1..], b, q);
    }
  }

  /** `.range(from, from + limit - 1)`: the rows at positions `from` to `from + limit - 1` that exist. */
  function Window(rows: seq<UserProfile>, from: nat, limit: nat): (w: seq<UserProfile>)
    ensures |w| <= limit
    ensures from + limit <= |rows| ==> |w| == limit
    ensures forall k :: 0 <= k < |w| ==> from + k < |rows| && w[k] == rows[from + k]
  {
    var lo := if from <= |rows| then from else |rows|;
    var hi := if from + limit <= |rows| then from + limit else |rows|;
    rows[lo..hi]
  }

  /**
   * `getAllUsers(filters)`. The query gains a role condition unless the
   * role is absent or `all`, and a search condition for a non-empty search.
   */
  method GetAllUsers(user: Option<string>, role: Option<string>, filters: UserFilters,
                     table: seq<UserProfile>, queryFails: bool)
    returns (r: Result<UserList, string>)
    ensures !IsAdmin(user, role) ==> r == Err(AdminError(user, role))
    ensures IsAdmin(user, role) && queryFails ==> r == Err("Failed to fetch users")
    ensures r.Ok? ==>
      var page := if filters.page.Some? && filters.page.value != 0 then filters.page.value else 1;
      var limit := if filters.limit.Some? && filters.limit.value != 0 then filters.limit.value else 10;
      var q := UserQuery(if filters.role.Some? && filters.role.value != "" && filters.role.value != "all" then filters.role else None,
                         if filters.search.Some? && filters.search.value != "" then filters.search else None);
      && r.value.page == page && r.value.limit == limit
      && r.value.total == |Filtered(table, q)|
      && r.value.users == Window(Filtered(table, q), (page - 1) * limit, limit)
      && r.value.totalPages == CeilDiv(r.value.total, limit)
    ensures r.Ok? <==> IsAdmin(user, role) && !queryFails
  {
    if user.None? {
      return Err("Unauthorized: Please login");
    }
    if role != Some("admin") {
      return Err("Unauthorized: Admin access required");
    }
    var page: nat := if filters.page.Some? && filters.page.value != 0 then filters.page.value else 1;
    var limit: nat := if filters.limit.Some? && filters.limit.value != 0 then filters.limit.value else 10;
    var from: nat := (page - 1) * limit;
    var query := UserQuery(None, None);
    if filters.role.Some? && filters.role.value != "" && filters.role.value != "all" {
      query := query.(role := filters.role);
    }
    if filters.search.Some? && filters.search.value != "" {
      query := query.(search := filters.search);
    }
    if queryFails {
      return Err("Failed to fetch users");
    }
    var matching := Filtered(table, query);
    r := Ok(UserList(Window(matching, from, limit), |matching|, page, limit, CeilDiv(|matching|, limit)));
  }

  /**
   * The pages partition the matching rows: row `k` is on page
   * `k / limit + 1`, at position `k % limit`, and that page is within
   * `totalPages`.
   */
  lemma RowOnItsPage(rows: seq<UserProfile>, limit: nat, k: nat)
    requires limit > 0 && k < |rows|
    ensures var page := k / limit + 1;
      && |Window(rows, (page - 1) * limit, limit)| > k % limit
      && Window(rows, (page - 1) * limit, limit)[k % limit] == rows[k]
      && 1 <= page <= CeilDiv(|rows|, limit)
  {
    var q, m := k / limit, k % limit;
    assert k == q * limit + m;
    var from := (q + 1 - 1) * limit;
    assert from == q * limit;
    var w := Window(rows, from, limit);
    assert |w| == (if from + limit <= |rows| then limit else |rows| - from);
    var c := CeilDiv(|rows|, limit);
    assert q * limit < c * limit;
    ProductOrder(q, c, limit);
  }

  lemma ProductOrder(a: int, b: int, m: int)
    requires m > 0 && a * m < b * m
    ensures a < b
  {
    assert (b - a) * m == b * m - a * m;
  }

  /** A full page holds exactly `limit` rows; every page holds at most that. */
  lemma PageSpansLimit(rows: seq<UserProfile>, page: nat, limit: nat)
    requires page >= 1 && limit > 0
    ensures |Window(rows, (page - 1) * limit, limit)| <= limit
    ensures page < CeilDiv(|rows|, limit) ==> |Window(rows, (page - 1) * limit, limit)| == limit
  {
    var c := CeilDiv(|rows|, limit);
    if page < c {
      assert page * limit <= (c - 1) * limit;
    }
  }

  const Roles := ["customer", "admin", "coach"]

  /** `{ success, error? }`. */
  datatype ActionResult = ActionResult(success: bool, error: Option<string>)

  class UserTable {
    var roles: map<string, string>

    constructor (roles: map<string, string>)
      ensures this.roles == roles
    {
      this.roles := roles;
    }

    /**
     * `updateUserRole(userId, newRole)`: after the admin check, only the
     * three known roles are written; an id with no row changes nothing.
     */
    method UpdateUserRole(user: Option<string>, role: Option<string>, userId: string, newRole: string, updateFails: bool)
      returns (r: ActionResult)
      modifies this
      ensures !IsAdmin(user, role) ==> r == ActionResult(false, Some(AdminError(user, role))) && roles == old(roles)
      ensures IsAdmin(user, role) && newRole !in Roles ==> r == ActionResult(false, Some("Invalid role")) && roles == old(roles)
      ensures IsAdmin(user, role) && newRole in Roles && updateFails ==>
        r == ActionResult(false, Some("Failed to update user role")) && roles == old(roles)
      ensures r.success <==> IsAdmin(user, role) && newRole in Roles && !updateFails
      ensures r.success ==> roles == if userId in old(roles) then old(roles)[userId := newRole] else old(roles)
    {
      if user.None? {
        return ActionResult(false, Some("Unauthorized: Please login"));
      }
      if role != Some("admin") {
        return ActionResult(false, Some("Unauthorized: Admin access required"));
      }
      if newRole !in Roles {
        return ActionResult(false, Some("Invalid role"));
      }
      if updateFails {
        return ActionResult(false, Some("Failed to update user role"));
      }
      if userId in roles {
        roles := roles[userId := newRole];
      }
      r := ActionResult(true, None);
    }
  }

  /** The first `n` rows, as `.limit(n)` returns them. */
  function Take(rows: seq<UserProfile>, n: nat): (r: seq<UserProfile>)
    ensures |r| <= n && |r| <= |rows| && r == rows[..|r|]
    ensures |rows| >= n ==> |r| == n
  {
    if |rows| <= n then rows else rows[..n]
  }

  /**
   * `searchUsers(query)`: at most 20 matches, in table order, and none for
   * a non-admin or a query under two UTF-16 code units.
   */
  function SearchUsers(user: Option<string>, role: Option<string>, query: string, table: seq<UserProfile>,
                       queryFails: bool): (r: seq<UserProfile>)
    ensures !IsAdmin(user, role) || JsLength(query) < 2 || queryFails ==> r == []
    ensures |r| <= 20
    ensures forall u :: u in r ==> u in table && SearchMatches(u, query)
    ensures IsAdmin(user, role) && JsLength(query) >= 2 && !queryFails ==>
      |r| <= |Filtered(table, UserQuery(None, Some(query)))| && r == Filtered(table, UserQuery(None, Some(query)))[..|r|]
    ensures IsAdmin(user, role) && JsLength(query) >= 2 && !queryFails && |Filtered(table, UserQuery(None, Some(query)))| >= 20 ==> |r| == 20
    ensures IsAdmin(user, role) && JsLength(query) >= 2 && !queryFails && |Filtered(table, UserQuery(None, Some(query)))| < 20 ==>
      forall u :: u in table && SearchMatches(u, query) ==> u in r
  {
    if !IsAdmin(user, role) || JsLength(query) < 2 || queryFails then []
    else
      var matching := Filtered(table, UserQuery(None, Some(query)));
      var r := Take(matching, 20);
      assert forall u :: u in r ==> u in matching;
      r
  }
}
