/**
 * `src/lib/shop/actions.ts`: the equipment shop's products and the
 * newsletter. The `products` and `newsletter_subscribers` tables are the
 * fields of a `ShopStore`; the signed-in user, their `users.role`, the ids
 * and times the database assigns and the failures of each query are inputs.
 */
module ShopActions {
  import opened Wrappers
  import opened Strings

  // ---------------------------------------------------------------- email

  /** A character `[^\s@]` accepts. */
  predicate Plain(c: char) {
    !IsSpace(c) && c != '@'
  }

  /** `[^\s@]+`. */
  predicate PlainRun(s: string) {
    |s| > 0 && forall k :: 0 <= k < |s| ==> Plain(s[k])
  }

  /** `/^[^\s@]+@[^\s@]+\.[^\s@]+$/.test(s)`: some split `A@B.C` into plain runs. */
  predicate MatchesEmailPattern(s: string) {
    exists i, j :: 0 < i < j < |s| && s[i] == '@' && s[j] == '.'
                   && PlainRun(s[..i]) && PlainRun(s[i + 1..j]) && PlainRun(s[j + 1..])
  }

  /**
   * The same pattern read directly: no white space, exactly one `@`, not
   * first, and a `.` after it with at least one character on each side.
   */
  predicate EmailShape(s: string) {
    && (forall k :: 0 <= k < |s| ==> !IsSpace(s[k]))
    && exists i :: 0 < i < |s| && s[i] == '@'
                   && (forall k :: 0 <= k < |s| && s[k] == '@' ==> k == i)
                   && exists j :: i + 1 < j < |s| - 1 && s[j] == '.'
  }

  /** The pattern and the direct reading accept the same strings. */
  lemma EmailPatternShape(s: string)
    ensures MatchesEmailPattern(s) <==> EmailShape(s)
  {
    if MatchesEmailPattern(s) {
      EmailPatternHasShape(s);
    }
    if EmailShape(s) {
      EmailShapeMatches(s);
    }
  }

  lemma EmailPatternHasShape(s: string)
    requires MatchesEmailPattern(s)
    ensures EmailShape(s)
  {
    var i, j :| 0 < i < j < |s| && s[i] == '@' && s[j] == '.'
                && PlainRun(s[..i]) && PlainRun(s[i + 1..j]) && PlainRun(s[j + 1..]);
    forall k | 0 <= k < |s| ensures !IsSpace(s[k]) && (s[k] == '@' ==> k == i) {
      if k < i { assert s[..i][k] == s[k]; }
      else if i < k < j { assert s[i + 1..j][k - i - 1] == s[k]; }
      else if j < k { assert s[j + 1..][k - j - 1] == s[k]; }
    }
    assert i + 1 < j < |s| - 1;
  }

  lemma EmailShapeMatches(s: string)
    requires EmailShape(s)
    ensures MatchesEmailPattern(s)
  {
    var i :| 0 < i < |s| && s[i] == '@'
             && (forall k :: 0 <= k < |s| && s[k] == '@' ==> k == i)
             && exists j :: i + 1 < j < |s| - 1 && s[j] == '.';
    var j :| i + 1 < j < |s| - 1 && s[j] == '.';
    PlainSlice(s, 0, i);
    PlainSlice(s, i + 1, j);
    PlainSlice(s, j + 1, |s|);
  }

  /** A non-empty stretch of plain characters is a plain run. */
  lemma PlainSlice(s: string, a: nat, b: nat)
    requires a < b <= |s|
    requires forall k :: a <= k < b ==> Plain(s[k])
    ensures PlainRun(s[a..b])
  {
    assert forall k :: 0 <= k < b - a ==> s[a..b][k] == s[a + k];
  }

  /** Addresses the pattern takes and refuses. */
  lemma EmailExamples()
    ensures MatchesEmailPattern("a@b.co")
    ensures !MatchesEmailPattern("a@b") && !MatchesEmailPattern("@b.co") && !MatchesEmailPattern("a@.co")
  {
    var s := "a@b.co";
    assert s[1] == '@' && s[3] == '.';
    PlainSlice(s, 0, 1);
    PlainSlice(s, 2, 3);
    PlainSlice(s, 4, 6);
    assert s[..1] == s[0..1] && s[4..] == s[4..6];
    EmailPatternShape("a@b");
    EmailPatternShape("@b.co");
    EmailPatternShape("a@.co");
  }

  // -------------------------------------------------------------- products

  const ValidCategories := ["Racket", "Shoes", "Apparel", "Accessory"]

  /** A `products` row. */
  datatype Product = Product(id: string, name: string, description: Option<string>, category: string, price: int,
                             imageUrl: Option<string>, isActive: bool, isNew: bool, stockQuantity: int)

  /** The argument of `createProduct`; omitted fields are `None`. */
  datatype NewProduct = NewProduct(name: string, description: Option<string>, category: string, price: int,
                                   imageUrl: Option<string>, isNew: Option<bool>, stockQuantity: Option<int>)

  /** `Partial<Product>` as `updateProduct` receives it. */
  datatype ProductPatch = ProductPatch(name: Option<string>, description: Option<Option<string>>, category: Option<string>,
                                       price: Option<int>, imageUrl: Option<Option<string>>, isActive: Option<bool>,
                                       isNew: Option<bool>, stockQuantity: Option<int>)

  /** `ProductFilters`; an empty string is falsy and filters nothing. */
  datatype ProductFilters = ProductFilters(category: Option<string>, search: Option<string>, isActive: Option<bool>,
                                           isNew: Option<bool>)

  /** `{ success, error? }` of the product and unsubscribe actions. */
  datatype ActionResult = ActionResult(success: bool, error: Option<string>)

  /** `{ success, message }` of `subscribeNewsletter`. */
  datatype SubscribeResult = SubscribeResult(success: bool, message: string)

  /** `isAdmin` as the reads compute it: signed in and `role === 'admin'`. */
  predicate IsAdmin(user: Option<string>, role: Option<string>) {
    user.Some? && role == Some("admin")
  }

  /** The login and admin checks of the write actions; `None` lets the caller through. */
  function AdminGuard(user: Option<string>, role: Option<string>): (r: Option<ActionResult>)
    ensures r.None? <==> IsAdmin(user, role)
    ensures r.Some? ==> !r.value.success
  {
    if user.None? then Some(ActionResult(false, Some("Unauthorized: Please login")))
    else if role != Some("admin") then Some(ActionResult(false, Some("Unauthorized: Admin access required")))
    else None
  }

  /** `x || null` for an optional string. */
  function NonEmpty(s: Option<string>): (r: Option<string>)
    ensures r.Some? <==> s.Some? && s.value != ""
    ensures r.Some? ==> r == s
  {
    if s.Some? && s.value != "" then s else None
  }

  /** The row `createProduct` inserts: active, with `null`, `false` and `0` for what was left out. */
  function InsertedProduct(id: string, data: NewProduct): (p: Product)
    ensures p.isActive && p.id == id && p.category == data.category && p.price == data.price && p.name == data.name
    ensures p.isNew <==> data.isNew == Some(true)
    ensures p.stockQuantity == if data.stockQuantity.Some? then data.stockQuantity.value else 0
    ensures p.description == NonEmpty(data.description) && p.imageUrl == NonEmpty(data.imageUrl)
  {
    Product(id, data.name, NonEmpty(data.description), data.category, data.price, NonEmpty(data.imageUrl),
            true, data.isNew == Some(true), if data.stockQuantity.Some? then data.stockQuantity.value else 0)
  }

  /** The row after `update(updates)`: what the patch names replaced, the rest kept. */
  function ApplyPatch(p: Product, u: ProductPatch): (q: Product)
    ensures q.id == p.id
    ensures q.name == (if u.name.Some? then u.name.value else p.name)
    ensures q.category == (if u.category.Some? then u.category.value else p.category)
    ensures q.isActive == (if u.isActive.Some? then u.isActive.value else p.isActive)
    ensures q.price == (if u.price.Some? then u.price.value else p.price)
  {
    Product(p.id,
            if u.name.Some? then u.name.value else p.name,
            if u.description.Some? then u.description.value else p.description,
            if u.category.Some? then u.category.value else p.category,
            if u.price.Some? then u.price.value else p.price,
            if u.imageUrl.Some? then u.imageUrl.value else p.imageUrl,
            if u.isActive.Some? then u.isActive.value else p.isActive,
            if u.isNew.Some? then u.isNew.value else p.isNew,
            if u.stockQuantity.Some? then u.stockQuantity.value else p.stockQuantity)
  }

  /** The empty patch changes nothing. */
  lemma EmptyPatchIdentity(p: Product)
    ensures ApplyPatch(p, ProductPatch(None, None, None, None, None, None, None, None)) == p
  {
  }

  /** `name.ilike.%term%` or `description.ilike.%term%`. */
  predicate SearchMatches(p: Product, term: string) {
    Contains(ToLower(p.name), ToLower(term))
    || (p.description.Some? && Contains(ToLower(p.description.value), ToLower(term)))
  }

  /** The conditions `getProducts` adds to its query for this caller. */
  predicate Selected(p: Product, isAdmin: bool, f: ProductFilters) {
    && (!isAdmin ==> p.isActive)
    && (f.category.Some? && f.category.value != "" ==> p.category == f.category.value)
    && (f.search.Some? && f.search.value != "" ==> SearchMatches(p, f.search.value))
    && (f.isActive.Some? && isAdmin ==> p.isActive == f.isActive.value)
    && (f.isNew.Some? ==> p.isNew == f.isNew.value)
  }

  function FilterProducts(rows: seq<Product>, isAdmin: bool, f: ProductFilters): (r: seq<Product>)
    ensures forall p :: p in r <==> p in rows && Selected(p, isAdmin, f)
    ensures |r| <= |rows|
  {
    if rows == [] then []
    else
      var rest := FilterProducts(rows[1..], isAdmin, f);
      assert forall p :: p in rows <==> p == rows[0] || p in rows[1..];
      if Selected(rows[0], isAdmin, f) then [rows[0]] + rest else rest
  }

  /**
   * `getProducts(filters)`: `rows` is the table in `created_at` order, newest
   * first; a failed query gives `[]`.
   */
  function GetProducts(rows: Result<seq<Product>, string>, user: Option<string>, role: Option<string>,
                       f: ProductFilters): (r: seq<Product>)
    ensures rows.Err? ==> r == []
    ensures rows.Ok? ==> forall p :: p in r <==> p in rows.value && Selected(p, IsAdmin(user, role), f)
  {
    if rows.Err? then [] else FilterProducts(rows.value, IsAdmin(user, role), f)
  }

  /** Only an admin ever sees an inactive product, and the `isActive` filter is theirs alone. */
  lemma VisitorsSeeActiveOnly(rows: Result<seq<Product>, string>, user: Option<string>, role: Option<string>,
                              f: ProductFilters)
    requires !IsAdmin(user, role)
    ensures forall p :: p in GetProducts(rows, user, role, f) ==> p.isActive
    ensures GetProducts(rows, user, role, f) == GetProducts(rows, user, role, f.(isActive := Some(false)))
  {
    if rows.Ok? {
      FilterIgnoresIsActive(rows.value, f);
    }
  }

  lemma {:induction false} FilterIgnoresIsActive(rows: seq<Product>, f: ProductFilters)
    ensures FilterProducts(rows, false, f) == FilterProducts(rows, false, f.(isActive := Some(false)))
  {
    if rows != [] {
      FilterIgnoresIsActive(rows[1..], f);
    }
  }

  /** `getProductById(id)`: the row, hidden from visitors when inactive; `null` when the query fails. */
  function GetProductById(products: map<string, Product>, id: string, user: Option<string>, role: Option<string>,
                          queryFails: bool): (r: Option<Product>)
    ensures r.Some? <==> !queryFails && id in products && (products[id].isActive || IsAdmin(user, role))
    ensures r.Some? ==> r.value == products[id]
  {
    if queryFails || id !in products then None
    else if !IsAdmin(user, role) && !products[id].isActive then None
    else Some(products[id])
  }

  // ------------------------------------------------------------ newsletter

  /** A `newsletter_subscribers` row, found by its (lower-cased) email. */
  datatype Subscriber = Subscriber(isActive: bool, source: string, subscribedAt: int)

  const InvalidEmail := "Please enter a valid email address"
  const AlreadySubscribed := "You're already subscribed! Check your inbox for updates."
  const Reactivated := "Welcome back! Your subscription has been reactivated."
  const SomethingWrong := "Something went wrong. Please try again."
  const Subscribed := "Thanks for subscribing! Check your inbox for exclusive deals."

  class ShopStore {
    var products: map<string, Product>
    var subscribers: map<string, Subscriber>

    constructor (products: map<string, Product>, subscribers: map<string, Subscriber>)
      ensures this.products == products && this.subscribers == subscribers
    {
      this.products := products;
      this.subscribers := subscribers;
    }

    /**
     * `createProduct(productData)`: admin only, one of the four categories,
     * and the inserted row is active. `newId` is the id the database gives.
     */
    method CreateProduct(user: Option<string>, role: Option<string>, data: NewProduct, newId: string, insertFails: bool)
      returns (r: ActionResult, created: Option<Product>)
      modifies this
      ensures subscribers == old(subscribers)
      ensures AdminGuard(user, role).Some? ==> r == AdminGuard(user, role).value && products == old(products)
      ensures IsAdmin(user, role) && data.category !in ValidCategories ==>
        r == ActionResult(false, Some("Invalid category")) && products == old(products)
      ensures IsAdmin(user, role) && data.category in ValidCategories && insertFails ==>
        r == ActionResult(false, Some("Failed to create product")) && products == old(products)
      ensures r.success <==> IsAdmin(user, role) && data.category in ValidCategories && !insertFails
      ensures r.success ==> created == Some(InsertedProduct(newId, data))
                            && products == old(products)[newId := InsertedProduct(newId, data)]
      ensures !r.success ==> created.None?
    {
      created := None;
      var denied := AdminGuard(user, role);
      if denied.Some? {
        return denied.value, None;
      }
      if data.category !in ValidCategories {
        return ActionResult(false, Some("Invalid category")), None;
      }
      if insertFails {
        return ActionResult(false, Some("Failed to create product")), None;
      }
      var row := InsertedProduct(newId, data);
      products := products[newId := row];
      r, created := ActionResult(true, None), Some(row);
    }

    /**
     * `updateProduct(id, updates)`: admin only; the patch is applied as
     * given (its category is not checked), and an id that matches no row
     * is not an error.
     */
    method UpdateProduct(user: Option<string>, role: Option<string>, id: string, updates: ProductPatch, updateFails: bool)
      returns (r: ActionResult)
      modifies this
      ensures subscribers == old(subscribers)
      ensures AdminGuard(user, role).Some? ==> r == AdminGuard(user, role).value && products == old(products)
      ensures IsAdmin(user, role) && updateFails ==>
        r == ActionResult(false, Some("Failed to update product")) && products == old(products)
      ensures r.success <==> IsAdmin(user, role) && !updateFails
      ensures r.success ==> products == if id in old(products) then old(products)[id := ApplyPatch(old(products)[id], updates)]
                                        else old(products)
    {
      var denied := AdminGuard(user, role);
      if denied.Some? {
        return denied.value;
      }
      if updateFails {
        return ActionResult(false, Some("Failed to update product"));
      }
      if id in products {
        products := products[id := ApplyPatch(products[id], updates)];
      }
      r := ActionResult(true, None);
    }

    /** `deleteProduct(id)`: a soft delete that clears `is_active` and keeps the row. */
    method DeleteProduct(user: Option<string>, role: Option<string>, id: string, updateFails: bool)
      returns (r: ActionResult)
      modifies this
      ensures subscribers == old(subscribers)
      ensures products.Keys == old(products).Keys
      ensures AdminGuard(user, role).Some? ==> r == AdminGuard(user, role).value && products == old(products)
      ensures IsAdmin(user, role) && updateFails ==>
        r == ActionResult(false, Some("Failed to delete product")) && products == old(products)
      ensures r.success <==> IsAdmin(user, role) && !updateFails
      ensures r.success ==> products == if id in old(products) then old(products)[id := old(products)[id].(isActive := false)]
                                        else old(products)
    {
      var denied := AdminGuard(user, role);
      if denied.Some? {
        return denied.value;
      }
      if updateFails {
        return ActionResult(false, Some("Failed to delete product"));
      }
      if id in products {
        products := products[id := products[id].(isActive := false)];
      }
      r := ActionResult(true, None);
    }

    /**
     * `subscribeNewsletter(email, source)`: refused before any lookup when the
     * pattern fails; an active subscriber is left alone, an inactive one
     * reactivated, anyone else inserted. The row's `is_active` columns default
     * to true. `now` is the reactivation time.
     */
    method SubscribeNewsletter(email: string, source: string, now: int, updateFails: bool, insertFails: bool)
      returns (r: SubscribeResult)
      modifies this
      ensures products == old(products)
      ensures !MatchesEmailPattern(email) ==> r == SubscribeResult(false, InvalidEmail) && subscribers == old(subscribers)
      ensures var key := ToLower(email);
        && (MatchesEmailPattern(email) && key in old(subscribers) && old(subscribers)[key].isActive ==>
              r == SubscribeResult(true, AlreadySubscribed) && subscribers == old(subscribers))
        && (MatchesEmailPattern(email) && key in old(subscribers) && !old(subscribers)[key].isActive ==>
              if updateFails then r == SubscribeResult(false, SomethingWrong) && subscribers == old(subscribers)
              else r == SubscribeResult(true, Reactivated)
                   && subscribers == old(subscribers)[key := Subscriber(true, old(subscribers)[key].source, now)])
        && (MatchesEmailPattern(email) && key !in old(subscribers) ==>
              if insertFails then r == SubscribeResult(false, SomethingWrong) && subscribers == old(subscribers)
              else r == SubscribeResult(true, Subscribed) && subscribers == old(subscribers)[key := Subscriber(true, source, now)])
      ensures r.success ==> ToLower(email) in subscribers && subscribers[ToLower(email)].isActive
      ensures forall e :: e in old(subscribers) && e != ToLower(email) ==> e in subscribers && subscribers[e] == old(subscribers)[e]
    {
      if !MatchesEmailPattern(email) {
        return SubscribeResult(false, InvalidEmail);
      }
      var key := ToLower(email);
      if key in subscribers {
        var existing := subscribers[key];
        if existing.isActive {
          return SubscribeResult(true, AlreadySubscribed);
        }
        if updateFails {
          return SubscribeResult(false, SomethingWrong);
        }
        subscribers := subscribers[key := existing.(isActive := true, subscribedAt := now)];
        return SubscribeResult(true, Reactivated);
      }
      if insertFails {
        return SubscribeResult(false, SomethingWrong);
      }
      subscribers := subscribers[key := Subscriber(true, source, now)];
      r := SubscribeResult(true, Subscribed);
    }

    /** `unsubscribeNewsletter(email)`: the lower-cased address becomes inactive; no row is not an error. */
    method UnsubscribeNewsletter(email: string, updateFails: bool) returns (r: ActionResult)
      modifies this
      ensures products == old(products)
      ensures updateFails ==> r == ActionResult(false, Some("Failed to unsubscribe")) && subscribers == old(subscribers)
      ensures !updateFails ==> r == ActionResult(true, None)
      ensures !updateFails && ToLower(email) in old(subscribers) ==>
        subscribers == old(subscribers)[ToLower(email) := old(subscribers)[ToLower(email)].(isActive := false)]
      ensures !updateFails && ToLower(email) !in old(subscribers) ==> subscribers == old(subscribers)
    {
      if updateFails {
        return ActionResult(false, Some("Failed to unsubscribe"));
      }
      var key := ToLower(email);
      if key in subscribers {
        subscribers := subscribers[key := subscribers[key].(isActive := false)];
      }
      r := ActionResult(true, None);
    }
  }

  /** Addresses that differ only in case are one subscriber. */
  lemma SubscriberKeyIgnoresCase(email: string)
    ensures ToLower(ToUpper(email)) == ToLower(email)
  {
    LowerOfUpper(email);
  }

  /** An inactive product is hidden from visitors by id as well as in the list. */
  lemma DeletedProductHidden(products: map<string, Product>, id: string, user: Option<string>, role: Option<string>)
    requires id in products && !IsAdmin(user, role)
    ensures GetProductById(products[id := products[id].(isActive := false)], id, user, role, false).None?
    ensures IsAdmin(Some("u"), Some("admin")) ==>
      GetProductById(products[id := products[id].(isActive := false)], id, Some("u"), Some("admin"), false).Some?
  {
  }

  /** `getNewsletterSubscribers()`: the rows for an admin, `[]` for anyone else or on error. */
  function GetNewsletterSubscribers(user: Option<string>, role: Option<string>, rows: Result<seq<string>, string>): (r: seq<string>)
    ensures !IsAdmin(user, role) || rows.Err? ==> r == []
    ensures IsAdmin(user, role) && rows.Ok? ==> r == rows.value
  {
    if !IsAdmin(user, role) || rows.Err? then [] else rows.value
  }
}
