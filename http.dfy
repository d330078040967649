/**
 * The parts of the Fetch API request that the route handlers read: header
 * lookup and JavaScript's `a || b` over optional strings.
 */
module Http {
  import opened Strings
  import opened Wrappers

  /** Request headers, keyed by lower-cased name. */
  type Headers = map<string, string>

  /** `headers.get(name)`: names are matched case-insensitively. */
  function HeaderGet(h: Headers, name: string): (r: Option<string>)
    ensures r.Some? <==> ToLower(name) in h
    ensures r.Some? ==> r.value == h[ToLower(name)]
  {
    if ToLower(name) in h then Some(h[ToLower(name)]) else None
  }

  /** `headers.get` gives the same answer however the name is cased. */
  lemma HeaderGetIgnoresCase(h: Headers, name: string)
    ensures HeaderGet(h, ToUpper(name)) == HeaderGet(h, name)
    ensures HeaderGet(h, ToLower(name)) == HeaderGet(h, name)
  {
    LowerOfUpper(name);
    ToLowerIdempotent(name);
  }

  /** A string that is neither null nor empty (truthy). */
  predicate Present(o: Option<string>) {
    o.Some? && o.value != ""
  }

  /** JavaScript's `a || b` where `a` is a string or null: empty strings are falsy. */
  function OrElse(a: Option<string>, b: string): (r: string)
    ensures a.Some? && a.value != "" ==> r == a.value
    ensures (a.None? || a.value == "") ==> r == b
  {
    if a.Some? && a.value != "" then a.value else b
  }

  /** `a || b` where both sides may be null. */
  function OrOpt(a: Option<string>, b: Option<string>): (r: Option<string>)
    ensures a.Some? && a.value != "" ==> r == a
    ensures (a.None? || a.value == "") ==> r == b
  {
    if a.Some? && a.value != "" then a else b
  }
}
