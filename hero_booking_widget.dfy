/**
 * `src/components/HeroBookingWidget.tsx`: the search box of the landing
 * page, with venue suggestions and the search that opens the booking tab.
 * The widget's state is the fields of a `SearchWidget`; every
 * `router.push` is recorded in `navigations` as the list of query
 * parameters it carries, in the order they were set. Today's date, which
 * seeds the date field, is a constructor argument.
 */
module HeroBookingWidget {
  import opened Wrappers
  import opened Strings

  /** A `SmashVenue` as far as the widget reads it. */
  datatype Venue = Venue(id: string, name: string, city: Option<string>)

  /** At most this many suggestions are shown. */
  const MaxSuggestions := 5

  /** The filter: the lower-cased name or city contains the lower-cased query. */
  predicate VenueMatches(v: Venue, query: string) {
    Contains(ToLower(v.name), ToLower(query))
    || (v.city.Some? && v.city.value != "" && Contains(ToLower(v.city.value), ToLower(query)))
  }

  /** `venues.filter(...)`, in order. */
  function Matching(venues: seq<Venue>, query: string): (r: seq<Venue>)
    ensures |r| <= |venues|
    ensures forall v :: v in r <==> v in venues && VenueMatches(v, query)
  {
    if venues == [] then []
    else
      var rest := Matching(venues[1..], query);
      assert forall v :: v in venues <==> v == venues[0] || v in venues[1..];
      if VenueMatches(venues[0], query) then [venues[0]] + rest else rest
  }

  /** The filter keeps the order and the repetitions of its input: it distributes over concatenation, and keeps a single row iff it matches. */
  lemma {:induction false} MatchingAppend(a: seq<Venue>, b: seq<Venue>, query: string)
    ensures Matching(a + b, query) == Matching(a, query) + Matching(b, query)
    ensures |a| == 1 ==> Matching(a, query) == if VenueMatches(a[0], query) then a else []
  {
    if a == [] {
      assert a + b == b;
    } else {
      assert (a + b)[1..] == a[1..] + b;
      MatchingAppend(a[1..], b, query);
    }
  }

  /** The suggestion effect: none for an empty query, else the first five matches. */
  function Suggestions(venues: seq<Venue>, searchQuery: string): (r: seq<Venue>)
    ensures searchQuery == "" ==> r == []
    ensures |r| <= MaxSuggestions
    ensures forall v :: v in r ==> v in venues && VenueMatches(v, searchQuery)
  {
    if searchQuery == "" then []
    else
      var all := Matching(venues, searchQuery);
      if |all| <= MaxSuggestions then all else all[..MaxSuggestions]
  }

  /**
   * The suggestions are the first matches in order: exactly the matches
   * when there are at most five, else the first five of them.
   */
  lemma SuggestionsArePrefix(venues: seq<Venue>, searchQuery: string)
    requires searchQuery != ""
    ensures var r := Suggestions(venues, searchQuery);
      var all := Matching(venues, searchQuery);
      && r == all[..|r|]
      && |r| == if |all| < MaxSuggestions then |all| else MaxSuggestions
  {
  }

  /** `venues.find(v => v.name.toLowerCase() === query.toLowerCase())`. */
  function FindByName(venues: seq<Venue>, query: string): (r: Option<Venue>)
    ensures r.Some? ==> r.value in venues && ToLower(r.value.name) == ToLower(query)
    ensures r.None? <==> forall k :: 0 <= k < |venues| ==> ToLower(venues[k].name) != ToLower(query)
  {
    if venues == [] then None
    else if ToLower(venues[0].name) == ToLower(query) then Some(venues[0])
    else
      assert forall k :: 1 <= k < |venues| ==> venues[1..][k - 1] == venues[k];
      FindByName(venues[1..], query)
  }

  /** No two venues share a name, ignoring case. */
  predicate DistinctNames(venues: seq<Venue>) {
    forall i, j :: 0 <= i < j < |venues| ==> ToLower(venues[i].name) != ToLower(venues[j].name)
  }

  /** With distinct names, looking a venue's own name up finds that venue. */
  lemma {:induction false} FindOwnName(venues: seq<Venue>, v: Venue)
    requires DistinctNames(venues) && v in venues
    ensures FindByName(venues, v.name) == Some(v)
  {
    if venues[0] != v {
      assert forall k :: 1 <= k < |venues| ==> venues[1..][k - 1] == venues[k];
      var k :| 0 <= k < |venues| && venues[k] == v;
      assert ToLower(venues[0].name) != ToLower(v.name);
      assert DistinctNames(venues[1..]);
      FindOwnName(venues[1..], v);
    }
  }

  /** A query string under construction: names and values in the order set. */
  type Params = seq<(string, string)>

  /** The value of `name`, if set. */
  function Get(params: Params, name: string): Option<string> {
    if params == [] then None
    else if params[0].0 == name then Some(params[0].1)
    else Get(params[1..], name)
  }

  /** `params.set(name, value)`: replaces the value in place, or appends a new pair. */
  function Set(params: Params, name: string, value: string): (r: Params)
    ensures Get(r, name) == Some(value)
    ensures forall other :: other != name ==> Get(r, other) == Get(params, other)
    ensures |r| >= 1 && (Get(params, name).Some? ==> |r| == |params|)
  {
    if params == [] then [(name, value)]
    else if params[0].0 == name then [(name, value)] + params[1..]
    else [params[0]] + Set(params[1..], name, value)
  }

  /**
   * The parameters of the search for `query` on `date`, in the order
   * `handleSearch` sets them.
   */
  function SearchQuery(query: string, venues: seq<Venue>, date: string): Params {
    var withTab := Set([], "tab", "book");
    var withTarget :=
      if query == "" then withTab
      else if FindByName(venues, query).Some? then Set(withTab, "venueId", FindByName(venues, query).value.id)
      else Set(withTab, "q", query);
    if date != "" then Set(withTarget, "date", date) else withTarget
  }

  /**
   * A search always carries `tab=book`; a query naming a venue exactly
   * (ignoring case) gives `venueId`, any other non-empty query gives `q`;
   * a non-empty date gives `date`.
   */
  lemma SearchQueryRule(query: string, venues: seq<Venue>, date: string)
    ensures var params := SearchQuery(query, venues, date);
      && Get(params, "tab") == Some("book")
      && (query == "" ==> Get(params, "venueId").None? && Get(params, "q").None?)
      && (query != "" && FindByName(venues, query).Some? ==>
            Get(params, "venueId") == Some(FindByName(venues, query).value.id) && Get(params, "q").None?)
      && (query != "" && FindByName(venues, query).None? ==> Get(params, "q") == Some(query) && Get(params, "venueId").None?)
      && Get(params, "date") == (if date != "" then Some(date) else None)
  {
    assert |"tab"| == 3 && |"venueId"| == 7 && |"q"| == 1 && |"date"| == 4;
    var withTab := Set([], "tab", "book");
    assert Get(withTab, "venueId").None? && Get(withTab, "q").None? && Get(withTab, "date").None?;
    var withTarget :=
      if query == "" then withTab
      else if FindByName(venues, query).Some? then Set(withTab, "venueId", FindByName(venues, query).value.id)
      else Set(withTab, "q", query);
    assert Get(withTarget, "date").None? && Get(withTarget, "tab") == Some("book");
  }

  class SearchWidget {
    var searchQuery: string
    var date: string
    var venues: seq<Venue>
    var showSuggestions: bool
    var navigations: seq<Params>

    constructor (today: string)
      ensures searchQuery == "" && date == today && venues == [] && !showSuggestions && navigations == []
    {
      searchQuery := "";
      date := today;
      venues := [];
      showSuggestions := false;
      navigations := [];
    }

    /** `loadVenues`: the fetched venues, or none when the fetch throws. */
    method LoadVenues(fetched: Option<seq<Venue>>)
      modifies this
      ensures venues == if fetched.Some? then fetched.value else old(venues)
      ensures searchQuery == old(searchQuery) && date == old(date) && showSuggestions == old(showSuggestions)
      ensures navigations == old(navigations)
    {
      if fetched.Some? {
        venues := fetched.value;
      }
    }

    /** Typing in the search box: the query changes and the list opens. */
    method ChangeQuery(value: string)
      modifies this
      ensures searchQuery == value && showSuggestions
      ensures date == old(date) && venues == old(venues) && navigations == old(navigations)
    {
      searchQuery := value;
      showSuggestions := true;
    }

    /** The date input. */
    method ChangeDate(value: string)
      modifies this
      ensures date == value
      ensures searchQuery == old(searchQuery) && venues == old(venues) && showSuggestions == old(showSuggestions)
      ensures navigations == old(navigations)
    {
      date := value;
    }

    /** `handleSearch(overrideQuery)`: records the query string `SearchQuery` builds; the list closes. */
    method HandleSearch(overrideQuery: Option<string>)
      modifies this
      ensures navigations == old(navigations) + [SearchQuery(if overrideQuery.Some? then overrideQuery.value else old(searchQuery), venues, date)]
      ensures !showSuggestions
      ensures searchQuery == old(searchQuery) && date == old(date) && venues == old(venues)
    {
      var queryToUse := if overrideQuery.Some? then overrideQuery.value else searchQuery;
      var params: Params := [];
      params := Set(params, "tab", "book");
      if queryToUse != "" {
        var matchedVenue := FindByName(venues, queryToUse);
        if matchedVenue.Some? {
          params := Set(params, "venueId", matchedVenue.value.id);
        } else {
          params := Set(params, "q", queryToUse);
        }
      }
      if date != "" {
        params := Set(params, "date", date);
      }
      navigations := navigations + [params];
      showSuggestions := false;
    }

    /** `handleSuggestionClick(venue)`: fills the query and closes the list, without navigating. */
    method HandleSuggestionClick(venue: Venue)
      modifies this
      ensures searchQuery == venue.name && !showSuggestions
      ensures date == old(date) && venues == old(venues) && navigations == old(navigations)
    {
      searchQuery := venue.name;
      showSuggestions := false;
    }
  }

  /** The first parameter set is always `tab`, so it comes first in the URL. */
  lemma TabComesFirst(p: Params, name: string, value: string)
    requires |p| >= 1 && p[0] == ("tab", "book") && name != "tab"
    ensures Set(p, name, value)[0] == ("tab", "book")
  {
  }
}
