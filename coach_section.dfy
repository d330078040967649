/**
 * `src/components/CoachSection.tsx`: the coach directory, which turns each
 * coach row into a card and filters the cards by a search query. The
 * initial query and city come from the page's `q` and `city` parameters.
 */
module CoachSection {
  import opened Wrappers
  import opened Strings

  /** A `Coach` row as the section reads it. */
  datatype CoachRow = CoachRow(
    id: string, name: string, level: string, city: string, district: Option<string>,
    averageRating: Option<real>, totalReviews: Option<int>, pricePerHour: int, avatarUrl: Option<string>,
    specialization: seq<string>, bio: Option<string>, experienceYears: int, certifications: seq<string>)

  /** The card a coach is shown as (`UICoach`). */
  datatype UICoach = UICoach(
    id: string, name: string, title: string, location: string, rating: real, reviews: int, price: int,
    image: string, specialization: string, level: string, about: Option<string>, experience: Option<string>,
    achievements: Option<seq<string>>)

  const DefaultImage := "https://images.unsplash.com/photo-1542596594-649edbc13630?q=80&w=1000&auto=format&fit=crop"
  const DefaultSpecialization := "General Training"

  /** `s.charAt(0).toUpperCase() + s.slice(1)`. */
  function Capitalize(s: string): (r: string)
    ensures |r| == |s|
    ensures |s| > 0 ==> r[0] == UpperChar(s[0]) && r[1..] == s[1..]
  {
    if s == "" then "" else [UpperChar(s[0])] + s[1..]
  }

  /** Capitalising changes the case of the first letter only. */
  lemma CapitalizeKeepsLetters(s: string)
    ensures ToLower(Capitalize(s)) == ToLower(s)
  {
    if s != "" {
      assert ToLower(Capitalize(s))[0] == LowerChar(UpperChar(s[0]));
    }
  }

  /** `String(n)` for an integer, as the experience label writes it. */
  function IntToString(n: int): string {
    if n >= 0 then NatToString(n) else "-" + NatToString(-n)
  }

  /** `transformCoachToUI(coach)`. */
  function TransformCoachToUI(c: CoachRow): (u: UICoach)
    ensures u.id == c.id && u.name == c.name && u.price == c.pricePerHour
    ensures u.level == Capitalize(c.level) && u.title == Capitalize(c.level) + " Coach"
    ensures c.district.Some? && c.district.value != "" ==> u.location == c.city + ", " + c.district.value
    ensures c.district.None? || c.district.value == "" ==> u.location == c.city
    ensures u.specialization == if |c.specialization| > 0 && c.specialization[0] != "" then c.specialization[0] else DefaultSpecialization
    ensures u.experience.None? <==> c.experienceYears <= 0
    ensures u.achievements.None? <==> c.certifications == []
    ensures u.achievements.Some? ==> u.achievements.value == c.certifications
    ensures u.about.Some? <==> c.bio.Some? && c.bio.value != ""
  {
    var level := Capitalize(c.level);
    UICoach(
      c.id, c.name, level + " Coach",
      if c.district.Some? && c.district.value != "" then c.city + ", " + c.district.value else c.city,
      if c.averageRating.Some? then c.averageRating.value else 0.0,
      if c.totalReviews.Some? then c.totalReviews.value else 0,
      c.pricePerHour,
      if c.avatarUrl.Some? && c.avatarUrl.value != "" then c.avatarUrl.value else DefaultImage,
      if |c.specialization| > 0 && c.specialization[0] != "" then c.specialization[0] else DefaultSpecialization,
      level,
      if c.bio.Some? && c.bio.value != "" then c.bio else None,
      if c.experienceYears > 0 then Some(IntToString(c.experienceYears) + " Years") else None,
      if |c.certifications| > 0 then Some(c.certifications) else None)
  }

  /** A coach without ratings, reviews or photo gets 0, 0 and the stock photo. */
  lemma MissingFieldsDefault(c: CoachRow)
    requires c.averageRating.None? && c.totalReviews.None? && c.avatarUrl.None?
    ensures var u := TransformCoachToUI(c);
      u.rating == 0.0 && u.reviews == 0 && u.image == DefaultImage
  {
  }

  /** The location with a district contains the city and the district. */
  lemma LocationNamesDistrict(c: CoachRow)
    requires c.district.Some? && c.district.value != ""
    ensures StartsWith(TransformCoachToUI(c).location, c.city)
    ensures EndsWith(TransformCoachToUI(c).location, c.district.value)
  {
    var loc := TransformCoachToUI(c).location;
    assert loc[..|c.city|] == c.city;
    assert loc[|loc| - |c.district.value|..] == c.district.value;
  }

  /** The search: the lower-cased name or location contains the lower-cased query. */
  predicate MatchesSearch(u: UICoach, searchQuery: string) {
    Contains(ToLower(u.name), ToLower(searchQuery)) || Contains(ToLower(u.location), ToLower(searchQuery))
  }

  /** `filteredCoaches`, in order. */
  function FilteredCoaches(coaches: seq<UICoach>, searchQuery: string): (r: seq<UICoach>)
    ensures |r| <= |coaches|
    ensures forall u :: u in r <==> u in coaches && MatchesSearch(u, searchQuery)
  {
    if coaches == [] then []
    else
      var rest := FilteredCoaches(coaches[1..], searchQuery);
      assert forall u :: u in coaches <==> u == coaches[0] || u in coaches[1..];
      if MatchesSearch(coaches[0], searchQuery) then [coaches[0]] + rest else rest
  }

  /** The filter keeps the order and the repetitions of its input: it distributes over concatenation, and keeps a single row iff it matches. */
  lemma {:induction false} FilteredCoachesAppend(a: seq<UICoach>, b: seq<UICoach>, searchQuery: string)
    ensures FilteredCoaches(a + b, searchQuery) == FilteredCoaches(a, searchQuery) + FilteredCoaches(b, searchQuery)
    ensures |a| == 1 ==> FilteredCoaches(a, searchQuery) == if MatchesSearch(a[0], searchQuery) then a else []
  {
    if a == [] {
      assert a + b == b;
    } else {
      assert (a + b)[1..] == a[1..] + b;
      FilteredCoachesAppend(a[1..], b, searchQuery);
    }
  }

  /** An empty search shows every coach. */
  lemma {:induction false} EmptySearchShowsAll(coaches: seq<UICoach>)
    ensures FilteredCoaches(coaches, "") == coaches
  {
    if coaches != [] {
      assert OccursAt(ToLower(coaches[0].name), ToLower(""), 0);
      EmptySearchShowsAll(coaches[1..]);
    }
  }

  /** The section's state: the search box, the city filter and the open card. */
  datatype SectionState = SectionState(searchQuery: string, cityFilter: string, selected: Option<UICoach>)

  /** The initial state: `searchParams.get('q') || ""` and likewise for `city`. */
  function InitialState(q: Option<string>, city: Option<string>): (s: SectionState)
    ensures s.searchQuery == (if q.Some? then q.value else "")
    ensures s.cityFilter == (if city.Some? then city.value else "")
    ensures s.selected.None?
  {
    SectionState(if q.Some? then q.value else "", if city.Some? then city.value else "", None)
  }

  /** The cards shown for a state. */
  function Visible(coaches: seq<CoachRow>, s: SectionState): (r: seq<UICoach>)
    ensures |r| <= |coaches|
  {
    var cards := seq(|coaches|, k requires 0 <= k < |coaches| => TransformCoachToUI(coaches[k]));
    FilteredCoaches(cards, s.searchQuery)
  }

  /** The city filter never changes which coaches are shown. */
  lemma CityFilterIgnored(coaches: seq<CoachRow>, s: SectionState, city: string)
    ensures Visible(coaches, s.(cityFilter := city)) == Visible(coaches, s)
  {
  }

  /** A coach is shown iff its card matches the search. */
  lemma VisibleRule(coaches: seq<CoachRow>, s: SectionState, k: nat)
    requires k < |coaches|
    ensures TransformCoachToUI(coaches[k]) in Visible(coaches, s) <==> MatchesSearch(TransformCoachToUI(coaches[k]), s.searchQuery)
  {
    var cards := seq(|coaches|, j requires 0 <= j < |coaches| => TransformCoachToUI(coaches[j]));
    assert cards[k] == TransformCoachToUI(coaches[k]);
  }
}
