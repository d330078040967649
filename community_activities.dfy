/**
 * `src/components/community/CommunityActivities.tsx`: the activity list of
 * a community page, with its mode filter, its labels and who may create an
 * activity. The `Intl.DateTimeFormat` day-and-month label is an input.
 */
module CommunityActivities {
  import opened Wrappers
  import opened Strings

  /** A `CommunityActivity` as far as the list reads it. */
  datatype Activity = Activity(id: string, mode: string, matchDate: string, startTime: Option<string>,
                               pricePerPerson: Option<int>)

  /** The filter chips: All Events, Open Play, Sparring, Tournaments. */
  datatype Filter = All | Casual | Ranked | Sparring

  /** The mode string a filter other than `All` compares with. */
  function FilterMode(f: Filter): string
    requires f != All
  {
    match f
    case Casual => "CASUAL"
    case Ranked => "RANKED"
    case Sparring => "SPARRING"
  }

  /** The test inside `filteredActivities`; Sparring also keeps drilling sessions. */
  predicate Kept(f: Filter, a: Activity) {
    f == All || (if f == Sparring then a.mode == "SPARRING" || a.mode == "DRILLING" else a.mode == FilterMode(f))
  }

  /** `filteredActivities`: `All` is the list itself, the others filter it in order. */
  function FilteredActivities(activities: seq<Activity>, f: Filter): (r: seq<Activity>)
    ensures |r| <= |activities|
    ensures forall a :: a in r <==> a in activities && Kept(f, a)
  {
    if f == All then activities
    else if activities == [] then []
    else
      var rest := FilteredActivities(activities[1..], f);
      assert forall a :: a in activities <==> a == activities[0] || a in activities[1..];
      if Kept(f, activities[0]) then [activities[0]] + rest else rest
  }

  /** The filter keeps the order and the repetitions of its input: it distributes over concatenation. */
  lemma {:induction false} FilteredActivitiesAppend(a: seq<Activity>, b: seq<Activity>, f: Filter)
    ensures FilteredActivities(a + b, f) == FilteredActivities(a, f) + FilteredActivities(b, f)
  {
    if f != All && a == [] {
      assert a + b == b;
    } else if f != All {
      assert (a + b)[0] == a[0] && (a + b)[1..] == a[1..] + b;
      FilteredActivitiesAppend(a[1..], b, f);
    }
  }

  /** A single activity is kept iff it passes the filter. */
  lemma FilteredActivitiesOne(x: Activity, f: Filter)
    ensures FilteredActivities([x], f) == if Kept(f, x) then [x] else []
  {
    assert [x][1..] == [];
  }

  /**
   * The filters by mode: All keeps every activity, Sparring keeps sparring
   * and drilling, and Open Play and Tournaments keep exactly their mode.
   */
  lemma FilterRule(activities: seq<Activity>, a: Activity)
    ensures FilteredActivities(activities, All) == activities
    ensures a in FilteredActivities(activities, Sparring) <==> a in activities && (a.mode == "SPARRING" || a.mode == "DRILLING")
    ensures a in FilteredActivities(activities, Casual) <==> a in activities && a.mode == "CASUAL"
    ensures a in FilteredActivities(activities, Ranked) <==> a in activities && a.mode == "RANKED"
  {
  }

  /** An activity of one of the four known modes shows under exactly one chip besides All. */
  lemma {:induction false} OneChipPerMode(activities: seq<Activity>, a: Activity)
    requires a in activities && a.mode in {"CASUAL", "RANKED", "SPARRING", "DRILLING"}
    ensures var inCasual := a in FilteredActivities(activities, Casual);
      var inRanked := a in FilteredActivities(activities, Ranked);
      var inSparring := a in FilteredActivities(activities, Sparring);
      (inCasual ==> !inRanked && !inSparring) && (inRanked ==> !inSparring) && (inCasual || inRanked || inSparring)
  {
    FilterRule(activities, a);
  }

  /** An activity of any other mode shows only under All. */
  lemma OtherModesOnlyUnderAll(activities: seq<Activity>, a: Activity)
    requires a in activities && a.mode !in {"CASUAL", "RANKED", "SPARRING", "DRILLING"}
    ensures a in FilteredActivities(activities, All)
    ensures a !in FilteredActivities(activities, Casual) && a !in FilteredActivities(activities, Ranked)
    ensures a !in FilteredActivities(activities, Sparring)
  {
    FilterRule(activities, a);
  }

  /** `getModeLabel(mode)`. */
  function ModeLabel(mode: string): (text: string)
    ensures text == "Tournament" <==> mode == "RANKED"
    ensures text == "Drilling" <==> mode == "DRILLING"
    ensures text in {"Tournament", "Drilling", "Main Bareng"}
  {
    if mode == "RANKED" then "Tournament"
    else if mode == "DRILLING" then "Drilling"
    else "Main Bareng"
  }

  /**
   * The separator of `formatShortDate`. The source file's bytes spell the
   * three characters U+00E2 U+20AC U+00A2 (a bullet encoded twice), not
   * the bullet U+2022.
   */
  const SeparatorAsWritten := " \U{00E2}\U{20AC}\U{00A2} "
  const Separator := " \U{2022} "

  /** `startTime.slice(0, 5)` for a non-empty start time, '' otherwise. */
  function TimeLabel(startTime: Option<string>): (t: string)
    ensures |t| <= 5
    ensures startTime.Some? && |startTime.value| >= 5 ==> t == startTime.value[..5]
    ensures startTime.None? || startTime.value == [] <==> t == []
  {
    if startTime.Some? && startTime.value != "" then
      var s := startTime.value;
      if |s| <= 5 then s else s[..5]
    else ""
  }

  /** `formatShortDate(date, startTime)` as written, with the date label given. */
  function FormatShortDateAsWritten(dateLabel: string, startTime: Option<string>): string {
    if TimeLabel(startTime) != "" then dateLabel + SeparatorAsWritten + TimeLabel(startTime) else dateLabel
  }

  /** `formatShortDate(date, startTime)` with the bullet the labels mean to show. */
  function FormatShortDate(dateLabel: string, startTime: Option<string>): (r: string)
    ensures startTime.None? || startTime.value == [] ==> r == dateLabel
  {
    if TimeLabel(startTime) != "" then dateLabel + Separator + TimeLabel(startTime) else dateLabel
  }

  /** A start time `HH:MM:SS` is cut to `HH:MM` and shown after the date and a bullet. */
  lemma ShortDateWithTime(dateLabel: string, hhmm: string, seconds: string)
    requires |hhmm| == 5
    ensures FormatShortDate(dateLabel, Some(hhmm + seconds)) == dateLabel + " \U{2022} " + hhmm
  {
    assert (hhmm + seconds)[..5] == hhmm;
  }

  /** As written, every label with a time shows three stray characters where the bullet belongs. */
  lemma SeparatorMisencoded(dateLabel: string, hhmm: string, seconds: string)
    requires |hhmm| == 5
    ensures FormatShortDateAsWritten(dateLabel, Some(hhmm + seconds)) == dateLabel + " \U{00E2}\U{20AC}\U{00A2} " + hhmm
    ensures FormatShortDateAsWritten(dateLabel, Some(hhmm + seconds)) != FormatShortDate(dateLabel, Some(hhmm + seconds))
  {
    assert (hhmm + seconds)[..5] == hhmm;
    var asWritten := dateLabel + SeparatorAsWritten + hhmm;
    var intended := dateLabel + Separator + hhmm;
    assert asWritten[|dateLabel| + 1] != intended[|dateLabel| + 1];
  }

  /** `canCreateActivity`: an admin of a page that knows its community id. */
  predicate CanCreateActivity(role: Option<string>, communityId: Option<string>) {
    role == Some("admin") && communityId.Some? && communityId.value != ""
  }

  /**
   * Whether a "Buat Aktivitas" button is shown: in the header when there
   * are activities and `canCreateActivity`, in the empty state whenever
   * the role is admin.
   */
  function CreateButtonShown(activityCount: nat, role: Option<string>, communityId: Option<string>): (shown: bool)
    ensures shown ==> role == Some("admin")
    ensures activityCount > 0 ==> (shown <==> CanCreateActivity(role, communityId))
  {
    if activityCount > 0 then CanCreateActivity(role, communityId) else role == Some("admin")
  }

  /** The empty state offers the button to an admin even without a community id. */
  lemma EmptyStateIgnoresCommunityId(communityId: Option<string>)
    ensures CreateButtonShown(0, Some("admin"), communityId)
    ensures !CanCreateActivity(Some("admin"), None)
  {
  }

  /** The three digits of `n < 1000`. */
  function Pad3(n: nat): (r: string)
    requires n < 1000
    ensures |r| == 3 && forall i :: 0 <= i < 3 ==> IsDigit(r[i])
  {
    [DigitChar(n / 100), DigitChar(n / 10 % 10), DigitChar(n % 10)]
  }

  lemma Pad3Value(n: nat)
    requires n < 1000
    ensures DigitsValue(Pad3(n)) == n
  {
    var r := Pad3(n);
    assert r[..2] == [r[0], r[1]] && r[..2][..1] == [r[0]] && [r[0]][..0] == [];
    assert DigitValue(r[0]) == n / 100 && DigitValue(r[1]) == n / 10 % 10 && DigitValue(r[2]) == n % 10;
    assert DigitsValue([r[0]]) == n / 100;
    assert (n / 100) * 10 + n / 10 % 10 == n / 10;
    assert (n / 10) * 10 + n % 10 == n;
  }

  /** `s` without its trailing zeros. */
  function StripZeros(s: string): (r: string)
    ensures |r| <= |s| && r == s[..|r|]
    ensures forall i :: |r| <= i < |s| ==> s[i] == '0'
    ensures r != [] ==> r[|r| - 1] != '0'
  {
    if s == [] || s[|s| - 1] != '0' then s else StripZeros(s[..|s| - 1])
  }

  /** `String(p / 1000)` for a whole number `p >= 0`: digits, then the non-zero part of the fraction. */
  function ThousandsText(p: nat): (t: string)
  {
    var frac := StripZeros(Pad3(p % 1000));
    NatToString(p / 1000) + (if frac == [] then "" else "." + frac)
  }

  /** The price chip: `IDR <price/1000>k`, or `Free` for no price or a price that is not positive. */
  function PriceLabel(price: Option<int>): (text: string)
    ensures price.None? || price.value <= 0 <==> text == "Free"
  {
    if price.Some? && price.value > 0 then
      assert ("IDR " + ThousandsText(price.value) + "k")[0] == 'I';
      "IDR " + ThousandsText(price.value) + "k"
    else "Free"
  }

  /**
   * The text between `IDR ` and `k` gives the price back: the digits
   * before the point are the thousands and the digits after it, padded
   * with zeros to three, the rest.
   */
  lemma ThousandsRoundTrip(p: nat)
    ensures var frac := StripZeros(Pad3(p % 1000));
      && ThousandsText(p) == NatToString(p / 1000) + (if frac == [] then "" else "." + frac)
      && DigitsValue(NatToString(p / 1000)) * 1000 + DigitsValue(frac + seq(3 - |frac|, _ => '0')) == p
      && (p % 1000 == 0 <==> frac == [])
  {
    var pad := Pad3(p % 1000);
    var frac := StripZeros(pad);
    NatToStringRoundTrip(p / 1000);
    Pad3Value(p % 1000);
    assert frac + seq(3 - |frac|, _ => '0') == pad;
    if frac == [] {
      assert pad == "000";
    }
  }

  /** A price rounded to thousands shows as whole thousands. */
  lemma WholeThousands(k: nat)
    requires k > 0
    ensures PriceLabel(Some(k * 1000)) == "IDR " + NatToString(k) + "k"
  {
    var p := k * 1000;
    assert p % 1000 == 0 && p / 1000 == k;
    ThousandsRoundTrip(p);
    assert ThousandsText(p) == NatToString(k);
  }
}
