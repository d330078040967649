/**
 * `src/lib/constants/plans.ts`: the venue subscription plans and the
 * features each unlocks.
 */
module Plans {
  datatype SubscriptionPlan = Starter | Pro | Business

  datatype FeatureName = Pos | Inventory | StaffReport | WhatsappNotif | MultiStaff | AdvancedAnalytics | ExportData

  /** `PlanConfig`; prices are in IDR. */
  datatype PlanConfig = PlanConfig(name: string, displayName: string, priceMonthly: nat, maxCourts: nat,
                                   features: seq<FeatureName>, description: string)

  /** The record key a plan is stored under. */
  function PlanKey(p: SubscriptionPlan): string {
    match p
    case Starter => "STARTER"
    case Pro => "PRO"
    case Business => "BUSINESS"
  }

  /** The `features` list of a plan's entry. */
  function Features(p: SubscriptionPlan): seq<FeatureName> {
    match p
    case Starter => []
    case Pro => [Pos, Inventory, StaffReport, WhatsappNotif, ExportData]
    case Business => [Pos, Inventory, StaffReport, WhatsappNotif, MultiStaff, AdvancedAnalytics, ExportData]
  }

  /** No plan lists a feature twice. */
  lemma FeaturesDistinct(p: SubscriptionPlan)
    ensures forall i, j :: 0 <= i < j < |Features(p)| ==> Features(p)[i] != Features(p)[j]
  {
  }

  /** The monthly price of a plan, in IDR. */
  function Price(p: SubscriptionPlan): nat {
    match p
    case Starter => 99000
    case Pro => 299000
    case Business => 499000
  }

  /** The number of courts a plan allows. */
  function MaxCourts(p: SubscriptionPlan): nat {
    match p
    case Starter => 3
    case Pro => 8
    case Business => 999
  }

  /** `PLAN_FEATURES[plan]`: the entry is stored under the plan's own key. */
  function PlanFeatures(p: SubscriptionPlan): (c: PlanConfig)
    ensures c.name == PlanKey(p) && c.features == Features(p)
    ensures c.priceMonthly == Price(p) && c.maxCourts == MaxCourts(p)
  {
    match p
    case Starter =>
      PlanConfig(PlanKey(p), "Starter", Price(p), MaxCourts(p), Features(p),
                 "Untuk GOR kecil dengan 1-3 lapangan. Cocok untuk memulai.")
    case Pro =>
      PlanConfig(PlanKey(p), "Pro", Price(p), MaxCourts(p), Features(p),
                 "Untuk GOR menengah. Termasuk POS dan Inventory management.")
    case Business =>
      PlanConfig(PlanKey(p), "Business", Price(p), MaxCourts(p), Features(p),
                 "Untuk GOR besar atau chain. Fitur lengkap tanpa batasan.")
  }

  /** `hasFeature(plan, feature)`. */
  predicate HasFeature(p: SubscriptionPlan, f: FeatureName) {
    f in Features(p)
  }

  /**
   * The table by tier: STARTER unlocks nothing, PRO everything but the
   * multi-staff and advanced analytics features, BUSINESS everything.
   */
  lemma FeatureTiers(p: SubscriptionPlan, f: FeatureName)
    ensures HasFeature(p, f) <==> p == Business || (p == Pro && f != MultiStaff && f != AdvancedAnalytics)
  {
  }

  /** A feature of a lower plan is a feature of every higher one. */
  lemma FeaturesNest(f: FeatureName)
    ensures HasFeature(Starter, f) ==> HasFeature(Pro, f)
    ensures HasFeature(Pro, f) ==> HasFeature(Business, f)
  {
  }

  /** Tier order: prices and court limits strictly increase. */
  function Tier(p: SubscriptionPlan): nat {
    match p
    case Starter => 0
    case Pro => 1
    case Business => 2
  }

  lemma PricesAndCourtsIncrease(p: SubscriptionPlan, q: SubscriptionPlan)
    requires Tier(p) < Tier(q)
    ensures Price(p) < Price(q) && MaxCourts(p) < MaxCourts(q)
    ensures |Features(p)| < |Features(q)|
  {
  }

  /** Different plans have different keys, so the name identifies the plan. */
  lemma NamesIdentifyPlans(p: SubscriptionPlan, q: SubscriptionPlan)
    requires PlanKey(p) == PlanKey(q)
    ensures p == q
  {
    assert PlanKey(p)[0] == PlanKey(q)[0];
  }
}
