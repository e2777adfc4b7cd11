/** The records and constants of types.ts. */
module Types {
  import opened Wrappers

  /** A stored account. The password is optional in the record type, plaintext by design. */
  datatype User = User(email: string, password: Option<string>, credits: int, redeemedGift: bool)

  /** Credits granted to every new account. */
  const INITIAL_CREDITS: int := 20
  /** Credits debited per generated image. */
  const COST_PER_IMAGE: int := 1
  /** Credits a video would cost; no operation of the application charges it. */
  const COST_PER_VIDEO: int := 5

  /** A purchasable credit bundle, as listed in the subscription catalogue. */
  datatype Plan = Plan(id: string, name: string, price: int, credits: int, features: seq<string>)

  const PLANS: seq<Plan> := [
    Plan("starter", "Starter Pack", 99, 49, ["Standard Speed", "Commercial Use", "Priority Support"]),
    Plan("pro", "Pro Bundle", 199, 120, ["High Speed", "Commercial Use", "VIP Support", "Exclusive Styles"])
  ]

  /** Ids are unique and every plan sells a positive number of credits for a positive price. */
  predicate WellFormedCatalogue(plans: seq<Plan>) {
    && (forall i, j :: 0 <= i < j < |plans| ==> plans[i].id != plans[j].id)
    && (forall i :: 0 <= i < |plans| ==> plans[i].price > 0 && plans[i].credits > 0)
  }

  /** The shipped catalogue is well formed and holds exactly the starter and pro plans. */
  lemma PlansCatalogue()
    ensures WellFormedCatalogue(PLANS)
    ensures |PLANS| == 2 && PLANS[0].id == "starter" && PLANS[1].id == "pro"
    ensures PLANS[0].price == 99 && PLANS[0].credits == 49
    ensures PLANS[1].price == 199 && PLANS[1].credits == 120
  {
  }

  /** Both costs are positive, so an affordable request always lowers the balance. */
  lemma CostsPositive()
    ensures 0 < COST_PER_IMAGE < COST_PER_VIDEO
    ensures INITIAL_CREDITS >= COST_PER_IMAGE
  {
  }
}
