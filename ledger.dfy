/**
 * The balance arithmetic of the root component's handlers (App.tsx): the
 * new account record each handler computes, and how a record is written
 * back into the stored account map.
 */
module Ledger {
  import opened Wrappers
  import opened Types
  import opened Text
  import opened Numbers

  function Max(a: int, b: int): int {
    if a >= b then a else b
  }

  /** `handleConsumeCredit`: one image's cost off the balance, clamped at zero (`Math.max`). */
  function Debit(u: User): (r: User)
    ensures r.email == u.email && r.password == u.password && r.redeemedGift == u.redeemedGift
    ensures r.credits >= 0
    ensures u.credits >= COST_PER_IMAGE ==> r.credits == u.credits - COST_PER_IMAGE
    ensures u.credits < COST_PER_IMAGE ==> r.credits == 0
  {
    u.(credits := Max(0, u.credits - COST_PER_IMAGE))
  }

  /** `handleAddCredits`: the amount is added as given; only the balance changes. */
  function Credit(u: User, amount: int): (r: User)
    ensures r.email == u.email && r.password == u.password && r.redeemedGift == u.redeemedGift
    ensures r.credits - u.credits == amount
  {
    u.(credits := u.credits + amount)
  }

  /** Crediting one image's cost and then consuming a credit restores a solvent record. */
  lemma DebitUndoesCredit(u: User)
    requires u.credits >= 0
    ensures Debit(Credit(u, COST_PER_IMAGE)) == u
  {
  }

  /** Debiting never raises a non-negative balance and lowers a positive one by exactly the cost. */
  lemma DebitLowers(u: User)
    requires u.credits >= 0
    ensures Debit(u).credits <= u.credits
    ensures u.credits > 0 ==> Debit(u).credits == u.credits - 1
  {
  }

  /**
   * `updateUserInStorage`'s write: when the account map is stored, the entry
   * under the record's email becomes the record; when it is absent nothing
   * is written.
   */
  function Persist(store: Option<map<string, User>>, u: User): (r: Option<map<string, User>>)
    ensures r.None? <==> store.None?
    ensures r.Some? ==> u.email in r.value && r.value[u.email] == u
    ensures r.Some? ==> r.value.Keys == store.value.Keys + {u.email}
    ensures r.Some? ==> forall k :: k in store.value && k != u.email ==> r.value[k] == store.value[k]
  {
    match store
    case None => None
    case Some(m) => Some(m[u.email := u])
  }

  /** Promotional codes and their bonuses, matched on the upper-cased code. Every known code is upper-case. */
  function GiftBonus(code: string): (r: Option<nat>)
    ensures r.Some? ==> r.value > 0 && NoLowercase(code)
  {
    if code == "NEXA0909" then Some(10)
    else if code == "GURU1212" then Some(30)
    else if code == "SN1010" then Some(20)
    else None
  }

  /** Exactly three codes are known: NEXA0909 gives 10 credits, GURU1212 gives 30 and SN1010 gives 20. */
  lemma GiftTable(code: string)
    ensures GiftBonus(code).Some? <==> code in {"NEXA0909", "GURU1212", "SN1010"}
    ensures GiftBonus("NEXA0909") == Some(10)
    ensures GiftBonus("GURU1212") == Some(30)
    ensures GiftBonus("SN1010") == Some(20)
  {
  }

  const LOGIN_FIRST: string := "Please login first."
  const ALREADY_REDEEMED: string := "You have already used a gift code."
  const INVALID_CODE: string := "Invalid or expired code."

  /** What `handleRedeemGift` decides: a refusal with its message, or the bonus and the updated record. */
  datatype RedeemOutcome = Rejected(reason: string) | Redeemed(bonus: nat, updated: User)

  /** `handleRedeemGift` on the current user (if any) and the submitted code. */
  function Redeem(user: Option<User>, code: string): (r: RedeemOutcome)
    ensures user.None? ==> r == Rejected(LOGIN_FIRST)
    ensures user.Some? && user.value.redeemedGift ==> r == Rejected(ALREADY_REDEEMED)
    ensures r.Redeemed? <==> user.Some? && !user.value.redeemedGift && GiftBonus(ToUpper(code)).Some?
    ensures user.Some? && !user.value.redeemedGift && GiftBonus(ToUpper(code)).None? ==> r == Rejected(INVALID_CODE)
    ensures r.Redeemed? ==> r.bonus > 0 && r.bonus == GiftBonus(ToUpper(code)).value
    ensures r.Redeemed? ==> r.updated == Credit(user.value, r.bonus).(redeemedGift := true)
  {
    match user
    case None => Rejected(LOGIN_FIRST)
    case Some(u) =>
      if u.redeemedGift then Rejected(ALREADY_REDEEMED)
      else match GiftBonus(ToUpper(code))
        case None => Rejected(INVALID_CODE)
        case Some(bonus) => Redeemed(bonus, u.(credits := u.credits + bonus, redeemedGift := true))
  }

  /** The `{ success, message }` object `handleRedeemGift` returns. */
  datatype RedeemResult = RedeemResult(success: bool, message: string)

  function ResultOf(r: RedeemOutcome): (res: RedeemResult)
    ensures res.success <==> r.Redeemed?
    ensures r.Rejected? ==> res.message == r.reason
    ensures r.Redeemed? ==> res.message == "Success! " + NatToString(r.bonus) + " credits added."
  {
    match r
    case Rejected(reason) => RedeemResult(false, reason)
    case Redeemed(bonus, _) => RedeemResult(true, "Success! " + NatToString(bonus) + " credits added.")
  }

  /** Codes match case-insensitively: redeeming a code and its upper-case form decide alike. */
  lemma RedeemIgnoresCase(user: Option<User>, code: string)
    ensures Redeem(user, ToUpper(code)) == Redeem(user, code)
  {
    UpperFixed(ToUpper(code));
  }

  /** The handlers, as they act on the current user's record. */
  datatype LedgerOp = Consume | Add(amount: int) | RedeemCode(code: string)

  function ApplyOp(u: User, op: LedgerOp): User {
    match op
    case Consume => Debit(u)
    case Add(amount) => Credit(u, amount)
    case RedeemCode(code) =>
      match Redeem(Some(u), code)
      case Rejected(_) => u
      case Redeemed(_, updated) => updated
  }

  function ApplyAll(u: User, ops: seq<LedgerOp>): User
    decreases |ops|
  {
    if ops == [] then u else ApplyAll(ApplyOp(u, ops[0]), ops[1..])
  }

  predicate NonNegativeAdds(ops: seq<LedgerOp>) {
    forall i :: 0 <= i < |ops| ==> ops[i].Add? ==> ops[i].amount >= 0
  }

  /**
   * The gift flag is one-way: once set, no sequence of consumes, top-ups or
   * redemptions clears it, and email and password never change.
   */
  lemma {:induction false} FlagIsOneWay(u: User, ops: seq<LedgerOp>)
    requires u.redeemedGift
    ensures ApplyAll(u, ops).redeemedGift
    ensures ApplyAll(u, ops).email == u.email && ApplyAll(u, ops).password == u.password
    decreases |ops|
  {
    if ops != [] {
      FlagIsOneWay(ApplyOp(u, ops[0]), ops[1..]);
    }
  }

  /** After one successful redemption every later redemption fails, whatever happened in between. */
  lemma RedeemAtMostOnce(u: User, code: string, ops: seq<LedgerOp>, later: string)
    requires Redeem(Some(u), code).Redeemed?
    ensures Redeem(Some(ApplyAll(Redeem(Some(u), code).updated, ops)), later) == Rejected(ALREADY_REDEEMED)
  {
    FlagIsOneWay(Redeem(Some(u), code).updated, ops);
  }

  /** Without negative top-ups no handler ever makes a non-negative balance negative. */
  lemma {:induction false} BalanceStaysNonNegative(u: User, ops: seq<LedgerOp>)
    requires u.credits >= 0 && NonNegativeAdds(ops)
    ensures ApplyAll(u, ops).credits >= 0
    decreases |ops|
  {
    if ops != [] {
      assert NonNegativeAdds(ops[1..]) by {
        forall i | 0 <= i < |ops[1..]| && ops[1..][i].Add? ensures ops[1..][i].amount >= 0 {
          assert ops[1..][i] == ops[i + 1];
        }
      }
      BalanceStaysNonNegative(ApplyOp(u, ops[0]), ops[1..]);
    }
  }

  /** Redeeming an unknown code leaves the record exactly as it was. */
  lemma UnknownCodeChangesNothing(u: User, code: string)
    requires GiftBonus(ToUpper(code)).None?
    ensures ApplyOp(u, RedeemCode(code)) == u
    ensures !u.redeemedGift ==> Redeem(Some(u), code) == Rejected(INVALID_CODE)
  {
  }
}
