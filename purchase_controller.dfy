/**
 * `simulatePurchase`: log a purchase and, on the buyer's first purchase
 * only, give the buyer and the buyer's referrer their bonus.
 */
module PurchaseController {
  import opened Outcomes
  import opened UserModel
  import opened Database

  /** The credits a first purchase brings the buyer and, separately, the referrer. */
  const FirstPurchaseBonus: nat := 2

  /** The body of the 201 reply: the buyer's document as the controller last saw it. */
  datatype PurchaseReply = PurchaseReply(credits: nat, hasMadeFirstPurchase: bool)

  /**
   * How an account may change under the ledger's operations: it stays,
   * its email, code and referrer stay, its credits do not fall and its
   * flag does not go back to false.
   */
  ghost predicate Evolves(before: Account, after: Account)
  {
    && after.email == before.email
    && after.referralCode == before.referralCode
    && after.referredBy == before.referredBy
    && after.credits >= before.credits
    && (before.hasMadeFirstPurchase ==> after.hasMadeFirstPurchase)
  }

  /** Every account of `before` is still in `after`, evolved as `Evolves` allows. */
  ghost predicate AccountsEvolve(before: map<UserId, Account>, after: map<UserId, Account>)
  {
    forall id :: id in before ==> id in after && Evolves(before[id], after[id])
  }

  /** `findByIdAndUpdate(referredBy, { $inc: { credits: 2 } })`; a referrer that is not found is only logged. */
  function CreditReferrer(accounts: map<UserId, Account>, referredBy: Option<UserId>): (r: map<UserId, Account>)
    ensures r.Keys == accounts.Keys
    // only the found referrer's credits change, by the bonus
    ensures forall id :: id in accounts ==>
      r[id] == accounts[id].(credits := accounts[id].credits + (if referredBy == Some(id) then FirstPurchaseBonus else 0))
  {
    if referredBy.Some? && referredBy.value in accounts then
      var r := referredBy.value;
      accounts[r := accounts[r].(credits := accounts[r].credits + FirstPurchaseBonus)]
    else accounts
  }

  /**
   * The users after the first-purchase block: the referrer's increment is
   * written first, then the buyer's copy, flagged and credited, is saved
   * over the buyer's document.
   */
  function RewardFirstPurchase(accounts: map<UserId, Account>, user: UserId): (r: map<UserId, Account>)
    requires user in accounts
    ensures r.Keys == accounts.Keys
    // the saved copy wins over the referrer's increment, even for a self-referral
    ensures r[user] == accounts[user].(hasMadeFirstPurchase := true, credits := accounts[user].credits + FirstPurchaseBonus)
    ensures forall id :: id in accounts && id != user ==>
      r[id] == accounts[id].(credits := accounts[id].credits
                                        + (if accounts[user].referredBy == Some(id) then FirstPurchaseBonus else 0))
  {
    var buyer := accounts[user];
    CreditReferrer(accounts, buyer.referredBy)[user := buyer.(hasMadeFirstPurchase := true,
                                                              credits := buyer.credits + FirstPurchaseBonus)]
  }

  /** The first-purchase block changes only credits and flags, upwards. */
  lemma RewardKeepsConstraints(s: State, user: UserId)
    requires user in s.accounts
    ensures var after := RewardFirstPurchase(s.accounts, user);
      && after.Keys == s.accounts.Keys
      && AccountsEvolve(s.accounts, after)
      && (Valid(s) ==> Valid(s.(accounts := after)))
      && (ReferralsResolve(s.accounts) ==> ReferralsResolve(after))
  {
  }

  /**
   * One call of `simulatePurchase` by the authenticated `user` for
   * `product`: the new store and the reply.
   */
  function Purchase(s: State, user: UserId, product: ProductId): (r: (State, Result<PurchaseReply>))
    // the two lookups, in order, and nothing changes when one fails
    ensures r.1 == Err(UserNotFound) <==> user !in s.accounts
    ensures r.1 == Err(ProductNotFound) <==> user in s.accounts && product !in s.products
    ensures r.1.Err? ==> r.0 == s
    // a call past both lookups succeeds, whether or not the referrer is found
    ensures r.1.Ok? <==> user in s.accounts && product in s.products
    // every call past both lookups logs exactly one purchase
    ensures r.1.Ok? ==> r.0.purchases == s.purchases + [PurchaseRecord(user, product)]
    ensures r.0.products == s.products && r.0.nextId == s.nextId && r.0.accounts.Keys == s.accounts.Keys
    // the reply is the buyer's stored state afterwards
    ensures r.1.Ok? ==> r.0.accounts[user].hasMadeFirstPurchase
    ensures r.1.Ok? ==> r.1.value == PurchaseReply(r.0.accounts[user].credits, true)
    // a repeat purchase changes no account
    ensures r.1.Ok? && s.accounts[user].hasMadeFirstPurchase ==> r.0.accounts == s.accounts
    // a first purchase: the buyer gets the bonus, the referrer (when found) too, nobody else anything
    ensures r.1.Ok? && !s.accounts[user].hasMadeFirstPurchase ==>
      r.0.accounts[user] == s.accounts[user].(hasMadeFirstPurchase := true,
                                              credits := s.accounts[user].credits + FirstPurchaseBonus)
    ensures r.1.Ok? && !s.accounts[user].hasMadeFirstPurchase ==>
      forall id :: id in s.accounts && id != user ==>
        r.0.accounts[id] == if s.accounts[user].referredBy == Some(id)
                            then s.accounts[id].(credits := s.accounts[id].credits + FirstPurchaseBonus)
                            else s.accounts[id]
    // credits never fall, flags never revert, identities and referrers never change
    ensures AccountsEvolve(s.accounts, r.0.accounts)
    ensures Valid(s) ==> Valid(r.0)
    ensures ReferralsResolve(s.accounts) ==> ReferralsResolve(r.0.accounts)
  {
    if user !in s.accounts then (s, Err(UserNotFound))
    else if product !in s.products then (s, Err(ProductNotFound))
    else
      var logged := s.(purchases := s.purchases + [PurchaseRecord(user, product)]);
      var after := if s.accounts[user].hasMadeFirstPurchase then logged
                   else (RewardKeepsConstraints(s, user); logged.(accounts := RewardFirstPurchase(s.accounts, user)));
      (after, Ok(PurchaseReply(after.accounts[user].credits, after.accounts[user].hasMadeFirstPurchase)))
  }
}
