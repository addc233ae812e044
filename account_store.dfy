/**
 * The store the controllers run against, as one object whose collections
 * the purchase and registration handlers update in place.
 */
module AccountStore {
  import opened Outcomes
  import opened UserModel
  import opened Database
  import opened PurchaseController
  import opened AuthController

  class Store {
    var accounts: map<UserId, Account>
    var products: set<ProductId>
    var purchases: seq<PurchaseRecord>
    var nextId: UserId

    /** The collections as one value. */
    function Snapshot(): State
      reads this
    {
      State(accounts, products, purchases, nextId)
    }

    ghost predicate Valid()
      reads this
    {
      Database.Valid(Snapshot())
    }

    /** A store holding the catalogue `catalogue` and nothing else. */
    constructor (catalogue: set<ProductId>)
      ensures Valid() && Snapshot() == Empty(catalogue)
    {
      accounts, products, purchases, nextId := map[], catalogue, [], 0;
    }

    /** `simulatePurchase` for the authenticated `user`, step by step. */
    method SimulatePurchase(user: UserId, product: ProductId) returns (r: Result<PurchaseReply>)
      requires Valid()
      modifies this
      ensures Valid()
      ensures (Snapshot(), r) == Purchase(old(Snapshot()), user, product)
    {
      ghost var expected := Purchase(Snapshot(), user, product);
      if user !in accounts {
        return Err(UserNotFound);
      }
      if product !in products {
        return Err(ProductNotFound);
      }
      purchases := purchases + [PurchaseRecord(user, product)];
      if !accounts[user].hasMadeFirstPurchase {
        GrantFirstPurchaseBonus(user);
      }
      var buyer := accounts[user];
      r := Ok(PurchaseReply(buyer.credits, buyer.hasMadeFirstPurchase));
    }

    /**
     * The first-purchase block: flag the buyer's copy and add the bonus,
     * increment the referrer's stored credits if the referrer is found,
     * save the buyer's copy.
     */
    method GrantFirstPurchaseBonus(user: UserId)
      requires user in accounts
      modifies this`accounts
      ensures accounts == RewardFirstPurchase(old(accounts), user)
    {
      var buyer := accounts[user];
      buyer := buyer.(hasMadeFirstPurchase := true);
      buyer := buyer.(credits := buyer.credits + FirstPurchaseBonus);
      if buyer.referredBy.Some? {
        var referrer := buyer.referredBy.value;
        if referrer in accounts {
          accounts := accounts[referrer := accounts[referrer].(credits := accounts[referrer].credits + FirstPurchaseBonus)];
        }
        // a referrer that is not found is only logged
      }
      accounts := accounts[user := buyer];
    }

    /**
     * `registerUser`: `draws` are the values successive `nanoid(8)` calls
     * return; the call returns when the email is refused or one of them,
     * upper-cased, is a code no account holds.
     */
    method RegisterUser(email: string, referralCode: Option<string>, draws: seq<string>)
      returns (r: Result<RegisterReply>)
      requires Valid()
      requires Returns(Snapshot(), email, draws)
      modifies this
      ensures Valid()
      ensures (Snapshot(), r) == Register(old(Snapshot()), email, referralCode, draws)
    {
      ghost var expected := Register(Snapshot(), email, referralCode, draws);
      var email' := LowerCase(email);
      if EmailTaken(accounts, email') {
        return Err(UserAlreadyExists);
      }
      var referrerId := FindReferrer(referralCode);
      var newCode := DrawFreeCode(draws);
      var id := nextId;
      var account := NewAccount(email, newCode, referrerId);
      accounts := accounts[id := account];
      nextId := nextId + 1;
      r := Ok(RegisterReply(id, account.email, account.credits, account.referralCode));
      assert Snapshot() == expected.0 && r == expected.1;
    }

    /** Step 2 of `registerUser`: the referrer a supplied, non-empty code names, if any. */
    method FindReferrer(referralCode: Option<string>) returns (referrerId: Option<UserId>)
      requires Valid()
      ensures referrerId == ResolveReferrer(accounts, referralCode)
    {
      referrerId := None;
      if referralCode.Some? && referralCode.value != "" {
        if CodeTaken(accounts, referralCode.value) {
          var id :| id in accounts && accounts[id].referralCode == referralCode.value;
          FindByCodeUnique(accounts, referralCode.value, id);
          referrerId := Some(id);
        }
        // an unknown code is only logged
      }
    }

    /** The do-while loop of `registerUser`: draw until no account holds the upper-cased draw. */
    method DrawFreeCode(draws: seq<string>) returns (newCode: string)
      requires FirstFreeCode(accounts, draws).Some?
      ensures FirstFreeCode(accounts, draws) == Some(newCode)
    {
      newCode := "";
      var isCodeUnique := false;
      var i := 0;
      while !isCodeUnique
        invariant 0 <= i <= |draws|
        invariant !isCodeUnique ==> FirstFreeCode(accounts, draws[i..]) == FirstFreeCode(accounts, draws)
        invariant isCodeUnique ==> FirstFreeCode(accounts, draws) == Some(newCode)
        decreases |draws| - i
      {
        newCode := UpperCase(draws[i]);
        if !CodeTaken(accounts, newCode) {
          isCodeUnique := true;
        } else {
          assert draws[i..][1..] == draws[i + 1..];
        }
        i := i + 1;
      }
    }
  }
}
