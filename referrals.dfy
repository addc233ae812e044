/**
 * What holds across the three controllers: every balance is explained by
 * the account's own first-purchase bonus plus what its dashboard reports
 * as earned from referrals, and this survives any sequence of
 * registrations and purchases.
 */
module Referrals {
  import opened Outcomes
  import opened UserModel
  import opened Database
  import opened PurchaseController
  import opened AuthController
  import opened DashboardController

  /** The credits an account got for its own first purchase. */
  function OwnBonus(a: Account): nat
  {
    if a.hasMadeFirstPurchase then FirstPurchaseBonus else 0
  }

  /** Every balance is its own bonus plus 2 per referee who has bought. */
  ghost predicate CreditsExplained(accounts: map<UserId, Account>)
  {
    forall id :: id in accounts ==>
      accounts[id].credits == OwnBonus(accounts[id]) + CreditsPerConversion * |Converted(accounts, id)|
  }

  /** The store invariant of a ledger that started empty. */
  ghost predicate Consistent(s: State)
  {
    Valid(s) && ReferralsResolve(s.accounts) && CreditsExplained(s.accounts)
  }

  lemma EmptyConsistent(products: set<ProductId>)
    ensures Consistent(Empty(products))
  {
  }

  /**
   * When one account `u` that had not bought goes to having bought and
   * no referrer changes, exactly the converted set of `u`'s referrer
   * gains `u`.
   */
  lemma ConvertedAfterFirstPurchase(a: map<UserId, Account>, b: map<UserId, Account>, u: UserId, id: UserId)
    requires u in a && !a[u].hasMadeFirstPurchase
    requires a.Keys == b.Keys
    requires forall x :: x in a ==> b[x].referredBy == a[x].referredBy
    requires forall x :: x in a && x != u ==> b[x].hasMadeFirstPurchase == a[x].hasMadeFirstPurchase
    requires b[u].hasMadeFirstPurchase
    ensures u !in Converted(a, id)
    ensures Converted(b, id) == if a[u].referredBy == Some(id) then Converted(a, id) + {u} else Converted(a, id)
  {
    assert Referees(b, id) == Referees(a, id);
  }

  /** A first purchase, stated on the users map alone, keeps every balance explained. */
  lemma FirstPurchaseKeepsCredits(a: map<UserId, Account>, b: map<UserId, Account>, u: UserId)
    requires CreditsExplained(a) && NoSelfReferral(a) && ReferralsResolve(a)
    requires u in a && !a[u].hasMadeFirstPurchase
    requires b.Keys == a.Keys
    requires b[u] == a[u].(hasMadeFirstPurchase := true, credits := a[u].credits + FirstPurchaseBonus)
    requires forall id :: id in a && id != u ==>
      b[id] == if a[u].referredBy == Some(id) then a[id].(credits := a[id].credits + FirstPurchaseBonus) else a[id]
    ensures CreditsExplained(b)
  {
    forall id | id in b
      ensures b[id].credits == OwnBonus(b[id]) + CreditsPerConversion * |Converted(b, id)|
    {
      FirstPurchaseKeepsBalance(a, b, u, id);
    }
  }

  /** The same, for the balance of one account `id`. */
  lemma FirstPurchaseKeepsBalance(a: map<UserId, Account>, b: map<UserId, Account>, u: UserId, id: UserId)
    requires id in a
    requires a[id].credits == OwnBonus(a[id]) + CreditsPerConversion * |Converted(a, id)|
    requires NoSelfReferral(a)
    requires u in a && !a[u].hasMadeFirstPurchase
    requires b.Keys == a.Keys
    requires b[u] == a[u].(hasMadeFirstPurchase := true, credits := a[u].credits + FirstPurchaseBonus)
    requires forall x :: x in a && x != u ==>
      b[x] == if a[u].referredBy == Some(x) then a[x].(credits := a[x].credits + FirstPurchaseBonus) else a[x]
    ensures b[id].credits == OwnBonus(b[id]) + CreditsPerConversion * |Converted(b, id)|
  {
    ConvertedAfterFirstPurchase(a, b, u, id);
    if a[u].referredBy == Some(id) {
      assert |Converted(b, id)| == |Converted(a, id)| + 1;
    }
  }

  lemma PurchaseKeepsConsistent(s: State, user: UserId, product: ProductId)
    requires Consistent(s)
    ensures Consistent(Purchase(s, user, product).0)
  {
    var (s', r) := Purchase(s, user, product);
    assert Valid(s') && ReferralsResolve(s'.accounts);
    if r.Ok? && !s.accounts[user].hasMadeFirstPurchase {
      FirstPurchaseKeepsCredits(s.accounts, s'.accounts, user);
    } else {
      assert s'.accounts == s.accounts;
    }
  }

  /** Adding a fresh account that has not bought and refers to an existing one keeps every balance explained. */
  lemma NewAccountKeepsCredits(a: map<UserId, Account>, n: UserId, account: Account)
    requires CreditsExplained(a) && ReferralsResolve(a)
    requires n !in a
    requires account.credits == 0 && !account.hasMadeFirstPurchase
    requires account.referredBy.Some? ==> account.referredBy.value in a
    ensures CreditsExplained(a[n := account])
  {
    var b := a[n := account];
    forall id | id in b
      ensures b[id].credits == OwnBonus(b[id]) + CreditsPerConversion * |Converted(b, id)|
    {
      if id == n {
        FreshAccountConvertsNobody(a, n, account);
      } else {
        InsertKeepsConverted(a, n, account, id);
      }
    }
  }

  /** A fresh account is nobody's referrer yet. */
  lemma FreshAccountConvertsNobody(a: map<UserId, Account>, n: UserId, account: Account)
    requires ReferralsResolve(a) && n !in a
    requires account.referredBy.Some? ==> account.referredBy.value in a
    ensures Converted(a[n := account], n) == {}
  {
    var b := a[n := account];
    assert forall x :: x in b ==> b[x].referredBy != Some(n);
    assert Referees(b, n) == {};
  }

  /** Adding an account that has not bought changes no existing account's converted set. */
  lemma InsertKeepsConverted(a: map<UserId, Account>, n: UserId, account: Account, id: UserId)
    requires n !in a && !account.hasMadeFirstPurchase
    ensures Converted(a[n := account], id) == Converted(a, id)
  {
  }

  lemma RegisterKeepsConsistent(s: State, email: string, referralCode: Option<string>, draws: seq<string>)
    requires Consistent(s)
    requires Returns(s, email, draws)
    ensures Consistent(Register(s, email, referralCode, draws).0)
  {
    var (s', r) := Register(s, email, referralCode, draws);
    if r.Ok? {
      var n := r.value.id;
      assert s'.accounts == s.accounts[n := s'.accounts[n]];
      NewAccountKeepsCredits(s.accounts, n, s'.accounts[n]);
    }
  }

  /** A call the ledger receives. */
  datatype Event =
    | Registration(email: string, referralCode: Option<string>, draws: seq<string>)
    | Buy(user: UserId, product: ProductId)

  /** The store after one call; a registration whose draws never yield a free code does not return. */
  ghost function Step(s: State, e: Event): (r: State)
    requires Valid(s)
    ensures Valid(r)
    ensures AccountsEvolve(s.accounts, r.accounts)
  {
    match e
    case Registration(email, code, draws) =>
      if Returns(s, email, draws) then Register(s, email, code, draws).0 else s
    case Buy(user, product) => Purchase(s, user, product).0
  }

  /** The store after the calls `events`, one after the other. */
  ghost function Run(s: State, events: seq<Event>): (r: State)
    requires Valid(s)
    ensures Valid(r)
    ensures AccountsEvolve(s.accounts, r.accounts)
    decreases |events|
  {
    if events == [] then s else Run(Step(s, events[0]), events[1..])
  }

  lemma {:induction false} RunKeepsConsistent(s: State, events: seq<Event>)
    requires Consistent(s)
    ensures Consistent(Run(s, events))
    decreases |events|
  {
    if events != [] {
      match events[0] {
        case Registration(email, code, draws) =>
          if Returns(s, email, draws) { RegisterKeepsConsistent(s, email, code, draws); }
        case Buy(user, product) =>
          PurchaseKeepsConsistent(s, user, product);
      }
      RunKeepsConsistent(Step(s, events[0]), events[1..]);
    }
  }

  /**
   * From an empty store, after any calls, each account's balance is its
   * own first-purchase bonus plus the credits its dashboard reports as
   * earned from referrals.
   */
  lemma BalanceMatchesDashboard(products: set<ProductId>, events: seq<Event>, user: UserId)
    requires user in Run(Empty(products), events).accounts
    ensures var accounts := Run(Empty(products), events).accounts;
            var d := GetDashboardData(accounts, user);
            d.Ok? && d.value.currentCreditBalance == OwnBonus(accounts[user]) + d.value.totalCreditsEarned
  {
    EmptyConsistent(products);
    RunKeepsConsistent(Empty(products), events);
  }

  /** `user` buying each of `products` in turn. */
  function Buys(user: UserId, products: seq<ProductId>): (r: seq<Event>)
    ensures |r| == |products|
    ensures forall i :: 0 <= i < |products| ==> r[i] == Buy(user, products[i])
  {
    seq(|products|, i requires 0 <= i < |products| => Buy(user, products[i]))
  }

  /** The purchase log entries of `user` buying each of `products` in turn. */
  function Records(user: UserId, products: seq<ProductId>): seq<PurchaseRecord>
    decreases |products|
  {
    if products == [] then [] else [PurchaseRecord(user, products[0])] + Records(user, products[1..])
  }

  /** Once a user has bought, further purchases only add to the log. */
  lemma {:induction false} RepeatPurchasesChangeNoAccount(s: State, user: UserId, products: seq<ProductId>)
    requires Valid(s)
    requires user in s.accounts && s.accounts[user].hasMadeFirstPurchase
    requires forall i :: 0 <= i < |products| ==> products[i] in s.products
    ensures Run(s, Buys(user, products)).accounts == s.accounts
    ensures Run(s, Buys(user, products)).purchases == s.purchases + Records(user, products)
    decreases |products|
  {
    if products != [] {
      var events := Buys(user, products);
      var s1 := Step(s, events[0]);
      assert s1 == Purchase(s, user, products[0]).0;
      assert s1.accounts == s.accounts;
      assert events[1..] == Buys(user, products[1..]);
      RepeatPurchasesChangeNoAccount(s1, user, products[1..]);
      assert s1.purchases == s.purchases + [PurchaseRecord(user, products[0])];
    }
  }

  /**
   * However many purchases a user makes, the accounts end as after the
   * first one alone: the bonus, the buyer's and the referrer's, is paid
   * once. Every purchase is logged.
   */
  lemma BonusPaidOnce(s: State, user: UserId, products: seq<ProductId>)
    requires Valid(s)
    requires user in s.accounts
    requires |products| > 0 && forall i :: 0 <= i < |products| ==> products[i] in s.products
    ensures Run(s, Buys(user, products)).accounts == Purchase(s, user, products[0]).0.accounts
    ensures Run(s, Buys(user, products)).purchases == s.purchases + Records(user, products)
  {
    var events := Buys(user, products);
    var s1 := Purchase(s, user, products[0]).0;
    assert Valid(s1) && s1.products == s.products && s1.accounts[user].hasMadeFirstPurchase
        && s1.purchases == s.purchases + [PurchaseRecord(user, products[0])];
    assert Run(s, events) == Run(s1, events[1..]);
    assert events[1..] == Buys(user, products[1..]);
    RepeatPurchasesChangeNoAccount(s1, user, products[1..]);
    LogAfterFirstPurchase(s.purchases, user, products);
  }

  /** The log after the first of `products`, followed by the records of the rest, is the log of them all. */
  lemma LogAfterFirstPurchase(log: seq<PurchaseRecord>, user: UserId, products: seq<ProductId>)
    requires |products| > 0
    ensures (log + [PurchaseRecord(user, products[0])]) + Records(user, products[1..]) == log + Records(user, products)
  {
    assert Records(user, products) == [PurchaseRecord(user, products[0])] + Records(user, products[1..]);
  }
}
