/**
 * The collections the controllers read and write: the users, the product
 * catalogue (only which ids exist) and the append-only purchase log.
 */
module Database {
  import opened UserModel

  /** An ObjectId of the products collection. */
  type ProductId = nat

  /** A Purchase document: who bought what. */
  datatype PurchaseRecord = PurchaseRecord(user: UserId, product: ProductId)

  /**
   * The whole store. `nextId` stands for the ObjectId the database hands
   * to the next created user: every id in use is below it.
   */
  datatype State = State(
    accounts: map<UserId, Account>,
    products: set<ProductId>,
    purchases: seq<PurchaseRecord>,
    nextId: UserId)

  /**
   * The constraints the store keeps: the schema's, no self-referral (kept
   * by `registerUser`, which resolves the referrer before inserting), and
   * ids that are never reused.
   */
  ghost predicate Valid(s: State): (r: bool)
    // the id the next user gets belongs to nobody yet
    ensures r ==> s.nextId !in s.accounts
  {
    && ValidAccounts(s.accounts)
    && NoSelfReferral(s.accounts)
    && (forall id :: id in s.accounts ==> id < s.nextId)
  }

  /** A store with the given catalogue and no users and no purchases yet. */
  function Empty(products: set<ProductId>): (s: State)
    ensures Valid(s) && ReferralsResolve(s.accounts)
    ensures s.accounts == map[] && s.purchases == [] && s.products == products
  {
    State(map[], products, [], 0)
  }

  /**
   * Inserting, under the next id, an account whose email and code no
   * account has, keeps the constraints; so does its referrer being one of
   * the existing accounts.
   */
  lemma InsertKeepsValid(s: State, account: Account)
    requires Valid(s)
    requires !EmailTaken(s.accounts, account.email) && IsLowerCase(account.email)
    requires !CodeTaken(s.accounts, account.referralCode)
    requires account.referredBy.Some? ==> account.referredBy.value in s.accounts
    ensures Valid(s.(accounts := s.accounts[s.nextId := account], nextId := s.nextId + 1))
    ensures ReferralsResolve(s.accounts) ==> ReferralsResolve(s.accounts[s.nextId := account])
  {
  }
}
