/**
 * The User document: its fields, the defaults a new document gets and the
 * constraints (required, unique, lower-cased) the schema puts on a collection
 * of them.
 */
module UserModel {
  import opened Outcomes

  /** An ObjectId of the users collection. */
  type UserId = nat

  datatype Account = Account(
    email: string,
    referralCode: string,
    credits: nat,
    referredBy: Option<UserId>,
    hasMadeFirstPurchase: bool)

  predicate IsUpperAsciiLetter(c: char) { 'A' <= c <= 'Z' }

  /** The `lowercase: true` setter, on the ASCII letters. */
  function LowerChar(c: char): char
  {
    if IsUpperAsciiLetter(c) then (c as int + 32) as char else c
  }

  /** True when no character of `s` is an upper-case letter. */
  predicate IsLowerCase(s: string)
  {
    forall i :: 0 <= i < |s| ==> !IsUpperAsciiLetter(s[i])
  }

  function LowerCase(s: string): (r: string)
    ensures |r| == |s|
    ensures IsLowerCase(r)
    ensures forall i :: 0 <= i < |s| && !IsUpperAsciiLetter(s[i]) ==> r[i] == s[i]
    ensures forall i :: 0 <= i < |s| && IsUpperAsciiLetter(s[i]) ==> r[i] as int == s[i] as int + 32
    ensures IsLowerCase(s) ==> r == s
  {
    seq(|s|, i requires 0 <= i < |s| => LowerChar(s[i]))
  }

  /**
   * The document `User.create` stores: the given email (through the
   * lower-casing setter), referral code and referrer, and the schema's
   * defaults for the other two fields.
   */
  function NewAccount(email: string, referralCode: string, referredBy: Option<UserId>): (a: Account)
    ensures a.credits == 0 && !a.hasMadeFirstPurchase
    ensures a.referredBy == referredBy && a.referralCode == referralCode
    ensures IsLowerCase(a.email) && a.email == LowerCase(email)
  {
    Account(LowerCase(email), referralCode, 0, referredBy, false)
  }

  /** `User.findOne({ email })` finds a document. */
  predicate EmailTaken(accounts: map<UserId, Account>, email: string)
  {
    exists id :: id in accounts && accounts[id].email == email
  }

  /** `User.findOne({ referralCode })` finds a document. */
  predicate CodeTaken(accounts: map<UserId, Account>, code: string)
  {
    exists id :: id in accounts && accounts[id].referralCode == code
  }

  /** `email` is `unique: true`. */
  ghost predicate UniqueEmails(accounts: map<UserId, Account>)
  {
    forall a, b :: a in accounts && b in accounts && accounts[a].email == accounts[b].email ==> a == b
  }

  /** `referralCode` is `unique: true`. */
  ghost predicate UniqueCodes(accounts: map<UserId, Account>)
  {
    forall a, b :: a in accounts && b in accounts && accounts[a].referralCode == accounts[b].referralCode ==> a == b
  }

  /** Every stored email went through the lower-casing setter. */
  ghost predicate EmailsLowerCase(accounts: map<UserId, Account>)
  {
    forall id :: id in accounts ==> IsLowerCase(accounts[id].email)
  }

  /**
   * No account refers to itself. The schema does not say this; it holds
   * because `registerUser` resolves the referrer before the new account
   * exists.
   */
  ghost predicate NoSelfReferral(accounts: map<UserId, Account>)
  {
    forall id :: id in accounts ==> accounts[id].referredBy != Some(id)
  }

  /** Every `referredBy` names an account that exists. */
  ghost predicate ReferralsResolve(accounts: map<UserId, Account>)
  {
    forall id :: id in accounts && accounts[id].referredBy.Some? ==> accounts[id].referredBy.value in accounts
  }

  /** The constraints the schema keeps on the users collection: unique emails and codes, lower-cased emails. */
  ghost predicate ValidAccounts(accounts: map<UserId, Account>): (r: bool)
    // a stored email is a fixed point of the setter
    ensures r ==> forall id :: id in accounts ==> LowerCase(accounts[id].email) == accounts[id].email
  {
    UniqueEmails(accounts) && UniqueCodes(accounts) && EmailsLowerCase(accounts)
  }

  /** The account `User.findOne({ referralCode: code })` returns, if any. */
  ghost function FindByCode(accounts: map<UserId, Account>, code: string): (r: Option<UserId>)
    ensures r.Some? ==> r.value in accounts && accounts[r.value].referralCode == code
    ensures r.None? <==> !CodeTaken(accounts, code)
  {
    if CodeTaken(accounts, code) then
      var id :| id in accounts && accounts[id].referralCode == code; Some(id)
    else None
  }

  /** With unique codes, the lookup by code finds exactly the account holding it. */
  lemma FindByCodeUnique(accounts: map<UserId, Account>, code: string, id: UserId)
    requires UniqueCodes(accounts)
    requires id in accounts && accounts[id].referralCode == code
    ensures FindByCode(accounts, code) == Some(id)
  {
  }

  /**
   * With every stored email lower-cased, the duplicate check on the
   * lower-cased email catches the same address in any letter case.
   */
  lemma EmailTakenUpToCase(accounts: map<UserId, Account>, email: string)
    requires ValidAccounts(accounts)
    ensures EmailTaken(accounts, LowerCase(email)) <==>
      exists id :: id in accounts && LowerCase(accounts[id].email) == LowerCase(email)
  {
    assert LowerCase(LowerCase(email)) == LowerCase(email);
  }
}
