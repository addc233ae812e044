/** `getDashboardData`: a read-only summary of the caller's referrals. */
module DashboardController {
  import opened Outcomes
  import opened UserModel

  /** The fixed part of the link, before the caller's code. */
  const LinkPrefix: string := "https://yourapp.com/register?r="

  /** The credits a referrer earns per referee who has bought. */
  const CreditsPerConversion: nat := 2

  datatype Dashboard = Dashboard(
    referralLink: string,
    totalReferredUsers: nat,
    convertedUsers: nat,
    totalCreditsEarned: nat,
    currentCreditBalance: nat)

  /** `User.find({ referredBy: userId })`. */
  function Referees(accounts: map<UserId, Account>, user: UserId): (r: set<UserId>)
    // nobody is their own referee
    ensures NoSelfReferral(accounts) ==> user !in r
  {
    set id | id in accounts && accounts[id].referredBy == Some(user)
  }

  /** The referees kept by `filter(u => u.hasMadeFirstPurchase)`. */
  function Converted(accounts: map<UserId, Account>, user: UserId): (r: set<UserId>)
    ensures r <= Referees(accounts, user)
  {
    set id | id in Referees(accounts, user) && accounts[id].hasMadeFirstPurchase
  }

  lemma SubsetCard(a: set<UserId>, b: set<UserId>)
    requires a <= b
    ensures |a| <= |b|
  {
    assert b == a + (b - a);
  }

  function GetDashboardData(accounts: map<UserId, Account>, user: UserId): (r: Result<Dashboard>)
    ensures r.Err? <==> user !in accounts
    ensures r.Err? ==> r.error == UserNotFound
    ensures r.Ok? ==>
      && r.value.totalReferredUsers == |Referees(accounts, user)|
      && r.value.convertedUsers == |Converted(accounts, user)|
      && r.value.convertedUsers <= r.value.totalReferredUsers
      && r.value.totalCreditsEarned == CreditsPerConversion * r.value.convertedUsers
      && r.value.currentCreditBalance == accounts[user].credits
    // the link is the prefix followed by the caller's code, which can be read back from it
    ensures r.Ok? ==>
      && |LinkPrefix| <= |r.value.referralLink|
      && r.value.referralLink[..|LinkPrefix|] == LinkPrefix
      && r.value.referralLink[|LinkPrefix|..] == accounts[user].referralCode
  {
    if user !in accounts then Err(UserNotFound)
    else
      var account := accounts[user];
      var referees := Referees(accounts, user);
      var converted := Converted(accounts, user);
      SubsetCard(converted, referees);
      Ok(Dashboard(
        LinkPrefix + account.referralCode,
        |referees|,
        |converted|,
        |converted| * CreditsPerConversion,
        account.credits))
  }
}
