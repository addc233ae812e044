/**
 * `registerUser`, without the password hashing and the token: refuse a
 * known email, resolve the referral code, draw referral codes until one is
 * free, insert the new account.
 */
module AuthController {
  import opened Outcomes
  import opened UserModel
  import opened Database

  /** The length `nanoid(8)` is called with. */
  const CodeLength: nat := 8

  /** A character of nanoid's URL-safe alphabet: `A-Za-z0-9_-`. */
  predicate IsNanoidChar(c: char)
  {
    'A' <= c <= 'Z' || 'a' <= c <= 'z' || '0' <= c <= '9' || c == '_' || c == '-'
  }

  /** A character a generated referral code can hold: `A-Z0-9_-`. */
  predicate IsCodeChar(c: char)
  {
    'A' <= c <= 'Z' || '0' <= c <= '9' || c == '_' || c == '-'
  }

  /** What `nanoid(8)` returns. */
  predicate IsNanoid(s: string)
  {
    |s| == CodeLength && forall i :: 0 <= i < |s| ==> IsNanoidChar(s[i])
  }

  /** What `nanoid(8).toUpperCase()` returns. */
  predicate IsReferralCode(s: string)
  {
    |s| == CodeLength && forall i :: 0 <= i < |s| ==> IsCodeChar(s[i])
  }

  function UpperChar(c: char): char
  {
    if 'a' <= c <= 'z' then (c as int - 32) as char else c
  }

  /** `toUpperCase`, on the ASCII letters. */
  function UpperCase(s: string): (r: string)
    ensures |r| == |s|
    ensures forall i :: 0 <= i < |s| && !('a' <= s[i] <= 'z') ==> r[i] == s[i]
    ensures forall i :: 0 <= i < |s| && 'a' <= s[i] <= 'z' ==> r[i] as int == s[i] as int - 32
    ensures IsNanoid(s) ==> IsReferralCode(r)
  {
    seq(|s|, i requires 0 <= i < |s| => UpperChar(s[i]))
  }

  /**
   * The code the do-while loop settles on when successive `nanoid(8)`
   * calls return `draws`: the first upper-cased draw no account holds.
   * None when every draw is taken (the loop would go on drawing).
   */
  function FirstFreeCode(accounts: map<UserId, Account>, draws: seq<string>): (r: Option<string>)
    ensures r.Some? ==> !CodeTaken(accounts, r.value)
    ensures r.Some? ==> exists k :: 0 <= k < |draws| && r.value == UpperCase(draws[k])
                                     && forall j :: 0 <= j < k ==> CodeTaken(accounts, UpperCase(draws[j]))
    ensures r.None? <==> forall k :: 0 <= k < |draws| ==> CodeTaken(accounts, UpperCase(draws[k]))
    ensures r.Some? && (forall k :: 0 <= k < |draws| ==> IsNanoid(draws[k])) ==> IsReferralCode(r.value)
    decreases |draws|
  {
    if draws == [] then None
    else if !CodeTaken(accounts, UpperCase(draws[0])) then Some(UpperCase(draws[0]))
    else
      var rest := FirstFreeCode(accounts, draws[1..]);
      assert forall k :: 1 <= k < |draws| ==> draws[k] == draws[1..][k - 1];
      rest
  }

  /**
   * The referrer `referralCode` names: none when no code is given, when
   * it is the empty string (falsy in `if (referralCode)`), or when no
   * account holds it.
   */
  ghost function ResolveReferrer(accounts: map<UserId, Account>, referralCode: Option<string>): (r: Option<UserId>)
    ensures r.Some? <==> referralCode.Some? && referralCode.value != "" && CodeTaken(accounts, referralCode.value)
    ensures r.Some? ==> r.value in accounts && accounts[r.value].referralCode == referralCode.value
  {
    if referralCode.Some? && referralCode.value != "" then FindByCode(accounts, referralCode.value) else None
  }

  /** The reply to a successful registration (the token left out). */
  datatype RegisterReply = RegisterReply(id: UserId, email: string, credits: nat, referralCode: string)

  /** The call returns: the email is refused, or the draws contain a free code. */
  ghost predicate Returns(s: State, email: string, draws: seq<string>)
  {
    EmailTaken(s.accounts, LowerCase(email)) || FirstFreeCode(s.accounts, draws).Some?
  }

  /**
   * One call of `registerUser(email, password, referralCode)`, with
   * `draws` the values `nanoid(8)` returns on that call.
   */
  ghost function Register(s: State, email: string, referralCode: Option<string>, draws: seq<string>)
    : (r: (State, Result<RegisterReply>))
    requires Valid(s)
    requires Returns(s, email, draws)
    // a known email is refused and nothing changes
    ensures r.1 == Err(UserAlreadyExists) <==> EmailTaken(s.accounts, LowerCase(email))
    ensures r.1.Err? ==> r.0 == s
    // a new email is registered, whether or not the referral code is found
    ensures r.1.Ok? <==> !EmailTaken(s.accounts, LowerCase(email))
    // otherwise exactly one account is added, under an id no account had
    ensures r.1.Ok? ==> r.1.value.id !in s.accounts && r.0.accounts.Keys == s.accounts.Keys + {r.1.value.id}
    ensures r.1.Ok? ==> forall id :: id in s.accounts ==> r.0.accounts[id] == s.accounts[id]
    ensures r.0.products == s.products && r.0.purchases == s.purchases
    // the new account: schema defaults, a fresh code, the resolved referrer
    ensures r.1.Ok? ==>
      var a := r.0.accounts[r.1.value.id];
      && a.credits == 0 && !a.hasMadeFirstPurchase
      && a.email == LowerCase(email)
      && a.referralCode == r.1.value.referralCode
      && !CodeTaken(s.accounts, a.referralCode)
      && a.referredBy == ResolveReferrer(s.accounts, referralCode)
      && a.referredBy != Some(r.1.value.id)
    ensures r.1.Ok? ==> Some(r.1.value.referralCode) == FirstFreeCode(s.accounts, draws)
    ensures r.1.Ok? && (forall k :: 0 <= k < |draws| ==> IsNanoid(draws[k])) ==> IsReferralCode(r.1.value.referralCode)
    // the reply
    ensures r.1.Ok? ==> r.1.value.credits == 0 && r.1.value.email == LowerCase(email)
    ensures Valid(r.0)
    ensures ReferralsResolve(s.accounts) ==> ReferralsResolve(r.0.accounts)
  {
    var email' := LowerCase(email);
    if EmailTaken(s.accounts, email') then (s, Err(UserAlreadyExists))
    else
      var referrerId := ResolveReferrer(s.accounts, referralCode);
      var code := FirstFreeCode(s.accounts, draws).value;
      var id := s.nextId;
      var account := NewAccount(email, code, referrerId);
      InsertKeepsValid(s, account);
      (s.(accounts := s.accounts[id := account], nextId := s.nextId + 1),
       Ok(RegisterReply(id, account.email, account.credits, account.referralCode)))
  }
}
