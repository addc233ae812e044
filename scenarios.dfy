/**
 * A referrer R (id 0) and a referee A (id 1): A's first purchase pays
 * both, A's second pays nobody, and R's dashboard shows one conversion.
 */
module Scenarios {
  import opened Outcomes
  import opened UserModel
  import opened Database
  import opened PurchaseController
  import opened AuthController
  import opened DashboardController

  const R := Account("r@mail.io", "ABCDEFGH", 0, None, false)
  const A := Account("a@mail.io", "IJKLMNOP", 0, Some(0), false)

  /** The store once R has registered, and once A has too, with R's code. */
  const OnlyR := State(map[0 := R], {7}, [], 1)
  const RAndA := State(map[0 := R, 1 := A], {7}, [], 2)

  /** The users once A has bought for the first time. */
  const Converted1 := map[0 := R.(credits := 2), 1 := A.(credits := 2, hasMadeFirstPurchase := true)]

  const AfterFirst := State(Converted1, {7}, [PurchaseRecord(1, 7)], 2)

  lemma FirstPurchasePaysBoth()
    ensures Purchase(RAndA, 1, 7) == (AfterFirst, Ok(PurchaseReply(2, true)))
  {
    assert RAndA.purchases + [PurchaseRecord(1, 7)] == [PurchaseRecord(1, 7)];
    assert CreditReferrer(RAndA.accounts, Some(0)) == map[0 := R.(credits := 2), 1 := A];
    assert RewardFirstPurchase(RAndA.accounts, 1) == Converted1;
  }

  /** A's second purchase is logged and pays nobody; unknown ids are refused. */
  lemma SecondPurchasePaysNobody()
    ensures Purchase(AfterFirst, 1, 7)
         == (AfterFirst.(purchases := [PurchaseRecord(1, 7), PurchaseRecord(1, 7)]), Ok(PurchaseReply(2, true)))
    ensures Purchase(AfterFirst, 1, 8) == (AfterFirst, Err(ProductNotFound))
    ensures Purchase(AfterFirst, 5, 7) == (AfterFirst, Err(UserNotFound))
  {
    assert AfterFirst.purchases + [PurchaseRecord(1, 7)] == [PurchaseRecord(1, 7), PurchaseRecord(1, 7)];
  }

  lemma DashboardAfterConversion()
    ensures GetDashboardData(Converted1, 0) == Ok(Dashboard("https://yourapp.com/register?r=ABCDEFGH", 1, 1, 2, 2))
  {
    assert Referees(Converted1, 0) == {1};
    assert Converted(Converted1, 0) == {1};
    assert LinkPrefix + "ABCDEFGH" == "https://yourapp.com/register?r=ABCDEFGH";
  }

  lemma RegisterWithoutCode()
    ensures Register(Empty({7}), "R@Mail.io", None, ["abcdefgh"])
         == (OnlyR, Ok(RegisterReply(0, "r@mail.io", 0, "ABCDEFGH")))
  {
    assert LowerCase("R@Mail.io") == "r@mail.io";
    assert UpperCase("abcdefgh") == "ABCDEFGH";
    assert FirstFreeCode(map[], ["abcdefgh"]) == Some("ABCDEFGH");
  }

  /** The first draw is R's code, so the loop draws again. */
  lemma SecondDrawIsFree()
    ensures FirstFreeCode(OnlyR.accounts, ["ABCDEFGH", "ijklmnop"]) == Some("IJKLMNOP")
  {
    assert UpperCase("ABCDEFGH") == "ABCDEFGH" && UpperCase("ijklmnop") == "IJKLMNOP";
    assert OnlyR.accounts.Keys == {0} && OnlyR.accounts[0].referralCode == "ABCDEFGH";
    assert "ABCDEFGH"[0] != "IJKLMNOP"[0];
    assert CodeTaken(OnlyR.accounts, "ABCDEFGH") && !CodeTaken(OnlyR.accounts, "IJKLMNOP");
    assert ["ABCDEFGH", "ijklmnop"][1..] == ["ijklmnop"];
  }

  /** What the registration of A finds in the store: a new email and R's code. */
  lemma OnlyRLookups()
    ensures LowerCase("a@mail.io") == "a@mail.io" && !EmailTaken(OnlyR.accounts, "a@mail.io")
    ensures ResolveReferrer(OnlyR.accounts, Some("ABCDEFGH")) == Some(0)
  {
    assert OnlyR.accounts.Keys == {0} && "r@mail.io"[0] != "a@mail.io"[0];
    FindByCodeUnique(OnlyR.accounts, "ABCDEFGH", 0);
  }

  lemma OnlyRValid()
    ensures Valid(OnlyR)
  {
  }

  lemma RegisterWithCode()
    ensures Valid(OnlyR) && Returns(OnlyR, "a@mail.io", ["ABCDEFGH", "ijklmnop"])
    ensures Register(OnlyR, "a@mail.io", Some("ABCDEFGH"), ["ABCDEFGH", "ijklmnop"])
         == (RAndA, Ok(RegisterReply(1, "a@mail.io", 0, "IJKLMNOP")))
  {
    OnlyRValid();
    SecondDrawIsFree();
    OnlyRLookups();
  }

  /** The duplicate check sees through letter case. */
  lemma RegisterSameEmailAgain()
    ensures Valid(RAndA) && Returns(RAndA, "A@MAIL.IO", [])
    ensures Register(RAndA, "A@MAIL.IO", None, []) == (RAndA, Err(UserAlreadyExists))
  {
    RAndAValid();
    AEmailTaken();
  }

  lemma RAndAValid()
    ensures Valid(RAndA)
  {
  }

  lemma AEmailTaken()
    ensures EmailTaken(RAndA.accounts, LowerCase("A@MAIL.IO"))
  {
    assert LowerCase("A@MAIL.IO") == "a@mail.io";
    assert RAndA.accounts[1].email == "a@mail.io";
  }
}
