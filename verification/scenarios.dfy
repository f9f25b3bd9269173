/**
  Client runs of the ledger, proved from the method contracts alone: no clamp
  on negative points, no positivity check on a withdrawal amount, the last ten
  diamonds, and the duplicate check of registration.
*/
module Scenarios {
  import opened Outcomes
  import opened Password
  import opened Scoring
  import opened Questions
  import opened Ledger

  method NewPlayer() returns (l: Ledger, id: int)
    ensures fresh(l) && l.Valid()
    ensures l.accounts.Keys == {id} && l.accounts[id].email == "ana@example.com"
    ensures l.accounts[id].saldo == 0 && l.accounts[id].diamantes == 0
    ensures l.accounts[id].vidas == 5 && l.accounts[id].xp == 0 && l.accounts[id].nivel == 1
    ensures l.history == [] && l.withdrawals == []
  {
    l := new Ledger([]);
    var senha := "senhaF$rte";
    DigitNotRequired();
    assert Accepts(senha);
    var req := Signup(Some("Ana"), Some("ana@example.com"), Some(senha), None, None);
    assert HasRequired(req);
    var r := l.Register(req);
    assert r.Ok?;
    id := r.value;
  }

  /** Negative points are kept: -250 points take the diamonds and xp of a new player below zero. */
  method NegativeScore()
  {
    var l, id := NewPlayer();
    var _ := l.SubmitScore(id, "quiz", Number(-250));
    RewardExamples();
    assert l.accounts[id].diamantes == -3 && l.accounts[id].xp == -250;
    assert l.history == [ScoreRow(id, "quiz", -250)];
  }

  /** With no check on the sign of `valor`, a negative withdrawal credits the balance. */
  method NegativeWithdrawal()
  {
    var l, id := NewPlayer();
    assert id in l.accounts;
    var r := l.Withdraw(id, -100, "pix");
    assert r.Ok?;
    assert l.accounts[id].saldo == 100;
    assert l.withdrawals == [Withdrawal(id, -100, "pix", EmAnalise)];
  }

  /** With exactly ten diamonds, the first paid retry succeeds and the second is refused. */
  method LastTenDiamonds()
  {
    var l, id := NewPlayer();
    var _ := l.SubmitScore(id, "arcade", Number(1000));
    RewardExamples();
    assert DiamondReward(1000) == 10;
    assert id in l.accounts;
    var first := l.PaidRetry(id);
    var second := l.PaidRetry(id);
    assert first.Ok? && second == Err(InsufficientDiamonds);
    assert l.accounts[id].diamantes == 0;
  }

  /** Registering the same e-mail twice is refused and leaves the table as it was. */
  method DuplicateEmail()
  {
    var l, id := NewPlayer();
    assert id in l.accounts;
    var email := "ana@example.com";
    var senha := "senhaF$rte";
    DigitNotRequired();
    assert Accepts(senha);
    var req := Signup(Some("Bia"), Some(email), Some(senha), Some("119"), None);
    assert HasRequired(req) && Clashes(l.accounts[id], email, None, Some("119"));
    var r := l.Register(req);
    assert r == Err(AlreadyRegistered);
    assert l.accounts.Keys == {id};
  }
}
