/** The component's mutable state and its handlers (App.tsx). Each handler updates
    the fields in place, as the component's state setters do, and is proved to
    perform the transition of the same name in module Round and to keep
    Round.Valid. The timers are methods that the environment calls: StartNewGame
    when the waiting timer fires, Tick on each firing of the interval,
    ResetAfterCrash when the crash timeout fires. */
module App {
  import opened Types
  import opened Random
  import Round
  import Clock
  import Opponents
  import History
  import Outcome

  class Game {
    var user: Option<User>
    var balance: real
    var status: GameStatus
    var multiplier: real
    var crashPoint: real
    var history: seq<GameHistory>
    var currentBet: Option<Bet>
    var otherBets: seq<Bet>
    var lastWin: Option<Win>
    var showLoss: bool

    /** The fields as one value of the round model. */
    function State(): Round.State
      reads this
    {
      Round.State(user, balance, status, multiplier, crashPoint, history,
                  currentBet, otherBets, lastWin, showLoss)
    }

    predicate Valid()
      reads this
    {
      Round.Valid(State())
    }

    constructor ()
      ensures Valid() && State() == Round.Initial()
    {
      user := None;
      balance := Round.INITIAL_BALANCE;
      status := Waiting;
      multiplier := 1.0;
      crashPoint := 1.0;
      history := [];
      currentBet := None;
      otherBets := [];
      lastWin := None;
      showLoss := false;
    }

    /** `placeBet` with the stake from the bet input, which never goes below 1. */
    method PlaceBet(betAmount: real)
      requires Valid() && betAmount >= 1.0
      modifies this
      ensures Valid() && State() == Round.PlaceBet(old(State()), betAmount)
    {
      Round.PlaceBetValid(State(), betAmount);
      if status != Waiting || balance < betAmount || currentBet.Some? {
        return;
      }
      balance := balance - betAmount;
      currentBet := Some(Bet(betAmount, None, false, Round.PlayerName(user)));
    }

    /** `cashOut` at the multiplier currently shown. */
    method CashOut()
      requires Valid()
      modifies this
      ensures Valid() && State() == Round.CashOut(old(State()))
    {
      ghost var before := State();
      Round.CashOutValid(before);
      if status != Flying || currentBet.None? || currentBet.value.cashedOut {
        return;
      }
      Round.CashOutAccepted(before);
      var bet := currentBet.value;
      var m := multiplier;
      var winnings := Round.Payout(bet.amount, m);
      balance := balance + winnings;
      currentBet := Some(bet.(cashedOut := true, multiplier := Some(m)));
      lastWin := Some(Win(winnings, m));
      assert State() == Round.CashOut(before);
    }

    /** `handleTopUpSuccess`. */
    method TopUp(amount: real)
      requires Valid()
      modifies this
      ensures Valid() && State() == Round.TopUp(old(State()), amount)
    {
      Round.TopUpValid(State(), amount);
      balance := balance + amount;
    }

    /** `handleLogin`. */
    method Login(userData: User)
      requires Valid()
      modifies this
      ensures Valid() && State() == Round.Login(old(State()), userData)
    {
      Round.LoginValid(State(), userData);
      user := Some(userData);
      balance := userData.balance;
    }

    /** The waiting timer firing: `startNewGame`, with the crash-point draws `r`
        and `u` and one stake draw per roster name. */
    method StartNewGame(r: real, u: real, stakes: seq<real>)
      requires Valid() && status == Waiting && user.Some?
      requires IsDraw(r) && IsDraw(u) && |stakes| == |Opponents.ROSTER| && AreDraws(stakes)
      modifies this
      ensures Valid() && State() == Round.StartNewGame(old(State()), r, u, stakes)
    {
      Round.StartNewGameValid(State(), r, u, stakes);
      crashPoint := Outcome.CrashPoint(r, u);
      multiplier := 1.0;
      status := Flying;
      showLoss := false;
      lastWin := None;
      otherBets := Opponents.Generate(stakes);
    }

    /** One firing of the tick interval at time `now`, with one cash-out draw per opponent. */
    method Tick(now: int, draws: seq<real>)
      requires Valid() && status == Flying && |draws| == |otherBets|
      modifies this
      ensures Valid() && State() == Round.Tick(old(State()), now, draws)
    {
      Round.TickValid(State(), now, draws);
      var prev := multiplier;
      var next := Clock.Advance(prev);
      if next >= crashPoint {
        status := Crashed;
        history := History.Record(history, GameHistory(crashPoint, now));
        if currentBet.Some? && !currentBet.value.cashedOut {
          showLoss := true;
        }
        multiplier := crashPoint;
      } else {
        otherBets := Opponents.Step(otherBets, prev, draws);
        multiplier := next;
      }
    }

    /** The crash timeout firing. */
    method ResetAfterCrash()
      requires Valid() && status == Crashed
      modifies this
      ensures Valid() && State() == Round.ResetAfterCrash(old(State()))
    {
      Round.ResetAfterCrashValid(State());
      status := Waiting;
      currentBet := None;
      showLoss := false;
    }
  }

  /** A round driven through the handlers: balance 1000, a bet of 10, a crash
      point of 3.0 (first draw 0.7, second 0.125), a cash-out on the first shown
      multiplier of 1.0 gives the stake back. */
  method ExampleRound(stakes: seq<real>)
    requires |stakes| == |Opponents.ROSTER| && AreDraws(stakes)
  {
    var g := new Game();
    g.Login(User("pilot", 1000.0));
    g.PlaceBet(10.0);
    assert g.balance == 990.0;
    g.StartNewGame(0.7, 0.125, stakes);
    assert g.crashPoint == 3.0 && g.multiplier == 1.0;
    g.CashOut();
    assert g.balance == 1000.0 && g.lastWin == Some(Win(10.0, 1.0));
    g.CashOut();
    assert g.balance == 1000.0;
  }
}
