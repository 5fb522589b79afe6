/** The round state machine of App.tsx as values: the state the component keeps,
    one function per transition, and what the transitions guarantee.
    The timers are events: the 5000 ms waiting timer starts a round, each firing of
    the tick interval is a `Tick`, and the 4000 ms timeout after a crash is
    `ResetAfterCrash`. */
module Round {
  import opened Types
  import opened Random
  import Outcome
  import Clock
  import Opponents
  import History

  const INITIAL_BALANCE: real := 1000.0

  /** Milliseconds the crash banner stays up, and the wait before a new round. */
  const CRASH_DELAY := 4000
  const WAITING_DELAY := 5000

  /** Everything the component keeps across events; `crashPoint` is `crashPointRef`. */
  datatype State = State(
    user: Option<User>,
    balance: real,
    status: GameStatus,
    multiplier: real,
    crashPoint: real,
    history: seq<GameHistory>,
    currentBet: Option<Bet>,
    otherBets: seq<Bet>,
    lastWin: Option<Win>,
    showLoss: bool)

  /** What a stake cashed out at multiplier `m` pays. */
  function Payout(stake: real, m: real): real
  {
    stake * m
  }

  /** The win banner that belongs to a bet: present exactly when it was cashed out. */
  function WinOf(bet: Option<Bet>): Option<Win>
  {
    if bet.Some? && bet.value.cashedOut && bet.value.multiplier.Some? then
      Some(Win(Payout(bet.value.amount, bet.value.multiplier.value), bet.value.multiplier.value))
    else None
  }

  /** The player's bet is sound: a stake of at least 1, a cash-out multiplier
      exactly when cashed out and never above the round's crash point, and no
      cashed-out bet while bets are being taken. */
  predicate BetValid(s: State)
  {
    match s.currentBet
    case None => true
    case Some(b) =>
      && b.amount >= 1.0
      && WellFormed(b)
      && (b.cashedOut ==> 1.0 <= b.multiplier.value <= s.crashPoint)
      && (s.status == Waiting ==> !b.cashedOut)
  }

  /** The invariant every reachable state keeps. */
  predicate Valid(s: State)
  {
    && 1.0 <= s.multiplier <= s.crashPoint
    && (s.status == Crashed ==> s.multiplier == s.crashPoint)
    && |s.history| <= History.HISTORY_CAPACITY
    && (forall i :: 0 <= i < |s.history| ==> s.history[i].multiplier >= 1.0)
    && BetValid(s)
    && (s.status != Waiting ==> |s.otherBets| == |Opponents.ROSTER|)
    && Opponents.Consistent(s.otherBets, s.crashPoint)
    && (s.showLoss <==> s.status == Crashed && s.currentBet.Some? && !s.currentBet.value.cashedOut)
    && (s.status != Waiting ==> s.lastWin == WinOf(s.currentBet))
  }

  /** The state before anyone has logged in. */
  function Initial(): (s: State)
    ensures Valid(s)
    ensures s.status == Waiting && s.user == None && s.balance == INITIAL_BALANCE
    ensures s.currentBet == None && s.history == [] && s.lastWin == None && !s.showLoss
  {
    State(None, INITIAL_BALANCE, Waiting, 1.0, 1.0, [], None, [], None, false)
  }

  /** The name on the player's bet: the username, or "You" without one. */
  function PlayerName(user: Option<User>): (name: string)
    ensures name != []
    ensures user.Some? && user.value.username != [] ==> name == user.value.username
  {
    if user.Some? && user.value.username != "" then user.value.username else "You"
  }

  // ---------------------------------------------------------------------------
  // Transitions

  /** `placeBet`: ignored outside the betting window, when the balance cannot
      cover the stake, or when a bet is already on. */
  function PlaceBet(s: State, betAmount: real): (t: State)
    ensures t == s || (t.balance == s.balance - betAmount >= 0.0 && t.currentBet.Some? && s.currentBet.None?)
    ensures t.status == s.status && t.multiplier == s.multiplier && t.history == s.history
  {
    if s.status != Waiting || s.balance < betAmount || s.currentBet.Some? then s
    else s.(balance := s.balance - betAmount,
            currentBet := Some(Bet(betAmount, None, false, PlayerName(s.user))))
  }

  /** `cashOut`: ignored unless the plane is flying and an uncashed bet is on. */
  function CashOut(s: State): (t: State)
    ensures t == s || (s.status == Flying && t.currentBet.Some? && t.currentBet.value.cashedOut
                       && t.lastWin.Some? && t.balance == s.balance + t.lastWin.value.amount)
    ensures t.status == s.status && t.multiplier == s.multiplier && t.history == s.history
  {
    if s.status != Flying || s.currentBet.None? || s.currentBet.value.cashedOut then s
    else
      var bet := s.currentBet.value;
      var winnings := Payout(bet.amount, s.multiplier);
      s.(balance := s.balance + winnings,
         currentBet := Some(bet.(cashedOut := true, multiplier := Some(s.multiplier))),
         lastWin := Some(Win(winnings, s.multiplier)))
  }

  /** `handleTopUpSuccess`: an external credit. */
  function TopUp(s: State, amount: real): (t: State)
    ensures t.balance == s.balance + amount && t.(balance := s.balance) == s
  {
    s.(balance := s.balance + amount)
  }

  /** `handleLogin`: the session is established and its balance replaces the current one. */
  function Login(s: State, user: User): (t: State)
    ensures t.user == Some(user) && t.balance == user.balance
    ensures t.(user := s.user, balance := s.balance) == s
  {
    s.(user := Some(user), balance := user.balance)
  }

  /** `startNewGame`: a hidden crash point is drawn, the multiplier restarts at 1.0,
      the banners are cleared and a fresh lobby is dealt. */
  function StartNewGame(s: State, r: real, u: real, stakes: seq<real>): (t: State)
    requires IsDraw(r) && IsDraw(u) && |stakes| == |Opponents.ROSTER| && AreDraws(stakes)
    ensures t.status == Flying && t.multiplier == 1.0 && t.crashPoint >= 1.0
    ensures t.crashPoint == Outcome.CrashPoint(r, u) && t.otherBets == Opponents.Generate(stakes)
    ensures |t.otherBets| == |Opponents.ROSTER| && !t.showLoss && t.lastWin == None
    ensures t.user == s.user && t.balance == s.balance && t.currentBet == s.currentBet && t.history == s.history
  {
    s.(crashPoint := Outcome.CrashPoint(r, u),
       multiplier := 1.0,
       status := Flying,
       showLoss := false,
       lastWin := None,
       otherBets := Opponents.Generate(stakes))
  }

  /** One firing of the tick interval. If the grown multiplier reaches the crash
      point, the round crashes at exactly the crash point, the crash is recorded
      at time `now`, and an uncashed bet raises the loss banner; otherwise the
      multiplier grows and the opponents take their trials at the old value. */
  function Tick(s: State, now: int, draws: seq<real>): (t: State)
    requires |draws| == |s.otherBets|
    ensures |t.otherBets| == |s.otherBets|
    ensures t.crashPoint == s.crashPoint
    ensures t.user == s.user && t.balance == s.balance && t.currentBet == s.currentBet && t.lastWin == s.lastWin
    ensures t.status == Crashed <==> s.status == Crashed || Clock.Advance(s.multiplier) >= s.crashPoint
    ensures Clock.Advance(s.multiplier) < s.crashPoint ==>
              && t.multiplier == Clock.Advance(s.multiplier)
              && t.otherBets == Opponents.Step(s.otherBets, s.multiplier, draws)
  {
    var prev := s.multiplier;
    var next := Clock.Advance(prev);
    if next >= s.crashPoint then
      s.(status := Crashed,
         history := History.Record(s.history, GameHistory(s.crashPoint, now)),
         showLoss := if s.currentBet.Some? && !s.currentBet.value.cashedOut then true else s.showLoss,
         multiplier := s.crashPoint)
    else
      s.(otherBets := Opponents.Step(s.otherBets, prev, draws),
         multiplier := next)
  }

  /** The timeout after a crash: betting reopens and the bet slot is emptied. The
      balance and the win banner stay; the win banner goes only when the next
      round starts. */
  function ResetAfterCrash(s: State): (t: State)
    ensures t.status == Waiting && t.currentBet == None && !t.showLoss
    ensures t.user == s.user && t.balance == s.balance && t.lastWin == s.lastWin && t.history == s.history
    ensures t.(status := s.status, currentBet := s.currentBet, showLoss := s.showLoss) == s
  {
    s.(status := Waiting, currentBet := None, showLoss := false)
  }

  // ---------------------------------------------------------------------------
  // The player's bet

  /** A bet is refused, leaving the state as it was, exactly when the betting
      window is closed, the balance is short, or a bet is already on. */
  lemma PlaceBetRefused(s: State, betAmount: real)
    ensures PlaceBet(s, betAmount) == s <==>
              (s.status != Waiting || s.balance < betAmount || s.currentBet.Some?)
  {
  }

  /** An accepted bet debits exactly the stake, never below zero, opens an uncashed
      bet for that stake and changes nothing else. */
  lemma PlaceBetAccepted(s: State, betAmount: real)
    requires s.status == Waiting && s.balance >= betAmount && s.currentBet.None?
    ensures var t := PlaceBet(s, betAmount);
            && t.balance == s.balance - betAmount && t.balance >= 0.0
            && t.currentBet == Some(Bet(betAmount, None, false, PlayerName(s.user)))
            && t.(balance := s.balance, currentBet := None) == s
  {
  }

  /** A cash-out is refused, leaving the state as it was, exactly when the plane is
      not flying or there is no uncashed bet. */
  lemma CashOutRefused(s: State)
    ensures CashOut(s) == s <==>
              (s.status != Flying || s.currentBet.None? || s.currentBet.value.cashedOut)
  {
  }

  /** An accepted cash-out credits stake times the shown multiplier, records that
      multiplier on the bet, raises the win banner with the same figures, and
      changes nothing else. */
  lemma CashOutAccepted(s: State)
    requires s.status == Flying && s.currentBet.Some? && !s.currentBet.value.cashedOut
    ensures var t := CashOut(s);
            var a := s.currentBet.value.amount;
            && t.balance == s.balance + a * s.multiplier
            && t.currentBet == Some(s.currentBet.value.(cashedOut := true, multiplier := Some(s.multiplier)))
            && t.lastWin == Some(Win(a * s.multiplier, s.multiplier))
            && t.(balance := s.balance, currentBet := s.currentBet, lastWin := s.lastWin) == s
  {
  }

  /** A second cash-out changes nothing. */
  lemma CashOutIdempotent(s: State)
    ensures CashOut(CashOut(s)) == CashOut(s)
  {
  }

  // ---------------------------------------------------------------------------
  // The multiplier and the crash

  /** On a tick the round crashes exactly when the grown multiplier reaches the
      crash point, and then it shows exactly the crash point; otherwise the
      multiplier grows by exactly one `Clock.Advance` and stays below the crash point. Either way it
      never falls and never passes the crash point, which does not move. */
  lemma TickMultiplier(s: State, now: int, draws: seq<real>)
    requires Valid(s) && s.status == Flying && |draws| == |s.otherBets|
    ensures var t := Tick(s, now, draws);
            && t.crashPoint == s.crashPoint
            && (t.status == Crashed <==> Clock.Advance(s.multiplier) >= s.crashPoint)
            && (t.status == Crashed ==> t.multiplier == s.crashPoint)
            && (t.status == Flying ==> t.multiplier == Clock.Advance(s.multiplier))
            && (t.status == Flying ==> s.multiplier < t.multiplier < s.crashPoint)
            && s.multiplier <= t.multiplier <= t.crashPoint
  {
  }

  /** A tick never touches the balance, the bet or the win banner. On the crash
      tick the crash point is recorded in front of the history, the loss banner
      goes up exactly when an uncashed bet is on, and the opponents are left as
      they were; on any other tick the opponents take their trials at the
      multiplier from before the tick. */
  lemma TickSettles(s: State, now: int, draws: seq<real>)
    requires Valid(s) && s.status == Flying && |draws| == |s.otherBets|
    ensures var t := Tick(s, now, draws);
            && t.balance == s.balance && t.currentBet == s.currentBet && t.lastWin == s.lastWin
            && t.user == s.user
            && (t.status == Crashed ==>
                  && t.history == History.Record(s.history, GameHistory(s.crashPoint, now))
                  && (t.showLoss <==> s.currentBet.Some? && !s.currentBet.value.cashedOut)
                  && t.otherBets == s.otherBets)
            && (t.status == Flying ==>
                  && t.history == s.history && !t.showLoss
                  && t.otherBets == Opponents.Step(s.otherBets, s.multiplier, draws))
  {
  }

  /** A new round flies from 1.0 towards a crash point of at least 1.0, with both
      banners cleared, a full uncashed lobby, and the balance and bet as they were. */
  lemma StartNewGameResets(s: State, r: real, u: real, stakes: seq<real>)
    requires IsDraw(r) && IsDraw(u) && |stakes| == |Opponents.ROSTER| && AreDraws(stakes)
    ensures var t := StartNewGame(s, r, u, stakes);
            && t.status == Flying && t.multiplier == 1.0 && t.crashPoint >= 1.0
            && !t.showLoss && t.lastWin == None
            && |t.otherBets| == |Opponents.ROSTER| && Opponents.CashedCount(t.otherBets) == 0
            && t.balance == s.balance && t.currentBet == s.currentBet
  {
    var bets := Opponents.Generate(stakes);
    NoneCashed(bets);
  }

  lemma {:induction false} NoneCashed(bets: seq<Bet>)
    requires forall i :: 0 <= i < |bets| ==> !bets[i].cashedOut
    ensures Opponents.CashedCount(bets) == 0
  {
    if bets != [] {
      assert forall i :: 0 <= i < |bets[1..]| ==> !bets[1..][i].cashedOut by {
        forall i | 0 <= i < |bets[1..]|
          ensures !bets[1..][i].cashedOut
        {
          assert bets[1..][i] == bets[i + 1];
        }
      }
      NoneCashed(bets[1..]);
    }
  }

  // ---------------------------------------------------------------------------
  // The invariant

  lemma PlaceBetValid(s: State, betAmount: real)
    requires Valid(s) && betAmount >= 1.0
    ensures Valid(PlaceBet(s, betAmount))
  {
  }

  lemma CashOutValid(s: State)
    requires Valid(s)
    ensures Valid(CashOut(s))
  {
    if s.status == Flying && s.currentBet.Some? && !s.currentBet.value.cashedOut {
      CashOutBanner(s);
    }
  }

  /** An accepted cash-out raises the banner that belongs to the cashed-out bet. */
  lemma CashOutBanner(s: State)
    requires s.status == Flying && s.currentBet.Some? && !s.currentBet.value.cashedOut
    ensures CashOut(s).lastWin == WinOf(CashOut(s).currentBet)
  {
  }

  lemma TickValid(s: State, now: int, draws: seq<real>)
    requires Valid(s) && s.status == Flying && |draws| == |s.otherBets|
    ensures Valid(Tick(s, now, draws))
  {
  }

  lemma StartNewGameValid(s: State, r: real, u: real, stakes: seq<real>)
    requires Valid(s) && s.status == Waiting
    requires IsDraw(r) && IsDraw(u) && |stakes| == |Opponents.ROSTER| && AreDraws(stakes)
    ensures Valid(StartNewGame(s, r, u, stakes))
  {
  }

  lemma ResetAfterCrashValid(s: State)
    requires Valid(s) && s.status == Crashed
    ensures Valid(ResetAfterCrash(s))
  {
  }

  lemma TopUpValid(s: State, amount: real)
    requires Valid(s)
    ensures Valid(TopUp(s, amount))
  {
  }

  lemma LoginValid(s: State, user: User)
    requires Valid(s)
    ensures Valid(Login(s, user))
  {
  }

  // ---------------------------------------------------------------------------
  // Sequences of events

  /** What can happen to the component: a click, an external credit or a login,
      or a timer firing (with the random draws it makes). */
  datatype Event =
    | BetClicked(betAmount: real)
    | CashOutClicked
    | TopUpSucceeded(amount: real)
    | LoggedIn(user: User)
    | WaitTimerFired(r: real, u: real, stakes: seq<real>)
    | IntervalFired(now: int, draws: seq<real>)
    | CrashTimerFired

  /** When an event can occur: the input clamps bets to at least 1, the waiting
      timer runs only in the betting window of a logged-in session, the interval
      only while flying, the crash timer only after a crash; random draws lie in [0, 1). */
  predicate Enabled(s: State, e: Event)
  {
    match e
    case BetClicked(a) => a >= 1.0
    case CashOutClicked => true
    case TopUpSucceeded(_) => true
    case LoggedIn(_) => true
    case WaitTimerFired(r, u, stakes) =>
      s.status == Waiting && s.user.Some? &&
      IsDraw(r) && IsDraw(u) && |stakes| == |Opponents.ROSTER| && AreDraws(stakes)
    case IntervalFired(_, draws) =>
      s.status == Flying && |draws| == |s.otherBets| && AreDraws(draws)
    case CrashTimerFired => s.status == Crashed
  }

  function Step(s: State, e: Event): State
    requires Enabled(s, e)
  {
    match e
    case BetClicked(a) => PlaceBet(s, a)
    case CashOutClicked => CashOut(s)
    case TopUpSucceeded(a) => TopUp(s, a)
    case LoggedIn(user) => Login(s, user)
    case WaitTimerFired(r, u, stakes) => StartNewGame(s, r, u, stakes)
    case IntervalFired(now, draws) => Tick(s, now, draws)
    case CrashTimerFired => ResetAfterCrash(s)
  }

  /** Every event of `es` can occur in turn, starting from `s`. */
  predicate Admissible(s: State, es: seq<Event>)
    decreases |es|
  {
    es == [] || (Enabled(s, es[0]) && Admissible(Step(s, es[0]), es[1..]))
  }

  function Run(s: State, es: seq<Event>): State
    requires Admissible(s, es)
    decreases |es|
  {
    if es == [] then s else Run(Step(s, es[0]), es[1..])
  }

  /** Each event keeps the invariant. */
  lemma StepValid(s: State, e: Event)
    requires Valid(s) && Enabled(s, e)
    ensures Valid(Step(s, e))
  {
    match e
    case BetClicked(a) => PlaceBetValid(s, a);
    case CashOutClicked => CashOutValid(s);
    case TopUpSucceeded(a) => TopUpValid(s, a);
    case LoggedIn(user) => LoginValid(s, user);
    case WaitTimerFired(r, u, stakes) => StartNewGameValid(s, r, u, stakes);
    case IntervalFired(now, draws) => TickValid(s, now, draws);
    case CrashTimerFired => ResetAfterCrashValid(s);
  }

  /** Every state reachable by events keeps the invariant; with `Initial()` this
      covers every state the component can be in. */
  lemma {:induction false} RunValid(s: State, es: seq<Event>)
    requires Valid(s) && Admissible(s, es)
    ensures Valid(Run(s, es))
    decreases |es|
  {
    if es != [] {
      StepValid(s, es[0]);
      RunValid(Step(s, es[0]), es[1..]);
    }
  }

  /** External credits that do not take money away. */
  predicate CreditsNonNegative(e: Event)
  {
    match e
    case TopUpSucceeded(a) => a >= 0.0
    case LoggedIn(user) => user.balance >= 0.0
    case _ => true
  }

  /** The balance never goes negative: bets are only accepted when covered and
      cash-outs only credit, as long as top-ups and logins bring no debt. */
  lemma {:induction false} RunSolvent(s: State, es: seq<Event>)
    requires Valid(s) && s.balance >= 0.0 && Admissible(s, es)
    requires forall i :: 0 <= i < |es| ==> CreditsNonNegative(es[i])
    ensures Run(s, es).balance >= 0.0
    decreases |es|
  {
    if es != [] {
      StepValid(s, es[0]);
      var t := Step(s, es[0]);
      if es[0].CashOutClicked? && t != s {
        assert t.balance == s.balance + s.currentBet.value.amount * s.multiplier;
        assert s.currentBet.value.amount * s.multiplier >= 0.0;
      }
      assert t.balance >= 0.0;
      RunSolvent(t, es[1..]);
    }
  }

  // ---------------------------------------------------------------------------
  // Whole rounds

  /** The inputs of one firing of the tick interval. */
  datatype TickInput = TickInput(now: int, draws: seq<real>)

  /** The tick interval firing once per input; it is cleared on the crash, so the
      ticks after it do nothing. */
  function Fly(s: State, ticks: seq<TickInput>): (t: State)
    requires forall i :: 0 <= i < |ticks| ==> |ticks[i].draws| == |s.otherBets|
    ensures |t.otherBets| == |s.otherBets|
    decreases |ticks|
  {
    if ticks == [] || s.status != Flying then s
    else Fly(Tick(s, ticks[0].now, ticks[0].draws), ticks[1..])
  }

  /** While the plane flies the invariant holds, and the balance, the bet and the
      win banner are untouched; the multiplier never falls, and the round ends
      either still flying or crashed. */
  lemma {:induction false} FlyKeepsStake(s: State, ticks: seq<TickInput>)
    requires Valid(s) && s.status == Flying
    requires forall i :: 0 <= i < |ticks| ==> |ticks[i].draws| == |s.otherBets|
    ensures var t := Fly(s, ticks);
            && Valid(t) && (t.status == Flying || t.status == Crashed)
            && t.balance == s.balance && t.currentBet == s.currentBet && t.lastWin == s.lastWin
            && t.user == s.user && t.crashPoint == s.crashPoint
            && s.multiplier <= t.multiplier
    decreases |ticks|
  {
    if ticks != [] {
      var s' := Tick(s, ticks[0].now, ticks[0].draws);
      TickValid(s, ticks[0].now, ticks[0].draws);
      TickMultiplier(s, ticks[0].now, ticks[0].draws);
      if s'.status == Flying {
        FlyKeepsStake(s', ticks[1..]);
      }
    }
  }

  /** Every round ends: each tick below the crash point adds at least 0.012, so
      enough ticks always reach it. */
  lemma {:induction false} FlyCrashes(s: State, ticks: seq<TickInput>)
    requires Valid(s) && s.status == Flying
    requires forall i :: 0 <= i < |ticks| ==> |ticks[i].draws| == |s.otherBets|
    requires (|ticks| as real) * 0.012 > s.crashPoint - s.multiplier
    ensures Fly(s, ticks).status == Crashed
    decreases |ticks|
  {
    var s' := Tick(s, ticks[0].now, ticks[0].draws);
    TickValid(s, ticks[0].now, ticks[0].draws);
    TickMultiplier(s, ticks[0].now, ticks[0].draws);
    if s'.status == Flying {
      assert s'.multiplier >= s.multiplier + 0.012;
      assert ((|ticks| - 1) as real) * 0.012 > s'.crashPoint - s'.multiplier;
      FlyCrashes(s', ticks[1..]);
    }
  }

  /** Enough ticks for any round: no crash point reaches 21.5, and 1709 ticks of at
      least 0.012 take the multiplier from 1.0 past it. */
  const MAX_TICKS: nat := 1709

  /** A bet of `a` placed in the betting window and cashed out while flying at
      multiplier M returns exactly `a * M`: the balance ends `a * (M - 1)` above
      where it started, the bet records M and the win banner shows `a * M` at M. */
  lemma WinningRound(s: State, a: real, r: real, u: real, stakes: seq<real>, ticks: seq<TickInput>)
    requires Valid(s) && s.status == Waiting && s.currentBet.None? && a >= 1.0 && s.balance >= a
    requires IsDraw(r) && IsDraw(u) && |stakes| == |Opponents.ROSTER| && AreDraws(stakes)
    requires forall i :: 0 <= i < |ticks| ==> |ticks[i].draws| == |Opponents.ROSTER|
    ensures var flying := Fly(StartNewGame(PlaceBet(s, a), r, u, stakes), ticks);
            var m := flying.multiplier;
            var done := CashOut(flying);
            flying.status == Flying ==>
              && done.balance == s.balance - a + a * m
              && done.currentBet == Some(Bet(a, Some(m), true, PlayerName(s.user)))
              && done.lastWin == Some(Win(a * m, m))
              && 1.0 <= m <= done.crashPoint
  {
    var placed := PlaceBet(s, a);
    PlaceBetValid(s, a);
    var started := StartNewGame(placed, r, u, stakes);
    StartNewGameValid(placed, r, u, stakes);
    FlyKeepsStake(started, ticks);
  }

  /** A bet that is never cashed out is lost, and only once: at the crash the
      balance is what it was right after the bet, the loss banner is up, and after
      the crash delay the slot is empty with the balance still unchanged. With
      `MAX_TICKS` ticks the crash always comes. */
  lemma LosingRound(s: State, a: real, r: real, u: real, stakes: seq<real>, ticks: seq<TickInput>)
    requires Valid(s) && s.status == Waiting && s.currentBet.None? && a >= 1.0 && s.balance >= a
    requires IsDraw(r) && IsDraw(u) && |stakes| == |Opponents.ROSTER| && AreDraws(stakes)
    requires forall i :: 0 <= i < |ticks| ==> |ticks[i].draws| == |Opponents.ROSTER|
    requires |ticks| >= MAX_TICKS
    ensures var crashed := Fly(StartNewGame(PlaceBet(s, a), r, u, stakes), ticks);
            && crashed.status == Crashed
            && crashed.balance == s.balance - a && crashed.showLoss
            && ResetAfterCrash(crashed).balance == s.balance - a
            && ResetAfterCrash(crashed).currentBet == None
            && !ResetAfterCrash(crashed).showLoss
  {
    var placed := PlaceBet(s, a);
    PlaceBetValid(s, a);
    var started := StartNewGame(placed, r, u, stakes);
    StartNewGameValid(placed, r, u, stakes);
    assert started.crashPoint < 21.5;
    FlyCrashes(started, ticks);
    FlyKeepsStake(started, ticks);
  }

  /** With the balance at 1000 and a bet of 50 in a round that crashes instantly
      (first draw below 0.12), the first tick crashes at 1.0, the balance stays at
      950 and the loss banner goes up; after the delay the slot is empty. */
  lemma InstantCrashExample(name: string, u: real, stakes: seq<real>, now: int, draws: seq<real>)
    requires IsDraw(u) && |stakes| == |Opponents.ROSTER| && AreDraws(stakes)
    requires |draws| == |Opponents.ROSTER|
    ensures var s := Login(Initial(), User(name, 1000.0));
            var started := StartNewGame(PlaceBet(s, 50.0), 0.05, u, stakes);
            var crashed := Tick(started, now, draws);
            && started.balance == 950.0
            && crashed.status == Crashed && crashed.multiplier == 1.0
            && crashed.balance == 950.0 && crashed.showLoss
            && crashed.history == [GameHistory(1.0, now)]
            && ResetAfterCrash(crashed).status == Waiting
            && ResetAfterCrash(crashed).currentBet == None
  {
  }
}
