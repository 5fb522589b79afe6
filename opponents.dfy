/** The simulated opponents of the live lobby (App.tsx, generateSimulatedBets and
    the per-tick `prevBets.map`). Opponents never touch the player's balance. */
module Opponents {
  import opened Types
  import opened Random

  /** The fixed roster of opponent names, one bet each per round. */
  const ROSTER: seq<string> :=
    ["JetSetter", "CloudRider", "AeroKing", "SkyHigh", "LuckyPilot", "CryptoHawk", "Velocity", "MachOne"]

  /** An opponent's stake: a whole amount from 5 to 204. */
  function Stake(d: real): (amount: real)
    requires IsDraw(d)
    ensures amount == amount.Floor as real
    ensures 5.0 <= amount <= 204.0
  {
    ((d * 200.0).Floor + 5) as real
  }

  /** A draw that gives each possible stake: every whole amount from 5 to 204 occurs. */
  function DrawForStake(k: int): (d: real)
    requires 5 <= k <= 204
    ensures IsDraw(d) && Stake(d) == k as real
  {
    var d := (k - 5) as real / 200.0;
    assert d * 200.0 == (k - 5) as real;
    assert ((k - 5) as real).Floor == k - 5;
    d
  }

  /** A fresh lobby for a new round: one uncashed bet per roster name, in roster order. */
  function Generate(draws: seq<real>): (bets: seq<Bet>)
    requires |draws| == |ROSTER| && AreDraws(draws)
    ensures |bets| == |ROSTER|
    ensures forall i :: 0 <= i < |bets| ==>
              && bets[i].playerName == ROSTER[i]
              && !bets[i].cashedOut && bets[i].multiplier == None
              && bets[i].amount == Stake(draws[i])
  {
    seq(|draws|, i requires 0 <= i < |draws| => Bet(Stake(draws[i]), None, false, ROSTER[i]))
  }

  /** One opponent's cash-out trial on a tick that did not crash: with chance 2%,
      and only once the multiplier before the tick, `prev`, is above 1.3, an
      uncashed opponent cashes out at `prev`. */
  function Trial(b: Bet, prev: real, d: real): (r: Bet)
    ensures r.amount == b.amount && r.playerName == b.playerName
    ensures r.cashedOut <==> b.cashedOut || (d < 0.02 && prev > 1.3)
    ensures r != b ==> !b.cashedOut && r.cashedOut && r.multiplier == Some(prev)
  {
    if !b.cashedOut && d < 0.02 && prev > 1.3 then b.(cashedOut := true, multiplier := Some(prev))
    else b
  }

  /** The whole lobby's trials on one tick, one draw per opponent. */
  function Step(bets: seq<Bet>, prev: real, draws: seq<real>): (next: seq<Bet>)
    requires |draws| == |bets|
    ensures |next| == |bets|
    ensures forall i :: 0 <= i < |bets| ==>
              next[i].amount == bets[i].amount && next[i].playerName == bets[i].playerName
    ensures forall i :: 0 <= i < |bets| && bets[i].cashedOut ==> next[i] == bets[i]
    ensures forall i :: 0 <= i < |bets| ==>
              (next[i].cashedOut <==> bets[i].cashedOut || (draws[i] < 0.02 && prev > 1.3))
    ensures forall i :: 0 <= i < |bets| && next[i] != bets[i] ==>
              !bets[i].cashedOut && next[i].cashedOut && next[i].multiplier == Some(prev) && prev > 1.3
  {
    seq(|bets|, i requires 0 <= i < |bets| => Trial(bets[i], prev, draws[i]))
  }

  /** No opponent cashes out while the multiplier is still at or below 1.3. */
  lemma NoEarlyCashOut(bets: seq<Bet>, prev: real, draws: seq<real>)
    requires |draws| == |bets| && prev <= 1.3
    ensures Step(bets, prev, draws) == bets
  {
  }

  /** The lobby is consistent with a round whose crash point is `crash`: every bet
      records a multiplier exactly when cashed out, and every recorded multiplier
      is above 1.3 and strictly below the crash point. */
  predicate Consistent(bets: seq<Bet>, crash: real)
  {
    forall i :: 0 <= i < |bets| ==>
      WellFormed(bets[i]) && (bets[i].cashedOut ==> 1.3 < bets[i].multiplier.value < crash)
  }

  /** A fresh lobby is consistent with any round. */
  lemma GenerateConsistent(draws: seq<real>, crash: real)
    requires |draws| == |ROSTER| && AreDraws(draws)
    ensures Consistent(Generate(draws), crash)
  {
  }

  /** Trials taken strictly below the crash point keep the lobby consistent: no
      opponent cashes out twice, or at or after the crash. */
  lemma StepConsistent(bets: seq<Bet>, prev: real, draws: seq<real>, crash: real)
    requires |draws| == |bets| && Consistent(bets, crash) && prev < crash
    ensures Consistent(Step(bets, prev, draws), crash)
  {
  }

  /** The number of opponents that have cashed out. */
  function CashedCount(bets: seq<Bet>): (n: nat)
    ensures n <= |bets|
  {
    if bets == [] then 0 else (if bets[0].cashedOut then 1 else 0) + CashedCount(bets[1..])
  }

  /** When every cashed-out bet of `a` is cashed out in `b` too, `b` counts at least as many. */
  lemma {:induction false} CashedCountMonotone(a: seq<Bet>, b: seq<Bet>)
    requires |a| == |b|
    requires forall i :: 0 <= i < |a| && a[i].cashedOut ==> b[i].cashedOut
    ensures CashedCount(a) <= CashedCount(b)
  {
    if a != [] {
      assert forall i :: 0 <= i < |a[1..]| && a[1..][i].cashedOut ==> b[1..][i].cashedOut by {
        forall i | 0 <= i < |a[1..]| && a[1..][i].cashedOut
          ensures b[1..][i].cashedOut
        {
          assert a[1..][i] == a[i + 1];
        }
      }
      CashedCountMonotone(a[1..], b[1..]);
    }
  }

  /** Cash-outs are final: a tick never lowers the number of cashed-out opponents. */
  lemma StepCashedCount(bets: seq<Bet>, prev: real, draws: seq<real>)
    requires |draws| == |bets|
    ensures CashedCount(bets) <= CashedCount(Step(bets, prev, draws))
  {
    CashedCountMonotone(bets, Step(bets, prev, draws));
  }
}
