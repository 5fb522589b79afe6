# Skybound Aviator round engine in Dafny

A model of the round engine of a crash-style betting game. The engine lives in the
React component `App.tsx`. Each round has three phases:

- **Waiting**: bets are taken.
- **Flying**: a public multiplier grows on every tick from 1.0 towards a hidden crash point.
- **Crashed**: the round is over.

The player has one bet per round. They can cash it out while the plane flies, for
stake times the shown multiplier. A bet that is not cashed out before the crash is lost.
Eight simulated opponents bet and cash out at random. The recent crash points are kept,
newest first, up to 15.

Randomness and timers are inputs:

- Every `Math.random()` is a parameter in [0, 1) (module `Random`).
- `Date.now()` is the parameter `now`.
- The timers are transitions the environment fires:
  - the 5000 ms waiting timer starts a round (`StartNewGame`);
  - each firing of the 50 ms interval is a `Tick`;
  - the 4000 ms crash timeout is `ResetAfterCrash`.

Modules:

- `Types` (types.dfy): `GameStatus`, `Bet`, `GameHistory`, `User` from types.ts, and the win banner.
- `Outcome` (outcome.dfy): the tiered crash-point draw.
- `Clock` (clock.dfy): the tiered multiplicative growth.
- `Opponents` (opponents.dfy): dealing the lobby, and the per-tick cash-out trials.
- `History` (history.dfy): the bounded crash-point strip.
- `Round` (round.dfy): the component's state as a value, one function per transition, and the invariant `Valid` that every reachable state keeps. It also holds the lemmas about single transitions, event sequences (`Run`) and whole rounds (`Fly`, the ticks of one round).
- `App` (app.dfy): the class `Game`, whose fields are the component's state. Its handlers update the fields in place. Each is proved to perform the `Round` transition of the same name and to keep `Valid`.

Two details of the code the model keeps:

- Opponents cash out at the multiplier from BEFORE the tick's growth (`prev`).
- The crash timeout clears the loss banner but not the win banner. The win banner is cleared only when the next round starts.

## Model

| member | source | states |
|---|---|---|
| Outcome.CrashPoint | App.tsx:46-51 | The crash point is at least 1.0. It is exactly 1.0 iff the first draw is below 0.12. Otherwise it lies in [1.1, 2.6), [2.5, 6.5) or [6.5, 21.5), by the cut-points 0.6 and 0.85 |
| Outcome.DrawFor | App.tsx:49-51 | Every point of a tier's range comes from exactly one second draw in [0, 1): the tiers are covered without gaps |
| Clock.GrowthRate | App.tsx:66 | The per-tick growth rate is between 1.2% and 4% |
| Clock.GrowthRateMonotone | App.tsx:66 | A higher multiplier never grows at a lower rate |
| Clock.Advance | App.tsx:66-67 | A tick strictly increases a positive multiplier, by at most 4%. At 1.0 or above it adds at least 0.012 |
| Clock.AdvanceMonotone | App.tsx:66-67 | Ticking preserves the order of multipliers |
| Opponents.Stake | App.tsx:34 | An opponent's stake is a whole amount from 5 to 204 |
| Opponents.DrawForStake | App.tsx:34 | Every whole stake from 5 to 204 is produced by some draw |
| Opponents.Generate | App.tsx:29-37 | A new lobby has exactly 8 bets, one per roster name in order. Each is uncashed, has no multiplier, and has the drawn stake |
| Opponents.GenerateConsistent | App.tsx:29-37 | A fresh lobby is consistent with any crash point |
| Opponents.Trial | App.tsx:89-90 | One opponent's trial keeps the stake and the name. The opponent is cashed out afterwards iff it already was, or its draw is below 0.02 while the pre-tick multiplier is above 1.3. A bet changes only by going from uncashed to cashed out, and then records the pre-tick multiplier |
| Opponents.Step | App.tsx:88-93 | A tick keeps every stake and name, and leaves cashed-out opponents as they were. Each opponent is cashed out afterwards iff it already was, or its draw is below 0.02 while the pre-tick multiplier is above 1.3. An opponent changes only by going from uncashed to cashed out, at the pre-tick multiplier |
| Opponents.NoEarlyCashOut | App.tsx:89 | No opponent cashes out while the multiplier is at or below 1.3 |
| Opponents.StepConsistent | App.tsx:88-93 | Trials below the crash point keep the lobby consistent: a multiplier is recorded iff the opponent cashed out, and it lies above 1.3 and below the crash point |
| Opponents.StepCashedCount | App.tsx:88-93 | Cash-outs are final: the number of cashed-out opponents never decreases |
| History.Window | App.tsx:72 | `slice(0, 15)` keeps the first min(n, 15) elements, as a prefix |
| History.Record | App.tsx:72 | Recording a crash puts it at index 0, and the rest is a prefix of the old strip. The new strip has one entry more than the old while the old has fewer than 15, and exactly 15 otherwise |
| History.RecordAllIsWindow | App.tsx:72 | From a strip of at most 15 entries, any run of crashes leaves exactly the 15 newest entries, newest first |
| History.SixteenthEvictsOldest | App.tsx:72 | After 16 crashes on an empty strip, the first is evicted and the newest is at index 0 |
| Round.PlayerName | App.tsx:115 | The name on the bet is never empty. It is the username whenever a session with a non-empty username exists |
| Round.PlaceBet | App.tsx:110-119 | A bet either leaves the state as it was, or debits the stake without taking the balance below 0 and fills the empty bet slot. The phase, the multiplier and the history never change. The exact conditions are in `Round.PlaceBetRefused` and `Round.PlaceBetAccepted` |
| Round.CashOut | App.tsx:121-127 | A cash-out either leaves the state as it was, or happens while FLYING: the bet is then cashed out, and the balance grows by exactly the amount on the win banner. The phase, the multiplier and the history never change. The exact conditions are in `Round.CashOutRefused` and `Round.CashOutAccepted` |
| Round.TopUp | App.tsx:129-131 | A top-up adds the amount to the balance and changes nothing else |
| Round.Login | App.tsx:133-136 | A login sets the session, and the balance becomes the session's balance. Nothing else changes |
| Round.StartNewGame | App.tsx:45-60 | A new round is FLYING at 1.0. Its crash point is `Outcome.CrashPoint` of the two draws, so at least 1.0, and its lobby is `Opponents.Generate` of the stake draws, 8 bets. Both banners are cleared. The session, the balance, the bet and the history are unchanged |
| Round.Tick | App.tsx:64-96 | A tick keeps the crash point, the session, the balance, the bet, the win banner and the size of the lobby. The round is CRASHED afterwards iff it already was or the grown multiplier reaches the crash point. When the grown multiplier stays below the crash point, the new multiplier is exactly `Clock.Advance` of the old one, and the lobby is `Opponents.Step` at the old multiplier. The crash tick is in `Round.TickMultiplier` and `Round.TickSettles` |
| Round.ResetAfterCrash | App.tsx:80-84 | After the crash timeout the round is WAITING with no bet and no loss banner. Nothing else changes: the session, the balance, the multiplier, the crash point, the history, the lobby and the win banner stay |
| Round.Initial | App.tsx:13-26 | The starting state is valid. It is waiting, with balance 1000, no session, no bet, an empty history and no banners |
| Round.PlaceBetRefused | App.tsx:110-111 | `placeBet` leaves the state unchanged iff the status is not WAITING, the balance is below the stake, or a bet already exists |
| Round.PlaceBetAccepted | App.tsx:110-119 | An accepted bet debits exactly the stake, so the balance stays at or above 0. It opens an uncashed bet of that stake under the player's name, and nothing else changes |
| Round.CashOutRefused | App.tsx:121-122 | `cashOut` leaves the state unchanged iff the status is not FLYING or there is no uncashed bet |
| Round.CashOutAccepted | App.tsx:121-127 | An accepted cash-out credits exactly stake × multiplier. The bet is marked cashed out at that multiplier, and `lastWin` becomes {stake × multiplier, multiplier}. Nothing else changes |
| Round.CashOutIdempotent | App.tsx:121-127 | A second cash-out changes nothing |
| Round.TickMultiplier | App.tsx:64-96 | A tick crashes iff the grown multiplier reaches the crash point. A crashed round shows exactly the crash point. Otherwise the multiplier becomes exactly `Clock.Advance` of the old one, so it strictly grows, and it stays below the crash point. The multiplier never falls and never passes the crash point |
| Round.TickSettles | App.tsx:69-93 | A tick never changes the balance, the bet or `lastWin`. On the crash tick the crash point is recorded at the front of the history. On that tick the loss flag is raised iff an uncashed bet exists, and the opponents are left unchanged. On any other tick the history stays, the loss flag stays off, and the lobby is `Opponents.Step` at the multiplier from before the tick |
| Round.StartNewGameResets | App.tsx:45-60 | A round starts FLYING at 1.0 with a crash point of at least 1.0. Both banners are cleared, and the lobby is 8 uncashed bets. The balance and the bet are unchanged |
| Round.PlaceBetValid | App.tsx:110-119 | Placing a bet keeps the invariant |
| Round.CashOutValid | App.tsx:121-127 | Cashing out keeps the invariant; in particular the bet's multiplier is at most the crash point, and `lastWin` matches the bet |
| Round.TickValid | App.tsx:64-96 | A tick keeps the invariant: the multiplier stays in [1, crash point], history entries stay at least 1.0, and the lobby stays consistent |
| Round.StartNewGameValid | App.tsx:45-60 | Starting a round from WAITING keeps the invariant |
| Round.ResetAfterCrashValid | App.tsx:80-84 | The crash timeout keeps the invariant |
| Round.TopUpValid | App.tsx:129-131 | A top-up keeps the invariant |
| Round.LoginValid | App.tsx:133-136 | A login keeps the invariant |
| Round.StepValid | App.tsx:62-136 | Every event that can occur keeps the invariant |
| Round.RunValid | App.tsx:62-136 | Every state reachable by a sequence of events keeps the invariant |
| Round.RunSolvent | App.tsx:110-136 | The balance never goes negative, as long as top-ups and logins bring no debt |
| Round.FlyKeepsStake | App.tsx:62-97 | While the interval runs, the invariant holds and the multiplier never falls. The balance, the bet and `lastWin` are unchanged, and the round is FLYING or CRASHED |
| Round.FlyCrashes | App.tsx:64-97 | Every round ends: enough ticks (0.012 per tick over the gap to the crash point) always reach CRASHED |
| Round.WinningRound | App.tsx:110-127 | Place a bet of A, start the round and cash out while flying at M. The balance ends at start − A + A·M, the bet records M, and `lastWin` is {A·M, M} |
| Round.LosingRound | App.tsx:69-84 | A bet that is never cashed out is lost once. Within 1709 ticks the round crashes with the balance at start − A and the loss flag raised. After the delay the bet is null and the balance is still start − A |
| Round.InstantCrashExample | App.tsx:45-84 | Balance 1000, a bet of 50, an instant-crash draw: the first tick crashes at 1.0. The balance stays 950, the loss flag goes up and the history is the one entry 1.0. The delay then reopens betting with no bet |
| App.Game.constructor | App.tsx:13-26 | The component starts in `Round.Initial()` |
| App.Game.PlaceBet | App.tsx:110-119 | The handler performs `Round.PlaceBet` in place and keeps the invariant |
| App.Game.CashOut | App.tsx:121-127 | The handler performs `Round.CashOut` in place and keeps the invariant |
| App.Game.TopUp | App.tsx:129-131 | The handler performs `Round.TopUp` in place (balance + amount) and keeps the invariant |
| App.Game.Login | App.tsx:133-136 | The handler performs `Round.Login` in place (session set, balance replaced) and keeps the invariant |
| App.Game.StartNewGame | App.tsx:45-60 | The waiting timer (App.tsx:98-102, only with a session) performs `Round.StartNewGame` in place and keeps the invariant |
| App.Game.Tick | App.tsx:64-96 | One firing of the interval performs `Round.Tick` in place and keeps the invariant |
| App.Game.ResetAfterCrash | App.tsx:80-84 | The crash timeout performs `Round.ResetAfterCrash` in place and keeps the invariant |

## Left out

- Rendering, styling and the child components `AviatorCanvas`, `TopUpModal` and `Auth` (App.tsx:138-327): presentation only, and their sources are not part of this model.
- The commentary (`getAICommentary`, `updateAICommentary`, `aiMessage`; App.tsx:20, 40-43, 59, 78): an asynchronous call to an external service. It only sets a display string.
- Timer mechanics: `setInterval`, `setTimeout`, `clearInterval`, effect re-runs and the closure over `currentBet`. These are replaced by the explicit transitions. Durations (`TICK_RATE` 50, 4000 ms, 5000 ms) are named constants only.
- Random ids of bets and history entries, and the id in the history entry: nothing in the engine reads them. The timestamp is the parameter `now`.
- IEEE floating-point rounding and `toFixed` formatting: money and multipliers are `real`.
- The bet-amount input widgets (App.tsx:222-236): their `Math.max(1, ...)` clamp becomes the precondition `betAmount >= 1` of `App.Game.PlaceBet` and of the bet event. A non-numeric input (NaN) is not modelled.
- `GameStatus.IDLE` and the `AICommentary` interface (types.ts:3, 28-31): unused by the engine.
- Round.RunSolvent: assumes top-ups and login balances are not negative. The sources of `TopUpModal` and `Auth` are not part of this model, so the model cannot show this.
