/** The hidden crash point drawn at the start of every round (App.tsx, startNewGame). */
module Outcome {
  import opened Random

  /** The crash point for first draw `r` (which tier) and second draw `u`
      (where in the tier). An instant crash at exactly 1.0 happens 12% of the time;
      otherwise the point is uniform in one of three escalating, slightly
      overlapping ranges. */
  function CrashPoint(r: real, u: real): (crash: real)
    requires IsDraw(r) && IsDraw(u)
    ensures crash >= 1.0
    ensures crash == 1.0 <==> r < 0.12
    ensures 0.12 <= r < 0.6 ==> 1.1 <= crash < 2.6
    ensures 0.6 <= r < 0.85 ==> 2.5 <= crash < 6.5
    ensures 0.85 <= r ==> 6.5 <= crash < 21.5
  {
    if r < 0.12 then 1.0
    else if r < 0.6 then 1.1 + u * 1.5
    else if r < 0.85 then 2.5 + u * 4.0
    else 6.5 + u * 15.0
  }

  /** The range of crash points the tier selected by `r` (not an instant crash) can produce. */
  predicate InTier(r: real, crash: real)
  {
    if r < 0.6 then 1.1 <= crash < 2.6
    else if r < 0.85 then 2.5 <= crash < 6.5
    else 6.5 <= crash < 21.5
  }

  /** The second draw that yields a given crash point of a tier: every point of
      the tier's range is produced, by exactly one draw, so the tier is covered
      without gaps. */
  function DrawFor(r: real, crash: real): (u: real)
    requires IsDraw(r) && 0.12 <= r && InTier(r, crash)
    ensures IsDraw(u) && CrashPoint(r, u) == crash
    ensures forall v :: IsDraw(v) && CrashPoint(r, v) == crash ==> v == u
  {
    if r < 0.6 then (crash - 1.1) / 1.5
    else if r < 0.85 then (crash - 2.5) / 4.0
    else (crash - 6.5) / 15.0
  }
}
