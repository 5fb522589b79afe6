/** The strip of recent crash points, newest first and at most 15 long
    (App.tsx, `[entry, ...h].slice(0, 15)` on every crash). */
module History {
  import opened Types

  const HISTORY_CAPACITY := 15

  /** The first `HISTORY_CAPACITY` elements of `s` (all of them when `s` is shorter). */
  function Window<T>(s: seq<T>): (w: seq<T>)
    ensures |w| == if |s| <= HISTORY_CAPACITY then |s| else HISTORY_CAPACITY
    ensures w == s[..|w|]
  {
    if |s| <= HISTORY_CAPACITY then s else s[..HISTORY_CAPACITY]
  }

  /** Records one crash: the entry goes in front, and the oldest entry falls off
      once the strip is full. */
  function Record(h: seq<GameHistory>, e: GameHistory): (r: seq<GameHistory>)
    ensures 0 < |r| <= HISTORY_CAPACITY
    ensures |h| < HISTORY_CAPACITY ==> |r| == |h| + 1
    ensures |h| >= HISTORY_CAPACITY ==> |r| == HISTORY_CAPACITY
    ensures r[0] == e && r[1..] == h[..|r| - 1]
  {
    Window([e] + h)
  }

  /** `s` in reverse order. */
  function Reversed<T>(s: seq<T>): (r: seq<T>)
    ensures |r| == |s|
  {
    if s == [] then [] else Reversed(s[1..]) + [s[0]]
  }

  /** Element `k` of the reversal is element `k` counted from the back. */
  lemma {:induction false} ReversedAt<T>(s: seq<T>)
    ensures forall k :: 0 <= k < |s| ==> Reversed(s)[k] == s[|s| - 1 - k]
    decreases |s|
  {
    if s != [] {
      ReversedAt(s[1..]);
    }
  }

  /** The strip after recording the crashes `es`, oldest first. */
  function RecordAll(h: seq<GameHistory>, es: seq<GameHistory>): seq<GameHistory>
    decreases |es|
  {
    if es == [] then h else RecordAll(Record(h, es[0]), es[1..])
  }

  /** Cutting an inner sequence to the window first changes nothing about the outer window. */
  lemma WindowAbsorbs<T>(a: seq<T>, b: seq<T>)
    ensures Window(a + Window(b)) == Window(a + b)
  {
  }

  /** From any strip within capacity, a run of crashes leaves exactly the newest
      entries, newest first, up to the capacity. */
  lemma {:induction false} RecordAllIsWindow(h: seq<GameHistory>, es: seq<GameHistory>)
    requires |h| <= HISTORY_CAPACITY
    ensures RecordAll(h, es) == Window(Reversed(es) + h)
    decreases |es|
  {
    if es != [] {
      var rest := es[1..];
      var front := [es[0]] + h;
      RecordAllIsWindow(Window(front), rest);
      WindowAbsorbs(Reversed(rest), front);
      ReversedThenStrip(es, h);
    }
  }

  /** Reversing a run and putting it before the strip is the same as putting its
      first crash before the strip and the reversed rest before that. */
  lemma ReversedThenStrip<T>(es: seq<T>, h: seq<T>)
    requires es != []
    ensures Reversed(es[1..]) + ([es[0]] + h) == Reversed(es) + h
  {
    var r := Reversed(es[1..]);
    assert Reversed(es) == r + [es[0]];
    ConcatAssoc(r, [es[0]], h);
  }

  lemma ConcatAssoc<T>(a: seq<T>, b: seq<T>, c: seq<T>)
    ensures a + (b + c) == (a + b) + c
  {
  }

  /** Sixteen crashes into an empty strip: the first is evicted and the other
      fifteen are kept, newest at index 0. */
  lemma SixteenthEvictsOldest(es: seq<GameHistory>)
    requires |es| == HISTORY_CAPACITY + 1
    ensures RecordAll([], es) == Reversed(es[1..])
    ensures RecordAll([], es)[0] == es[HISTORY_CAPACITY]
  {
    RecordAllIsWindow([], es);
    assert Reversed(es) == Reversed(es[1..]) + [es[0]];
    assert Reversed(es) + [] == Reversed(es);
    assert Reversed(es)[..HISTORY_CAPACITY] == Reversed(es[1..]);
    RecordAllIsWindow([], es[1..]);
    ReversedAt(es[1..]);
  }
}
