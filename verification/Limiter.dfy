/** limiter.go: dropping what exceeds a percentage or an absolute rate. */
module Limiter {
  const SECOND: int := 1_000_000_000

  /** How often a call passed since the window was opened, and when that was. */
  datatype Window = Window(passed: int, since: int)

  /** The two clock readings of one call; the second is used only if the call opens a window. */
  datatype Call = Call(now: int, again: int)

  predicate Reopens(w: Window, c: Call) {
    c.now - w.since > SECOND
  }

  function Current(w: Window, c: Call): Window {
    if Reopens(w, c) then Window(0, c.again) else w
  }

  predicate Passes(w: Window, limit: int, c: Call) {
    Current(w, c).passed < limit
  }

  function Next(w: Window, limit: int, c: Call): Window {
    var v := Current(w, c);
    if Passes(w, limit, c) then v.(passed := v.passed + 1) else v
  }

  /** In percent mode a call is dropped by the number drawn for it. */
  predicate Unlucky(limit: int, chance: nat) {
    limit <= chance
  }

  /** Of the hundred numbers that can be drawn, as many let a call pass as the limit says percent. */
  lemma PercentPasses(limit: nat)
    requires limit <= 100
    ensures |set chance: nat | chance < 100 && !Unlucky(limit, chance)| == limit
  {
    var passing := set chance: nat | chance < 100 && !Unlucky(limit, chance);
    BelowSize(limit);
    assert passing == Below(limit);
  }

  function Below(n: nat): set<nat> {
    if n == 0 then {} else Below(n - 1) + {n - 1}
  }

  lemma {:induction false} BelowSize(n: nat)
    ensures |Below(n)| == n && forall k: nat :: k in Below(n) <==> k < n
  {
    if n > 0 {
      BelowSize(n - 1);
    }
  }

  class RateLimiter {
    const limit: int
    const isPercent: bool
    const onFileInput: bool
    var currentRPS: int
    var currentTime: int

    constructor (limit: int, isPercent: bool, onFileInput: bool, now: int)
      ensures this.limit == limit && this.isPercent == isPercent && this.onFileInput == onFileInput
      ensures View() == Window(0, now)
    {
      this.limit, this.isPercent, this.onFileInput := limit, isPercent, onFileInput;
      currentRPS, currentTime := 0, now;
    }

    function View(): Window
      reads this
    {
      Window(currentRPS, currentTime)
    }

    /** `isLimited`; `chance` is a random number below 100. */
    method IsLimited(c: Call, chance: nat) returns (limited: bool)
      modifies this
      ensures isPercent ==> View() == old(View()) && limited == (!onFileInput && Unlucky(limit, chance))
      ensures !isPercent ==>
                View() == Next(old(View()), limit, c) && limited == !Passes(old(View()), limit, c)
    {
      if onFileInput && isPercent {
        return false;
      }
      if isPercent {
        return limit <= chance;
      }
      if c.now - currentTime > SECOND {
        currentTime := c.again;
        currentRPS := 0;
      }
      if currentRPS >= limit {
        return true;
      }
      currentRPS := currentRPS + 1;
      limited := false;
    }
  }

  // ----- whole runs -----------------------------------------------------------------------

  function After(w: Window, limit: int, cs: seq<Call>): Window
    decreases |cs|
  {
    if cs == [] then w else After(Next(w, limit, cs[0]), limit, cs[1..])
  }

  /** The calls that pass while the clock reads `from` to `to`. */
  function Passed(w: Window, limit: int, cs: seq<Call>, from: int, to: int): nat
    decreases |cs|
  {
    if cs == [] then 0
    else
      (if Passes(w, limit, cs[0]) && from <= cs[0].now <= to then 1 else 0)
      + Passed(Next(w, limit, cs[0]), limit, cs[1..], from, to)
  }

  /** The windows opened while the clock reads `from` to `to`. */
  function Opened(w: Window, limit: int, cs: seq<Call>, from: int, to: int): nat
    decreases |cs|
  {
    if cs == [] then 0
    else
      (if Reopens(w, cs[0]) && from <= cs[0].now <= to then 1 else 0)
      + Opened(Next(w, limit, cs[0]), limit, cs[1..], from, to)
  }

  /** A clock that never goes back. */
  predicate Monotone(cs: seq<Call>) {
    && (forall i :: 0 <= i < |cs| ==> cs[i].now <= cs[i].again)
    && forall i, j :: 0 <= i < j < |cs| ==> cs[i].again <= cs[j].now
  }

  predicate Fits(w: Window, limit: int) {
    0 <= w.passed <= limit
  }

  /** Each window lets `limit` calls pass. */
  lemma {:induction false} PassedByWindows(w: Window, limit: int, cs: seq<Call>, from: int, to: int)
    requires Fits(w, limit) && Monotone(cs) && (cs != [] ==> from <= cs[0].now)
    ensures Passed(w, limit, cs, from, to) <= limit - w.passed + limit * Opened(w, limit, cs, from, to)
    decreases |cs|
  {
    if cs != [] {
      var v, rest := Next(w, limit, cs[0]), cs[1..];
      assert rest != [] ==> cs[0].now <= cs[1].now;
      PassedByWindows(v, limit, rest, from, to);
      var k := Opened(v, limit, rest, from, to);
      if cs[0].now > to {
        NoneLater(v, limit, rest, from, to);
      } else if Reopens(w, cs[0]) {
        assert limit * (k + 1) == limit * k + limit;
      }
    }
  }

  lemma {:induction false} NoneLater(w: Window, limit: int, cs: seq<Call>, from: int, to: int)
    requires forall i :: 0 <= i < |cs| ==> cs[i].now > to
    ensures Passed(w, limit, cs, from, to) == 0 && Opened(w, limit, cs, from, to) == 0
    decreases |cs|
  {
    if cs != [] {
      NoneLater(Next(w, limit, cs[0]), limit, cs[1..], from, to);
    }
  }

  /** Windows are opened more than a second apart. */
  lemma {:induction false} OpenedApart(w: Window, limit: int, cs: seq<Call>, from: int, to: int)
    requires Monotone(cs) && from <= w.since <= to
    ensures Opened(w, limit, cs, from, to) * (SECOND + 1) <= to - w.since
    decreases |cs|
  {
    if cs != [] {
      var v, rest := Next(w, limit, cs[0]), cs[1..];
      if Reopens(w, cs[0]) && cs[0].again > to {
        NoneLater(v, limit, rest, from, to);
      } else {
        OpenedApart(v, limit, rest, from, to);
      }
    }
  }

  lemma {:induction false} OpenedIn(w: Window, limit: int, cs: seq<Call>, from: int, to: int)
    requires Monotone(cs) && from <= to
    ensures (Opened(w, limit, cs, from, to) - 1) * (SECOND + 1) <= to - from
    decreases |cs|
  {
    if cs != [] {
      var v, rest := Next(w, limit, cs[0]), cs[1..];
      if Reopens(w, cs[0]) && from <= cs[0].now {
        if cs[0].again > to {
          NoneLater(v, limit, rest, from, to);
        } else {
          OpenedApart(v, limit, rest, from, to);
        }
      } else {
        OpenedIn(v, limit, rest, from, to);
      }
    }
  }

  lemma {:induction false} PassedFrom(w: Window, limit: int, cs: seq<Call>, from: int, to: int)
    requires Fits(w, limit) && Monotone(cs)
    ensures Passed(w, limit, cs, from, to) <= limit * (1 + Opened(w, limit, cs, from, to))
    decreases |cs|
  {
    if cs != [] {
      if from <= cs[0].now {
        PassedByWindows(w, limit, cs, from, to);
        assert limit * (1 + Opened(w, limit, cs, from, to)) == limit + limit * Opened(w, limit, cs, from, to);
      } else {
        PassedFrom(Next(w, limit, cs[0]), limit, cs[1..], from, to);
      }
    }
  }

  /** In any run, at most `limit` times the seconds of an interval plus two calls pass in it. */
  lemma RateBound(limit: nat, start: int, cs: seq<Call>, from: int, length: nat)
    requires Monotone(cs)
    ensures Passed(Window(0, start), limit, cs, from, from + length) <= limit * (length / 1_000_000_000 + 2)
  {
    var w, to := Window(0, start), from + length;
    var k := Opened(w, limit, cs, from, to);
    PassedFrom(w, limit, cs, from, to);
    OpenedIn(w, limit, cs, from, to);
    Seconds(k, length);
    Scale(limit, 1 + k, length / SECOND + 2);
  }

  lemma Seconds(k: nat, length: nat)
    requires (k - 1) * (SECOND + 1) <= length
    ensures k <= length / SECOND + 1
  {}

  lemma Scale(limit: nat, a: int, b: int)
    requires a <= b
    ensures limit * a <= limit * b
  {}

  // ----- no call is dropped without need -----------------------------------------------------

  /** The calls that passed since the last window was opened. */
  function SinceOpened(w: Window, limit: int, cs: seq<Call>): int {
    if cs == [] then w.passed
    else
      var t := cs[..|cs| - 1];
      var c, before := cs[|cs| - 1], After(w, limit, t);
      (if Reopens(before, c) then 0 else SinceOpened(w, limit, t))
      + if Passes(before, limit, c) then 1 else 0
  }

  lemma {:induction false} AfterAppend(w: Window, limit: int, cs: seq<Call>, c: Call)
    ensures After(w, limit, cs + [c]) == Next(After(w, limit, cs), limit, c)
    decreases |cs|
  {
    if cs == [] {
      assert (cs + [c])[1..] == [];
    } else {
      assert (cs + [c])[1..] == cs[1..] + [c];
      AfterAppend(Next(w, limit, cs[0]), limit, cs[1..], c);
    }
  }

  lemma {:induction false} CountsSinceOpened(w: Window, limit: int, cs: seq<Call>)
    ensures After(w, limit, cs).passed == SinceOpened(w, limit, cs)
  {
    if cs != [] {
      var t := cs[..|cs| - 1];
      assert cs == t + [cs[|cs| - 1]];
      AfterAppend(w, limit, t, cs[|cs| - 1]);
      CountsSinceOpened(w, limit, t);
    }
  }

  /** A call is dropped exactly when the window is not over and `limit` calls have passed in it, or
      when no call may pass at all. */
  lemma DroppedExactly(limit: int, start: int, cs: seq<Call>, c: Call)
    ensures var w := After(Window(0, start), limit, cs);
            !Passes(w, limit, c) <==>
              limit <= 0 || (c.now <= w.since + 1_000_000_000 && SinceOpened(Window(0, start), limit, cs) >= limit)
  {
    CountsSinceOpened(Window(0, start), limit, cs);
    PassedBound(Window(0, start), limit, cs);
  }

  lemma {:induction false} PassedBound(w: Window, limit: int, cs: seq<Call>)
    requires w.passed >= 0
    ensures After(w, limit, cs).passed >= 0
    decreases |cs|
  {
    if cs != [] {
      PassedBound(Next(w, limit, cs[0]), limit, cs[1..]);
    }
  }
}
