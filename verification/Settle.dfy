/** The loop that reloads the configuration file once it has stopped changing. */
module Settle {

  const STABLE_CHECKS := 3

  datatype Fingerprint = Fingerprint(digest: seq<nat>, missing: bool)

  const BLANK := Fingerprint([], false)

  /** What the loop remembers between ticks. */
  datatype Memory = Memory(loaded: Fingerprint, candidate: Fingerprint, quietReads: int)

  /** One reading of the file, and whether a reload would succeed if it were tried now. */
  datatype Tick = Tick(reading: Fingerprint, reloads: bool)

  function Attempts(m: Memory, tick: Tick): bool {
    tick.reading != m.loaded && tick.reading == m.candidate && m.quietReads + 1 >= STABLE_CHECKS
  }

  function Next(m: Memory, tick: Tick): Memory {
    if tick.reading == m.loaded then m.(candidate := BLANK, quietReads := 0)
    else if tick.reading == m.candidate then
      if m.quietReads + 1 < STABLE_CHECKS then m.(quietReads := m.quietReads + 1)
      else if !tick.reloads then m.(candidate := BLANK, quietReads := 0)
      else Memory(tick.reading, BLANK, 0)
    else m.(candidate := tick.reading, quietReads := 1)
  }

  class Watcher {
    var loaded: Fingerprint
    var candidate: Fingerprint
    var quietReads: int

    ghost function View(): Memory
      reads this
    {
      Memory(loaded, candidate, quietReads)
    }

    constructor (loaded: Fingerprint)
      ensures View() == Start(loaded)
    {
      this.loaded, candidate, quietReads := loaded, BLANK, 0;
    }

    /** One tick of the loop; reports whether it tried to reload. */
    method Observe(tick: Tick) returns (attempted: bool)
      modifies this
      ensures View() == Next(old(View()), tick)
      ensures attempted == Attempts(old(View()), tick)
    {
      attempted := false;
      if tick.reading == loaded {
        candidate, quietReads := BLANK, 0;
      } else if tick.reading == candidate {
        quietReads := quietReads + 1;
        if quietReads < STABLE_CHECKS {
          return;
        }
        attempted := true;
        if !tick.reloads {
          candidate, quietReads := BLANK, 0;
          return;
        }
        loaded, candidate, quietReads := tick.reading, BLANK, 0;
      } else {
        candidate, quietReads := tick.reading, 1;
      }
    }
  }

  // ----- runs -----

  function Start(loaded: Fingerprint): Memory {
    Memory(loaded, BLANK, 0)
  }

  /** What the loop remembers before the i-th tick. */
  function Before(loaded: Fingerprint, ticks: seq<Tick>, i: nat): Memory
    requires i <= |ticks|
  {
    if i == 0 then Start(loaded) else Next(Before(loaded, ticks, i - 1), ticks[i - 1])
  }

  predicate AttemptsAt(loaded: Fingerprint, ticks: seq<Tick>, i: int) {
    0 <= i < |ticks| && Attempts(Before(loaded, ticks, i), ticks[i])
  }

  /** The number of readings in a row, ending before tick i, that equal x with no attempt among them. */
  function Streak(loaded: Fingerprint, ticks: seq<Tick>, i: nat, x: Fingerprint): nat
    requires i <= |ticks|
  {
    if i == 0 || ticks[i - 1].reading != x || AttemptsAt(loaded, ticks, i - 1) then 0
    else 1 + Streak(loaded, ticks, i - 1, x)
  }

  /** The loop's counter is the streak of its candidate, and no other unloaded reading has one. */
  lemma {:induction false} CounterIsStreak(loaded: Fingerprint, ticks: seq<Tick>, i: nat, x: Fingerprint)
    requires i <= |ticks|
    requires x != Before(loaded, ticks, i).loaded
    ensures var m := Before(loaded, ticks, i);
      && 0 <= m.quietReads < STABLE_CHECKS
      && Streak(loaded, ticks, i, x) == if x == m.candidate then m.quietReads else 0
  {
    if i > 0 {
      var m := Before(loaded, ticks, i - 1);
      if x != m.loaded {
        CounterIsStreak(loaded, ticks, i - 1, x);
      }
    }
  }

  /**
   A tick tries to reload exactly when it and the two before it read the same contents, different
   from what is loaded, and neither of those two tried.
   */
  lemma AttemptsExactlyWhenSettled(loaded: Fingerprint, ticks: seq<Tick>, i: nat)
    requires i < |ticks|
    ensures AttemptsAt(loaded, ticks, i) <==>
      && i >= 2
      && ticks[i].reading == ticks[i - 1].reading == ticks[i - 2].reading
      && ticks[i].reading != Before(loaded, ticks, i).loaded
      && !AttemptsAt(loaded, ticks, i - 1) && !AttemptsAt(loaded, ticks, i - 2)
  {
    var x := ticks[i].reading;
    if x != Before(loaded, ticks, i).loaded {
      CounterIsStreak(loaded, ticks, i, x);
    }
  }

  /** Only an attempt that succeeds changes what is loaded, and it loads what it read. */
  lemma LoadedChangesOnSuccess(loaded: Fingerprint, ticks: seq<Tick>, i: nat)
    requires i < |ticks|
    ensures Before(loaded, ticks, i + 1).loaded
            == if AttemptsAt(loaded, ticks, i) && ticks[i].reloads then ticks[i].reading else Before(loaded, ticks, i).loaded
  {
  }

  /** Three equal readings that differ from what is loaded contain an attempt. */
  lemma SettledFileIsTried(loaded: Fingerprint, ticks: seq<Tick>, i: nat)
    requires i + 2 < |ticks|
    requires ticks[i].reading == ticks[i + 1].reading == ticks[i + 2].reading
    requires ticks[i].reading != Before(loaded, ticks, i).loaded
    ensures AttemptsAt(loaded, ticks, i) || AttemptsAt(loaded, ticks, i + 1) || AttemptsAt(loaded, ticks, i + 2)
  {
    AttemptsExactlyWhenSettled(loaded, ticks, i + 2);
    LoadedChangesOnSuccess(loaded, ticks, i);
    LoadedChangesOnSuccess(loaded, ticks, i + 1);
  }

  lemma {:induction false} FailingLoadsNothing(loaded: Fingerprint, ticks: seq<Tick>, first: nat, i: nat)
    requires first <= i < |ticks|
    requires forall k :: first <= k <= i ==> !ticks[k].reloads
    ensures Before(loaded, ticks, i).loaded == Before(loaded, ticks, first).loaded
    decreases i
  {
    if i > first {
      FailingLoadsNothing(loaded, ticks, first, i - 1);
      LoadedChangesOnSuccess(loaded, ticks, i - 1);
    }
  }

  lemma NotRetriedBefore(loaded: Fingerprint, ticks: seq<Tick>, first: nat, i: nat)
    requires first <= i < first + 3 && i < |ticks| && AttemptsAt(loaded, ticks, first)
    ensures AttemptsAt(loaded, ticks, i) <==> i == first
  {
    AttemptsExactlyWhenSettled(loaded, ticks, i);
  }

  lemma RetriedAfterThree(loaded: Fingerprint, ticks: seq<Tick>, first: nat)
    requires first + 3 < |ticks| && AttemptsAt(loaded, ticks, first)
    requires forall k :: first <= k <= first + 3 ==> ticks[k].reading == ticks[first].reading && !ticks[k].reloads
    ensures AttemptsAt(loaded, ticks, first + 3)
  {
    NotRetriedBefore(loaded, ticks, first, first + 1);
    NotRetriedBefore(loaded, ticks, first, first + 2);
    FailingLoadsNothing(loaded, ticks, first, first + 3);
    AttemptsExactlyWhenSettled(loaded, ticks, first);
    AttemptsExactlyWhenSettled(loaded, ticks, first + 3);
  }

  /** A broken file left alone is tried again three ticks after each attempt, and not before. */
  lemma {:induction false} BrokenFileIsRetried(loaded: Fingerprint, ticks: seq<Tick>, first: nat, i: nat)
    requires first <= i < |ticks| && AttemptsAt(loaded, ticks, first)
    requires forall k :: first <= k <= i ==> ticks[k].reading == ticks[first].reading && !ticks[k].reloads
    ensures AttemptsAt(loaded, ticks, i) <==> (i - first) % 3 == 0
    ensures Before(loaded, ticks, i).loaded == Before(loaded, ticks, first).loaded
    decreases i - first
  {
    FailingLoadsNothing(loaded, ticks, first, i);
    if i >= first + 3 {
      RetriedAfterThree(loaded, ticks, first);
      BrokenFileIsRetried(loaded, ticks, first + 3, i);
    } else {
      NotRetriedBefore(loaded, ticks, first, i);
    }
  }
}
