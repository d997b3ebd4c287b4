/** The pull request watcher: what one poll records, and what a whole history of polls amounts to. */
module PrWatch {
  import opened Core

  datatype Comment = Comment(id: string, author: string, body: string)

  datatype Observation = Observation(
    title: string,
    state: string,
    draft: bool,
    checks: string,
    unresolved: int,
    comments: seq<Comment>)

  datatype Watch = Watch(
    account: string,
    snapshot: Option<Observation>,
    title: string,
    state: string,
    draft: bool,
    checksState: string,
    unresolved: int,
    observedAt: Option<Instant>,
    failures: nat,
    lastError: string,
    lastErrorAt: Option<Instant>,
    nextPollAt: Instant)

  datatype Event = Unreachable(reason: string) | Recovered(failed: nat) | Commented(comment: Comment)

  /** One attempt to read the pull request. `draw` is what the random source yields. */
  datatype Reading =
    | Answered(observation: Observation, account: string, at: Instant)
    | Refused(reason: string, at: Instant, draw: nat)

  datatype Options = Options(interval: int, settledInterval: int)

  const DEFAULT_INTERVAL := 60_000_000_000
  const DEFAULT_SETTLED_INTERVAL := 1_800_000_000_000

  /** An interval that is not positive means the default. */
  function Defaulted(options: Options): (used: Options)
    ensures 0 < used.interval && 0 < used.settledInterval
    ensures 0 < options.interval && 0 < options.settledInterval ==> used == options
    ensures options.interval <= 0 ==> used.interval == 60 * 1_000_000_000
    ensures options.settledInterval <= 0 ==> used.settledInterval == 30 * 60 * 1_000_000_000
  {
    Options(if options.interval <= 0 then DEFAULT_INTERVAL else options.interval,
            if options.settledInterval <= 0 then DEFAULT_SETTLED_INTERVAL else options.settledInterval)
  }

  // ----- backoff, in nanoseconds -----

  const MAX_BACKOFF := 900_000_000_000

  function Pow2(n: nat): int {
    if n == 0 then 1 else 2 * Pow2(n - 1)
  }

  function Min(a: int, b: int): int {
    if a < b then a else b
  }

  /** The wait after so many doublings, stopping for good at the cap. */
  function Doubled(wait: int, times: nat): int
    decreases times
  {
    if times == 0 then wait
    else if wait * 2 >= MAX_BACKOFF then MAX_BACKOFF
    else Doubled(wait * 2, times - 1)
  }

  function Base(interval: int, failures: int): int {
    Doubled(interval, if failures <= 1 then 0 else failures - 1)
  }

  lemma {:induction false} DoubledIsCapped(wait: int, times: nat)
    requires 0 < wait
    ensures 0 < Doubled(wait, times)
    ensures times > 0 ==> Doubled(wait, times) == Min(wait * Pow2(times), MAX_BACKOFF)
    decreases times
  {
    if times > 0 {
      if wait * 2 >= MAX_BACKOFF {
        PowGrows(times - 1);
        assert wait * Pow2(times) == (wait * 2) * Pow2(times - 1) >= wait * 2;
      } else {
        DoubledIsCapped(wait * 2, times - 1);
        assert wait * Pow2(times) == (wait * 2) * Pow2(times - 1);
      }
    }
  }

  lemma {:induction false} PowGrows(n: nat)
    ensures Pow2(n) >= 1
  {
    if n > 0 {
      PowGrows(n - 1);
    }
  }

  /** The wait is the capped power of two exactly when it has doubled at least once or started within the cap. */
  lemma BackoffIsCappedDoubling(interval: int, failures: int)
    requires 0 < interval && 1 <= failures
    ensures Base(interval, failures) == Min(interval * Pow2(failures - 1), MAX_BACKOFF)
            <==> failures > 1 || interval <= MAX_BACKOFF
  {
    DoubledIsCapped(interval, failures - 1);
    assert failures == 1 ==> interval * Pow2(failures - 1) == interval;
  }

  /** There is always room for jitter exactly when the interval is at least four nanoseconds. */
  lemma JitterNeedsFour(interval: int)
    requires 0 < interval
    ensures (forall failures: int :: 1 <= failures ==> Base(interval, failures) / 4 > 0) <==> interval >= 4
  {
    if interval >= 4 {
      forall failures: int | 1 <= failures ensures Base(interval, failures) / 4 > 0 {
        DoubledIsCapped(interval, failures - 1);
        PowGrows(failures - 1);
        if failures > 1 {
          assert interval * Pow2(failures - 1) >= interval;
        }
      }
    } else {
      assert Base(interval, 1) / 4 <= 0;
    }
  }

  /** How long to wait after this many failures; no answer where the random source would panic. */
  method BackoffFor(interval: int, failures: int, draw: nat) returns (delay: Option<int>)
    requires 0 < interval
    ensures delay == Backoff(interval, failures, draw)
    ensures Base(interval, failures) >= 4 ==>
      delay.Some? && Base(interval, failures) <= delay.value < Base(interval, failures) + Base(interval, failures) / 4
  {
    var wait := interval;
    var round := 0;
    ghost var rounds := if failures <= 1 then 0 else failures - 1;
    while round < failures - 1
      invariant 0 <= round <= rounds && 0 < wait
      invariant Base(interval, failures) == Doubled(wait, rounds - round)
      decreases failures - 1 - round
    {
      wait := wait * 2;
      if wait >= MAX_BACKOFF {
        wait := MAX_BACKOFF;
        break;
      }
      round := round + 1;
    }
    if wait / 4 <= 0 {
      return None;
    }
    return Some(wait + draw % (wait / 4));
  }

  function Backoff(interval: int, failures: int, draw: nat): Option<int> {
    var base := Base(interval, failures);
    if base / 4 <= 0 then None else Some(base + draw % (base / 4))
  }

  // ----- one poll -----

  function IntervalFor(options: Options, observation: Observation): int {
    if observation.state == "merged" || observation.state == "closed" then options.settledInterval else options.interval
  }

  predicate Knows(comments: seq<Comment>, id: string) {
    exists i :: 0 <= i < |comments| && comments[i].id == id
  }

  /** The comments of a later window that an earlier one does not show, in order. */
  function NewComments(before: seq<Comment>, after: seq<Comment>): seq<Comment> {
    if after == [] then []
    else
      var last := after[|after| - 1];
      NewComments(before, after[..|after| - 1]) + (if Knows(before, last.id) then [] else [last])
  }

  function Told(comments: seq<Comment>): seq<Event> {
    seq(|comments|, i requires 0 <= i < |comments| => Commented(comments[i]))
  }

  method CommentChanges(before: seq<Comment>, after: seq<Comment>) returns (changes: seq<Event>)
    ensures changes == Told(NewComments(before, after))
  {
    var seen: set<string> := {};
    for i := 0 to |before|
      invariant forall id :: id in seen <==> Knows(before[..i], id)
    {
      assert before[..i + 1] == before[..i] + [before[i]];
      seen := seen + {before[i].id};
    }
    assert before[..|before|] == before;
    changes := [];
    for i := 0 to |after|
      invariant changes == Told(NewComments(before, after[..i]))
    {
      assert after[..i + 1][..i] == after[..i];
      if after[i].id !in seen {
        changes := changes + [Commented(after[i])];
      }
    }
    assert after[..|after|] == after;
  }

  /** The delay after this failure leaves no room for jitter, and the random source panics. */
  predicate Panics(options: Options, w: Watch, result: Reading) {
    result.Refused? && Base(options.interval, w.failures + 1) < 4
  }

  /**
   The row a poll leaves. A failure touches only the error columns, the count and the next attempt, and
   one that panics writes nothing.
   */
  function Polled(options: Options, w: Watch, result: Reading): Watch {
    match result
    case Answered(o, account, at) =>
      w.(account := account, snapshot := Some(o), title := o.title, state := o.state, draft := o.draft,
         checksState := o.checks, unresolved := o.unresolved, observedAt := Some(at), failures := 0, lastError := "",
         nextPollAt := at + IntervalFor(options, o) / 1000)
    case Refused(reason, at, draw) =>
      if Panics(options, w, result) then w
      else
        var delay := Backoff(options.interval, w.failures + 1, draw).value;
        w.(failures := w.failures + 1, lastError := reason, lastErrorAt := Some(at), nextPollAt := at + delay / 1000)
  }

  /** What a poll announces: an outage once when it starts and once when it ends, and new comments. */
  function Announced(options: Options, w: Watch, result: Reading): seq<Event> {
    match result
    case Answered(o, _, _) =>
      (if w.failures > 0 then [Recovered(w.failures)] else [])
      + (if w.snapshot.Some? then Told(NewComments(w.snapshot.value.comments, o.comments)) else [])
    case Refused(reason, _, _) =>
      if w.failures == 0 && !Panics(options, w, result) then [Unreachable(reason)] else []
  }

  class Watcher {
    const options: Options
    var watch: Watch
    var events: seq<Event>

    constructor (options: Options, watch: Watch)
      ensures this.options == Defaulted(options) && this.watch == watch && events == []
      ensures 0 < this.options.interval
    {
      this.options, this.watch, this.events := Defaulted(options), watch, [];
    }

    /** Records one attempt. A failure whose delay leaves no room for jitter panics before anything is written. */
    method Poll(result: Reading) returns (panicked: bool)
      requires 0 < options.interval
      modifies this
      ensures panicked <==> Panics(options, old(watch), result)
      ensures watch == Polled(options, old(watch), result)
      ensures events == old(events) + Announced(options, old(watch), result)
    {
      panicked := false;
      match result
      case Refused(reason, at, draw) => panicked := RecordFailure(reason, at, draw);
      case Answered(o, account, at) => RecordObservation(o, account, at);
    }

    method RecordFailure(reason: string, at: Instant, draw: nat) returns (panicked: bool)
      requires 0 < options.interval
      modifies this
      ensures panicked <==> Panics(options, old(watch), Refused(reason, at, draw))
      ensures watch == Polled(options, old(watch), Refused(reason, at, draw))
      ensures events == old(events) + Announced(options, old(watch), Refused(reason, at, draw))
    {
      var failures := watch.failures;
      var delay := BackoffFor(options.interval, failures + 1, draw);
      if delay.None? {
        return true;
      }
      watch := watch.(failures := watch.failures + 1, lastError := reason, lastErrorAt := Some(at),
                      nextPollAt := at + delay.value / 1000);
      if failures == 0 {
        events := events + [Unreachable(reason)];
      }
      return false;
    }

    method RecordObservation(o: Observation, account: string, at: Instant)
      modifies this
      ensures watch == Polled(options, old(watch), Answered(o, account, at))
      ensures events == old(events) + Announced(options, old(watch), Answered(o, account, at))
    {
      var previous := watch.snapshot;
      var failures := watch.failures;
      watch := watch.(account := account, snapshot := Some(o), title := o.title, state := o.state, draft := o.draft,
                      checksState := o.checks, unresolved := o.unresolved, observedAt := Some(at), failures := 0,
                      lastError := "", nextPollAt := at + IntervalFor(options, o) / 1000);
      ghost var before := events;
      if failures > 0 {
        events := events + [Recovered(failures)];
      }
      if previous.Some? {
        var changes := CommentChanges(previous.value.comments, o.comments);
        events := events + changes;
      }
      assert events == before + Announced(options, old(watch), Answered(o, account, at));
    }
  }

  // ----- histories -----

  datatype History = History(watch: Watch, events: seq<Event>)

  function NewWatch(createdAt: Instant): Watch {
    Watch("", None, "", "unknown", false, "unknown", 0, None, 0, "", None, createdAt)
  }

  function After(options: Options, createdAt: Instant, results: seq<Reading>): History {
    if results == [] then History(NewWatch(createdAt), [])
    else
      var before := After(options, createdAt, results[..|results| - 1]);
      var last := results[|results| - 1];
      History(Polled(options, before.watch, last), before.events + Announced(options, before.watch, last))
  }

  /** The failed attempts since the last successful one. */
  function TrailingFailures(results: seq<Reading>): nat {
    if results == [] || results[|results| - 1].Answered? then 0 else 1 + TrailingFailures(results[..|results| - 1])
  }

  function LastGood(results: seq<Reading>): (good: Option<Reading>)
    ensures good.Some? ==> good.value.Answered? && good.value in results
  {
    if results == [] then None
    else if results[|results| - 1].Answered? then Some(results[|results| - 1])
    else LastGood(results[..|results| - 1])
  }

  /**
   The stored row shows the failures since the last success, and everything else of that success. With an
   interval too short for jitter no failure is ever recorded.
   */
  lemma {:induction false} RowRemembersLastGood(options: Options, createdAt: Instant, results: seq<Reading>)
    ensures After(options, createdAt, results).watch.failures
            == if options.interval < 4 then 0 else TrailingFailures(results)
    ensures var w := After(options, createdAt, results).watch;
      match LastGood(results)
      case None => w.snapshot.None? && w.observedAt.None? && w.state == "unknown" && w.checksState == "unknown"
      case Some(good) =>
        var o := good.observation;
        && w.snapshot == Some(o) && w.account == good.account && w.observedAt == Some(good.at)
        && (w.title, w.state, w.draft, w.checksState, w.unresolved) == (o.title, o.state, o.draft, o.checks, o.unresolved)
  {
    if results != [] {
      RowRemembersLastGood(options, createdAt, results[..|results| - 1]);
      if options.interval >= 4 {
        JitterNeedsFour(options.interval);
      }
    }
  }

  /** The outage events among all events, in order. */
  function Outages(events: seq<Event>): seq<Event> {
    if events == [] then []
    else
      var last := events[|events| - 1];
      Outages(events[..|events| - 1]) + (if last.Commented? then [] else [last])
  }

  lemma {:induction false} OutagesAppend(a: seq<Event>, b: seq<Event>)
    ensures Outages(a + b) == Outages(a) + Outages(b)
  {
    if b == [] {
      assert a + b == a;
    } else {
      assert (a + b)[..|a + b| - 1] == a + b[..|b| - 1];
      OutagesAppend(a, b[..|b| - 1]);
    }
  }

  lemma {:induction false} CommentsAreNoOutage(comments: seq<Comment>)
    ensures Outages(Told(comments)) == []
  {
    if comments != [] {
      assert Told(comments)[..|comments| - 1] == Told(comments[..|comments| - 1]);
      CommentsAreNoOutage(comments[..|comments| - 1]);
    }
  }

  ghost predicate Alternates(outages: seq<Event>) {
    forall i :: 0 <= i < |outages| ==> (outages[i].Unreachable? <==> i % 2 == 0) && (outages[i].Recovered? <==> i % 2 == 1)
  }

  /** Unreachable and recovered strictly alternate, with an outage open exactly while failures are counted. */
  lemma {:induction false} OutagesAlternate(options: Options, createdAt: Instant, results: seq<Reading>)
    ensures var h := After(options, createdAt, results);
      && Alternates(Outages(h.events))
      && (|Outages(h.events)| % 2 == 1 <==> h.watch.failures > 0)
  {
    if results != [] {
      var before := After(options, createdAt, results[..|results| - 1]);
      var last := results[|results| - 1];
      OutagesAlternate(options, createdAt, results[..|results| - 1]);
      OutagesAppend(before.events, Announced(options, before.watch, last));
      AnnouncedOutages(options, before.watch, last);
      AlternationExtends(Outages(before.events), before.watch.failures, last, Panics(options, before.watch, last));
    }
  }

  lemma AlternationExtends(outages: seq<Event>, failures: nat, result: Reading, panics: bool)
    requires Alternates(outages) && (|outages| % 2 == 1 <==> failures > 0)
    ensures var more := OutageOf(failures, result, panics);
      && Alternates(outages + more)
      && (|outages + more| % 2 == 1 <==> result.Refused? && (failures > 0 || !panics))
  {
  }

  function OutageOf(failures: nat, result: Reading, panics: bool): seq<Event> {
    match result
    case Answered(_, _, _) => if failures > 0 then [Recovered(failures)] else []
    case Refused(reason, _, _) => if failures == 0 && !panics then [Unreachable(reason)] else []
  }

  lemma AnnouncedOutages(options: Options, w: Watch, result: Reading)
    ensures Outages(Announced(options, w, result)) == OutageOf(w.failures, result, Panics(options, w, result))
  {
    match result
    case Answered(o, _, _) =>
      var opening := if w.failures > 0 then [Recovered(w.failures)] else [];
      var told := if w.snapshot.Some? then Told(NewComments(w.snapshot.value.comments, o.comments)) else [];
      OutagesAppend(opening, told);
      if w.snapshot.Some? {
        CommentsAreNoOutage(NewComments(w.snapshot.value.comments, o.comments));
      }
      assert Outages([]) == [];
      assert w.failures > 0 ==> opening[..0] == [];
    case Refused(reason, _, _) =>
      assert [Unreachable(reason)][..0] == [];
  }

  /** After n failures in a row the next attempt is at least w away and less than w + w/4, to the microsecond. */
  lemma FailureWaits(options: Options, createdAt: Instant, results: seq<Reading>)
    requires 4 <= options.interval <= MAX_BACKOFF
    requires results != [] && results[|results| - 1].Refused?
    ensures var h := After(options, createdAt, results);
      var w := Min(options.interval * Pow2(h.watch.failures - 1), MAX_BACKOFF);
      var at := results[|results| - 1].at;
      exists delay :: w <= delay < w + w / 4 && h.watch.nextPollAt == at + delay / 1000
  {
    var before := After(options, createdAt, results[..|results| - 1]).watch;
    var last := results[|results| - 1];
    BackoffIsCappedDoubling(options.interval, before.failures + 1);
    JitterNeedsFour(options.interval);
    var base := Base(options.interval, before.failures + 1);
    assert base / 4 > 0;
    var delay := base + last.draw % (base / 4);
    assert base <= delay < base + base / 4;
  }

  // ----- the whole schedule -----

  /** The wait before jitter after so many failures in a row, in nanoseconds: doubling from the interval, at most 15 minutes. */
  function Wait(interval: int, failures: nat): int {
    if failures <= 1 then interval else Min(interval * Pow2(failures - 1), 900_000_000_000)
  }

  /**
   When to look next, after every history: at once for a new watch; a settled interval after seeing the pull
   request merged or closed, an interval after seeing it otherwise; after n failures in a row the n-th wait
   and the drawn part of a quarter of it; and after a failure that panicked whatever it was before.
   */
  lemma NextLookIs(options: Options, createdAt: Instant, results: seq<Reading>)
    requires 0 < options.interval
    ensures var next := After(options, createdAt, results).watch.nextPollAt;
      if results == [] then next == createdAt
      else
        match results[|results| - 1]
        case Answered(o, _, at) =>
          if o.state == "merged" || o.state == "closed" then next == at + options.settledInterval / 1000
          else next == at + options.interval / 1000
        case Refused(_, at, draw) =>
          if options.interval < 4 then next == After(options, createdAt, results[..|results| - 1]).watch.nextPollAt
          else
            var w := Wait(options.interval, TrailingFailures(results));
            w / 4 > 0 && next == at + (w + draw % (w / 4)) / 1000
  {
    if results != [] && results[|results| - 1].Refused? {
      var before, last := results[..|results| - 1], results[|results| - 1];
      RowRemembersLastGood(options, createdAt, before);
      if options.interval >= 4 {
        JitterNeedsFour(options.interval);
        WaitIsBase(options.interval, TrailingFailures(results));
        assert Base(options.interval, TrailingFailures(results)) / 4 > 0;
      }
    }
  }

  lemma WaitIsBase(interval: int, failures: nat)
    requires 0 < interval && 1 <= failures
    ensures Wait(interval, failures) == Base(interval, failures)
  {
    BackoffIsCappedDoubling(interval, failures);
  }

  /** A panicking failure leaves the row as it was; any other is remembered with its reason, until the next success. */
  lemma ErrorsAreRemembered(options: Options, createdAt: Instant, results: seq<Reading>)
    requires results != []
    ensures var w, was := After(options, createdAt, results).watch, After(options, createdAt, results[..|results| - 1]).watch;
      match results[|results| - 1]
      case Answered(_, _, at) => w.lastError == "" && w.lastErrorAt == was.lastErrorAt
      case Refused(reason, at, _) =>
        if options.interval < 4 then w == was
        else
          && w == was.(failures := was.failures + 1, lastError := reason, lastErrorAt := Some(at), nextPollAt := w.nextPollAt)
  {
    RowRemembersLastGood(options, createdAt, results[..|results| - 1]);
    if options.interval >= 4 {
      JitterNeedsFour(options.interval);
    }
  }

  /**
   What the last poll of a history announces: the first failure of a row and its reason; the end of a row of
   failures and their number; then, unless it is the first observation, each comment not in the one before.
   */
  lemma PollAnnounces(options: Options, createdAt: Instant, results: seq<Reading>)
    requires results != [] && options.interval >= 4
    ensures var before := results[..|results| - 1];
      var failed := TrailingFailures(before);
      var events, was := After(options, createdAt, results).events, After(options, createdAt, before).events;
      match results[|results| - 1]
      case Refused(reason, _, _) => events == if failed == 0 then was + [Unreachable(reason)] else was
      case Answered(o, _, _) =>
        var opening := if failed > 0 then [Recovered(failed)] else [];
        match LastGood(before)
        case None => events == was + opening
        case Some(good) => events == was + opening + Told(NewComments(good.observation.comments, o.comments))
  {
    var before := results[..|results| - 1];
    RowRemembersLastGood(options, createdAt, before);
    JitterNeedsFour(options.interval);
  }
}
