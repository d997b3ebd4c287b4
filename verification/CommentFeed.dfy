/** The feed of new comments a watch derives from successive bounded windows on a growing conversation. */
module CommentFeed {
  import opened Core
  import opened PrWatch

  /** How many comments one read of a pull request returns: the latest ones. */
  const WINDOW := 30

  function From(length: nat): nat {
    if length <= WINDOW then 0 else length - WINDOW
  }

  /** What a read sees once the conversation has this many comments. */
  function Window(log: seq<Comment>, length: nat): seq<Comment>
    requires length <= |log|
  {
    log[From(length)..length]
  }

  ghost predicate Distinct(log: seq<Comment>) {
    forall i, j :: 0 <= i < j < |log| ==> log[i].id != log[j].id
  }

  function Later(a: nat, b: nat): nat {
    if a < b then b else a
  }

  /** A successful poll sees a prefix of the conversation through its window; a failed one sees nothing. */
  datatype Poll = Sees(length: nat, result: Reading) | Misses(result: Reading)

  ghost predicate Faithful(log: seq<Comment>, poll: Poll) {
    match poll
    case Sees(length, result) =>
      length <= |log| && result.Answered? && result.observation.comments == Window(log, length)
    case Misses(result) => result.Refused?
  }

  function LastSeen(polls: seq<Poll>): Option<nat> {
    if polls == [] then None
    else if polls[|polls| - 1].Sees? then Some(polls[|polls| - 1].length)
    else LastSeen(polls[..|polls| - 1])
  }

  /** The conversation only grows, and each poll reports it faithfully. */
  ghost predicate Growing(log: seq<Comment>, polls: seq<Poll>) {
    polls == [] ||
    (var before, last := polls[..|polls| - 1], polls[|polls| - 1];
     && Growing(log, before) && Faithful(log, last)
     && (last.Sees? && LastSeen(before).Some? ==> LastSeen(before).value <= last.length))
  }

  function Results(polls: seq<Poll>): seq<Reading> {
    seq(|polls|, i requires 0 <= i < |polls| => polls[i].result)
  }

  /** The comments announced by a history, in order. */
  function Announcements(events: seq<Event>): seq<Comment> {
    if events == [] then []
    else
      var last := events[|events| - 1];
      Announcements(events[..|events| - 1]) + (if last.Commented? then [last.comment] else [])
  }

  /** The positions in the conversation the feed should announce, in order. */
  function Feed(polls: seq<Poll>): seq<nat> {
    if polls == [] then []
    else
      var before, last := polls[..|polls| - 1], polls[|polls| - 1];
      if last.Sees? && LastSeen(before).Some?
      then Feed(before) + Range(Later(LastSeen(before).value, From(last.length)), last.length)
      else Feed(before)
  }

  function Range(low: nat, high: nat): seq<nat> {
    if high <= low then [] else seq(high - low, i requires 0 <= i => low + i)
  }

  function Pick(log: seq<Comment>, positions: seq<nat>): seq<Comment>
    requires forall k <- positions :: k < |log|
  {
    seq(|positions|, i requires 0 <= i < |positions| => assert positions[i] in positions; log[positions[i]])
  }

  // ----- one gap -----

  lemma KnownInWindow(log: seq<Comment>, seen: nat, k: nat)
    requires Distinct(log) && seen <= |log| && k < |log|
    ensures Knows(Window(log, seen), log[k].id) <==> From(seen) <= k < seen
  {
    var window := Window(log, seen);
    if From(seen) <= k < seen {
      assert window[k - From(seen)] == log[k];
    }
    if Knows(window, log[k].id) {
      var i :| 0 <= i < |window| && window[i].id == log[k].id;
      assert log[From(seen) + i].id == log[k].id;
    }
  }

  /** Where everything before `middle` is known and nothing after it is, what is after it is new. */
  lemma {:induction false} NewAfterMiddle(before: seq<Comment>, slice: seq<Comment>, middle: nat)
    requires middle <= |slice|
    requires forall i :: 0 <= i < |slice| ==> (Knows(before, slice[i].id) <==> i < middle)
    ensures NewComments(before, slice) == slice[middle..]
  {
    if slice == [] {
    } else if middle == |slice| {
      NewAfterMiddle(before, slice[..|slice| - 1], middle - 1);
    } else {
      NewAfterMiddle(before, slice[..|slice| - 1], middle);
      assert slice[middle..] == slice[..|slice| - 1][middle..] + [slice[|slice| - 1]];
    }
  }

  /** What a later window shows that an earlier one did not. */
  lemma NewInWindow(log: seq<Comment>, seen: nat, length: nat)
    requires Distinct(log) && seen <= length <= |log|
    ensures NewComments(Window(log, seen), Window(log, length))
            == if length <= Later(seen, From(length)) then [] else log[Later(seen, From(length))..length]
  {
    var slice := Window(log, length);
    var middle := Later(seen, From(length)) - From(length);
    forall i | 0 <= i < |slice| ensures Knows(Window(log, seen), slice[i].id) <==> i < middle {
      KnownInWindow(log, seen, From(length) + i);
    }
    NewAfterMiddle(Window(log, seen), slice, middle);
  }

  // ----- the whole history -----

  lemma {:induction false} AnnouncementsAppend(a: seq<Event>, b: seq<Event>)
    ensures Announcements(a + b) == Announcements(a) + Announcements(b)
  {
    if b == [] {
      assert a + b == a;
    } else {
      assert (a + b)[..|a + b| - 1] == a + b[..|b| - 1];
      AnnouncementsAppend(a, b[..|b| - 1]);
    }
  }

  lemma {:induction false} AnnouncementsOfTold(comments: seq<Comment>)
    ensures Announcements(Told(comments)) == comments
  {
    if comments != [] {
      assert Told(comments)[..|comments| - 1] == Told(comments[..|comments| - 1]);
      AnnouncementsOfTold(comments[..|comments| - 1]);
    }
  }

  lemma AnnouncementsOfPoll(options: Options, w: Watch, result: Reading)
    ensures Announcements(Announced(options, w, result))
            == if result.Answered? && w.snapshot.Some?
               then NewComments(w.snapshot.value.comments, result.observation.comments) else []
  {
    match result
    case Refused(reason, _, _) =>
      assert [Unreachable(reason)][..0] == [];
    case Answered(o, _, _) =>
      var opening := if w.failures > 0 then [Recovered(w.failures)] else [];
      assert w.failures > 0 ==> opening[..0] == [];
      assert Announcements(opening) == [];
      if w.snapshot.Some? {
        var told := Told(NewComments(w.snapshot.value.comments, o.comments));
        AnnouncementsAppend(opening, told);
        AnnouncementsOfTold(NewComments(w.snapshot.value.comments, o.comments));
      } else {
        assert Announced(options, w, result) == opening;
      }
  }

  /** The stored snapshot is the window of the last successful poll, whatever failed since. */
  lemma {:induction false} SnapshotIsLastWindow(options: Options, createdAt: Instant, log: seq<Comment>, polls: seq<Poll>)
    requires Growing(log, polls)
    ensures LastSeen(polls).Some? ==> LastSeen(polls).value <= |log|
    ensures var w := After(options, createdAt, Results(polls)).watch;
      match LastSeen(polls)
      case None => w.snapshot.None?
      case Some(length) => w.snapshot.Some? && w.snapshot.value.comments == Window(log, length)
  {
    if polls != [] {
      assert Results(polls)[..|polls| - 1] == Results(polls[..|polls| - 1]);
      SnapshotIsLastWindow(options, createdAt, log, polls[..|polls| - 1]);
    }
  }

  lemma {:induction false} FeedIsInLog(log: seq<Comment>, polls: seq<Poll>)
    requires Growing(log, polls)
    ensures forall k <- Feed(polls) :: k < |log|
  {
    if polls != [] {
      FeedIsInLog(log, polls[..|polls| - 1]);
    }
  }

  lemma PickAppend(log: seq<Comment>, a: seq<nat>, b: seq<nat>)
    requires forall k <- a :: k < |log|
    requires forall k <- b :: k < |log|
    ensures forall k <- a + b :: k < |log|
    ensures Pick(log, a + b) == Pick(log, a) + Pick(log, b)
  {
  }

  lemma PickRange(log: seq<Comment>, low: nat, high: nat)
    requires high <= |log|
    ensures forall k <- Range(low, high) :: k < |log|
    ensures Pick(log, Range(low, high)) == if high <= low then [] else log[low..high]
  {
  }

  /** The announced comments are exactly the feed's positions in the conversation, in order. */
  lemma {:induction false} AnnouncedIsFeed(options: Options, createdAt: Instant, log: seq<Comment>, polls: seq<Poll>)
    requires Distinct(log) && Growing(log, polls)
    ensures forall k <- Feed(polls) :: k < |log|
    ensures Announcements(After(options, createdAt, Results(polls)).events) == Pick(log, Feed(polls))
  {
    FeedIsInLog(log, polls);
    if polls != [] {
      var before, last := polls[..|polls| - 1], polls[|polls| - 1];
      var h := After(options, createdAt, Results(before));
      assert Results(polls)[..|polls| - 1] == Results(before);
      AnnouncedIsFeed(options, createdAt, log, before);
      AnnouncementsAppend(h.events, Announced(options, h.watch, last.result));
      PollAnnouncesGap(options, createdAt, log, polls);
      if last.Sees? && LastSeen(before).Some? {
        PickAppend(log, Feed(before), Range(Later(LastSeen(before).value, From(last.length)), last.length));
      }
    }
  }

  lemma PollAnnouncesGap(options: Options, createdAt: Instant, log: seq<Comment>, polls: seq<Poll>)
    requires Distinct(log) && Growing(log, polls) && polls != []
    ensures var before, last := polls[..|polls| - 1], polls[|polls| - 1];
      var announced := Announcements(Announced(options, After(options, createdAt, Results(before)).watch, last.result));
      if last.Sees? && LastSeen(before).Some? then
        var gap := Range(Later(LastSeen(before).value, From(last.length)), last.length);
        && (forall k <- gap :: k < |log|)
        && announced == Pick(log, gap)
      else announced == []
  {
    var before, last := polls[..|polls| - 1], polls[|polls| - 1];
    SnapshotIsLastWindow(options, createdAt, log, before);
    AnnouncementsOfPoll(options, After(options, createdAt, Results(before)).watch, last.result);
    if last.Sees? && LastSeen(before).Some? {
      NewInWindow(log, LastSeen(before).value, last.length);
      PickRange(log, Later(LastSeen(before).value, From(last.length)), last.length);
    }
  }

  // ----- what the feed contains -----

  /** The i-th poll succeeded after an earlier success, and this position lies in the gap between them. */
  ghost predicate InGap(polls: seq<Poll>, i: int, k: nat) {
    && 0 <= i < |polls| && polls[i].Sees?
    && LastSeen(polls[..i]).Some? && LastSeen(polls[..i]).value <= k < polls[i].length
  }

  /** The i-th poll announces this position. */
  ghost predicate Tells(polls: seq<Poll>, i: int, k: nat) {
    InGap(polls, i, k) && From(polls[i].length) <= k
  }

  lemma {:induction false} FeedMembers(log: seq<Comment>, polls: seq<Poll>, k: nat)
    requires Growing(log, polls)
    ensures k in Feed(polls) <==> exists i :: Tells(polls, i, k)
  {
    if polls != [] {
      var before, last := polls[..|polls| - 1], polls[|polls| - 1];
      FeedMembers(log, before, k);
      forall i | 0 <= i < |before| ensures Tells(polls, i, k) <==> Tells(before, i, k) {
        assert polls[..i] == before[..i];
      }
      assert polls[..|before|] == before;
      if last.Sees? && LastSeen(before).Some? {
        var low, high := Later(LastSeen(before).value, From(last.length)), last.length;
        assert low <= k < high ==> Range(low, high)[k - low] == k;
        assert low <= k < high <==> Tells(polls, |before|, k);
      }
      if exists i :: Tells(polls, i, k) {
        var i :| Tells(polls, i, k);
        assert i < |before| ==> Tells(before, i, k);
      }
    }
  }

  /** Every position between the first success and the last lies in one gap. */
  lemma {:induction false} GapsCover(log: seq<Comment>, polls: seq<Poll>, first: nat, k: nat)
    requires Growing(log, polls)
    requires first < |polls| && polls[first].Sees? && LastSeen(polls[..first]).None?
    requires LastSeen(polls).Some?
    ensures polls[first].length <= k < LastSeen(polls).value ==> exists i :: InGap(polls, i, k)
    ensures LastSeen(polls).value >= polls[first].length
  {
    var before, last := polls[..|polls| - 1], polls[|polls| - 1];
    if first < |before| {
      assert before[..first] == polls[..first];
      StillSeen(before, first);
      GapsCover(log, before, first, k);
      if exists i :: InGap(before, i, k) {
        var i :| InGap(before, i, k);
        assert before[..i] == polls[..i];
        assert InGap(polls, i, k);
      } else if last.Sees? && LastSeen(before).value <= k < last.length {
        assert InGap(polls, |before|, k);
      }
    }
  }

  lemma {:induction false} StillSeen(polls: seq<Poll>, i: nat)
    requires i < |polls| && polls[i].Sees?
    ensures LastSeen(polls).Some?
  {
    if polls[|polls| - 1].Misses? {
      StillSeen(polls[..|polls| - 1], i);
    }
  }

  lemma {:induction false} FeedIsBelow(log: seq<Comment>, polls: seq<Poll>)
    requires Growing(log, polls)
    ensures Feed(polls) != [] ==> LastSeen(polls).Some?
    ensures forall k <- Feed(polls) :: k < LastSeen(polls).value
  {
    if polls != [] {
      FeedIsBelow(log, polls[..|polls| - 1]);
    }
  }

  /** In conversation order, and therefore without repeats. */
  lemma {:induction false} FeedAscends(log: seq<Comment>, polls: seq<Poll>)
    requires Growing(log, polls)
    ensures forall i, j :: 0 <= i < j < |Feed(polls)| ==> Feed(polls)[i] < Feed(polls)[j]
  {
    if polls != [] {
      var before := polls[..|polls| - 1];
      FeedAscends(log, before);
      FeedIsBelow(log, before);
      forall i, j | 0 <= i < j < |Feed(polls)| ensures Feed(polls)[i] < Feed(polls)[j] {
        if i < |Feed(before)| {
          assert Feed(before)[i] in Feed(before);
        }
      }
    }
  }

  /**
   The feed is exactly once: a comment that arrived after the first success and was there by the last
   is announced precisely when it was still inside the window at the success that closed its gap, and
   no other comment is announced.
   */
  lemma ExactlyOnce(log: seq<Comment>, polls: seq<Poll>, first: nat, k: nat)
    requires Growing(log, polls)
    requires first < |polls| && polls[first].Sees? && LastSeen(polls[..first]).None?
    ensures LastSeen(polls).Some?
    ensures polls[first].length <= k < LastSeen(polls).value ==>
      (k in Feed(polls) <==> !exists i :: InGap(polls, i, k) && k < From(polls[i].length))
    ensures !(polls[first].length <= k < LastSeen(polls).value) ==> k !in Feed(polls)
  {
    StillSeen(polls, first);
    FeedMembers(log, polls, k);
    GapsCover(log, polls, first, k);
    GapIsUnique(log, polls, k);
    if k in Feed(polls) {
      var i :| Tells(polls, i, k);
      GapIsAfterFirst(log, polls, first, i);
      SeenGrows(log, polls, i);
    } else if polls[first].length <= k < LastSeen(polls).value {
      var i :| InGap(polls, i, k);
      assert !Tells(polls, i, k);
    }
  }

  lemma {:induction false} SeenGrows(log: seq<Comment>, polls: seq<Poll>, i: nat)
    requires Growing(log, polls) && i < |polls| && polls[i].Sees?
    ensures LastSeen(polls).Some? && polls[i].length <= LastSeen(polls).value
  {
    if i < |polls| - 1 {
      SeenGrows(log, polls[..|polls| - 1], i);
    }
  }

  lemma {:induction false} GrowingPrefix(log: seq<Comment>, polls: seq<Poll>, i: nat)
    requires Growing(log, polls) && i <= |polls|
    ensures Growing(log, polls[..i])
  {
    if i < |polls| {
      GrowingPrefix(log, polls[..|polls| - 1], i);
      assert polls[..|polls| - 1][..i] == polls[..i];
    } else {
      assert polls[..i] == polls;
    }
  }

  /** Gaps do not overlap. */
  lemma GapIsUnique(log: seq<Comment>, polls: seq<Poll>, k: nat)
    requires Growing(log, polls)
    ensures forall i, j :: InGap(polls, i, k) && InGap(polls, j, k) ==> i == j
  {
    forall i, j | InGap(polls, i, k) && InGap(polls, j, k) && i < j ensures false {
      GrowingPrefix(log, polls, j);
      SeenGrows(log, polls[..j], i);
    }
  }

  lemma GapIsAfterFirst(log: seq<Comment>, polls: seq<Poll>, first: nat, i: nat)
    requires Growing(log, polls)
    requires first < |polls| && polls[first].Sees? && LastSeen(polls[..first]).None?
    requires i < |polls| && LastSeen(polls[..i]).Some?
    ensures polls[first].length <= LastSeen(polls[..i]).value
  {
    GrowingPrefix(log, polls, i);
    if first < i {
      SeenGrows(log, polls[..i], first);
    } else {
      NothingSeenBefore(polls, i, first);
    }
  }

  lemma {:induction false} NothingSeenBefore(polls: seq<Poll>, i: nat, first: nat)
    requires i <= first <= |polls| && LastSeen(polls[..first]).None?
    ensures LastSeen(polls[..i]).None?
    decreases first
  {
    if i < first {
      assert polls[..first][..first - 1] == polls[..first - 1];
      NothingSeenBefore(polls, i, first - 1);
    }
  }
}
