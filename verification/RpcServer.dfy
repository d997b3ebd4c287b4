/**
 The JSON-RPC server: one reader for each connection and one goroutine for each call, sharing a
 per-session semaphore, a server-wide count of calls and a stop flag. Every lock, channel operation
 and write is a step of its own.
 */
module RpcServer {

  const MAX_IN_FLIGHT := 64

  /** A parsed frame: whether it is a well-formed 2.0 request, and whether it asks for no reply. */
  datatype Request = Request(wellFormed: bool, notification: bool)

  /** Where a session's reader has got to with the last frame it read. */
  datatype Reader =
    | Reading        // waiting for a frame
    | Rejecting      // the frame is not a request; about to say so
    | Waiting        // about to take a slot
    | Slotted        // about to begin the call
    | Refusing       // the server is stopping; about to say so
    | Registered     // counted, about to start its goroutine
    | Gone           // the loop has ended

  /** Where a call's goroutine has got to; its deferred steps run in this order. */
  datatype Handler = Dispatching | Replied | Unslotted | Finished

  datatype Session = Session(
    open: bool,
    frames: seq<Request>,
    reader: Reader,
    handlers: map<int, Handler>,
    inFlight: int,
    replies: seq<int>)            // the frames answered, in order

  datatype Server = Server(stopped: bool, calls: int, sessions: map<nat, Session>)

  datatype Move =
    | Read(request: Request)
    | Reject
    | TakeSlot
    | Abort
    | Begin
    | Refuse
    | Spawn
    | Answer(frame: int)
    | FreeSlot(frame: int)
    | EndCall(frame: int)
    | Hangup

  datatype Action = Connect(session: nat) | In(session: nat, move: Move) | Stop

  function Current(s: Session): int {
    |s.frames| - 1
  }

  /** A reply to a notification, or on a closed session, is not written. */
  function Respond(s: Session, frame: int): seq<int> {
    if s.open && 0 <= frame < |s.frames| && !s.frames[frame].notification then s.replies + [frame] else s.replies
  }

  predicate At(s: Session, frame: int, handler: Handler) {
    frame in s.handlers && s.handlers[frame] == handler
  }

  predicate CanMove(s: Session, m: Move) {
    match m
    case Read(_) => s.reader == Reading
    case Reject => s.reader == Rejecting
    case TakeSlot => s.reader == Waiting && s.inFlight < MAX_IN_FLIGHT
    case Abort => s.reader == Waiting && !s.open
    case Begin => s.reader == Slotted
    case Refuse => s.reader == Refusing
    case Spawn => s.reader == Registered
    case Answer(frame) => At(s, frame, Dispatching)
    case FreeSlot(frame) => At(s, frame, Replied)
    case EndCall(frame) => At(s, frame, Unslotted)
    case Hangup => true
  }

  function Moved(s: Session, stopped: bool, m: Move): Session
    requires CanMove(s, m)
  {
    match m
    case Read(request) => s.(frames := s.frames + [request], reader := if request.wellFormed then Waiting else Rejecting)
    case Reject => s.(replies := Respond(s, Current(s)), reader := Reading)
    case TakeSlot => s.(reader := Slotted, inFlight := s.inFlight + 1)
    case Abort => s.(reader := Gone)
    case Begin => if stopped then s.(reader := Refusing, inFlight := s.inFlight - 1) else s.(reader := Registered)
    case Refuse => s.(replies := Respond(s, Current(s)), reader := Reading)
    case Spawn => s.(reader := Reading, handlers := s.handlers[Current(s) := Dispatching])
    case Answer(frame) => s.(replies := Respond(s, frame), handlers := s.handlers[frame := Replied])
    case FreeSlot(frame) => s.(handlers := s.handlers[frame := Unslotted], inFlight := s.inFlight - 1)
    case EndCall(frame) => s.(handlers := s.handlers[frame := Finished])
    case Hangup => s.(open := false)
  }

  predicate Can(server: Server, a: Action) {
    match a
    case Connect(session) => session !in server.sessions
    case In(session, move) => session in server.sessions && CanMove(server.sessions[session], move)
    case Stop => true
  }

  function Act(server: Server, a: Action): Server
    requires Can(server, a)
  {
    match a
    case Connect(session) =>
      server.(sessions := server.sessions[session := Session(true, [], Reading, map[], 0, [])])
    case In(session, move) =>
      var calls := match move
        case Begin => if server.stopped then server.calls else server.calls + 1
        case EndCall(_) => server.calls - 1
        case _ => server.calls;
      server.(calls := calls,
              sessions := server.sessions[session := Moved(server.sessions[session], server.stopped, move)])
    case Stop => server.(stopped := true)
  }

  predicate Possible(run: seq<Action>)
    decreases |run|, 0
  {
    run == [] || (Possible(run[..|run| - 1]) && Can(After(run[..|run| - 1]), run[|run| - 1]))
  }

  function After(run: seq<Action>): Server
    requires Possible(run)
    decreases |run|, 1
  {
    if run == [] then Server(false, 0, map[]) else Act(After(run[..|run| - 1]), run[|run| - 1])
  }

  // ----- the semaphore -----

  /** The reader and the handlers work on different frames, all of which have been read. */
  ghost predicate Framed(s: Session) {
    && (s.reader != Reading ==> s.frames != [] && Current(s) !in s.handlers)
    && (s.reader == Gone ==> !s.open)
    && (forall f <- s.handlers :: 0 <= f < |s.frames|)
  }

  /** The frame holds one of the session's slots. */
  predicate HoldsSlot(s: Session, frame: int) {
    || At(s, frame, Dispatching) || At(s, frame, Replied)
    || (frame == Current(s) && (s.reader == Slotted || s.reader == Registered))
  }

  function Slots(s: Session): set<int> {
    set f | 0 <= f < |s.frames| && HoldsSlot(s, f)
  }

  ghost predicate Counted(s: Session) {
    Framed(s) && s.inFlight == |Slots(s)| && s.inFlight <= MAX_IN_FLIGHT
  }

  lemma MoveKeepsFramed(s: Session, stopped: bool, m: Move)
    requires Framed(s) && CanMove(s, m)
    ensures Framed(Moved(s, stopped, m))
  {
  }

  lemma MoveSlot(s: Session, stopped: bool, m: Move, f: int)
    requires Framed(s) && CanMove(s, m)
    ensures m.TakeSlot? && f == Current(s) ==> !HoldsSlot(s, f) && HoldsSlot(Moved(s, stopped, m), f)
    ensures m.Begin? && stopped && f == Current(s) ==> HoldsSlot(s, f) && !HoldsSlot(Moved(s, stopped, m), f)
    ensures m.FreeSlot? && f == m.frame ==> HoldsSlot(s, f) && !HoldsSlot(Moved(s, stopped, m), f)
    ensures !((m.TakeSlot? || (m.Begin? && stopped)) && f == Current(s)) && !(m.FreeSlot? && f == m.frame) ==>
      (HoldsSlot(Moved(s, stopped, m), f) <==> HoldsSlot(s, f))
  {
  }

  lemma MoveKeepsFrames(s: Session, stopped: bool, m: Move)
    requires CanMove(s, m)
    ensures |Moved(s, stopped, m).frames| == if m.Read? then |s.frames| + 1 else |s.frames|
    ensures Moved(s, stopped, m).inFlight ==
      if m.TakeSlot? then s.inFlight + 1 else if m.FreeSlot? || (m.Begin? && stopped) then s.inFlight - 1 else s.inFlight
  {
  }

  /** The frame whose slot a move takes or frees. */
  function SlotFrame(s: Session, m: Move): int {
    if m.FreeSlot? then m.frame else Current(s)
  }

  lemma MoveChangesSlots(s: Session, stopped: bool, m: Move)
    requires Framed(s) && CanMove(s, m)
    ensures var c := SlotFrame(s, m);
      if m.TakeSlot? then c !in Slots(s) && Slots(Moved(s, stopped, m)) == Slots(s) + {c}
      else if m.FreeSlot? || (m.Begin? && stopped) then c in Slots(s) && Slots(Moved(s, stopped, m)) == Slots(s) - {c}
      else Slots(Moved(s, stopped, m)) == Slots(s)
  {
    var s' := Moved(s, stopped, m);
    MoveKeepsFrames(s, stopped, m);
    MoveKeepsFramed(s, stopped, m);
    forall f ensures f in Slots(s') <==>
      if m.TakeSlot? && f == SlotFrame(s, m) then true
      else if (m.FreeSlot? || (m.Begin? && stopped)) && f == SlotFrame(s, m) then false
      else f in Slots(s)
    {
      MoveSlot(s, stopped, m, f);
    }
    MoveSlot(s, stopped, m, SlotFrame(s, m));
  }

  lemma MoveKeepsCounted(s: Session, stopped: bool, m: Move)
    requires Counted(s) && CanMove(s, m)
    ensures Counted(Moved(s, stopped, m))
  {
    MoveKeepsFramed(s, stopped, m);
    MoveKeepsFrames(s, stopped, m);
    MoveChangesSlots(s, stopped, m);
  }

  // ----- the replies -----

  /** A frame read and not yet dealt with. */
  predicate Unanswered(s: Session, frame: int) {
    (frame == Current(s) && s.reader != Reading) || At(s, frame, Dispatching)
  }

  function Count(replies: seq<int>, frame: int): nat {
    if replies == [] then 0
    else Count(replies[..|replies| - 1], frame) + (if replies[|replies| - 1] == frame then 1 else 0)
  }

  lemma CountAppend(replies: seq<int>, last: int, frame: int)
    ensures Count(replies + [last], frame) == Count(replies, frame) + (if last == frame then 1 else 0)
  {
    assert (replies + [last])[..|replies|] == replies;
  }

  /** The right number of replies for a frame, given how far it has got. */
  predicate RightlyAnswered(s: Session, frame: int) {
    var n := Count(s.replies, frame);
    if frame < 0 || |s.frames| <= frame || Unanswered(s, frame) then n == 0
    else if s.frames[frame].notification then n == 0
    else n <= 1 && (s.open ==> n == 1)
  }

  predicate Replies(m: Move) {
    m.Reject? || m.Refuse? || m.Answer?
  }

  /** What a move does to the counting of one frame's replies. */
  lemma MoveReplies(s: Session, stopped: bool, m: Move, frame: int)
    requires Framed(s) && CanMove(s, m) && Replies(m)
    ensures var about := if m.Answer? then m.frame else Current(s);
      Count(Moved(s, stopped, m).replies, frame)
      == Count(s.replies, frame) + (if about == frame && s.open && !s.frames[about].notification then 1 else 0)
  {
    CountAppend(s.replies, if m.Answer? then m.frame else Current(s), frame);
  }

  lemma ReplyAnswers(s: Session, stopped: bool, m: Move, frame: int)
    requires Framed(s) && CanMove(s, m) && Replies(m)
    ensures var about := if m.Answer? then m.frame else Current(s);
      && Unanswered(s, about)
      && (Unanswered(Moved(s, stopped, m), frame) <==> Unanswered(s, frame) && frame != about)
  {
  }

  lemma ReplyKeepsAnswers(s: Session, stopped: bool, m: Move, frame: int)
    requires Framed(s) && CanMove(s, m) && Replies(m) && RightlyAnswered(s, frame)
    ensures RightlyAnswered(Moved(s, stopped, m), frame)
  {
    MoveReplies(s, stopped, m, frame);
    ReplyAnswers(s, stopped, m, frame);
    assert Moved(s, stopped, m).frames == s.frames && Moved(s, stopped, m).open == s.open;
  }

  lemma MoveKeepsAnswers(s: Session, stopped: bool, m: Move, frame: int)
    requires Framed(s) && CanMove(s, m) && RightlyAnswered(s, frame)
    ensures RightlyAnswered(Moved(s, stopped, m), frame)
  {
    if Replies(m) {
      ReplyKeepsAnswers(s, stopped, m, frame);
    }
  }

  // ----- the calls Shutdown waits for -----

  /** The call for this frame has begun and not ended. */
  predicate InCall(s: Session, frame: int) {
    || At(s, frame, Dispatching) || At(s, frame, Replied) || At(s, frame, Unslotted)
    || (frame == Current(s) && s.reader == Registered)
  }

  function Calls(server: Server): set<(nat, int)> {
    set i, f | i in server.sessions && 0 <= f < |server.sessions[i].frames| && InCall(server.sessions[i], f) :: (i, f)
  }

  lemma MoveCall(s: Session, stopped: bool, m: Move, f: int)
    requires Framed(s) && CanMove(s, m)
    ensures m.Begin? && !stopped && f == Current(s) ==> !InCall(s, f) && InCall(Moved(s, stopped, m), f)
    ensures m.EndCall? && f == m.frame ==> InCall(s, f) && !InCall(Moved(s, stopped, m), f)
    ensures !(m.Begin? && !stopped && f == Current(s)) && !(m.EndCall? && f == m.frame) ==>
      (InCall(Moved(s, stopped, m), f) <==> InCall(s, f))
  {
  }

  lemma InCalls(server: Server, i: nat, f: int)
    ensures (i, f) in Calls(server)
      <==> i in server.sessions && 0 <= f < |server.sessions[i].frames| && InCall(server.sessions[i], f)
  {
  }

  // ----- runs -----

  ghost predicate Sound(server: Server) {
    && server.calls == |Calls(server)|
    && (forall i <- server.sessions :: Counted(server.sessions[i]))
  }

  /** The calls in progress after a move: one more, one fewer, or the same. */
  lemma MoveChangesCalls(server: Server, session: nat, m: Move, i: nat, f: int)
    requires Sound(server) && Can(server, In(session, m))
    ensures var s := server.sessions[session];
      (i, f) in Calls(Act(server, In(session, m))) <==>
        if m.Begin? && !server.stopped && (i, f) == (session, Current(s)) then true
        else if m.EndCall? && (i, f) == (session, m.frame) then false
        else (i, f) in Calls(server)
  {
    InCalls(server, i, f);
    InCalls(Act(server, In(session, m)), i, f);
    MoveCall(server.sessions[session], server.stopped, m, f);
    MoveKeepsFrames(server.sessions[session], server.stopped, m);
    MoveKeepsFramed(server.sessions[session], server.stopped, m);
  }

  /** The call a move begins or ends. */
  function CallOf(server: Server, session: nat, m: Move): (nat, int)
    requires session in server.sessions
  {
    (session, if m.EndCall? then m.frame else Current(server.sessions[session]))
  }

  lemma MoveSetsCalls(server: Server, session: nat, m: Move)
    requires Sound(server) && Can(server, In(session, m))
    ensures Calls(Act(server, In(session, m))) ==
      if m.Begin? && !server.stopped then Calls(server) + {CallOf(server, session, m)}
      else if m.EndCall? then Calls(server) - {CallOf(server, session, m)}
      else Calls(server)
  {
    forall i: nat, f: int ensures (i, f) in Calls(Act(server, In(session, m))) <==>
        if m.Begin? && !server.stopped && (i, f) == (session, Current(server.sessions[session])) then true
        else if m.EndCall? && (i, f) == (session, m.frame) then false
        else (i, f) in Calls(server)
    {
      MoveChangesCalls(server, session, m, i, f);
    }
  }

  lemma CallIsNew(server: Server, session: nat, m: Move)
    requires Sound(server) && Can(server, In(session, m))
    ensures m.Begin? && !server.stopped ==> CallOf(server, session, m) !in Calls(server)
    ensures m.EndCall? ==> CallOf(server, session, m) in Calls(server)
  {
    var frame := CallOf(server, session, m).1;
    MoveCall(server.sessions[session], server.stopped, m, frame);
    InCalls(server, session, frame);
  }

  /** The counter moves with the calls. */
  lemma MoveKeepsCalls(server: Server, session: nat, m: Move)
    requires Sound(server) && Can(server, In(session, m))
    ensures var server' := Act(server, In(session, m));
      && server'.calls == |Calls(server')|
      && (server.stopped ==> Calls(server') <= Calls(server))
  {
    MoveSetsCalls(server, session, m);
    CallIsNew(server, session, m);
  }

  lemma StepKeepsSound(server: Server, a: Action)
    requires Sound(server) && Can(server, a)
    ensures Sound(Act(server, a))
    ensures server.stopped ==> Act(server, a).stopped && Calls(Act(server, a)) <= Calls(server)
  {
    match a
    case Connect(_) =>
      assert Calls(Act(server, a)) == Calls(server);
    case Stop =>
      assert Calls(Act(server, a)) == Calls(server);
    case In(session, move) =>
      MoveKeepsCounted(server.sessions[session], server.stopped, move);
      MoveKeepsCalls(server, session, move);
  }

  lemma {:induction false} RunsAreSound(run: seq<Action>)
    requires Possible(run)
    ensures Sound(After(run))
  {
    if run != [] {
      RunsAreSound(run[..|run| - 1]);
      StepKeepsSound(After(run[..|run| - 1]), run[|run| - 1]);
    }
  }

  // ----- the theorems -----

  /** The counter Shutdown waits on is the number of calls begun and not ended, over all sessions. */
  lemma CallsAreCounted(run: seq<Action>)
    requires Possible(run)
    ensures After(run).calls == |Calls(After(run))|
  {
    RunsAreSound(run);
  }

  /** A session never has more than 64 slots in use, and its semaphore counts exactly those. */
  lemma SlotsAreBounded(run: seq<Action>, session: nat)
    requires Possible(run) && session in After(run).sessions
    ensures After(run).sessions[session].inFlight == |Slots(After(run).sessions[session])| <= MAX_IN_FLIGHT
  {
    RunsAreSound(run);
  }

  /** Once the server has stopped no call begins. */
  lemma {:induction false} NothingBeginsAfterStop(run: seq<Action>, more: seq<Action>)
    requires Possible(run) && Possible(run + more) && After(run).stopped
    ensures After(run + more).stopped && Calls(After(run + more)) <= Calls(After(run))
  {
    if more == [] {
      assert run + more == run;
    } else {
      var before := more[..|more| - 1];
      assert (run + more)[..|run + more| - 1] == run + before;
      NothingBeginsAfterStop(run, before);
      RunsAreSound(run + before);
      StepKeepsSound(After(run + before), more[|more| - 1]);
    }
  }

  lemma NothingLeft(server: Server, session: nat)
    requires Calls(server) == {} && session in server.sessions && Framed(server.sessions[session])
    ensures server.sessions[session].reader != Registered
    ensures forall f <- server.sessions[session].handlers :: server.sessions[session].handlers[f] == Finished
  {
    var s := server.sessions[session];
    InCalls(server, session, Current(s));
    forall f <- s.handlers ensures s.handlers[f] == Finished {
      InCalls(server, session, f);
      assert !At(s, f, Dispatching) && !At(s, f, Replied) && !At(s, f, Unslotted);
    }
  }

  /** Once the wait after stopping is over, every handler has finished and none ever runs again. */
  lemma NothingRunsAfterShutdown(run: seq<Action>, more: seq<Action>, session: nat)
    requires Possible(run) && Possible(run + more)
    requires After(run).stopped && After(run).calls == 0
    requires session in After(run + more).sessions
    ensures After(run + more).calls == 0
    ensures After(run + more).sessions[session].reader != Registered
    ensures forall f <- After(run + more).sessions[session].handlers ::
      After(run + more).sessions[session].handlers[f] == Finished
  {
    RunsAreSound(run);
    RunsAreSound(run + more);
    NothingBeginsAfterStop(run, more);
    NothingLeft(After(run + more), session);
  }

  /**
   A frame gets at most one reply ever and none before it has been dealt with. Once dealt with, a
   request with an id has exactly one if the session is still open, and a notification has none.
   */
  lemma {:induction false} OneReplyEach(run: seq<Action>, session: nat, frame: int)
    requires Possible(run) && session in After(run).sessions
    ensures var s := After(run).sessions[session];
      var n := Count(s.replies, frame);
      && n <= 1
      && (0 <= frame < |s.frames| && (Unanswered(s, frame) || s.frames[frame].notification) ==> n == 0)
      && (0 <= frame < |s.frames| && !Unanswered(s, frame) && !s.frames[frame].notification && s.open ==> n == 1)
    ensures RightlyAnswered(After(run).sessions[session], frame)
  {
    if run != [] {
      var before := After(run[..|run| - 1]);
      if session in before.sessions {
        OneReplyEach(run[..|run| - 1], session, frame);
        RunsAreSound(run[..|run| - 1]);
        var last := run[|run| - 1];
        if last.In? && last.session == session {
          MoveKeepsAnswers(before.sessions[session], before.stopped, last.move, frame);
        }
      }
    }
  }

  // ----- which frames become calls -----

  predicate IsFrame(s: Session, frame: int) {
    0 <= frame < |s.frames|
  }

  /** The reader is done with the frame. */
  predicate Passed(s: Session, frame: int) {
    IsFrame(s, frame) && !(frame == Current(s) && s.reader != Reading)
  }

  /** Only requests become calls, and those passed without becoming one were read after the server stopped. */
  ghost predicate Sorted(s: Session, stopped: bool) {
    && Framed(s)
    && (s.reader == Waiting || s.reader == Slotted || s.reader == Registered ==> s.frames[Current(s)].wellFormed)
    && (s.reader == Rejecting ==> !s.frames[Current(s)].wellFormed)
    && (s.reader == Refusing ==> stopped && s.frames[Current(s)].wellFormed)
    && (forall f <- s.handlers :: IsFrame(s, f) && s.frames[f].wellFormed)
    && (forall f :: Passed(s, f) && s.frames[f].wellFormed && f !in s.handlers ==> stopped)
  }

  lemma MoveKeepsSorted(s: Session, stopped: bool, m: Move)
    requires Sorted(s, stopped) && CanMove(s, m)
    ensures Sorted(Moved(s, stopped, m), stopped)
  {
    MoveKeepsFramed(s, stopped, m);
    var s' := Moved(s, stopped, m);
    forall f | Passed(s', f) && s'.frames[f].wellFormed && f !in s'.handlers ensures stopped {
      if Passed(s, f) {
        assert f !in s.handlers;
      }
    }
  }

  lemma {:induction false} SessionsAreSorted(run: seq<Action>, session: nat)
    requires Possible(run) && session in After(run).sessions
    ensures Sorted(After(run).sessions[session], After(run).stopped)
  {
    if run != [] {
      var before, last := After(run[..|run| - 1]), run[|run| - 1];
      if session in before.sessions {
        SessionsAreSorted(run[..|run| - 1], session);
        if last.In? && last.session == session {
          MoveKeepsSorted(before.sessions[session], before.stopped, last.move);
        }
      }
    }
  }

  /**
   In every run a frame that is not a request never becomes a call and holds no slot, and until the server
   stops every request the reader is done with has become one.
   */
  lemma RequestsBecomeCalls(run: seq<Action>, session: nat, frame: int)
    requires Possible(run) && session in After(run).sessions && IsFrame(After(run).sessions[session], frame)
    ensures var s := After(run).sessions[session];
      && (!s.frames[frame].wellFormed ==> frame !in s.handlers && !InCall(s, frame) && !HoldsSlot(s, frame))
      && (s.frames[frame].wellFormed && Passed(s, frame) && !After(run).stopped ==> frame in s.handlers)
  {
    SessionsAreSorted(run, session);
  }

  /** A request waits for a slot only while 64 calls of its session have one. */
  lemma SlotIsTakenWhenFree(run: seq<Action>, session: nat)
    requires Possible(run) && session in After(run).sessions && After(run).sessions[session].reader == Waiting
    ensures Can(After(run), In(session, TakeSlot)) <==> |Slots(After(run).sessions[session])| < 64
  {
    RunsAreSound(run);
  }

  /** A session that has hung up stays closed and is answered nothing more. */
  lemma {:induction false} NoReplyAfterHangup(run: seq<Action>, session: nat, i: nat)
    requires Possible(run) && i < |run| && run[i] == In(session, Hangup)
    ensures Possible(run[..i]) && session in After(run[..i]).sessions && session in After(run).sessions
    ensures !After(run).sessions[session].open
    ensures After(run).sessions[session].replies == After(run[..i]).sessions[session].replies
  {
    var before := run[..|run| - 1];
    if i < |before| {
      assert before[..i] == run[..i];
      NoReplyAfterHangup(before, session, i);
    }
  }

  /** The server has stopped exactly once it was told to, and a session is open exactly until it hangs up. */
  lemma {:induction false} OnlyAsTold(run: seq<Action>, session: nat)
    requires Possible(run)
    ensures After(run).stopped <==> Stop in run
    ensures if session in After(run).sessions then After(run).sessions[session].open <==> In(session, Hangup) !in run
            else In(session, Hangup) !in run
  {
    if run != [] {
      var before, last := run[..|run| - 1], run[|run| - 1];
      OnlyAsTold(before, session);
      assert run == before + [last];
    }
  }
}
