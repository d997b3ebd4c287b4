/**
 Durable messages: the statements on the message and delivery tables, what every interleaving of them
 keeps, and what an agent that reads and acknowledges until nothing is left gets to see. Reading an
 inbox is a query followed by a write; a run here is a sequence of the writes, so it covers every way
 those two can interleave with the rest.
 */
module Inbox {
  import opened Core
  import opened Ordering

  const DEFAULT_INBOX_LIMIT := 100

  /** Exactly one of recipient and topic is set. */
  datatype Message = Message(
    sender: string,
    recipient: string,
    topic: string,
    kind: string,
    body: string,
    createdAt: Instant,
    expiresAt: Option<Instant>)
  {
    predicate Expired(at: Instant) {
      expiresAt.Some? && expiresAt.value <= at
    }

    predicate WellFormed() {
      && sender != "" && (recipient == "") != (topic == "")
      && (topic != "" ==> ValidName(topic))
      && ValidName(kind) && body != ""
    }
  }

  datatype Address = Address(message: string, agent: string)

  datatype Delivery = Delivery(deliveredAt: Option<Instant>, ackedAt: Option<Instant>)

  datatype Mail = Mail(messages: map<string, Message>, deliveries: map<Address, Delivery>)

  const EMPTY := Mail(map[], map[])

  // ----- statements -----

  /** One unread delivery per recipient; one that is there already stays as it is. */
  function Addressed(d: map<Address, Delivery>, id: string, recipients: seq<string>): map<Address, Delivery> {
    if recipients == [] then d
    else
      var before := Addressed(d, id, recipients[..|recipients| - 1]);
      var address := Address(id, recipients[|recipients| - 1]);
      if address in before then before else before[address := Delivery(None, None)]
  }

  function Appended(t: Mail, id: string, message: Message, recipients: seq<string>): Result<Mail> {
    if id == "" || !message.WellFormed() || recipients == [] then Err(InvalidArgument)
    else if id in t.messages then Err(AlreadyExists)
    else Ok(Mail(t.messages[id := message], Addressed(t.deliveries, id, recipients)))
  }

  predicate IsPending(t: Mail, agent: string, id: string) {
    id in t.messages && Address(id, agent) in t.deliveries && t.deliveries[Address(id, agent)].ackedAt.None?
  }

  function Pending(t: Mail, agent: string): set<string> {
    set id | id in t.messages && IsPending(t, agent, id)
  }

  function MessageKey(t: Mail, id: string): Key
    requires id in t.messages
  {
    Key(t.messages[id].createdAt, 0, id)
  }

  function Cap(limit: int): nat {
    if limit <= 0 then DEFAULT_INBOX_LIMIT else limit
  }

  predicate Earlier(t: Mail, a: string, b: string) {
    a in t.messages && b in t.messages && KeyLess(MessageKey(t, a), MessageKey(t, b))
  }

  ghost predicate OldestFirst(t: Mail, ids: seq<string>) {
    forall i, j :: 0 <= i < j < |ids| ==> Earlier(t, ids[i], ids[j])
  }

  /** The earliest members of a set, in order, and all others are later. */
  ghost predicate Earliest(t: Mail, ids: seq<string>, among: set<string>) {
    && OldestFirst(t, ids)
    && (forall id <- ids :: id in among)
    && (forall id <- ids, other <- among :: other in ids || Earlier(t, id, other))
  }

  /** What an agent is given: the oldest pending messages, fewer than the limit only if that is all. */
  ghost predicate IsPage(t: Mail, agent: string, limit: int, ids: seq<string>) {
    && Earliest(t, ids, Pending(t, agent))
    && |ids| <= Cap(limit)
    && (|ids| < Cap(limit) ==> forall id <- Pending(t, agent) :: id in ids)
  }

  function Marked(t: Mail, agent: string, ids: seq<string>, at: Instant): Mail {
    t.(deliveries := map a | a in t.deliveries ::
         var d := t.deliveries[a];
         if a.agent == agent && a.message in ids && d.deliveredAt.None? then d.(deliveredAt := Some(at)) else d)
  }

  /** The deliveries an acknowledgement completes. */
  function Outstanding(t: Mail, agent: string, ids: seq<string>): set<Address> {
    set a | a in t.deliveries && a.agent == agent && a.message in ids && t.deliveries[a].ackedAt.None?
  }

  function Acknowledged(t: Mail, agent: string, ids: seq<string>, at: Instant): Mail {
    t.(deliveries := map a | a in t.deliveries ::
         var d := t.deliveries[a];
         if a in Outstanding(t, agent, ids)
         then Delivery(if d.deliveredAt.None? then Some(at) else d.deliveredAt, Some(at)) else d)
  }

  predicate Handled(t: Mail, id: string) {
    forall a <- t.deliveries :: a.message == id ==> t.deliveries[a].ackedAt.Some?
  }

  predicate Removable(t: Mail, id: string, at: Instant, retention: int)
    requires id in t.messages
  {
    t.messages[id].Expired(at) || (t.messages[id].createdAt <= at - retention && Handled(t, id))
  }

  /** Deleting a message takes its deliveries with it. */
  function Pruned(t: Mail, at: Instant, retention: int): Mail {
    var kept := map id | id in t.messages && !Removable(t, id, at, retention) :: t.messages[id];
    Mail(kept, map a | a in t.deliveries && !(a.message in t.messages && a.message !in kept) :: t.deliveries[a])
  }

  lemma Once(t: Mail, ids: seq<string>, i: nat, j: nat)
    requires OldestFirst(t, ids) && i < j < |ids|
    ensures ids[i] != ids[j]
  {
    assert Earlier(t, ids[i], ids[j]);
    KeyTrichotomy(MessageKey(t, ids[i]), MessageKey(t, ids[j]));
  }

  /** Where two such lists first differ, each would have to come before the other. */
  lemma {:induction false} EarliestAgree(t: Mail, a: seq<string>, b: seq<string>, among: set<string>, n: nat)
    requires Earliest(t, a, among) && Earliest(t, b, among) && n <= |a| && n <= |b|
    ensures a[..n] == b[..n]
  {
    if n > 0 {
      var k := n - 1;
      EarliestAgree(t, a, b, among, k);
      assert a[k] in a && b[k] in b;
      if a[k] != b[k] {
        Precedes(t, a, b, among, k);
        Precedes(t, b, a, among, k);
        KeyTrichotomy(MessageKey(t, a[k]), MessageKey(t, b[k]));
      }
      assert a[..n] == a[..k] + [a[k]] && b[..n] == b[..k] + [b[k]];
    }
  }

  lemma Precedes(t: Mail, a: seq<string>, b: seq<string>, among: set<string>, k: nat)
    requires Earliest(t, a, among) && Earliest(t, b, among) && k < |a| && k < |b|
    requires a[..k] == b[..k] && a[k] != b[k]
    ensures Earlier(t, a[k], b[k])
  {
    assert a[k] in a && b[k] in b;
    assert forall j :: 0 <= j < k ==> a[j] == a[..k][j] && b[j] == b[..k][j];
    if b[k] in a {
      var j :| 0 <= j < |a| && a[j] == b[k];
      if j < k {
        Once(t, b, j, k);
      }
    }
  }

  /** The order leaves no choice: an inbox and a limit have one page. */
  lemma PageIsUnique(t: Mail, agent: string, limit: int, a: seq<string>, b: seq<string>)
    requires IsPage(t, agent, limit, a) && IsPage(t, agent, limit, b)
    ensures a == b
  {
    PageIsNoLonger(t, agent, limit, a, b);
    PageIsNoLonger(t, agent, limit, b, a);
    EarliestAgree(t, a, b, Pending(t, agent), |a|);
    assert a[..|a|] == a && b[..|a|] == b;
  }

  /** In so many words: a page is as long as the limit, 100 if none is given, or as the inbox. */
  lemma PageIsAsAsked(t: Mail, agent: string, limit: int, ids: seq<string>)
    requires IsPage(t, agent, limit, ids)
    ensures var cap := if limit <= 0 then 100 else limit;
      |ids| == if |Pending(t, agent)| < cap then |Pending(t, agent)| else cap
  {
    EarliestIsNoLonger(t, ids, Pending(t, agent));
    if |ids| < Cap(limit) {
      SubsetSize(Pending(t, agent), set id | id in ids);
      DistinctSize(ids);
    }
  }

  /** And oldest first, identifiers breaking ties. */
  lemma PageIsOldestFirst(t: Mail, agent: string, limit: int, ids: seq<string>, i: nat, j: nat)
    requires IsPage(t, agent, limit, ids) && i < j < |ids|
    ensures ids[i] in t.messages && ids[j] in t.messages
    ensures var a, b := t.messages[ids[i]].createdAt, t.messages[ids[j]].createdAt;
      a < b || (a == b && LexLess(ids[i], ids[j]))
  {
    assert Earlier(t, ids[i], ids[j]);
  }

  lemma {:induction false} DistinctSize(ids: seq<string>)
    ensures |set id | id in ids| <= |ids|
  {
    if ids != [] {
      var rest := ids[..|ids| - 1];
      DistinctSize(rest);
      assert (set id | id in ids) == (set id | id in rest) + {ids[|ids| - 1]};
    }
  }

  lemma PageIsNoLonger(t: Mail, agent: string, limit: int, a: seq<string>, b: seq<string>)
    requires IsPage(t, agent, limit, a) && IsPage(t, agent, limit, b)
    ensures |b| <= |a|
  {
    if |a| < |b| {
      EarliestAgree(t, a, b, Pending(t, agent), |a|);
      assert b[|a|] in b && b[|a|] in a;
      var j :| 0 <= j < |a| && a[j] == b[|a|];
      assert b[j] == b[..|a|][j] == a[..|a|][j];
      Once(t, b, j, |a|);
    }
  }

  // ----- sending -----

  /** Who can be written to: named agents, the active ones in order, and each topic's subscribers in order. */
  datatype Directory = Directory(named: map<string, string>, active: seq<string>, subscribers: map<string, seq<string>>)

  const BROADCAST_TOPIC := "all"

  datatype Request = Request(sender: string, toName: string, topic: string, kind: string, body: string, bodyIsJson: bool)

  function Listeners(directory: Directory, topic: string): seq<string> {
    if topic == BROADCAST_TOPIC then directory.active
    else if topic in directory.subscribers then directory.subscribers[topic]
    else []
  }

  function Without(agents: seq<string>, sender: string): seq<string> {
    if agents == [] then []
    else
      var before := Without(agents[..|agents| - 1], sender);
      if agents[|agents| - 1] == sender then before else before + [agents[|agents| - 1]]
  }

  function Recipients(directory: Directory, request: Request): Result<seq<string>> {
    if request.toName != "" then
      if request.toName in directory.named then Ok([directory.named[request.toName]]) else Err(NotFound)
    else Ok(Without(Listeners(directory, request.topic), request.sender))
  }

  function Composed(request: Request, recipients: seq<string>, now: Instant, timeToLive: int): Message
    requires recipients != []
  {
    Message(request.sender, if request.toName != "" then recipients[0] else "", request.topic, request.kind, request.body,
            now, if timeToLive > 0 then Some(now + timeToLive) else None)
  }

  function Sent(t: Mail, id: string, directory: Directory, request: Request, now: Instant, timeToLive: int): Result<Mail> {
    if !ValidName(request.kind) || request.body == "" || !request.bodyIsJson then Err(InvalidArgument)
    else
      match Recipients(directory, request)
      case Err(e) => Err(e)
      case Ok(recipients) =>
        if recipients == [] then Err(NotFound)
        else Appended(t, id, Composed(request, recipients, now, timeToLive), recipients)
  }

  lemma {:induction false} AddressedExactly(d: map<Address, Delivery>, id: string, recipients: seq<string>)
    ensures var after := Addressed(d, id, recipients);
      && (forall a :: a in after <==> a in d || (a.message == id && a.agent in recipients))
      && (forall a <- after :: after[a] == if a in d then d[a] else Delivery(None, None))
  {
    if recipients != [] {
      AddressedExactly(d, id, recipients[..|recipients| - 1]);
      assert recipients == recipients[..|recipients| - 1] + [recipients[|recipients| - 1]];
    }
  }

  lemma {:induction false} WithoutExactly(agents: seq<string>, sender: string)
    ensures forall a :: a in Without(agents, sender) <==> a in agents && a != sender
  {
    if agents != [] {
      WithoutExactly(agents[..|agents| - 1], sender);
      assert agents == agents[..|agents| - 1] + [agents[|agents| - 1]];
    }
  }

  /** What any message needs: a sender, a kind, a JSON body and a new identifier. */
  predicate Sendable(t: Mail, id: string, request: Request) {
    && id != "" && id !in t.messages && request.sender != "" && ValidName(request.kind)
    && request.body != "" && request.bodyIsJson
  }

  /** Who subscribed to a topic; everyone active is on the topic "all". */
  predicate Listens(directory: Directory, topic: string, agent: string) {
    if topic == "all" then agent in directory.active
    else topic in directory.subscribers && agent in directory.subscribers[topic]
  }

  /** Exactly these agents get one unread delivery each, and no other row changes. */
  ghost predicate DeliversTo(t: Mail, t': Mail, id: string, agents: iset<string>) {
    && t'.messages.Keys == t.messages.Keys + {id}
    && (forall other <- t.messages :: t'.messages[other] == t.messages[other])
    && (forall a :: a in t'.deliveries <==> a in t.deliveries || (a.message == id && a.agent in agents))
    && (forall a <- t'.deliveries :: t'.deliveries[a] == if a in t.deliveries then t.deliveries[a] else Delivery(None, None))
  }

  /** The stored message says what was asked, when, and until when. */
  predicate IsStored(t: Mail, id: string, request: Request, now: Instant, timeToLive: int) {
    && id in t.messages
    && var m := t.messages[id];
       && (m.sender, m.topic, m.kind, m.body, m.createdAt) == (request.sender, request.topic, request.kind, request.body, now)
       && (timeToLive > 0 ==> m.expiresAt == Some(now + timeToLive))
       && (timeToLive <= 0 ==> m.expiresAt == None)
  }

  /**
   A direct message under a new identifier fails exactly when nobody has the name, and then because of it.
   Otherwise the agent of that name, be it the sender, gets the one new delivery: the message is in that
   agent's inbox and in no other.
   */
  lemma DirectMessageReachesItsName(t: Mail, id: string, directory: Directory, request: Request, now: Instant, timeToLive: int)
    requires Consistent(t) && Sendable(t, id, request) && request.toName != "" && request.topic == ""
    requires request.toName in directory.named ==> directory.named[request.toName] != ""
    ensures var r := Sent(t, id, directory, request, now, timeToLive);
      if request.toName !in directory.named then r == Err(NotFound)
      else
        && r.Ok?
        && var t', agent := r.value, directory.named[request.toName];
           && DeliversTo(t, t', id, iset{agent})
           && IsStored(t', id, request, now, timeToLive) && t'.messages[id].recipient == agent
           && (forall reader :: id in Pending(t', reader) <==> reader == agent)
  {
    if request.toName in directory.named {
      var agent := directory.named[request.toName];
      AddressedExactly(t.deliveries, id, [agent]);
      var t' := Sent(t, id, directory, request, now, timeToLive).value;
      forall reader ensures id in Pending(t', reader) <==> reader == agent {
        assert Address(id, reader) !in t.deliveries;
      }
    }
  }

  /**
   A message to a topic fails exactly when nobody but its sender listens, and then because of it. Otherwise
   exactly the other listeners have it in their inboxes.
   */
  lemma TopicReachesEveryoneElse(t: Mail, id: string, directory: Directory, request: Request, now: Instant, timeToLive: int)
    requires Consistent(t) && Sendable(t, id, request) && request.toName == "" && ValidName(request.topic)
    ensures var r := Sent(t, id, directory, request, now, timeToLive);
      if forall agent :: Listens(directory, request.topic, agent) ==> agent == request.sender then r == Err(NotFound)
      else
        && r.Ok?
        && var t' := r.value;
           && DeliversTo(t, t', id, iset agent | Listens(directory, request.topic, agent) && agent != request.sender)
           && IsStored(t', id, request, now, timeToLive) && t'.messages[id].recipient == ""
           && (forall reader :: id in Pending(t', reader) <==>
                 Listens(directory, request.topic, reader) && reader != request.sender)
  {
    var recipients := Without(Listeners(directory, request.topic), request.sender);
    WithoutExactly(Listeners(directory, request.topic), request.sender);
    AddressedExactly(t.deliveries, id, recipients);
    assert forall agent :: agent in recipients <==> Listens(directory, request.topic, agent) && agent != request.sender;
    if recipients != [] {
      assert recipients[0] in recipients;
      var t' := Sent(t, id, directory, request, now, timeToLive).value;
      forall reader ensures id in Pending(t', reader) <==> reader in recipients {
        assert Address(id, reader) !in t.deliveries;
      }
    }
  }

  /** A request with a part missing, or addressed both ways, is refused. */
  lemma UnsendableIsRefused(t: Mail, id: string, directory: Directory, request: Request, now: Instant, timeToLive: int)
    requires request.toName in directory.named ==> directory.named[request.toName] != ""
    ensures !ValidName(request.kind) || request.body == "" || !request.bodyIsJson ==>
      Sent(t, id, directory, request, now, timeToLive) == Err(InvalidArgument)
    ensures request.sender == "" || id == "" || (request.toName != "" && request.topic != "") ==>
      Sent(t, id, directory, request, now, timeToLive).Err?
  {
  }

  /** What is stored has a sender, one destination, a kind, a body and somebody to reach; an identifier is used once. */
  lemma AppendErrors(t: Mail, id: string, m: Message, recipients: seq<string>)
    ensures Appended(t, id, m, recipients).Ok? <==>
      && id != "" && id !in t.messages && recipients != []
      && m.sender != "" && (m.recipient == "" <==> m.topic != "") && (m.topic == "" || ValidName(m.topic))
      && ValidName(m.kind) && m.body != ""
    ensures Appended(t, id, m, recipients) == Err(AlreadyExists) ==> id in t.messages
    ensures id in t.messages ==> Appended(t, id, m, recipients).Err?
  {
  }

  // ----- runs -----

  datatype Op =
    | Append(id: string, message: Message, recipients: seq<string>)
    | Mark(agent: string, ids: seq<string>, at: Instant)
    | Acknowledge(agent: string, ids: seq<string>, at: Instant)
    | Prune(at: Instant, retention: int)

  function Step(t: Mail, op: Op): Mail {
    match op
    case Append(id, message, recipients) =>
      (match Appended(t, id, message, recipients) case Ok(after) => after case Err(_) => t)
    case Mark(agent, ids, at) => Marked(t, agent, ids, at)
    case Acknowledge(agent, ids, at) => Acknowledged(t, agent, ids, at)
    case Prune(at, retention) => Pruned(t, at, retention)
  }

  function Run(t: Mail, ops: seq<Op>): Mail
    decreases |ops|
  {
    if ops == [] then t else Run(Step(t, ops[0]), ops[1..])
  }

  ghost predicate Consistent(t: Mail) {
    && (forall a <- t.deliveries :: a.message in t.messages)
    && (forall a <- t.deliveries :: t.deliveries[a].ackedAt.Some? ==> t.deliveries[a].deliveredAt.Some?)
    && (forall id <- t.messages :: Delivered(t, id))
  }

  /** A message has somebody to reach. */
  ghost predicate Delivered(t: Mail, id: string) {
    exists agent :: Address(id, agent) in t.deliveries
  }

  lemma AppendKeepsConsistent(t: Mail, id: string, message: Message, recipients: seq<string>)
    requires Consistent(t) && Appended(t, id, message, recipients).Ok?
    ensures Consistent(Appended(t, id, message, recipients).value)
  {
    var after := Appended(t, id, message, recipients).value;
    AddressedExactly(t.deliveries, id, recipients);
    forall other <- after.messages ensures Delivered(after, other) {
      if other == id {
        assert Address(id, recipients[0]) in after.deliveries;
      } else {
        var agent :| Address(other, agent) in t.deliveries;
        assert Address(other, agent) in after.deliveries;
      }
    }
  }

  lemma PruneKeepsConsistent(t: Mail, at: Instant, retention: int)
    requires Consistent(t)
    ensures Consistent(Pruned(t, at, retention))
  {
    var after := Pruned(t, at, retention);
    forall id <- after.messages ensures Delivered(after, id) {
      var agent :| Address(id, agent) in t.deliveries;
      assert Address(id, agent) in after.deliveries;
    }
  }

  lemma StepKeepsConsistent(t: Mail, op: Op)
    requires Consistent(t)
    ensures Consistent(Step(t, op))
  {
    match op
    case Append(id, message, recipients) =>
      if Appended(t, id, message, recipients).Ok? {
        AppendKeepsConsistent(t, id, message, recipients);
      }
    case Prune(at, retention) => PruneKeepsConsistent(t, at, retention);
    case _ =>
      var after := Step(t, op);
      assert after.deliveries.Keys == t.deliveries.Keys;
      forall id <- after.messages ensures Delivered(after, id) {
        var agent :| Address(id, agent) in t.deliveries;
        assert Address(id, agent) in after.deliveries;
      }
  }

  lemma {:induction false} RunKeepsConsistent(t: Mail, ops: seq<Op>)
    requires Consistent(t)
    ensures Consistent(Run(t, ops))
    decreases |ops|
  {
    if ops != [] {
      StepKeepsConsistent(t, ops[0]);
      RunKeepsConsistent(Step(t, ops[0]), ops[1..]);
    }
  }

  // ----- reading and acknowledging -----

  /** Marking dates the agent's own first deliveries among those named, and changes nothing else. */
  lemma MarkingDates(t: Mail, agent: string, ids: seq<string>, at: Instant, a: Address)
    requires a in t.deliveries
    ensures var t' := Step(t, Mark(agent, ids, at));
      && t'.messages == t.messages && t'.deliveries.Keys == t.deliveries.Keys
      && t'.deliveries[a].ackedAt == t.deliveries[a].ackedAt
      && t'.deliveries[a].deliveredAt
         == if a.agent == agent && a.message in ids && t.deliveries[a].deliveredAt == None then Some(at)
            else t.deliveries[a].deliveredAt
  {
  }

  /** Acknowledging completes the agent's own outstanding deliveries among those named; unread ones count as delivered then. */
  lemma AcknowledgingCompletes(t: Mail, agent: string, ids: seq<string>, at: Instant, a: Address)
    requires a in t.deliveries
    ensures var t' := Step(t, Acknowledge(agent, ids, at));
      && t'.messages == t.messages && t'.deliveries.Keys == t.deliveries.Keys
      && t'.deliveries[a] ==
         if a.agent == agent && a.message in ids && t.deliveries[a].ackedAt == None
         then Delivery(if t.deliveries[a].deliveredAt == None then Some(at) else t.deliveries[a].deliveredAt, Some(at))
         else t.deliveries[a]
  {
  }

  /** In every run a delivery has been read exactly when, since it was there, its agent read or acknowledged it. */
  lemma {:induction false} DeliveredExactlyWhenRead(t: Mail, ops: seq<Op>, a: Address)
    requires Consistent(t) && a in t.deliveries && a in Run(t, ops).deliveries && NotResent(ops, a.message)
    ensures Run(t, ops).deliveries[a].deliveredAt.Some? <==>
      || t.deliveries[a].deliveredAt.Some?
      || exists op <- ops :: (op.Mark? || op.Acknowledge?) && op.agent == a.agent && a.message in op.ids
    decreases |ops|
  {
    if ops != [] {
      var next, op := Step(t, ops[0]), ops[0];
      assert ops == [op] + ops[1..];
      StepKeepsConsistent(t, op);
      GoneStaysGone(next, ops[1..], a);
      DeliveredExactlyWhenRead(next, ops[1..], a);
      StepReads(t, op, a);
    }
  }

  lemma StepReads(t: Mail, op: Op, a: Address)
    requires Consistent(t) && a in t.deliveries && a in Step(t, op).deliveries
    ensures Step(t, op).deliveries[a].deliveredAt.Some? <==>
      || t.deliveries[a].deliveredAt.Some?
      || ((op.Mark? || op.Acknowledge?) && op.agent == a.agent && a.message in op.ids)
  {
    if op.Append? {
      AddressedExactly(t.deliveries, op.id, op.recipients);
    }
  }

  lemma {:induction false} GoneStaysGone(t: Mail, ops: seq<Op>, a: Address)
    requires NotResent(ops, a.message)
    ensures a in Run(t, ops).deliveries ==> a in t.deliveries
    decreases |ops|
  {
    if ops != [] {
      assert ops == [ops[0]] + ops[1..];
      if ops[0].Append? {
        AddressedExactly(t.deliveries, ops[0].id, ops[0].recipients);
      }
      GoneStaysGone(Step(t, ops[0]), ops[1..], a);
    }
  }

  // ----- how far a message got -----

  function To(t: Mail, id: string): set<Address> {
    set a | a in t.deliveries && a.message == id
  }

  function ReadBy(t: Mail, id: string): set<Address> {
    set a | a in t.deliveries && a.message == id && t.deliveries[a].deliveredAt.Some?
  }

  function HandledBy(t: Mail, id: string): set<Address> {
    set a | a in t.deliveries && a.message == id && t.deliveries[a].ackedAt.Some?
  }

  /** In every reachable state, of those a message was sent to at least as many have read it as have acknowledged it. */
  lemma CountsAreOrdered(ops: seq<Op>, id: string)
    ensures var t := Run(EMPTY, ops); |HandledBy(t, id)| <= |ReadBy(t, id)| <= |To(t, id)|
    ensures var t := Run(EMPTY, ops); id in t.messages ==> |To(t, id)| >= 1
  {
    RunKeepsConsistent(EMPTY, ops);
    var t := Run(EMPTY, ops);
    assert HandledBy(t, id) <= ReadBy(t, id);
    SubsetSize(HandledBy(t, id), ReadBy(t, id));
    SubsetSize(ReadBy(t, id), To(t, id));
    if id in t.messages {
      var agent :| Address(id, agent) in t.deliveries;
      assert Address(id, agent) in To(t, id);
      SubsetSize({Address(id, agent)}, To(t, id));
    }
  }

  /** While a message exists its text is fixed, nobody is added to it, and first reading and acknowledgement stand. */
  lemma DeliveriesOnlyProgress(t: Mail, op: Op, a: Address)
    requires Consistent(t) && a.message in t.messages && a.message in Step(t, op).messages
    ensures var after := Step(t, op);
      && after.messages[a.message] == t.messages[a.message]
      && (a in after.deliveries <==> a in t.deliveries)
      && (a in t.deliveries ==>
            && (t.deliveries[a].deliveredAt.Some? ==> after.deliveries[a].deliveredAt == t.deliveries[a].deliveredAt)
            && (t.deliveries[a].ackedAt.Some? ==> after.deliveries[a] == t.deliveries[a]))
  {
    if op.Append? {
      AddressedExactly(t.deliveries, op.id, op.recipients);
    }
  }

  // ----- nothing unhandled is lost -----

  /** The step that ends a delivery: its agent acknowledges it, or its message has passed its expiry. */
  ghost predicate Ends(t: Mail, op: Op, a: Address)
    requires a.message in t.messages
  {
    || (op.Acknowledge? && op.agent == a.agent && a.message in op.ids)
    || (op.Prune? && t.messages[a.message].Expired(op.at))
  }

  lemma StepEndsExactly(t: Mail, op: Op, a: Address)
    requires Consistent(t) && IsPending(t, a.agent, a.message)
    ensures IsPending(Step(t, op), a.agent, a.message) <==> !Ends(t, op, a)
    ensures !Ends(t, op, a) ==> Step(t, op).messages[a.message] == t.messages[a.message]
  {
    assert a == Address(a.message, a.agent);
    if op.Append? {
      AddressedExactly(t.deliveries, op.id, op.recipients);
    }
  }

  /** No step of a run ends the delivery. */
  ghost predicate LeftAlone(message: Message, a: Address, ops: seq<Op>) {
    forall op <- ops ::
      && !(op.Acknowledge? && op.agent == a.agent && a.message in op.ids)
      && !(op.Prune? && message.Expired(op.at))
  }

  /** Identifiers are never used twice. */
  ghost predicate NotResent(ops: seq<Op>, id: string) {
    forall op <- ops :: op.Append? ==> op.id != id
  }

  lemma {:induction false} EndedStaysEnded(t: Mail, ops: seq<Op>, a: Address)
    requires !IsPending(t, a.agent, a.message) && NotResent(ops, a.message)
    ensures !IsPending(Run(t, ops), a.agent, a.message)
    decreases |ops|
  {
    if ops != [] {
      assert ops[0] in ops && forall op <- ops[1..] :: op in ops;
      if ops[0].Append? {
        AddressedExactly(t.deliveries, ops[0].id, ops[0].recipients);
      }
      EndedStaysEnded(Step(t, ops[0]), ops[1..], a);
    }
  }

  /**
   An unacknowledged delivery is still in its inbox after a run exactly when its agent did not
   acknowledge it in the run and nothing was pruned after its message expired.
   */
  lemma {:induction false} NothingUnhandledIsLost(t: Mail, ops: seq<Op>, a: Address)
    requires Consistent(t) && IsPending(t, a.agent, a.message) && NotResent(ops, a.message)
    ensures IsPending(Run(t, ops), a.agent, a.message) <==> LeftAlone(t.messages[a.message], a, ops)
    ensures LeftAlone(t.messages[a.message], a, ops) ==> Run(t, ops).messages[a.message] == t.messages[a.message]
    decreases |ops|
  {
    if ops != [] {
      assert ops == [ops[0]] + ops[1..];
      StepEndsExactly(t, ops[0], a);
      StepKeepsConsistent(t, ops[0]);
      if Ends(t, ops[0], a) {
        EndedStaysEnded(Step(t, ops[0]), ops[1..], a);
      } else {
        NothingUnhandledIsLost(Step(t, ops[0]), ops[1..], a);
      }
    }
  }

  /** Pruning removes exactly what expired, and what everyone acknowledged and is older than the retention period. */
  lemma PruneRemovesExactly(t: Mail, at: Instant, retention: int, id: string)
    requires Consistent(t) && id in t.messages
    ensures id !in Pruned(t, at, retention).messages <==>
      || (t.messages[id].expiresAt.Some? && t.messages[id].expiresAt.value <= at)
      || (t.messages[id].createdAt + retention <= at && forall agent :: !IsPending(t, agent, id))
    ensures id !in Pruned(t, at, retention).messages <==> To(Pruned(t, at, retention), id) == {}
  {
    if forall agent :: !IsPending(t, agent, id) {
      forall a <- t.deliveries | a.message == id ensures t.deliveries[a].ackedAt.Some? {
        assert a == Address(id, a.agent) && !IsPending(t, a.agent, id);
      }
    }
    var agent :| Address(id, agent) in t.deliveries;
    var after := Pruned(t, at, retention);
    assert id in after.messages ==> Address(id, agent) in To(after, id);
  }

  /**
   The period runs from when a message was sent, not from its acknowledgement: after some run a
   pending message that is old enough goes in the very instant it is acknowledged.
   */
  lemma RetentionIsNotFromAcknowledgement() returns (ops: seq<Op>, at: Instant, retention: int, id: string, agent: string)
    ensures retention > 0 && id in Run(EMPTY, ops).messages && IsPending(Run(EMPTY, ops), agent, id)
    ensures id !in Run(EMPTY, ops + [Acknowledge(agent, [id], at), Prune(at, retention)]).messages
  {
    var message := Message("a", "b", "", "question", "1", 0, None);
    var send := Append("m", message, ["b"]);
    ops, at, retention, id, agent := [send], 10, 10, "m", "b";
    var t := Step(EMPTY, send);
    assert ValidName("question") && message.WellFormed();
    AddressedExactly(map[], id, ["b"]);
    assert IsPending(t, agent, id);
    var after := Step(t, Acknowledge(agent, [id], at));
    assert Handled(after, id);
    assert ops[1..] == [] && Run(EMPTY, ops) == t;
    var all := ops + [Acknowledge(agent, [id], at), Prune(at, retention)];
    assert all[1..] == [Acknowledge(agent, [id], at), Prune(at, retention)];
    assert all[1..][1..] == [Prune(at, retention)];
    assert Run(EMPTY, all) == Run(t, all[1..]) == Run(after, [Prune(at, retention)]);
    assert [Prune(at, retention)][1..] == [];
    assert Run(after, [Prune(at, retention)]) == Pruned(after, at, retention);
  }

  // ----- draining an inbox -----

  /** Others may do as they like: write to somebody else, read, acknowledge their own, prune what they may. */
  ghost predicate Quiet(t: Mail, agent: string, op: Op) {
    match op
    case Append(_, _, recipients) => agent !in recipients
    case Mark(_, _, _) => true
    case Acknowledge(other, _, _) => other != agent
    case Prune(at, _) => forall id <- Pending(t, agent) :: !t.messages[id].Expired(at)
  }

  ghost predicate QuietRun(t: Mail, agent: string, ops: seq<Op>)
    decreases |ops|
  {
    ops == [] || (Quiet(t, agent, ops[0]) && QuietRun(Step(t, ops[0]), agent, ops[1..]))
  }

  /** Some of an inbox's messages are left, as they were. */
  ghost predicate Leaves(t: Mail, after: Mail, agent: string, left: set<string>) {
    && left <= Pending(t, agent)
    && Pending(after, agent) == left
    && forall id <- left :: id in after.messages && after.messages[id] == t.messages[id]
  }

  lemma QuietStepLeavesAll(t: Mail, agent: string, op: Op)
    requires Consistent(t) && Quiet(t, agent, op)
    ensures Leaves(t, Step(t, op), agent, Pending(t, agent))
  {
    var after := Step(t, op);
    if op.Append? {
      AddressedExactly(t.deliveries, op.id, op.recipients);
    }
    forall id ensures IsPending(after, agent, id) <==> IsPending(t, agent, id) {
      if IsPending(t, agent, id) {
        StepEndsExactly(t, op, Address(id, agent));
      }
    }
    forall id | id in Pending(t, agent) ensures id in after.messages && after.messages[id] == t.messages[id] {
      StepEndsExactly(t, op, Address(id, agent));
    }
  }

  lemma {:induction false} QuietRunLeavesAll(t: Mail, agent: string, ops: seq<Op>)
    requires Consistent(t) && QuietRun(t, agent, ops)
    ensures Leaves(t, Run(t, ops), agent, Pending(t, agent))
    decreases |ops|
  {
    if ops != [] {
      QuietStepLeavesAll(t, agent, ops[0]);
      StepKeepsConsistent(t, ops[0]);
      QuietRunLeavesAll(Step(t, ops[0]), agent, ops[1..]);
    }
  }

  /** One round: a page is queried, then marked as delivered, then acknowledged. Others act before each. */
  datatype Round = Round(
    before: seq<Op>, limit: int, page: seq<string>,
    beforeMark: seq<Op>, readAt: Instant,
    beforeAck: seq<Op>, ackedAt: Instant)

  function Queried(t: Mail, r: Round): Mail {
    Run(t, r.before)
  }

  function Read(t: Mail, agent: string, r: Round): Mail {
    Marked(Run(Queried(t, r), r.beforeMark), agent, r.page, r.readAt)
  }

  function AfterRound(t: Mail, agent: string, r: Round): Mail {
    Acknowledged(Run(Read(t, agent, r), r.beforeAck), agent, r.page, r.ackedAt)
  }

  ghost predicate IsRound(t: Mail, agent: string, r: Round) {
    && QuietRun(t, agent, r.before)
    && IsPage(Queried(t, r), agent, r.limit, r.page)
    && QuietRun(Queried(t, r), agent, r.beforeMark)
    && QuietRun(Read(t, agent, r), agent, r.beforeAck)
  }

  function AfterRounds(t: Mail, agent: string, rounds: seq<Round>): Mail
    decreases |rounds|
  {
    if rounds == [] then t else AfterRounds(AfterRound(t, agent, rounds[0]), agent, rounds[1..])
  }

  ghost predicate Drains(t: Mail, agent: string, rounds: seq<Round>)
    decreases |rounds|
  {
    rounds == []
    || (IsRound(t, agent, rounds[0]) && Drains(AfterRound(t, agent, rounds[0]), agent, rounds[1..]))
  }

  function Received(rounds: seq<Round>): seq<string> {
    if rounds == [] then [] else rounds[0].page + Received(rounds[1..])
  }

  function Asked(rounds: seq<Round>): nat {
    if rounds == [] then 0 else Cap(rounds[0].limit) + Asked(rounds[1..])
  }

  lemma AcknowledgingLeavesTheRest(t: Mail, agent: string, ids: seq<string>, at: Instant)
    ensures Leaves(t, Acknowledged(t, agent, ids, at), agent, set id | id in Pending(t, agent) && id !in ids)
  {
    var after := Acknowledged(t, agent, ids, at);
    forall id ensures IsPending(after, agent, id) <==> IsPending(t, agent, id) && id !in ids {
      assert Address(id, agent) in after.deliveries <==> Address(id, agent) in t.deliveries;
    }
  }

  /** Order depends only on the messages compared. */
  lemma EarliestCarriesOver(t: Mail, after: Mail, agent: string, ids: seq<string>, left: set<string>)
    requires Leaves(t, after, agent, left) && Earliest(after, ids, left)
    ensures Earliest(t, ids, left)
  {
    forall i, j | 0 <= i < j < |ids| ensures Earlier(t, ids[i], ids[j]) {
      assert ids[i] in left && ids[j] in left && Earlier(after, ids[i], ids[j]);
    }
  }

  lemma LeavesInTurn(t: Mail, u: Mail, v: Mail, agent: string, left: set<string>)
    requires Leaves(t, u, agent, Pending(t, agent)) && Leaves(u, v, agent, left)
    ensures Leaves(t, v, agent, left)
  {
  }

  /** Up to its acknowledgement a round takes nothing out of the inbox. */
  lemma ReadLeavesAll(t: Mail, agent: string, r: Round)
    requires Consistent(t) && IsRound(t, agent, r)
    ensures Consistent(Read(t, agent, r)) && Leaves(t, Read(t, agent, r), agent, Pending(t, agent))
    ensures Leaves(t, Queried(t, r), agent, Pending(t, agent))
  {
    var u, v := Queried(t, r), Run(Queried(t, r), r.beforeMark);
    QuietRunLeavesAll(t, agent, r.before);
    RunKeepsConsistent(t, r.before);
    QuietRunLeavesAll(u, agent, r.beforeMark);
    RunKeepsConsistent(u, r.beforeMark);
    LeavesInTurn(t, u, v, agent, Pending(t, agent));
    QuietStepLeavesAll(v, agent, Mark(agent, r.page, r.readAt));
    StepKeepsConsistent(v, Mark(agent, r.page, r.readAt));
    LeavesInTurn(t, v, Read(t, agent, r), agent, Pending(t, agent));
  }

  lemma BeforeAckLeavesAll(t: Mail, agent: string, r: Round)
    requires Consistent(t) && IsRound(t, agent, r)
    ensures var u := Run(Read(t, agent, r), r.beforeAck);
      Consistent(u) && Leaves(t, u, agent, Pending(t, agent))
  {
    ReadLeavesAll(t, agent, r);
    var read := Read(t, agent, r);
    QuietRunLeavesAll(read, agent, r.beforeAck);
    RunKeepsConsistent(read, r.beforeAck);
    LeavesInTurn(t, read, Run(read, r.beforeAck), agent, Pending(t, agent));
  }

  lemma AfterRoundIsConsistent(t: Mail, agent: string, r: Round)
    requires Consistent(t) && IsRound(t, agent, r)
    ensures Consistent(AfterRound(t, agent, r))
  {
    BeforeAckLeavesAll(t, agent, r);
    StepKeepsConsistent(Run(Read(t, agent, r), r.beforeAck), Acknowledge(agent, r.page, r.ackedAt));
  }

  /** A round takes its page out of the inbox and nothing else. */
  lemma RoundTakesItsPage(t: Mail, agent: string, r: Round)
    requires Consistent(t) && IsRound(t, agent, r)
    ensures Leaves(t, AfterRound(t, agent, r), agent, set id | id in Pending(t, agent) && id !in r.page)
    ensures Earliest(t, r.page, Pending(t, agent))
  {
    var u, left := Run(Read(t, agent, r), r.beforeAck), set id | id in Pending(t, agent) && id !in r.page;
    BeforeAckLeavesAll(t, agent, r);
    AcknowledgingLeavesTheRest(u, agent, r.page, r.ackedAt);
    LeavesInTurn(t, u, AfterRound(t, agent, r), agent, left);
    ReadLeavesAll(t, agent, r);
    EarliestCarriesOver(t, Queried(t, r), agent, r.page, Pending(t, agent));
  }

  lemma RoundIsFullUnlessLast(t: Mail, agent: string, r: Round)
    requires Consistent(t) && IsRound(t, agent, r)
    ensures Pending(AfterRound(t, agent, r), agent) != {} ==> |r.page| == Cap(r.limit)
  {
    RoundTakesItsPage(t, agent, r);
    ReadLeavesAll(t, agent, r);
  }

  /** Earliest ones followed by the earliest of what is left. */
  lemma EarliestOfTheRest(t: Mail, first: seq<string>, second: seq<string>, among: set<string>)
    requires among <= t.messages.Keys
    requires Earliest(t, first, among) && Earliest(t, second, set id | id in among && id !in first)
    ensures Earliest(t, first + second, among)
  {
    var ids := first + second;
    forall i, j | 0 <= i < j < |ids| ensures Earlier(t, ids[i], ids[j]) {
      if i < |first| <= j {
        assert ids[j] in second && ids[i] in first;
      }
    }
    forall id <- ids, other <- among ensures other in ids || Earlier(t, id, other) {
    }
  }

  /**
   Reading and acknowledging with any limits hands out the inbox's messages in the order they were
   sent, each once, and leaves exactly the rest, whatever others do meanwhile.
   */
  lemma {:induction false} DrainingIsInOrder(t: Mail, agent: string, rounds: seq<Round>)
    requires Consistent(t) && Drains(t, agent, rounds)
    ensures Earliest(t, Received(rounds), Pending(t, agent))
    ensures Pending(AfterRounds(t, agent, rounds), agent)
      == set id | id in Pending(t, agent) && id !in Received(rounds)
    decreases |rounds|
  {
    if rounds != [] {
      var page, after := rounds[0].page, AfterRound(t, agent, rounds[0]);
      var left := set id | id in Pending(t, agent) && id !in page;
      RoundTakesItsPage(t, agent, rounds[0]);
      AfterRoundIsConsistent(t, agent, rounds[0]);
      DrainingIsInOrder(after, agent, rounds[1..]);
      EarliestCarriesOver(t, after, agent, Received(rounds[1..]), left);
      EarliestOfTheRest(t, page, Received(rounds[1..]), Pending(t, agent));
    }
  }

  /** Short of emptying the inbox, each round hands out all it was asked for. */
  lemma {:induction false} DrainingIsFull(t: Mail, agent: string, rounds: seq<Round>)
    requires Consistent(t) && Drains(t, agent, rounds)
    ensures Pending(AfterRounds(t, agent, rounds), agent) != {} ==> |Received(rounds)| == Asked(rounds)
    decreases |rounds|
  {
    if rounds != [] {
      var after := AfterRound(t, agent, rounds[0]);
      AfterRoundIsConsistent(t, agent, rounds[0]);
      RoundIsFullUnlessLast(t, agent, rounds[0]);
      DrainingIsFull(after, agent, rounds[1..]);
      DrainingIsInOrder(after, agent, rounds[1..]);
    }
  }

  lemma {:induction false} EarliestIsNoLonger(t: Mail, ids: seq<string>, among: set<string>)
    requires OldestFirst(t, ids) && forall id <- ids :: id in among
    ensures |ids| <= |among|
    decreases |ids|
  {
    if ids != [] {
      var last := ids[|ids| - 1];
      forall i | 0 <= i < |ids| - 1 ensures ids[i] != last {
        KeyTrichotomy(MessageKey(t, ids[i]), MessageKey(t, last));
        assert Earlier(t, ids[i], last);
      }
      EarliestIsNoLonger(t, ids[..|ids| - 1], among - {last});
    }
  }

  /** Once as many were asked for as were pending, the inbox is empty and every message was handed out. */
  lemma DrainingEmptiesTheInbox(t: Mail, agent: string, rounds: seq<Round>)
    requires Consistent(t) && Drains(t, agent, rounds)
    requires Asked(rounds) >= |Pending(t, agent)|
    ensures Pending(AfterRounds(t, agent, rounds), agent) == {}
    ensures forall id :: id in Received(rounds) <==> id in Pending(t, agent)
  {
    DrainingIsInOrder(t, agent, rounds);
    DrainingIsFull(t, agent, rounds);
    var left := Pending(AfterRounds(t, agent, rounds), agent);
    if left != {} {
      var id :| id in left;
      EarliestIsNoLonger(t, Received(rounds), Pending(t, agent) - {id});
      assert false;
    }
    forall id | id in Pending(t, agent) ensures id in Received(rounds) {
      assert id !in left;
    }
  }
}
