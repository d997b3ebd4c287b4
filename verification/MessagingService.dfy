/** The messaging service over message and delivery tables changed in place. */
module MessagingService {
  import opened Core
  import opened Ordering
  import opened Inbox

  class Service {
    var messages: map<string, Message>
    var deliveries: map<Address, Delivery>

    function View(): Mail
      reads this
    {
      Mail(messages, deliveries)
    }

    constructor ()
      ensures View() == EMPTY
    {
      messages, deliveries := map[], map[];
    }

    method Append(id: string, message: Message, recipients: seq<string>) returns (r: Result<()>)
      modifies this
      ensures Effect(old(View()), View(), Appended(old(View()), id, message, recipients), r)
    {
      if id == "" || !message.WellFormed() || recipients == [] {
        return Err(InvalidArgument);
      }
      if id in messages {
        return Err(AlreadyExists);
      }
      messages := messages[id := message];
      for i := 0 to |recipients|
        invariant messages == old(messages)[id := message]
        invariant deliveries == Addressed(old(deliveries), id, recipients[..i])
      {
        assert recipients[..i + 1][..i] == recipients[..i];
        var address := Address(id, recipients[i]);
        if address !in deliveries {
          deliveries := deliveries[address := Delivery(None, None)];
        }
      }
      assert recipients[..|recipients|] == recipients;
      return Ok(());
    }

    method Pending(agent: string, limit: int) returns (ids: seq<string>)
      ensures IsPage(View(), agent, limit, ids)
    {
      var pending := Inbox.Pending(View(), agent);
      var keys := set id | id in pending :: MessageKey(View(), id);
      var rows := Order(keys);
      forall i | 0 <= i < |rows|
        ensures rows[i].id in pending && rows[i] == MessageKey(View(), rows[i].id)
      {
        assert rows[i] in rows && rows[i] in keys;
      }
      forall id | id in pending ensures exists i :: 0 <= i < |rows| && rows[i].id == id {
        assert MessageKey(View(), id) in keys;
        assert MessageKey(View(), id) in rows;
      }
      var n := if |rows| < Cap(limit) then |rows| else Cap(limit);
      ids := [];
      for i := 0 to n
        invariant |ids| == i
        invariant forall j :: 0 <= j < i ==> ids[j] == rows[j].id
      {
        ids := ids + [rows[i].id];
      }
      forall id <- ids, other <- pending ensures other in ids || Earlier(View(), id, other) {
        var i :| 0 <= i < n && ids[i] == id;
        var j :| 0 <= j < |rows| && rows[j].id == other;
        if j < n {
          assert ids[j] == other;
        } else {
          assert KeyLess(rows[i], rows[j]);
        }
      }
    }

    method MarkDelivered(agent: string, ids: seq<string>, at: Instant)
      modifies this
      ensures View() == Marked(old(View()), agent, ids, at)
    {
      if ids == [] {
        assert Marked(View(), agent, ids, at).deliveries == deliveries;
        return;
      }
      deliveries := Marked(View(), agent, ids, at).deliveries;
    }

    /** Reading marks what is returned as delivered, and acknowledges nothing. */
    method Read(agent: string, limit: int, now: Instant) returns (ids: seq<string>)
      modifies this
      ensures IsPage(old(View()), agent, limit, ids)
      ensures View() == Marked(old(View()), agent, ids, now)
      ensures Inbox.Pending(View(), agent) == Inbox.Pending(old(View()), agent)
    {
      ids := Pending(agent, limit);
      MarkDelivered(agent, ids, now);
      forall id ensures IsPending(View(), agent, id) <==> IsPending(old(View()), agent, id) {
        assert Address(id, agent) in deliveries <==> Address(id, agent) in old(deliveries);
      }
    }

    method Acknowledge(agent: string, ids: seq<string>, at: Instant) returns (count: nat)
      modifies this
      ensures View() == Acknowledged(old(View()), agent, ids, at)
      ensures count == |Outstanding(old(View()), agent, ids)|
    {
      if ids == [] {
        assert Outstanding(View(), agent, ids) == {};
        assert Acknowledged(View(), agent, ids, at).deliveries == deliveries;
        return 0;
      }
      count := 0;
      var remaining := Outstanding(View(), agent, ids);
      while remaining != {}
        invariant remaining <= Outstanding(old(View()), agent, ids)
        invariant count == |Outstanding(old(View()), agent, ids)| - |remaining|
        invariant messages == old(messages)
        invariant deliveries.Keys == old(deliveries).Keys
        invariant forall a <- deliveries ::
          deliveries[a] == (if a in remaining then old(deliveries)[a] else Acknowledged(old(View()), agent, ids, at).deliveries[a])
        decreases remaining
      {
        var a :| a in remaining;
        var delivered := deliveries[a].deliveredAt;
        deliveries := deliveries[a := Delivery(if delivered.None? then Some(at) else delivered, Some(at))];
        remaining := remaining - {a};
        count := count + 1;
      }
    }

    lemma RemovingCounts(rows: map<string, Message>, removed: set<string>)
      requires removed <= rows.Keys
      ensures |rows - removed| == |rows| - |removed|
    {
      assert rows.Keys == (rows - removed).Keys + removed;
    }

    method Prune(at: Instant, retention: int) returns (count: nat)
      modifies this
      ensures View() == Pruned(old(View()), at, retention)
      ensures count == |old(messages)| - |messages|
    {
      var removed := set id | id in messages && Removable(View(), id, at, retention);
      RemovingCounts(messages, removed);
      count := |removed|;
      messages := messages - removed;
      deliveries := map a | a in deliveries && a.message !in removed :: deliveries[a];
      assert messages == Pruned(old(View()), at, retention).messages;
      assert deliveries == Pruned(old(View()), at, retention).deliveries;
    }

    method WithoutSender(agents: seq<string>, sender: string) returns (recipients: seq<string>)
      ensures recipients == Without(agents, sender)
    {
      recipients := [];
      for i := 0 to |agents|
        invariant recipients == Without(agents[..i], sender)
      {
        assert agents[..i + 1][..i] == agents[..i];
        if agents[i] != sender {
          recipients := recipients + [agents[i]];
        }
      }
      assert agents[..|agents|] == agents;
    }

    method ResolveRecipients(directory: Directory, request: Request) returns (r: Result<seq<string>>)
      ensures r == Recipients(directory, request)
    {
      if request.toName != "" {
        if request.toName !in directory.named {
          return Err(NotFound);
        }
        return Ok([directory.named[request.toName]]);
      }
      var recipients := WithoutSender(Listeners(directory, request.topic), request.sender);
      return Ok(recipients);
    }

    /** A message is stored with all its deliveries, or nothing is. */
    method Send(id: string, directory: Directory, request: Request, now: Instant, timeToLive: int) returns (r: Result<()>)
      modifies this
      ensures Effect(old(View()), View(), Sent(old(View()), id, directory, request, now, timeToLive), r)
    {
      if !ValidName(request.kind) || request.body == "" || !request.bodyIsJson {
        return Err(InvalidArgument);
      }
      var resolved := ResolveRecipients(directory, request);
      if resolved.Err? {
        return Err(resolved.error);
      }
      if resolved.value == [] {
        return Err(NotFound);
      }
      var expiresAt := None;
      if timeToLive > 0 {
        expiresAt := Some(now + timeToLive);
      }
      var recipient := "";
      if request.toName != "" {
        recipient := resolved.value[0];
      }
      var message := Message(request.sender, recipient, request.topic, request.kind, request.body, now, expiresAt);
      r := Append(id, message, resolved.value);
    }
  }
}
