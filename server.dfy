/** server.py: the pairing loop. The server collects the names of connected
    clients from `connected` and `disconnected` messages until it holds two. */
module Server {
  import opened Messages
  import Connections

  const ConnectedTag: string := "connected"
  const DisconnectedTag: string := "disconnected"

  /** One message's effect on the set of clients: only the sender's
      membership can change; `connected` puts it in, `disconnected` takes it
      out, any other tag leaves it as it was. */
  function Track(clients: set<string>, m: Message): (r: set<string>)
    ensures forall x :: x != m.sender ==> (x in r <==> x in clients)
    ensures m.sender in r <==> m.tag == ConnectedTag || (m.tag != DisconnectedTag && m.sender in clients)
    ensures |r| <= |clients| + 1
  {
    if m.tag == ConnectedTag then clients + {m.sender}
    else if m.tag == DisconnectedTag then clients - {m.sender}
    else clients
  }

  /** The set of clients after the messages `msgs`, starting from none; it
      grows by at most one name per message. */
  function Clients(msgs: seq<Message>): (c: set<string>)
    ensures |c| <= |msgs|
  {
    if |msgs| == 0 then {} else Track(Clients(msgs[..|msgs| - 1]), msgs[|msgs| - 1])
  }

  /** The message at `i` is a `connected` from `x` and no `disconnected`
      from `x` follows it. */
  ghost predicate ConnectedAt(msgs: seq<Message>, x: string, i: nat)
  {
    i < |msgs| && msgs[i].sender == x && msgs[i].tag == ConnectedTag &&
    forall j :: i < j < |msgs| ==> !(msgs[j].sender == x && msgs[j].tag == DisconnectedTag)
  }

  /** Some `connected` from `x` is not followed by a `disconnected` from `x`. */
  ghost predicate StillConnected(msgs: seq<Message>, x: string)
  {
    exists i: nat :: ConnectedAt(msgs, x, i)
  }

  /** A message that is not a `disconnected` from `x` keeps every earlier
      `connected` from `x` standing. */
  lemma ConnectedAtExtend(p: seq<Message>, m: Message, x: string, i: nat)
    requires i < |p|
    requires !(m.sender == x && m.tag == DisconnectedTag)
    ensures ConnectedAt(p + [m], x, i) <==> ConnectedAt(p, x, i)
  {
    var msgs := p + [m];
    assert forall j :: 0 <= j < |p| ==> msgs[j] == p[j];
  }

  /** A client is in the set exactly when it announced itself and has not
      left since. */
  lemma {:induction false} ClientsMembership(msgs: seq<Message>, x: string)
    ensures x in Clients(msgs) <==> StillConnected(msgs, x)
  {
    if |msgs| > 0 {
      var n := |msgs| - 1;
      var p, m := msgs[..n], msgs[n];
      assert msgs == p + [m];
      ClientsMembership(p, x);
      if m.sender == x && m.tag == ConnectedTag {
        assert ConnectedAt(msgs, x, n);
      } else if m.sender == x && m.tag == DisconnectedTag {
        forall i: nat
          ensures !ConnectedAt(msgs, x, i)
        {
          if i < n {
            assert msgs[n].sender == x && msgs[n].tag == DisconnectedTag;
          }
        }
      } else {
        assert x in Clients(msgs) <==> x in Clients(p);
        if StillConnected(p, x) {
          var i: nat :| ConnectedAt(p, x, i);
          ConnectedAtExtend(p, m, x, i);
        }
        if StillConnected(msgs, x) {
          var i: nat :| ConnectedAt(msgs, x, i);
          assert i < n;
          ConnectedAtExtend(p, m, x, i);
        }
      }
    }
  }

  /** The set after one more message of `q` is that message's effect on the
      set before it. */
  lemma ClientsStep(q: seq<Message>, n: nat)
    requires n < |q|
    ensures Clients(q[..n + 1]) == Track(Clients(q[..n]), q[n])
  {
    assert q[..n + 1][..n] == q[..n];
  }

  /** A set of two holds two distinct names. */
  lemma PairOf(s: set<string>)
    requires |s| == 2
    ensures exists a, b :: a != b && s == {a, b}
  {
    var a :| a in s;
    assert |s - {a}| == 1;
    var b :| b in s - {a};
    assert |s - {a} - {b}| == 0;
    assert s == {a, b};
  }

  /** The `while len(clients) < 2` loop of `main`, taking messages from the
      server connection's queue. It stops early, with fewer than two
      clients, where the source would wait for more messages. `consumed`
      messages were taken off the queue, the set is the one they build, the
      loop did not stop at any earlier message, and on a normal exit the
      set holds exactly two distinct names. */
  method WaitForClients(connection: Connections.Connection) returns (clients: set<string>, consumed: nat)
    modifies connection
    ensures consumed <= |old(connection.queue)|
    ensures connection.queue == old(connection.queue)[consumed..]
    ensures connection.published == old(connection.published)
    ensures clients == Clients(old(connection.queue)[..consumed])
    ensures forall k :: 0 <= k < consumed ==> |Clients(old(connection.queue)[..k])| < 2
    ensures |clients| <= 2
    ensures |clients| < 2 ==> connection.queue == []
    ensures |clients| == 2 ==> exists a, b :: a != b && clients == {a, b}
  {
    ghost var queue := connection.queue;
    clients := {};
    consumed := 0;
    while |clients| < 2
      invariant consumed <= |queue|
      invariant connection.queue == queue[consumed..]
      invariant connection.published == old(connection.published)
      invariant clients == Clients(queue[..consumed])
      invariant forall k :: 0 <= k < consumed ==> |Clients(queue[..k])| < 2
      invariant |clients| <= 2
      decreases |connection.queue|
    {
      var message := connection.ReceiveMessage();
      if message.None? {
        break;
      }
      var m := message.value;
      ClientsStep(queue, consumed);
      if m.tag == ConnectedTag {
        clients := clients + {m.sender};
      } else if m.tag == DisconnectedTag {
        clients := clients - {m.sender};
      }
      assert clients == Track(Clients(queue[..consumed]), m);
      consumed := consumed + 1;
    }
    if |clients| == 2 {
      PairOf(clients);
    }
  }
}
