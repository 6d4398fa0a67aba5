/** connection.py: the earlier connection over the message bus. It accepts
    only messages addressed to itself by name (no broadcasts), applies a
    per-role veto and hands messages out first in, first out. */
module Connections {
  import opened Wrappers
  import Builtins
  import opened Messages
  import Netcode

  /** What `_on_message` does with one message from the bus. */
  datatype Delivery =
    | Malformed(fields: nat)            // the four-name unpacking raises ValueError
    | InvalidTopic                      // dropped with "invalid topic"
    | InvalidMessage(message: Message)  // dropped by the role's veto
    | Accepted(message: Message)        // appended to the queue

  /** `_is_message_invalid` of the two subclasses: a client takes messages
      from the server only, the server takes none from itself. */
  predicate Rejects(role: Netcode.Role, m: Message)
    ensures role == Netcode.ClientRole ==> (Rejects(role, m) <==> m.sender != Netcode.ServerUid)
    ensures role == Netcode.ServerRole ==> (Rejects(role, m) <==> m.sender == Netcode.ServerUid)
    ensures role == Netcode.ClientRole ==> (Rejects(role, m) <==> Netcode.Vetoes(role, m))
  {
    if role == Netcode.ClientRole then m.sender != Netcode.ServerUid
    else m.sender == Netcode.ServerUid
  }

  /** The filter of `_on_message` for a connection named `uid`. A message
      that gets through has exactly the received topic and payload, is
      addressed to this connection by name and passes the veto. */
  function Deliver(uid: string, role: Netcode.Role, topic: string, payload: string): (d: Delivery)
    ensures d.Malformed? <==> Builtins.Count(topic, TopicSeparator) != 3
    ensures d.Malformed? ==> d.fields == Builtins.Count(topic, TopicSeparator) + 1
    ensures d.InvalidMessage? || d.Accepted? ==>
      var m := d.message;
      m.Routable() && m.Topic() == topic && m.content == payload && m.receiver == uid
    ensures d.InvalidMessage? ==> Rejects(role, d.message)
    ensures d.Accepted? ==> !Rejects(role, d.message)
  {
    var f := Builtins.Split(topic, TopicSeparator);
    if |f| != 4 then Malformed(|f|)
    else
      var scope, sender, receiver, tag := f[0], f[1], f[2], f[3];
      if scope != Scope || receiver != uid then InvalidTopic
      else
        var m := Message(sender, receiver, tag, payload);
        ScopeDecidesTopic(topic, payload);
        if Rejects(role, m) then InvalidMessage(m) else Accepted(m)
  }

  /** A routable message reaches the queue of connection `uid` exactly when
      it is addressed to that name and the role does not reject its sender. */
  lemma AcceptedIff(uid: string, role: Netcode.Role, m: Message)
    requires m.Routable()
    ensures Deliver(uid, role, m.Topic(), m.content) == Accepted(m) <==>
      m.receiver == uid && !Rejects(role, m)
  {
    TopicFields(m);
  }

  /** A broadcast is not taken in: its topic is dropped by any connection
      not literally named `*`. */
  lemma BroadcastDropped(uid: string, role: Netcode.Role, m: Message)
    requires m.Routable() && m.receiver == Netcode.BroadcastUid
    requires uid != Netcode.BroadcastUid
    ensures Deliver(uid, role, m.Topic(), m.content) == InvalidTopic
  {
    TopicFields(m);
  }

  /** For a message sent to a connection by name, the earlier connection and
      the later channel agree on accepting it, provided the client is not
      named `server` and the server is. */
  lemma AgreesWithChannel(uid: string, role: Netcode.Role, m: Message)
    requires m.Routable() && m.receiver == uid
    requires role == Netcode.ServerRole <==> uid == Netcode.ServerUid
    ensures Deliver(uid, role, m.Topic(), m.content) == Accepted(m) <==>
      Netcode.Deliver(uid, role, m.Topic(), m.content) == Netcode.Accepted(m)
  {
    AcceptedIff(uid, role, m);
    Netcode.AcceptedIff(uid, role, m);
  }

  /** `Connection` with the overrides of `ClientConnection` and
      `ServerConnection`. */
  class Connection {
    const uid: string
    const role: Netcode.Role
    /** `_message_queue`: accepted messages not yet received, oldest first. */
    var queue: seq<Message>
    /** Every `publish(topic, payload)` handed to the bus client, in order;
        the payload is passed on as given, possibly None. */
    var published: seq<(string, Option<string>)>

    /** `ClientConnection(broker_address, uid)` */
    constructor Client(uid: string)
      ensures this.uid == uid && role == Netcode.ClientRole
      ensures queue == [] && published == []
    {
      this.uid := uid;
      role := Netcode.ClientRole;
      queue := [];
      published := [];
    }

    /** `ServerConnection(broker_address)`: the server's name is fixed. */
    constructor Server()
      ensures uid == Netcode.ServerUid && role == Netcode.ServerRole
      ensures queue == [] && published == []
    {
      uid := Netcode.ServerUid;
      role := Netcode.ServerRole;
      queue := [];
      published := [];
    }

    /** `_on_message`: an accepted message goes to the end of the queue;
        everything else leaves it as it was. */
    method OnMessage(topic: string, payload: string) returns (d: Delivery)
      modifies this
      ensures d == Deliver(uid, role, topic, payload)
      ensures queue == if d.Accepted? then old(queue) + [d.message] else old(queue)
      ensures published == old(published)
    {
      d := Deliver(uid, role, topic, payload);
      if d.Accepted? {
        queue := queue + [d.message];
      }
    }

    /** `_send_message`: the topic is `othello/<uid>/<receiver>/<tag>`
        (it does not depend on the content). */
    method SendMessage(receiver: string, tag: string, content: Option<string>)
      modifies this
      ensures published == old(published) + [(Scope + "/" + uid + "/" + receiver + "/" + tag, content)]
      ensures queue == old(queue)
    {
      var topic := Message(uid, receiver, tag, "").Topic();
      published := published + [(topic, content)];
    }

    /** `ClientConnection.send_to_server` */
    method SendToServer(tag: string, content: Option<string>)
      requires role == Netcode.ClientRole
      modifies this
      ensures published == old(published) + [(Scope + "/" + uid + "/" + Netcode.ServerUid + "/" + tag, content)]
      ensures queue == old(queue)
    {
      SendMessage(Netcode.ServerUid, tag, content);
    }

    /** `receive_message`, once: the oldest message is removed and returned;
        None where the source would keep waiting. */
    method ReceiveMessage() returns (m: Option<Message>)
      modifies this
      ensures old(queue) == [] ==> m == None && queue == []
      ensures old(queue) != [] ==> m == Some(old(queue)[0]) && queue == old(queue)[1..]
      ensures published == old(published)
    {
      if queue == [] {
        return None;
      }
      m := Some(queue[0]);
      queue := queue[1..];
    }
  }
}
