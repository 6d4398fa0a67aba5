/** netcode.py: a channel over the message bus. Incoming messages pass a
    topic filter and a per-role veto and are appended to a mailbox; the
    consumer removes the first mailbox message that satisfies a condition. */
module Netcode {
  import opened Wrappers
  import Builtins
  import opened Messages

  const ServerUid: string := "server"
  const BroadcastUid: string := "*"

  /** `ClientChannel` or `ServerChannel`. */
  datatype Role = ClientRole | ServerRole

  /** What `_on_message` does with one message from the bus. */
  datatype Delivery =
    | Malformed(fields: nat)            // the four-name unpacking raises ValueError
    | OwnBroadcast                      // own broadcast echoed back: dropped silently
    | InvalidTopic                      // dropped with "invalid topic"
    | InvalidMessage(message: Message)  // dropped by the role's veto
    | Accepted(message: Message)        // appended to the mailbox

  /** `_is_message_invalid`: a client takes messages from the server only;
      the server vetoes nothing. */
  predicate Vetoes(role: Role, m: Message)
    ensures role == ServerRole ==> !Vetoes(role, m)
    ensures role == ClientRole ==> (Vetoes(role, m) <==> m.sender != ServerUid)
  {
    role == ClientRole && m.sender != ServerUid
  }

  /** The message is for `uid`: sent to it directly or broadcast. */
  predicate AddressedTo(uid: string, m: Message)
  {
    m.receiver == uid || m.receiver == BroadcastUid
  }

  /** The filter of `_on_message` for a channel named `uid`. A message that
      gets through has exactly the received topic and payload, is addressed
      to the channel, comes from someone else and passes the veto. */
  function Deliver(uid: string, role: Role, topic: string, payload: string): (d: Delivery)
    ensures d.Malformed? <==> Builtins.Count(topic, TopicSeparator) != 3
    ensures d.Malformed? ==> d.fields == Builtins.Count(topic, TopicSeparator) + 1
    ensures d.InvalidMessage? || d.Accepted? ==>
      var m := d.message;
      m.Routable() && m.Topic() == topic && m.content == payload &&
      m.sender != uid && AddressedTo(uid, m)
    ensures d.InvalidMessage? ==> Vetoes(role, d.message)
    ensures d.Accepted? ==> !Vetoes(role, d.message)
  {
    var f := Builtins.Split(topic, TopicSeparator);
    if |f| != 4 then Malformed(|f|)
    else
      var scope, sender, receiver, tag := f[0], f[1], f[2], f[3];
      if scope == Scope && sender == uid && receiver == BroadcastUid then OwnBroadcast
      else if scope != Scope || sender == uid || (receiver != uid && receiver != BroadcastUid) then InvalidTopic
      else
        var m := Message(sender, receiver, tag, payload);
        ScopeDecidesTopic(topic, payload);
        if Vetoes(role, m) then InvalidMessage(m) else Accepted(m)
  }

  /** A routable message reaches the mailbox of channel `uid` exactly when
      it is addressed to the channel, comes from someone else and passes
      the role's veto. */
  lemma AcceptedIff(uid: string, role: Role, m: Message)
    requires m.Routable()
    ensures Deliver(uid, role, m.Topic(), m.content) == Accepted(m) <==>
      m.sender != uid && AddressedTo(uid, m) && !Vetoes(role, m)
  {
    TopicFields(m);
  }

  /** The channel's own broadcasts come back from the bus and are dropped
      silently. */
  lemma OwnBroadcastDropped(uid: string, role: Role, tag: string, content: string)
    requires Message(uid, BroadcastUid, tag, content).Routable()
    ensures Deliver(uid, role, Message(uid, BroadcastUid, tag, content).Topic(), content) == OwnBroadcast
  {
    TopicFields(Message(uid, BroadcastUid, tag, content));
  }

  /** A four-field topic outside the `othello` scope is dropped. */
  lemma ForeignScopeDropped(uid: string, role: Role, topic: string, payload: string)
    requires var f := Builtins.Split(topic, TopicSeparator); |f| == 4 && f[0] != Scope
    ensures Deliver(uid, role, topic, payload) == InvalidTopic
  {
  }

  /** A server broadcast reaches every client and is dropped by the server
      itself. */
  lemma ServerBroadcast(clientUid: string, tag: string, content: string)
    requires clientUid != ServerUid
    requires Message(ServerUid, BroadcastUid, tag, content).Routable()
    ensures var m := Message(ServerUid, BroadcastUid, tag, content);
      Deliver(clientUid, ClientRole, m.Topic(), content) == Accepted(m) &&
      Deliver(ServerUid, ServerRole, m.Topic(), content) == OwnBroadcast
  {
    var m := Message(ServerUid, BroadcastUid, tag, content);
    AcceptedIff(clientUid, ClientRole, m);
    OwnBroadcastDropped(ServerUid, ServerRole, tag, content);
  }

  /** Position of the first message of `q` that satisfies `condition`. */
  function FirstMatch(q: seq<Message>, condition: Message -> bool): (i: Option<nat>)
    ensures i.Some? ==> i.value < |q| && condition(q[i.value])
    ensures i.Some? ==> forall j :: 0 <= j < i.value ==> !condition(q[j])
    ensures i.None? ==> forall j :: 0 <= j < |q| ==> !condition(q[j])
  {
    if |q| == 0 then None
    else if condition(q[0]) then Some(0)
    else match FirstMatch(q[1..], condition)
      case None => None
      case Some(k) => Some(k + 1)
  }

  /** `AbstractChannel` with the overrides of its two subclasses. */
  class Channel {
    const uid: string
    const role: Role
    /** `_mailbox`: accepted messages not yet received, oldest first. */
    var mailbox: seq<Message>
    /** Every `publish(topic, payload)` handed to the bus client, in order. */
    var published: seq<(string, string)>

    /** `ClientChannel(broker_address, uid)` */
    constructor Client(uid: string)
      ensures this.uid == uid && role == ClientRole
      ensures mailbox == [] && published == []
    {
      this.uid := uid;
      role := ClientRole;
      mailbox := [];
      published := [];
    }

    /** `ServerChannel()`: the server's name is fixed. */
    constructor Server()
      ensures uid == ServerUid && role == ServerRole
      ensures mailbox == [] && published == []
    {
      uid := ServerUid;
      role := ServerRole;
      mailbox := [];
      published := [];
    }

    /** `_on_message`: an accepted message goes to the end of the mailbox;
        everything else leaves it as it was. */
    method OnMessage(topic: string, payload: string) returns (d: Delivery)
      modifies this
      ensures d == Deliver(uid, role, topic, payload)
      ensures mailbox == if d.Accepted? then old(mailbox) + [d.message] else old(mailbox)
      ensures published == old(published)
    {
      d := Deliver(uid, role, topic, payload);
      if d.Accepted? {
        mailbox := mailbox + [d.message];
      }
    }

    /** `_send_message`: publishes under the channel's own name; no content
        is sent as the empty string. */
    method SendMessage(receiver: string, tag: string, content: Option<string>)
      modifies this
      ensures var m := Message(uid, receiver, tag, content.GetOr(""));
        published == old(published) + [(m.Topic(), m.content)]
      ensures mailbox == old(mailbox)
    {
      var message := Message(uid, receiver, tag, content.GetOr(""));
      published := published + [(message.Topic(), message.content)];
    }

    /** `ClientChannel.send_to_server` */
    method SendToServer(tag: string, content: Option<string>)
      requires role == ClientRole
      modifies this
      ensures var m := Message(uid, ServerUid, tag, content.GetOr(""));
        published == old(published) + [(m.Topic(), m.content)]
      ensures mailbox == old(mailbox)
    {
      SendMessage(ServerUid, tag, content);
    }

    /** `ServerChannel.send_to_client` */
    method SendToClient(clientUid: string, tag: string, content: Option<string>)
      requires role == ServerRole
      modifies this
      ensures var m := Message(uid, clientUid, tag, content.GetOr(""));
        published == old(published) + [(m.Topic(), m.content)]
      ensures mailbox == old(mailbox)
    {
      SendMessage(clientUid, tag, content);
    }

    /** `ServerChannel.broadcast`: addressed to `*`. */
    method Broadcast(tag: string, content: Option<string>)
      requires role == ServerRole
      modifies this
      ensures var m := Message(uid, BroadcastUid, tag, content.GetOr(""));
        published == old(published) + [(m.Topic(), m.content)]
      ensures mailbox == old(mailbox)
    {
      SendMessage(BroadcastUid, tag, content);
    }

    /** `receive_matching`, one scan of the mailbox: removes and returns the
        first message satisfying `condition`, keeping the others in order;
        None where the source would scan again. */
    method ReceiveMatching(condition: Message -> bool) returns (m: Option<Message>)
      modifies this
      ensures match FirstMatch(old(mailbox), condition)
        case None => m == None && mailbox == old(mailbox)
        case Some(i) => m == Some(old(mailbox)[i]) && mailbox == old(mailbox)[..i] + old(mailbox)[i + 1..]
      ensures published == old(published)
    {
      var i := 0;
      while i < |mailbox|
        invariant 0 <= i <= |mailbox|
        invariant mailbox == old(mailbox) && published == old(published)
        invariant forall j :: 0 <= j < i ==> !condition(mailbox[j])
      {
        var message := mailbox[i];
        if condition(message) {
          assert Builtins.IndexOf(mailbox, message) == i;
          mailbox := Builtins.RemoveFirst(mailbox, message);
          return Some(message);
        }
        i := i + 1;
      }
      return None;
    }

    /** `receive_any`: takes the oldest message. */
    method ReceiveAny() returns (m: Option<Message>)
      modifies this
      ensures old(mailbox) == [] ==> m == None && mailbox == []
      ensures old(mailbox) != [] ==> m == Some(old(mailbox)[0]) && mailbox == old(mailbox)[1..]
      ensures published == old(published)
    {
      m := ReceiveMatching(_ => true);
    }
  }
}
