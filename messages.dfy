/** message.py: a message and its four-part topic `scope/sender/receiver/tag`.
    netcode.py declares the same four-field dataclass and gives it the
    `topic` property; both are this one datatype. */
module Messages {
  import opened Wrappers
  import Builtins

  const Scope: string := "othello"
  const TopicSeparator: char := '/'

  datatype Message = Message(sender: string, receiver: string, tag: string, content: string) {
    /** `Message.topic` (netcode.py). */
    function Topic(): (t: string)
      ensures t == Scope + "/" + sender + "/" + receiver + "/" + tag
    {
      var fields := [Scope, sender, receiver, tag];
      assert fields[1..][1..][1..] == [tag];
      assert Builtins.Join(fields[1..][1..], TopicSeparator) == receiver + "/" + tag;
      assert Builtins.Join(fields[1..], TopicSeparator) == sender + "/" + receiver + "/" + tag;
      Builtins.Join(fields, TopicSeparator)
    }

    /** No address field holds the separator, so the topic names exactly
        these fields. */
    predicate Routable()
    {
      TopicSeparator !in sender && TopicSeparator !in receiver && TopicSeparator !in tag
    }
  }

  /** Splitting the topic of a routable message gives back its scope and its
      three address fields, in order. */
  lemma {:induction false} TopicFields(m: Message)
    requires m.Routable()
    ensures Builtins.Split(m.Topic(), TopicSeparator) == [Scope, m.sender, m.receiver, m.tag]
  {
    var fields := [Scope, m.sender, m.receiver, m.tag];
    assert TopicSeparator !in Scope;
    assert forall i :: 0 <= i < |fields| ==> TopicSeparator !in fields[i];
    Builtins.SplitJoin(fields, TopicSeparator);
  }

  /** A topic that splits into four fields is those fields joined by `/`. */
  lemma {:induction false} FourFields(topic: string)
    requires |Builtins.Split(topic, TopicSeparator)| == 4
    ensures var f := Builtins.Split(topic, TopicSeparator);
      topic == f[0] + "/" + f[1] + "/" + f[2] + "/" + f[3]
  {
    var f := Builtins.Split(topic, TopicSeparator);
    Builtins.JoinSplit(topic, TopicSeparator);
    assert f[1..][1..][1..] == [f[3]];
    assert Builtins.Join(f[1..][1..], TopicSeparator) == f[2] + "/" + f[3];
    assert Builtins.Join(f[1..], TopicSeparator) == f[1] + "/" + f[2] + "/" + f[3];
  }

  /** Unpacking the split topic into four names raises ValueError. */
  datatype ParseError = WrongFieldCount(fields: nat)

  /** A parsed message, and whether the unknown-scope warning was printed. */
  datatype Parsed = Parsed(message: Message, unknownScope: bool)

  /** For a topic of four fields, the message built from fields 2 to 4 has
      that very topic exactly when the first field is the scope. */
  lemma {:induction false} ScopeDecidesTopic(topic: string, payload: string)
    requires |Builtins.Split(topic, TopicSeparator)| == 4
    ensures var f := Builtins.Split(topic, TopicSeparator);
      Message(f[1], f[2], f[3], payload).Topic() == topic <==> f[0] == Scope
  {
    var f := Builtins.Split(topic, TopicSeparator);
    var m := Message(f[1], f[2], f[3], payload);
    Builtins.JoinSplit(topic, TopicSeparator);
    if f[0] == Scope {
      assert f == [Scope, m.sender, m.receiver, m.tag];
    }
    if m.Topic() == topic {
      TopicFields(m);
    }
  }

  /** `Message.parse`: splits the topic on `/` and unpacks exactly four
      fields; fields 2, 3 and 4 are the sender, receiver and tag, the payload
      is the content. A scope other than `othello` only raises the warning. */
  function Parse(topic: string, payload: string): (r: Result<Parsed, ParseError>)
    ensures r.Ok? <==> Builtins.Count(topic, TopicSeparator) == 3
    ensures r.Err? ==> r.error.fields == Builtins.Count(topic, TopicSeparator) + 1
    ensures r.Ok? ==> r.value.message.Routable() && r.value.message.content == payload
    ensures r.Ok? ==> (r.value.unknownScope <==> r.value.message.Topic() != topic)
    ensures r.Ok? ==>
      var m := r.value.message;
      exists scope :: TopicSeparator !in scope &&
        topic == scope + "/" + m.sender + "/" + m.receiver + "/" + m.tag &&
        (r.value.unknownScope <==> scope != Scope)
  {
    var fields := Builtins.Split(topic, TopicSeparator);
    if |fields| != 4 then Err(WrongFieldCount(|fields|))
    else
      ScopeDecidesTopic(topic, payload);
      FourFields(topic);
      Ok(Parsed(Message(fields[1], fields[2], fields[3], payload), fields[0] != Scope))
  }

  /** Parsing the topic and content of a routable message gives the message
      back, with no warning. */
  lemma ParseTopic(m: Message)
    requires m.Routable()
    ensures Parse(m.Topic(), m.content) == Ok(Parsed(m, false))
  {
    TopicFields(m);
  }
}
