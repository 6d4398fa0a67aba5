/** util.py: the earlier topic parser, returning (sender, tag, payload). */
module Util {
  import opened Wrappers
  import Builtins
  import opened Messages

  /** `parse_message`: unpacks exactly four `/`-separated topic fields and
      returns fields 2 and 4 with the payload; the receiver field is read but
      dropped, and an unknown scope only prints a warning. */
  function ParseMessage(topic: string, payload: string): (r: Result<(string, string, string), ParseError>)
    ensures r.Ok? <==> Builtins.Count(topic, TopicSeparator) == 3
    ensures r.Err? ==> r.error.fields == Builtins.Count(topic, TopicSeparator) + 1
    ensures r.Ok? ==> TopicSeparator !in r.value.0 && TopicSeparator !in r.value.1 && r.value.2 == payload
    ensures r.Ok? ==>
      exists scope, receiver :: TopicSeparator !in scope && TopicSeparator !in receiver &&
        topic == scope + "/" + r.value.0 + "/" + receiver + "/" + r.value.1
  {
    var fields := Builtins.Split(topic, TopicSeparator);
    if |fields| != 4 then Err(WrongFieldCount(|fields|))
    else
      FourFields(topic);
      Ok((fields[1], fields[3], payload))
  }

  /** `parse_message` agrees with `Message.parse`: the same topics fail, and
      on success it returns the parsed sender, tag and content, whatever the
      receiver field and the scope were. */
  lemma ParseMessageAgrees(topic: string, payload: string)
    ensures ParseMessage(topic, payload).Ok? <==> Parse(topic, payload).Ok?
    ensures Parse(topic, payload).Err? ==> ParseMessage(topic, payload).error == Parse(topic, payload).error
    ensures Parse(topic, payload).Ok? ==>
      var m := Parse(topic, payload).value.message;
      ParseMessage(topic, payload).value == (m.sender, m.tag, m.content)
  {
  }

  /** The sender, tag and content of a routable message survive its topic:
      whatever its receiver, `parse_message` returns them. */
  lemma ParseMessageOfTopic(m: Message)
    requires m.Routable()
    ensures ParseMessage(m.Topic(), m.content) == Ok((m.sender, m.tag, m.content))
  {
    TopicFields(m);
  }
}
