/** What an agent sends to and gets back from `generate_reply`. The model
    behind `generate_reply` is outside this model: its replies are inputs. */
module Replies {

  datatype Option<+T> = None | Some(value: T)

  /** The Python exception the pipeline can raise on a reply value:
      an attribute looked up on `None`. */
  datatype AttributeError = NoneHasNoAttribute(attribute: string)

  datatype Result<+T> = Ok(value: T) | Err(error: AttributeError)

  /** One chat message, `{"role": ..., "content": ...}`. */
  datatype Message = Message(role: string, content: string)

  /** The `content` entry of a dict reply: missing, `None`, or a string. */
  datatype Field = Absent | Null | Value(text: string)

  /** A value `generate_reply` can return: a string, a dict, or `None`. */
  datatype Reply = Text(text: string) | Record(content: Field) | NoReply

  /** The single user turn every agent in the pipeline sends. */
  function UserTurn(content: string): (turn: seq<Message>)
    ensures |turn| == 1 && turn[0].role == "user" && turn[0].content == content
  {
    [Message("user", content)]
  }

  /** `reply if isinstance(reply, str) else reply.get("content", "")`:
      `Some` for a string, `None` for Python's `None`; a `None` reply has no
      `get`. */
  function Unwrap(reply: Reply): (r: Result<Option<string>>)
    ensures r.Err? <==> reply.NoReply?
    ensures r.Ok? && r.value.None? <==> reply == Record(Null)
    ensures reply.Text? ==> r == Ok(Some(reply.text))
    ensures reply == Record(Absent) ==> r == Ok(Some(""))
    ensures reply.Record? && reply.content.Value? ==> r == Ok(Some(reply.content.text))
  {
    match reply
    case Text(s) => Ok(Some(s))
    case Record(Absent) => Ok(Some(""))
    case Record(Null) => Ok(None)
    case Record(Value(s)) => Ok(Some(s))
    case NoReply => Err(NoneHasNoAttribute("get"))
  }
}
