/**
 * The part of the `ai` library's `Message` the service reads: a role and a
 * content that is either plain text or a list of typed parts.
 */
module Messages {
  import opened Wrappers
  import opened Seqs

  datatype Role = System | User | Assistant | Data

  /** A structured content part: its `type` tag and its optional `text`. */
  datatype Part = Part(kind: string, text: Option<string>)

  datatype Content = Plain(text: string) | Parts(parts: seq<Part>)

  datatype Message = Message(role: Role, content: Content)

  /** `parts.find(item => item.type === 'text')`, as the index of the part found. */
  function FindTextPart(parts: seq<Part>): (r: Option<nat>)
    ensures r.None? ==> forall j :: 0 <= j < |parts| ==> parts[j].kind != "text"
    ensures r.Some? ==> r.value < |parts| && parts[r.value].kind == "text"
    ensures r.Some? ==> forall j :: 0 <= j < r.value ==> parts[j].kind != "text"
  {
    if parts == [] then None
    else if parts[0].kind == "text" then Some(0)
    else match FindTextPart(parts[1..])
      case None => None
      case Some(i) => Some(i + 1)
  }

  /**
   * `_extractTextContent`: plain content as it is; for structured content the text
   * of the first part tagged "text", and "" when there is no such part or it has no text.
   */
  function ExtractTextContent(m: Message): (r: string)
    ensures m.content.Plain? ==> r == m.content.text
    ensures m.content.Parts? && (forall j :: 0 <= j < |m.content.parts| ==> m.content.parts[j].kind != "text")
            ==> r == ""
    ensures m.content.Parts? ==> forall i ::
              0 <= i < |m.content.parts| && m.content.parts[i].kind == "text"
              && (forall j :: 0 <= j < i ==> m.content.parts[j].kind != "text")
              ==> r == m.content.parts[i].text.GetOr("")
  {
    match m.content
    case Plain(s) => s
    case Parts(ps) =>
      match FindTextPart(ps)
      case None => ""
      case Some(i) => ps[i].text.GetOr("")
  }

  /** `messages.filter(m => m.role === role)`. */
  function OfRole(messages: seq<Message>, role: Role): (r: seq<Message>)
  {
    Filter(messages, (m: Message) => m.role == role)
  }

  /** The turns of a role are present exactly when some message has that role. */
  lemma OfRoleEmpty(messages: seq<Message>, role: Role)
    ensures OfRole(messages, role) == [] <==> forall i :: 0 <= i < |messages| ==> messages[i].role != role
  {
    FilterEmpty(messages, (m: Message) => m.role == role);
  }

  /**
   * The last element of `OfRole(messages, role)` is the message of that role with the
   * greatest position in `messages`, not necessarily one of the final two elements.
   */
  lemma LastOfRoleIsLastByPosition(messages: seq<Message>, role: Role)
    requires OfRole(messages, role) != []
    ensures var turns := OfRole(messages, role);
            exists k ::
              && 0 <= k < |messages| && messages[k] == turns[|turns| - 1] && messages[k].role == role
              && forall j :: k < j < |messages| ==> messages[j].role != role
  {
    FilterLast(messages, (m: Message) => m.role == role);
  }
}
