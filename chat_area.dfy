/** The chat area: the send guard, the user message it appends, the assistant placeholder and the
    word-by-word streaming of the canned reply into that placeholder. */

module ChatArea {
  import opened Text
  import opened Decimal

  datatype Role = User | Assistant

  /** A chat message. `timestamp` is in milliseconds; an absent `isStreaming` is `false`. */
  datatype Message = Message(id: string, content: string, role: Role, timestamp: int, isStreaming: bool)

  /** The greeting the conversation starts with. */
  const Greeting: string :=
    "Hello! I'm your RAG assistant. I can help you analyze uploaded documents and answer questions based on their content. Upload some files to get started!"

  /** The messages on mount, `now` being the clock at that moment: the greeting, five minutes old. */
  function InitialMessages(now: int): seq<Message> {
    [Message("1", Greeting, Assistant, now - 1000 * 60 * 5, false)]
  }

  /** Rewrites the content and streaming flag of every message with the given id. */
  function SetContentById(ms: seq<Message>, id: string, text: string, streaming: bool): (r: seq<Message>)
    ensures |r| == |ms|
    ensures forall i {:trigger r[i]} :: 0 <= i < |ms| ==>
      r[i] == if ms[i].id == id then ms[i].(content := text, isStreaming := streaming) else ms[i]
  {
    if ms == [] then []
    else
      var n := |ms| - 1;
      SetContentById(ms[..n], id, text, streaming)
        + [if ms[n].id == id then ms[n].(content := text, isStreaming := streaming) else ms[n]]
  }

  /** A later rewrite of the same message overrides an earlier one. */
  lemma SetContentTwice(ms: seq<Message>, id: string, a: string, x: bool, b: string, y: bool)
    ensures SetContentById(SetContentById(ms, id, a, x), id, b, y) == SetContentById(ms, id, b, y)
  {
    var r, s := SetContentById(SetContentById(ms, id, a, x), id, b, y), SetContentById(ms, id, b, y);
    assert forall i :: 0 <= i < |ms| ==> r[i] == s[i];
  }

  /** Rewriting a message that is not in the list changes nothing. */
  lemma SetContentAbsent(ms: seq<Message>, id: string, text: string, streaming: bool)
    requires forall i :: 0 <= i < |ms| ==> ms[i].id != id
    ensures SetContentById(ms, id, text, streaming) == ms
  {
    var r := SetContentById(ms, id, text, streaming);
    assert forall i :: 0 <= i < |ms| ==> r[i] == ms[i];
  }

  /** The guard of `handleSend`: the input must hold something besides whitespace, and no reply may
      be under way. */
  predicate CanSend(input: string, loading: bool) {
    Trim(input) != "" && !loading
  }

  /** A message can be sent exactly when the input is not all whitespace and nothing is loading. */
  lemma CanSendIff(input: string, loading: bool)
    ensures CanSend(input, loading) <==> !AllWhitespace(input) && !loading
  {
  }

  const ReplyHead: string := "I understand you're asking about \""
  const ReplyTail: string :=
    "\". Based on the uploaded documents in the vector database, I can help you find relevant information. However, I notice you haven't uploaded any documents yet. Please use the \"Upload Files\" button in the sidebar to add documents that I can analyze and reference in my responses."

  /** The canned reply to a question. */
  function ResponseText(question: string): string {
    ReplyHead + question + ReplyTail
  }

  /** The words of the reply as the streaming splits them: on every single space. */
  function Words(text: string): seq<string> {
    Split(text, ' ')
  }

  /** The text shown after the first `k` words have arrived. */
  function Partial(words: seq<string>, k: nat): string
    requires k <= |words|
  {
    Join(words[..k], ' ')
  }

  /** One more word extends the text shown by a space and that word. */
  lemma PartialSnoc(words: seq<string>, k: nat)
    requires k < |words|
    ensures Partial(words, k + 1) == Partial(words, k) + (if k > 0 then " " else "") + words[k]
  {
    assert words[..k + 1][..k] == words[..k];
  }

  /** The text shown only grows while the reply streams in, always a prefix of the reply, and the
      last word completes the reply exactly. */
  lemma StreamPrefix(text: string, j: nat, k: nat)
    requires j <= k <= |Words(text)|
    ensures Partial(Words(text), j) <= Partial(Words(text), k) <= text
    ensures Partial(Words(text), |Words(text)|) == text
  {
    var w := Words(text);
    assert w[..k][..j] == w[..j];
    JoinPrefix(w[..k], j, ' ');
    JoinPrefix(w, k, ' ');
    SplitThenJoin(text, ' ');
    assert w[..|w|] == w;
  }

  /** A message sent at `at` with the given content. */
  function UserMessage(content: string, at: int): Message {
    Message(IntToString(at), content, User, at, false)
  }

  /** The empty assistant message appended when the reply starts at `at`. */
  function Placeholder(at: int): Message {
    Message(IntToString(at + 1), "", Assistant, at, true)
  }

  /** The reply lands on its own placeholder: when no earlier message has the placeholder's id and
      the send clock is not one more than the reply clock, the conversation ends with the
      user's message followed by the finished reply, and the earlier messages are untouched. */
  lemma ReplyLandsOnPlaceholder(ms: seq<Message>, question: string, reply: string, sendAt: int, replyAt: int)
    requires forall i :: 0 <= i < |ms| ==> ms[i].id != IntToString(replyAt + 1)
    requires sendAt != replyAt + 1
    ensures SetContentById(ms + [UserMessage(question, sendAt), Placeholder(replyAt)],
                           IntToString(replyAt + 1), reply, false)
         == ms + [UserMessage(question, sendAt), Message(IntToString(replyAt + 1), reply, Assistant, replyAt, false)]
  {
    var aid := IntToString(replyAt + 1);
    if IntToString(sendAt) == aid {
      IntToStringInjective(sendAt, replyAt + 1);
    }
    var user := UserMessage(question, sendAt);
    var before := ms + [user, Placeholder(replyAt)];
    var r := SetContentById(before, aid, reply, false);
    assert forall i :: 0 <= i < |ms| ==> r[i] == before[i] == ms[i];
    assert r[|ms|] == user;
  }

  /** The state of the chat area. */
  class Conversation {
    var messages: seq<Message>
    var inputValue: string
    var isLoading: bool

    /** Mounting the chat area at clock `now`. */
    constructor (now: int)
      ensures messages == InitialMessages(now) && inputValue == "" && !isLoading
    {
      messages := InitialMessages(now);
      inputValue := "";
      isLoading := false;
    }

    /** Typing into the input box. */
    method SetInput(value: string)
      modifies this
      ensures inputValue == value
      ensures messages == old(messages) && isLoading == old(isLoading)
    {
      inputValue := value;
    }

    /** The synchronous part of `handleSend`, at clock `now`: when the guard lets it through, the
        trimmed input is appended as a user message, the input is cleared and loading starts. */
    method HandleSend(now: int) returns (sent: bool, question: string)
      modifies this
      ensures sent <==> CanSend(old(inputValue), old(isLoading))
      ensures !sent ==> messages == old(messages) && inputValue == old(inputValue) && isLoading == old(isLoading)
      ensures sent ==> question == Trim(old(inputValue)) && question != ""
      ensures sent ==> messages == old(messages) + [UserMessage(question, now)]
      ensures sent ==> inputValue == "" && isLoading
    {
      question := Trim(inputValue);
      if question == "" || isLoading {
        return false, question;
      }
      messages := messages + [UserMessage(question, now)];
      inputValue := "";
      isLoading := true;
      return true, question;
    }

    /** The start of the delayed reply, at clock `at`: an empty streaming assistant message. */
    method AppendPlaceholder(at: int) returns (aid: string)
      modifies this
      ensures aid == IntToString(at + 1)
      ensures messages == old(messages) + [Placeholder(at)]
      ensures inputValue == old(inputValue) && isLoading == old(isLoading)
    {
      aid := IntToString(at + 1);
      messages := messages + [Placeholder(at)];
    }

    /** One word's timer: the word is added to the text so far (after a space unless it is the
        first), the placeholder shows that text and keeps streaming unless this is the last word,
        and the last word ends loading. */
    method DeliverWord(aid: string, words: seq<string>, index: nat, soFar: string) returns (text: string)
      requires index < |words|
      modifies this
      ensures text == soFar + (if index > 0 then " " else "") + words[index]
      ensures messages == SetContentById(old(messages), aid, text, index < |words| - 1)
      ensures isLoading == (if index == |words| - 1 then false else old(isLoading))
      ensures inputValue == old(inputValue)
    {
      text := soFar + (if index > 0 then " " else "") + words[index];
      messages := SetContentById(messages, aid, text, index < |words| - 1);
      if index == |words| - 1 {
        isLoading := false;
      }
    }

    /** The streaming of a reply into the message `aid`, one word after the other: when done, the
        message holds the whole reply and is no longer streaming, and loading is over. */
    method StreamResponse(aid: string, responseText: string)
      modifies this
      ensures messages == SetContentById(old(messages), aid, responseText, false)
      ensures !isLoading
      ensures inputValue == old(inputValue)
    {
      var words := Words(responseText);
      var currentText := "";
      for index := 0 to |words|
        invariant currentText == Partial(words, index)
        invariant index == 0 ==> messages == old(messages) && isLoading == old(isLoading)
        invariant index > 0 ==> messages == SetContentById(old(messages), aid, currentText, index < |words|)
        invariant index == |words| ==> !isLoading
        invariant inputValue == old(inputValue)
      {
        PartialSnoc(words, index);
        currentText := DeliverWord(aid, words, index, currentText);
        if index > 0 {
          SetContentTwice(old(messages), aid, Partial(words, index), true, currentText, index < |words| - 1);
        }
      }
      StreamPrefix(responseText, |words|, |words|);
    }

    /** A whole exchange: the send at clock `sendAt` and, when it went through, the reply that starts
        at clock `replyAt`. */
    method Exchange(sendAt: int, replyAt: int) returns (sent: bool)
      modifies this
      ensures sent <==> CanSend(old(inputValue), old(isLoading))
      ensures !sent ==> messages == old(messages) && inputValue == old(inputValue) && isLoading == old(isLoading)
      ensures sent ==> messages == SetContentById(
                         old(messages) + [UserMessage(Trim(old(inputValue)), sendAt), Placeholder(replyAt)],
                         IntToString(replyAt + 1), ResponseText(Trim(old(inputValue))), false)
      ensures sent ==> inputValue == "" && !isLoading
    {
      var question;
      sent, question := HandleSend(sendAt);
      if sent {
        ghost var sentMessages := messages;
        var aid := AppendPlaceholder(replyAt);
        assert messages == sentMessages + [Placeholder(replyAt)]
                        == old(messages) + [UserMessage(Trim(old(inputValue)), sendAt), Placeholder(replyAt)];
        var reply := ResponseText(question);
        StreamResponse(aid, reply);
      }
    }
  }
}
