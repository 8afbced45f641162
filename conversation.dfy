/**
 * The state of the `App` component and its submit handler `callChatGPT`
 * (src/App.tsx:5-58). The three `useState` hooks become fields, each
 * `setX` call an assignment, and the awaited POST to the completion
 * endpoint becomes an `Outcome` handed to the handler.
 */
module Conversation {
  import opened Wrappers
  import opened Text
  import opened Compiler
  import opened Errors

  datatype Role = User | Assistant

  /** `{ role, content }`: a user turn holds the prompt as typed, an
      assistant turn the compiled markup of the reply. */
  datatype Message = Message(role: Role, content: string)

  /** How the awaited request ended: the reply text
      (`choices[0].message.content`), or the value the catch block receives. */
  datatype Outcome = Reply(raw: string) | Failed(failure: Failure)

  /** Turn i of a transcript is one the handler can have appended: a user
      turn has visible text; an assistant turn is compiled markup (opening `<ul>`, closing `</ul>`) and
      answers the user turn right before it. */
  ghost predicate WellPlaced(ms: seq<Message>, i: int)
    requires 0 <= i < |ms|
  {
    match ms[i].role
    case User => !IsBlank(ms[i].content)
    case Assistant => i > 0 && ms[i - 1].role == User && IsContainer(ms[i].content)
  }

  ghost predicate WellFormed(ms: seq<Message>)
  {
    forall i :: 0 <= i < |ms| ==> WellPlaced(ms, i)
  }

  /** Appending a turn leaves the earlier turns as they were placed. */
  lemma PrefixPlaced(ms: seq<Message>, m: Message)
    requires WellFormed(ms)
    ensures forall i :: 0 <= i < |ms| ==> WellPlaced(ms + [m], i)
  {
    var ext := ms + [m];
    forall i | 0 <= i < |ms| ensures WellPlaced(ext, i) {
      assert WellPlaced(ms, i);
      assert ext[i] == ms[i];
      if i > 0 {
        assert ext[i - 1] == ms[i - 1];
      }
    }
  }

  /** A non-blank prompt appended as a user turn keeps the transcript well formed. */
  lemma AppendUser(ms: seq<Message>, text: string)
    requires WellFormed(ms) && !IsBlank(text)
    ensures WellFormed(ms + [Message(User, text)])
  {
    PrefixPlaced(ms, Message(User, text));
  }

  /** Compiled markup appended right after a user turn keeps the transcript
      well formed. */
  lemma AppendAssistant(ms: seq<Message>, markup: string)
    requires WellFormed(ms) && |ms| > 0 && ms[|ms| - 1].role == User
    requires IsContainer(markup)
    ensures WellFormed(ms + [Message(Assistant, markup)])
  {
    var ext := ms + [Message(Assistant, markup)];
    PrefixPlaced(ms, ext[|ms|]);
    assert ext[|ms| - 1] == ms[|ms| - 1];
    assert WellPlaced(ext, |ms|);
  }

  /** The transcript after one submission of `prompt` that ended with `outcome`. */
  function NextMessages(history: seq<Message>, prompt: string, outcome: Outcome): seq<Message>
  {
    if IsBlank(prompt) then history
    else
      var withUser := history + [Message(User, prompt)];
      match outcome
      case Reply(raw) => withUser + [Message(Assistant, Compile(raw))]
      case Failed(_) => withUser
  }

  /** The error banner after one submission. */
  function NextError(errormsg: string, prompt: string, outcome: Outcome): string
  {
    if IsBlank(prompt) then errormsg
    else
      match outcome
      case Reply(_) => ""
      case Failed(failure) => Describe(failure)
  }

  /** The input field after one submission. */
  function NextPrompt(prompt: string): string
  {
    if IsBlank(prompt) then prompt else ""
  }

  /** The conversation sent to the endpoint, if any. */
  function RequestFor(history: seq<Message>, prompt: string): Option<seq<Message>>
  {
    if IsBlank(prompt) then None else Some(history + [Message(User, prompt)])
  }

  /** What one submission does to the state. A blank prompt changes nothing
      and sends nothing. Otherwise the request is the prior history followed
      by the untrimmed prompt as a user turn; the transcript keeps the prior
      history as its prefix, then that same user turn, then (on a reply only)
      the compiled reply; the banner is cleared on a reply and set to the
      classified failure otherwise; and the input field is emptied. */
  lemma SubmitEffects(history: seq<Message>, errormsg: string, prompt: string, outcome: Outcome)
    ensures IsBlank(prompt) ==>
      && RequestFor(history, prompt) == None
      && NextMessages(history, prompt, outcome) == history
      && NextError(errormsg, prompt, outcome) == errormsg
      && NextPrompt(prompt) == prompt
    ensures !IsBlank(prompt) ==>
      var next := NextMessages(history, prompt, outcome);
      && RequestFor(history, prompt) == Some(next[..|history| + 1])
      && |next| == |history| + (if outcome.Reply? then 2 else 1)
      && next[..|history|] == history
      && next[|history|] == Message(User, prompt)
      && (outcome.Reply? ==> next[|history| + 1] == Message(Assistant, Compile(outcome.raw)))
      && NextError(errormsg, prompt, outcome) == (if outcome.Reply? then "" else Describe(outcome.failure))
      && NextPrompt(prompt) == ""
  {
    if !IsBlank(prompt) {
      var withUser := history + [Message(User, prompt)];
      assert withUser[..|history|] == history;
      match outcome {
        case Reply(raw) =>
          var next := withUser + [Message(Assistant, Compile(raw))];
          assert NextMessages(history, prompt, outcome) == next;
          assert next[..|history| + 1] == withUser;
          assert next[..|history|] == history;
        case Failed(_) =>
          assert NextMessages(history, prompt, outcome) == withUser;
          assert withUser[..|history| + 1] == withUser;
      }
    }
  }

  /** One submission keeps the transcript well formed. */
  lemma NextMessagesWellFormed(history: seq<Message>, prompt: string, outcome: Outcome)
    requires WellFormed(history)
    ensures WellFormed(NextMessages(history, prompt, outcome))
  {
    if !IsBlank(prompt) {
      var withUser := history + [Message(User, prompt)];
      AppendUser(history, prompt);
      if outcome.Reply? {
        AppendAssistant(withUser, Compile(outcome.raw));
      }
    }
  }

  class Chat {
    var messages: seq<Message>
    var prompt: string
    var errormsg: string

    ghost predicate Valid()
      reads this
    {
      WellFormed(messages)
    }

    /** The initial state of the three hooks (src/App.tsx:5-9). */
    constructor ()
      ensures Valid()
      ensures messages == [] && prompt == "" && errormsg == ""
    {
      messages := [];
      prompt := "";
      errormsg := "";
    }

    /** The text area's change handler (src/App.tsx:122): only the prompt changes. */
    method SetPrompt(text: string)
      requires Valid()
      modifies this
      ensures Valid()
      ensures prompt == text && messages == old(messages) && errormsg == old(errormsg)
    {
      prompt := text;
    }

    /** `callChatGPT`: the new state is the one `SubmitEffects` describes. */
    method Send(outcome: Outcome) returns (request: Option<seq<Message>>)
      requires Valid()
      modifies this
      ensures Valid()
      ensures request == RequestFor(old(messages), old(prompt))
      ensures messages == NextMessages(old(messages), old(prompt), outcome)
      ensures errormsg == NextError(old(errormsg), old(prompt), outcome)
      ensures prompt == NextPrompt(old(prompt))
    {
      NextMessagesWellFormed(messages, prompt, outcome);
      if Trim(prompt) == "" {
        return None;
      }
      ghost var next := NextMessages(messages, prompt, outcome);
      var userMessage := Message(User, prompt);
      var history := messages;
      messages := messages + [userMessage];
      request := Some(history + [userMessage]);
      match outcome {
        case Reply(raw) =>
          var formatted := Compile(raw);
          messages := messages + [Message(Assistant, formatted)];
          errormsg := "";
          assert messages == next;
        case Failed(failure) =>
          errormsg := Describe(failure);
          assert messages == next;
      }
      prompt := "";
    }
  }
}
