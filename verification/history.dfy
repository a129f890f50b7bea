/** The "Submit" and "Reset Chat" handlers and the chat history kept in the
    session state (infosec-chatbot-aws.py, lines 52-138).

    Streamlit reruns the whole script on every click; the session state
    survives the reruns, and so does whatever a handler appended before it
    raised. A session is therefore modelled as a sequence of clicks folded
    over the stored history. The sanitizer and the remote generation call
    are parameters: the model states what is done with their results, not
    what they compute. */
module Chat {
  import opened Wrappers
  import opened Errors
  import opened Prompts
  import opened Responses

  /** One entry of `st.session_state.chat_history`. */
  datatype Entry = Entry(role: string, text: string)

  const AssistantRole := "assistant"

  type History = seq<Entry>

  /** The knowledge-base generation call: the prompt in, the response
      dictionary or the exception it raised out. */
  type Generator = string -> Result<Response, Error>

  /** `get_answers` (lines 52-103): select the prompt for the task, then send
      it. An unknown task raises before anything is sent. */
  function GetAnswers(task: string, code: string, generate: Generator): (r: Result<Response, Error>)
    ensures task !in TaskOptions ==> r == Failure(KeyError(task))
    ensures task in TaskOptions ==> r == generate(BuildPrompt(Lookup(task).value, code))
  {
    match SelectPrompt(task, code)
    case Failure(e) => Failure(e)
    case Success(prompt) =>
      SelectPromptBuilds(Lookup(task).value, code);
      generate(prompt)
  }

  /** `get_answers` as the "Submit" handler calls it: the task and the
      sanitized code in, the response dictionary or the exception out. The
      script's own is `Ask(generate)`. */
  type Asker = (string, string) -> Result<Response, Error>

  function Ask(generate: Generator): Asker {
    (task, code) => GetAnswers(task, code, generate)
  }

  /** What one click of "Submit" shows: nothing, the exception that ended the
      handler, or the answer with its context ("No Context" when `None`). */
  datatype Outcome = Idle | Raised(error: Error) | Answered(answer: string, context: Option<Context>)

  datatype Turn = Turn(history: History, outcome: Outcome)

  /** The answer line 122 appends for a reply, if the handler gets that far
      with it: a non-empty dictionary that holds `output.text`. */
  function AnswerIn(reply: Result<Response, Error>): Option<string> {
    match reply
    case Failure(_) => None
    case Success(resp) =>
      if resp.Truthy() && Answer(resp).Success? then Some(Answer(resp).value) else None
  }

  /** The answer a submit appends, if any: both inputs must be non-empty. */
  function NewAnswer(task: string, code: string, clean: string -> string, ask: Asker): Option<string> {
    if task == "" || code == "" then None else AnswerIn(ask(task, clean(code)))
  }

  /** The "Submit" handler (lines 112-134). The answer is appended before the
      citations are read, so a response whose citation lookup raises still
      leaves its answer in the history. */
  function Submit(h: History, task: string, code: string, clean: string -> string, ask: Asker): (t: Turn)
    ensures task == "" || code == "" ==> t == Turn(h, Idle)
    // an exception of `get_answers` ends the handler with the history as it was
    ensures task != "" && code != "" && ask(task, clean(code)).Failure? ==>
              t == Turn(h, Raised(ask(task, clean(code)).error))
    // an empty response dictionary shows nothing
    ensures task != "" && code != "" && ask(task, clean(code)).Success? && !ask(task, clean(code)).value.Truthy() ==>
              t == Turn(h, Idle)
    // a non-empty response without `output.text` raises that key's `KeyError`
    ensures task != "" && code != "" && ask(task, clean(code)).Success? && ask(task, clean(code)).value.Truthy()
            && Answer(ask(task, clean(code)).value).Failure? ==>
              t == Turn(h, Raised(Answer(ask(task, clean(code)).value).error))
    // with an answer, the handler shows it with its context, or raises what the citation lookups raised
    ensures NewAnswer(task, code, clean, ask).Some? ==>
              match ExtractContext(ask(task, clean(code)).value)
              case Success(ctx) => t.outcome == Answered(NewAnswer(task, code, clean, ask).value, ctx)
              case Failure(e) => t.outcome == Raised(e)
    // the history grows by exactly the new answer, if there is one, and is otherwise unchanged
    ensures match NewAnswer(task, code, clean, ask)
            case Some(a) => t.history == h + [Entry(AssistantRole, a)]
            case None => t.history == h
    ensures t.outcome.Answered? ==> t.history == h + [Entry(AssistantRole, t.outcome.answer)]
    // an answer followed by a raise happens only on the citation lookups
    ensures t.outcome.Raised? && t.history != h ==>
              t.outcome.error == IndexError || t.outcome.error.KeyError?
  {
    if task == "" || code == "" then
      Turn(h, Idle)
    else
      match ask(task, clean(code))
      case Failure(e) => Turn(h, Raised(e))
      case Success(resp) =>
        if !resp.Truthy() then
          Turn(h, Idle)
        else
          match Answer(resp)
          case Failure(e) => Turn(h, Raised(e))
          case Success(answer) =>
            var h' := h + [Entry(AssistantRole, answer)];
            match ExtractContext(resp)
            case Failure(e) => Turn(h', Raised(e))
            case Success(context) => Turn(h', Answered(answer, context))
  }

  /** With the script's own `get_answers`, an unknown task raises `KeyError`
      before anything is sent and leaves the history as it was; a known task
      sends the prompt built for it from the sanitized code, and the history
      grows by the answer in what comes back, if any. */
  lemma SubmitSendsSelectedPrompt(h: History, task: string, code: string, clean: string -> string, generate: Generator)
    requires task != "" && code != ""
    ensures task !in TaskOptions ==>
              Submit(h, task, code, clean, Ask(generate)) == Turn(h, Raised(KeyError(task)))
    ensures task in TaskOptions ==>
              Submit(h, task, code, clean, Ask(generate)).history
              == h + match AnswerIn(generate(BuildPrompt(Lookup(task).value, clean(code))))
                     case Some(a) => [Entry(AssistantRole, a)]
                     case None => []
  {
  }

  /** A button press. A submit carries the `get_answers` of its rerun, since
      the remote call may answer differently each time. */
  datatype Click =
    | SubmitClick(task: string, code: string, ask: Asker)
    | ResetClick

  /** The history after one rerun; "Reset Chat" (lines 137-138) empties it. */
  function Step(h: History, c: Click, clean: string -> string): (h': History)
    ensures c.ResetClick? ==> h' == []
    ensures c.SubmitClick? ==> h' == h + Contribution(c, clean)
  {
    match c
    case ResetClick => []
    case SubmitClick(task, code, ask) => Submit(h, task, code, clean, ask).history
  }

  /** The history after a session's clicks, in order. */
  function Run(h: History, cs: seq<Click>, clean: string -> string): (r: History)
    // nothing but the stored entries and the assistant's answers is ever held
    ensures forall e | e in r :: e in h || e.role == AssistantRole
    decreases |cs|
  {
    if |cs| == 0 then h else Run(Step(h, cs[0], clean), cs[1..], clean)
  }

  // ----- An independent account of the history ------------------------------

  /** The entry a click contributes to the history, if any. */
  function Contribution(c: Click, clean: string -> string): seq<Entry> {
    if c.ResetClick? then []
    else
      match NewAnswer(c.task, c.code, clean, c.ask)
      case Some(a) => [Entry(AssistantRole, a)]
      case None => []
  }

  predicate HasReset(cs: seq<Click>) {
    exists i | 0 <= i < |cs| :: cs[i].ResetClick?
  }

  /** The contributions of the clicks after the last reset, oldest first. */
  function SinceLastReset(cs: seq<Click>, clean: string -> string): seq<Entry>
    decreases |cs|
  {
    if |cs| == 0 then []
    else if cs[|cs| - 1].ResetClick? then []
    else SinceLastReset(cs[..|cs| - 1], clean) + Contribution(cs[|cs| - 1], clean)
  }

  lemma {:induction false} RunSnoc(h: History, cs: seq<Click>, c: Click, clean: string -> string)
    ensures Run(h, cs + [c], clean) == Step(Run(h, cs, clean), c, clean)
    decreases |cs|
  {
    if |cs| > 0 {
      assert (cs + [c])[1..] == cs[1..] + [c];
      RunSnoc(Step(h, cs[0], clean), cs[1..], c, clean);
    }
  }

  lemma HasResetSnoc(cs: seq<Click>, c: Click)
    ensures HasReset(cs + [c]) <==> HasReset(cs) || c.ResetClick?
  {
    var s := cs + [c];
    if HasReset(cs) {
      var i :| 0 <= i < |cs| && cs[i].ResetClick?;
      assert s[i] == cs[i];
    }
    if HasReset(s) && !c.ResetClick? {
      var i :| 0 <= i < |s| && s[i].ResetClick?;
      assert i < |cs| && cs[i] == s[i];
    }
    if c.ResetClick? {
      assert s[|cs|] == c;
    }
  }

  /** The history after any sequence of clicks is the stored history, unless
      some click was a reset, followed by the answers of the submits since
      the last reset, in order. */
  lemma {:induction false} RunIsHistorySinceLastReset(h: History, cs: seq<Click>, clean: string -> string)
    ensures Run(h, cs, clean) == (if HasReset(cs) then [] else h) + SinceLastReset(cs, clean)
    decreases |cs|
  {
    if |cs| > 0 {
      var init, c := cs[..|cs| - 1], cs[|cs| - 1];
      assert cs == init + [c];
      RunSnoc(h, init, c, clean);
      RunIsHistorySinceLastReset(h, init, clean);
      HasResetSnoc(init, c);
    }
  }

  /** After "Reset Chat" the history is empty, whatever came before. */
  lemma ResetEmptiesHistory(h: History, cs: seq<Click>, clean: string -> string)
    ensures Run(h, cs + [ResetClick], clean) == []
  {
    RunSnoc(h, cs, ResetClick, clean);
  }

  /** A fresh session (lines 106-107 create the empty history) holds only the
      assistant's answers: no user entry is ever recorded. */
  lemma {:induction false} OnlyAnswersRecorded(cs: seq<Click>, clean: string -> string)
    ensures forall e | e in Run([], cs, clean) :: e.role == AssistantRole
  {
    RunIsHistorySinceLastReset([], cs, clean);
    SinceLastResetAnswersOnly(cs, clean);
  }

  lemma {:induction false} SinceLastResetAnswersOnly(cs: seq<Click>, clean: string -> string)
    ensures forall e | e in SinceLastReset(cs, clean) :: e.role == AssistantRole
    decreases |cs|
  {
    if |cs| > 0 && !cs[|cs| - 1].ResetClick? {
      SinceLastResetAnswersOnly(cs[..|cs| - 1], clean);
    }
  }
}
