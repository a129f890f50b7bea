# Infosec chatbot: prompt selection, response extraction and chat history

A Dafny model of the logic inside `infosec-chatbot-aws.py`, a Streamlit page
that sends a developer's code to an Amazon Bedrock knowledge base for a
security review. It covers three parts:

- **Prompt selection** (`get_answers`). A fixed preamble puts the user's code
  verbatim inside a fenced block. One of three task instruction blocks
  follows it: security requirements, common vulnerabilities or pentest. The
  block is chosen by exact-key lookup in a three-entry dictionary.
  `Prompts.BuildPrompt` builds the prompt for a closed `Task` datatype.
  `Prompts.SelectPrompt` is the dictionary lookup by string, and
  `Prompts.Lookup` is the same lookup, typed. The template texts are those
  of the source's f-strings, including their line breaks and indentation.
  Long lines are written as several shorter literals joined with `+`,
  because the verifier reasons poorly about the characters of long
  literals; the joined text is the same.
  `Prompts.TaskPrompts` is the dictionary, rebuilt on every call as in the
  source, and `Prompts.SelectPromptBuilds` ties its entries to
  `BuildPrompt`.
- **Response extraction**. The answer is `output.text`. The context is
  taken from the first reference of the first citation record: its first
  200 characters at most, followed by `"..."`, plus its S3 URI. A response with no
  reference takes the "No Context" branch. The response dictionary is
  modelled with `Option` fields, one per key the script reads.
- **Chat history**. The session state keeps a list of
  `{role, text}` entries. "Submit" appends the assistant's answer, and
  "Reset Chat" empties the list. Streamlit reruns the script on every
  click, so a session is a sequence of clicks folded over the stored
  history (`Chat.Run`). Each submit click carries the `get_answers` of
  its rerun, because the remote call may answer differently each time.
  The history theorems hold for every choice, and therefore for the
  script's own.

The sanitizer (`bleach.clean`) and the remote `retrieve_and_generate` call
are function parameters. The model says what is done with their results,
not what they compute. The "Submit" handler (`Chat.Submit`) also takes
the `get_answers` it calls as a parameter (`Chat.Asker`). The script's
own is `Chat.Ask(generate)`, which selects the prompt and sends it, and
`Chat.SubmitSendsSelectedPrompt` states what the handler does with it.
Every exception the "Submit" handler can raise is a `Result` failure carrying
Python's exception: `KeyError(key)`, `IndexError`, or whatever the remote
call raised.

Modules: `Wrappers` and `Errors` (wrappers.dfy), `Text` (text.dfy),
`Prompts` (prompt.dfy), `Responses` (response.dfy), `Chat` (history.dfy).

Behaviour of the code worth knowing, which the model keeps:

- An unknown task raises Python's `KeyError` from the dictionary lookup
  (line 91).
- A present but empty `citations` list makes `[0]` raise `IndexError`
  (line 127).
- A missing `output` or `text` key raises `KeyError` (line 121).
- Nothing is caught. Every exception ends the handler.
- The answer is appended to the history (line 122) before the citations
  are read. A response whose citation lookups raise therefore still leaves
  its answer in the history. Only failures before line 122 leave the
  history unchanged.

## Model

| member | source | states |
|---|---|---|
| Prompts.BuildPrompt | infosec-chatbot-aws.py:54-87 | the prompt is the fixed opening of the preamble, the code verbatim, then a text determined by the task alone |
| Prompts.Lookup | infosec-chatbot-aws.py:39-46 | the lookup succeeds exactly on the three selector strings; a success names the task whose key is the input, and any other string fails with `KeyError` of that string |
| Prompts.SelectPrompt | infosec-chatbot-aws.py:62-91 | `task_prompts[task]` succeeds exactly on the three selector strings and otherwise fails with `KeyError(task)` |
| Prompts.SelectPromptBuilds | infosec-chatbot-aws.py:62-91 | each task's selector string selects exactly the prompt `BuildPrompt` gives for that task |
| Prompts.DictionaryKeys | infosec-chatbot-aws.py:62-88 | the dictionary has exactly three entries, keyed by exactly the selector's options |
| Prompts.PromptShape | infosec-chatbot-aws.py:54-87 | every prompt begins with the shared preamble, has the user's code verbatim between the preamble's opening and closing fence lines, and ends with its own task's instruction block |
| Prompts.EmptyCodePrompt | infosec-chatbot-aws.py:54-59 | empty code is not special-cased: the prompt is the preamble with nothing between its fences, followed by the task block |
| Prompts.InstructionEndingsDiffer | infosec-chatbot-aws.py:64-87 | no text ends with the instruction blocks of two different tasks |
| Prompts.ParseBuildRoundTrip | infosec-chatbot-aws.py:54-87 | reading a built prompt back gives the task and the code it was built from |
| Prompts.BuildParseRoundTrip | infosec-chatbot-aws.py:54-87 | whatever the reader accepts is exactly the prompt built from the task and code it returns |
| Prompts.BuildPromptInjective | infosec-chatbot-aws.py:62-88 | two prompts are equal only when they were built for the same task and the same code |
| Prompts.RequirementsPromptHasFallback | infosec-chatbot-aws.py:63-70 | whatever the code, the security-requirements prompt contains "No information found within the Policy or Requirements" |
| Prompts.VulnerabilitiesPromptHasFallback | infosec-chatbot-aws.py:71-79 | whatever the code, the common-vulnerabilities prompt contains "No Issues Found" |
| Prompts.PentestPromptFallbacks | infosec-chatbot-aws.py:80-87 | the pentest template has neither fallback phrase: a pentest prompt contains either phrase exactly when the user's code does |
| Responses.Answer | infosec-chatbot-aws.py:121 | the answer is `output.text` verbatim; a missing `output` or `text` key fails with `KeyError` naming that key |
| Responses.Snippet | infosec-chatbot-aws.py:129 | the snippet always ends with "...", has at most 203 characters, and is the first min(200, length) characters of the text followed by the ellipsis |
| Responses.ReferenceText | infosec-chatbot-aws.py:129 | the reference's `content.text` verbatim; a missing `content` or `text` key fails with `KeyError` naming that key |
| Responses.ReferenceUri | infosec-chatbot-aws.py:130 | the reference's `location.s3Location.uri` verbatim; a missing `location`, `s3Location` or `uri` key fails with `KeyError` naming that key |
| Responses.References | infosec-chatbot-aws.py:127 | a missing `citations` key defaults to one empty record and so to no references; a present but empty `citations` list, and only that, fails with `IndexError`; otherwise the list read is empty exactly when there is no first reference, and its head is the first reference of the first record |
| Responses.ExtractContext | infosec-chatbot-aws.py:127-134 | "No Context" exactly when `citations` is missing or its first record has absent or empty `retrievedReferences`; `IndexError` exactly when `citations` is an empty list; a context exactly when the first reference has its text and its URI, and then the URI is that reference's `s3Location.uri` unchanged and the snippet is the `Snippet` of its text (its first min(200, length) characters plus "..."); any other failure is the `KeyError` of the first reference's missing key, the text's keys being reported before the URI's |
| Chat.GetAnswers | infosec-chatbot-aws.py:52-103 | an unknown task fails with `KeyError(task)` before anything is sent; a known task sends exactly the prompt built for it and returns what the call returns |
| Chat.Submit | infosec-chatbot-aws.py:112-134 | empty task or code leaves the history unchanged and shows nothing; an exception of `get_answers` is raised unchanged and leaves the history as it was; an empty response shows nothing; a non-empty response without `output.text` raises that key's `KeyError` and leaves the history as it was; otherwise the history grows by exactly one assistant entry holding `output.text`, and the handler shows that answer with the extracted context, or raises the exception of the citation lookups |
| Chat.SubmitSendsSelectedPrompt | infosec-chatbot-aws.py:112-122 | with the script's own `get_answers`, an unknown task raises `KeyError` and leaves the history as it was; a known task sends the prompt built for it from the sanitized code, and the history grows by the answer in what comes back, if any |
| Chat.Step | infosec-chatbot-aws.py:112-138 | a reset click empties the history; a submit click appends exactly its contribution: one assistant entry with the new answer, or nothing |
| Chat.Run | infosec-chatbot-aws.py:106-138 | after any sequence of clicks, every entry held is either a stored one or an assistant entry |
| Chat.RunIsHistorySinceLastReset | infosec-chatbot-aws.py:106-138 | after any sequence of clicks, the history is the stored one (or empty, if some click was a reset) followed by the answers of the submits since the last reset, oldest first; earlier entries are never changed or reordered |
| Chat.ResetEmptiesHistory | infosec-chatbot-aws.py:137-138 | after "Reset Chat" the history is empty, whatever came before |
| Chat.OnlyAnswersRecorded | infosec-chatbot-aws.py:106-122 | a session that starts from the empty history only ever holds assistant entries; no user entry is ever recorded |

## Left out

- The Streamlit page itself is left out: image, caption, subheader, selectors, text area, chat message and markdown rendering. It has no behaviour beyond display.
- The markup safety of the rendered answer and context (`unsafe_allow_html=True`) is not modelled, because it concerns rendering only.
- The GitLab repository fetch and its selector are not modelled: it is network I/O and only fills a cosmetic dropdown. Its `except` clause names `gitlab.exceptions`, but only `Gitlab` is imported, so an authentication failure there would raise `NameError`.
- Reading `st.secrets` is not modelled: it is configuration I/O.
- The Bedrock client and `retrieve_and_generate` are not modelled. They appear only as the `Chat.Generator` parameter, which maps a prompt to a response or an exception. The knowledge-base id, the model ARN and the region are constants of that call, and the model does not use them.
- `bleach.clean` is not modelled. It is the opaque `clean` parameter, applied to the code before the prompt is built. Its idempotence and tag stripping are not claimed.
- The selector only offers the three task strings. The model still accepts any string as the task, so the `KeyError` path stays reachable.
- A response key whose value has the wrong type (for example `citations` bound to a non-list) is not modelled. Each key is either absent or has the shape the script expects.
- Strings are sequences of Unicode scalar values. A Python `str` may also hold lone surrogates, which count as code points in the slice `[:200]` of line 129; such strings are not modelled.
