# AI Legal Assistant: the `/chat` request handler

This project models, in Dafny, the one piece of logic in the AI Legal
Assistant chatbot: the `chat()` handler of `app.py`. The handler receives a
question and optionally an uploaded text document. It validates the request
and picks the query for the vector index of legal passages. It then builds
the two-turn prompt, consisting of a fixed system turn and one user turn,
and relays that prompt to the hosted completion service. Every error on the
way becomes a JSON reply with an HTTP status.

Files:

- `wrappers.dfy` (module `Wrappers`): `Option` for a missing value and `Result` for a collaborator call that either returns a value or raises an error with a text.
- `text.dfy` (module `Text`): the string operations the handler relies on. These are ASCII `lower()`, `endswith('.txt')`, the `[:1000]` slice and `"\n\n".join(...)`. The join is characterised position by position.
- `prompt.dfy` (module `Prompt`): the system turn and the law-context block. The block is either the joined passages or the placeholder `⚠️ No relevant law found in database.`. The module also holds the two user-turn templates: the question template and the document template.
- `chat_handler.dfy` (module `ChatHandler`): the handler itself. `Decide` covers everything up to the completion call and `Handle` covers the whole request. `Chat` is the handler written as the source writes it, with early returns and a message list that grows in place, and is proved equal to `Handle`.
- `chat_properties.dfy` (module `ChatProperties`): what the handler guarantees. This covers the order of its checks, which external calls each path makes, the retrieval query, the exact message list, the error mapping and two concrete scenarios.

The collaborators are parameters, bundled in a `Backend`:

- the completion client: `None` when its construction failed at start-up, otherwise a function from messages and model name to a `Result`;
- the vector index: `None` when no index was found on disk, otherwise a similarity search from a query and k to a `Result` holding the passages;
- the UTF-8 decoder: a function from bytes to a `Result`.

Each call to the index or to the completion service goes into a trace that
the handler returns. A statement such as "neither retrieval nor completion
is invoked" then says that the trace is empty.

Three facts about the handler shape the model:

- The placeholder replaces the law context whenever the joined context is empty (app.py:268, app.py:289). That happens with no passages, and also with exactly one passage whose text is empty (`Prompt.LawContextCases`). Two or more empty passages give a non-empty context made of separators.
- Passages keep the order in which the index returns them (app.py:262, app.py:283); the handler neither sorts nor checks that order.
- A missing completion client gives a 500 (app.py:224-225).

## Model

| member | source | states |
|---|---|---|
| `Text.TxtSuffixSpelling` | app.py:276 | the upload filter accepts a name exactly when its last four characters are `.` followed by `t`/`T`, `x`/`X`, `t`/`T` |
| `Text.Truncate` | app.py:281 | the `[:n]` slice has length min(n, \|s\|) and is a prefix of `s` |
| `Text.JoinPart` | app.py:262 | every passage appears unchanged at its offset in the joined string, in the order given |
| `Text.JoinSeparator` | app.py:262 | between consecutive passages the joined string holds exactly one separator |
| `Text.JoinLength` | app.py:262 | the joined string is exactly as long as its parts plus one separator between each two, so parts and separators cover it |
| `Text.JoinEmptyIff` | app.py:283 | a join with a non-empty separator is empty exactly when there are no parts or a single empty one |
| `Prompt.LawContextCases` | app.py:258-268 | the law context is the placeholder when there are no passages or one empty passage, and otherwise the passages joined by a blank line |
| `Prompt.LawContextKeepsPassages` | app.py:279-289 | in a non-placeholder context every retrieved passage appears unchanged, in rank order |
| `Prompt.QuestionPromptLayout` | app.py:264-269 | the question template has the question right after `Question: `, ends with the `Relevant Indian Law:` block holding the context, and adds 83 characters of fixed text |
| `Prompt.DocumentPromptLayout` | app.py:285-290 | the document template starts with the message and a blank line, names the file, holds the whole content at a fixed offset, and ends with the law block |
| `ChatHandler.Retrieve` | app.py:258-262 | with no index the context is the placeholder and nothing is called; with an index exactly one search is made, with the given query and k = 3, and the context is the search's error or the law context of the returned passages |
| `ChatHandler.DocumentQuery` | app.py:281 | the query for a document is its prefix of length min(1000, \|content\|) |
| `ChatHandler.Decide` | app.py:224-294 | with no client the result is the initialisation 500 and nothing else; any message list has two turns, the system turn then a user turn; at most one search is made, with k = 3 |
| `ChatHandler.Handle` | app.py:223-308 | the status is always 200, 400 or 500, and it is 200 exactly when the payload is a `response` field rather than an `error` field |
| `ChatHandler.Chat` | app.py:223-308 | the handler as written in the source, with early returns, a message list grown in place and calls recorded in order, gives exactly the reply and trace of `Handle` |
| `ChatProperties.ClientCheckedFirst` | app.py:224-225 | without a client every request gets 500 `Groq client not initialized. Check API key.` and no external call is made |
| `ChatProperties.EmptyRequestRejected` | app.py:227-231 | the reply is a 400 exactly when the client exists and the request has neither message nor file; it is then `No message or file provided` and nothing is called |
| `ChatProperties.UnsupportedFileReply` | app.py:272-294 | the informational 200 `Unsupported file type. Please upload a .txt file.` is given exactly for an upload that fails the `.txt` test, whatever the message, and nothing is called |
| `ChatProperties.QuestionTurn` | app.py:257-270 | without a file the search query is exactly the message with k = 3, made only when there is an index; the message list is the question template with the placeholder or the joined passages; a failed search gives a 500 |
| `ChatProperties.DocumentTurn` | app.py:272-291 | for a `.txt` upload the search query is the first min(1000, \|content\|) characters of the decoded content, made only when there is an index; the user turn starts with the message and a blank line, names the file and holds the whole content; the message list is the document template with the placeholder or the joined passages; a failed search gives a 500 with its error text |
| `ChatProperties.FileBranchIgnoresMessage` | app.py:257-291 | when a file is present, requests that differ only in their message make the same calls and reach the same kind of outcome |
| `ChatProperties.RetrievalQuery` | app.py:257-283 | every search happens only with a client and an index, uses k = 3, and queries the message or a prefix of at most 1000 characters of the decoded upload |
| `ChatProperties.CompletionCalledOnce` | app.py:298-304 | the completion service is called exactly once when validation and retrieval succeed, otherwise never, and it is called last with the built messages and `llama-3.3-70b-versatile`; its text becomes a 200 and its error a 500 |
| `ChatProperties.FailuresAre500` | app.py:233-308 | every error raised inside the `try` becomes a 500 carrying just the error text; a decoding error makes no external call; a failed completion gives a 500 with its error text after the searches and that one completion call; a failed search, in either branch, gives a 500 with the search's error text after that one search and no completion call |
| `ChatProperties.QuestionWithoutIndexScenario` | app.py:257-304 | "What is a contract?" with no file and no index returns the completion's text, and the prompt sent has the placeholder as its context |
| `ChatProperties.LeaseUploadScenario` | app.py:272-304 | an upload `lease.txt` with no message and no index sends the document template with an empty question and the placeholder, and calls the completion service once |

## Left out

- The HTML page and its chat widget (app.py:23-208, app.py:218-220): static markup with no logic.
- Flask routing, the extraction of `request.form` and `request.files`, and `jsonify`: the request is a plain `Request` value and the reply a `Response` value.
- Loading the embedding model and the vector index (app.py:12-20): the index is an `Option` of an uninterpreted search function. The embeddings, the nearest-neighbour search and the ranking are not modelled.
- Constructing the completion client and making the network call (app.py:211-215, app.py:298-303): the client is an `Option` of an uninterpreted function. A `None` content in the first choice, which would give `"response": null`, is not modelled.
- UTF-8 decoding (app.py:277): an abstract function that returns the text or the error message. Reading the upload's bytes (app.py:274), which could also raise, is taken as always succeeding.
- The truthiness of the werkzeug upload object behind `not file`: a file part counts as present exactly when the request carries it. Werkzeug also treats a part with an empty filename as absent, and that is not modelled.
- Text.Lower: lowers only ASCII letters, while Python's `str.lower()` is full Unicode. For the `.txt` test this makes no difference, because the only characters that lower-case to `t`, `x` or `.` are `T`/`t`, `X`/`x` and `.`. The one multi-character lowering (`İ`) does not end in any of them.
- Prompt.SystemInstruction: keeps only the first two sentences of the system instruction (app.py:236-251), without the literal's leading newline and indentation. No property depends on its wording, only on the system turn being the same constant on every request.
- ChatProperties.DocumentTurn: states that the file content occurs "exactly once" as the content sitting at its fixed offset in the template. A literal count of occurrences would fail whenever the message, the filename or a passage also contains the content.
- The `print` logging of errors (app.py:20, app.py:214, app.py:307).
- Idempotence across repeated requests holds by construction, because `Handle` is a function of its inputs, and has no lemma of its own.
