# Intent-matching chatbot: verified model of its core

This project models the core of a small intent-matching chatbot (`chatbot.py`).
The chatbot reads a corpus of intents, each with a tag, example phrases
("patterns") and candidate responses. It turns the corpus into two parallel
training lists (pattern texts and their tags) and fits a text vectorizer and a
classifier on them, or loads both from two cached artifact files. For each
non-empty user message it predicts a tag, finds the first intent with that tag
and picks one of its responses at random. It keeps the exchange in the session's
message list and appends a row `[user input, bot response, timestamp]` to a
conversation log file whose first row is a fixed header. The history view shows
the log without that header row.

Modules:

- `Corpus` (`corpus.dfy`): the `Intent` value and an `Option` type.
- `Training` (`training.dfy`): flattening the corpus into the training lists.
  A method with the source's nested loops is proved equal to the reference
  functions `PatternsOf` and `TagsOf`. Lemmas give their length, order and labelling.
- `Responder` (`responder.dfy`): the first-match lookup of the predicted tag
  and the random choice of a response.
- `ModelCache` (`model_cache.dfy`): the load-or-train decision at start-up.
- `ConversationLog` (`conversation_log.dfy`): the log file as an optional
  sequence of rows, with header creation, append and the history view. It is
  given both as pure functions and as a `LogFile` class whose methods update
  the file in place.
- `ChatFlow` (`chat_flow.dfy`): one turn and one rendering of the chat page,
  and the history after several turns.

The vectorizer and classifier are opaque. Prediction is a function
`classify: string -> string` given to the turn. Fitting is given as two
functions to `LoadOrTrain`. The artifacts are type parameters. The timestamp is
a string parameter. `random.choice` is a nondeterministic pick (`:|`) among
the responses.

## Model

| member | source | states |
|---|---|---|
| `Training.BuildTrainingSet` | chatbot.py:32-37 | The nested loop yields exactly `PatternsOf(intents)` and `TagsOf(intents)`; both lists have as many entries as the corpus has patterns |
| `Training.PatternsOf` | chatbot.py:35-37 | The pattern list has one entry per pattern of the corpus |
| `Training.TagsOf` | chatbot.py:35-36 | The tag list has one entry per pattern of the corpus, so it is parallel to the pattern list |
| `Training.Repeat` | chatbot.py:35-36 | An intent contributes its tag once per pattern: `n` entries, each equal to the tag |
| `Training.FlattenAt` | chatbot.py:34-37 | Pattern `k` of intent `j` sits at offset (patterns of intents before `j`) + `k` of the pattern list, and the tag list holds intent `j`'s tag at that offset |
| `Training.FlattenOrigin` | chatbot.py:34-37 | Every entry of the training lists is a pattern of some intent, labelled with that same intent's tag |
| `Training.FlattenAppend` | chatbot.py:34-37 | Flattening a concatenated corpus gives the concatenation of the flattened parts (lists and counts), so the lists follow corpus order |
| `Responder.FirstMatch` | chatbot.py:49-51 | The lookup returns the index of an intent carrying the tag with no earlier intent carrying it; it returns nothing exactly when no intent carries the tag |
| `Responder.Chatbot` | chatbot.py:46-51 | The reply is one of the responses of the first intent whose tag equals the prediction; it is `NoReply` (Python `None`) when no intent matches; it is the picking error when that intent has no responses |
| `Responder.LaterIntentsIgnored` | chatbot.py:49-51 | When no earlier intent has tag `t`, the first intent with tag `t` is chosen whatever intents follow it, duplicates included |
| `Responder.SkipNonMatching` | chatbot.py:49-51 | Intents without the tag placed in front only shift the lookup's result by their number |
| `Responder.GreetingExample` | chatbot.py:46-51 | On the two-intent greeting/bye corpus, with "hello" classified as greeting and "goodbye" as bye, the only possible replies are "Hey!" and "Goodbye!" |
| `ConversationLog.WithHeader` | chatbot.py:92-95 | After the header check the log file exists |
| `ConversationLog.Appended` | chatbot.py:106-108 | After an append the log file exists, whether or not it existed before |
| `ConversationLog.ReadHistory` | chatbot.py:116-120 | History is "no log file" exactly when the file is absent; a file with no rows cannot be read; otherwise the history is every row after the first, one fewer than the file's rows |
| `ConversationLog.WithHeaderProperties` | chatbot.py:92-95 | The header check is idempotent and never alters an existing file; run twice on a missing file it leaves exactly one header row and an empty history |
| `ConversationLog.AppendedAllRows` | chatbot.py:106-108 | Appending several rows adds exactly those rows, in order, after the existing rows |
| `ConversationLog.HistoryOfFreshLog` | chatbot.py:92-120 | Header created and then N rows appended: the history is exactly those N rows in order |
| `ConversationLog.HistoryAfterAppend` | chatbot.py:106-120 | On a file that has its header row, one append adds exactly that row at the end of the history and keeps the earlier entries |
| `ConversationLog.LogFile.EnsureHeader` | chatbot.py:92-95 | The new file state is the header-checked old state; an existing file is unchanged |
| `ConversationLog.LogFile.Append` | chatbot.py:106-108 | Exactly one row is added at the end; all earlier rows are unchanged |
| `ModelCache.LoadOrTrain` | chatbot.py:25-44 | Training happens iff the model or the vectorizer file is missing. Afterwards both files exist and hold the context in use. With both present, nothing is written. After training, the vectorizer is fitted on the flattened patterns and the classifier on those patterns and their tags |
| `ChatFlow.Session.constructor` | chatbot.py:97-98 | A new session starts with an empty message list |
| `ChatFlow.BotValue` | chatbot.py:102-104 | The session message holds the reply text when there is one and `None` otherwise |
| `ChatFlow.LoggedResponse` | chatbot.py:106-108 | The logged response field is the reply text, or an empty field when the chatbot returned `None` |
| `ChatFlow.Turn` | chatbot.py:101-108 | Empty input consults nothing and changes nothing. Otherwise the reply is a permitted one. A failed response pick changes nothing. Any other reply appends exactly one message and exactly one row `[input, response, timestamp]` |
| `ChatFlow.ChatPage` | chatbot.py:92-108 | The page checks the header and then runs the turn: the log is the header-checked old log, plus one row for a non-empty turn |
| `ChatFlow.AfterTurnsAppends` | chatbot.py:92-108 | The header checks repeated on every page rendering add no rows: the log is the header-checked initial log followed by the turns' rows |
| `ChatFlow.HistoryAfterTurns` | chatbot.py:92-120 | After N recorded turns starting with no log file, the history shows exactly those N rows in turn order |

## Left out

- The TF-IDF vectorizer and logistic-regression classifier (chatbot.py:29-30, 39-41, 47-48): floating-point numerics inside a library that is not part of this model. Prediction is an opaque function from text to tag, and fitting is given as two opaque functions.
- Tokenizer data download and the certificate-check override (chatbot.py:14-16): network start-up plumbing.
- Loading the corpus from its JSON document (chatbot.py:18-20): file I/O. The corpus is an immutable sequence of `Intent` values, and documents missing a key are not modelled.
- The serialized bytes of the two artifacts (chatbot.py:26-27, 43-44): only their presence and their opaque values are modelled. A file that exists but cannot be deserialized raises in the source and is not modelled.
- Reading the clock for the timestamp (chatbot.py:103): the timestamp is a string parameter.
- Quoting and escaping of the delimited file: rows are three-field values, not encoded text.
- The whole Streamlit user interface: sidebar, theme buttons, page selection, the text-input widget, rendering of messages and history, the About page (chatbot.py:53-91, 99, 110-112, 121-152). The session message list created at chatbot.py:97-98 is modelled by `ChatFlow.Session`.
- `Responder.Chatbot`: the random pick is only known to be some response of the matching intent; uniform distribution is not modelled.
- ChatFlow.Turn: failures to open or write the log file (chatbot.py:106-108) are not modelled; its contract describes turns that return. In the source such a failure comes after the session message was added at line 104, so the session can keep a message that has no log row, and the exception stops the page before the reply is shown.
- ChatFlow.ChatPage: failures to create the log file or write its header (chatbot.py:92-95) are not modelled, nor are the append failures above; its contract describes renderings that return.
- ModelCache.LoadOrTrain: failures of fitting (chatbot.py:39-41, for instance a corpus with no patterns or only one tag, which the fitting library rejects) and of writing the artifacts (chatbot.py:43-44) are not modelled. The contract, including "afterwards both files exist", describes runs that return; a failure between the two writes would leave only the model file.
- Failures to open or read the log file for the history view (chatbot.py:117) are not modelled.
- Several sessions writing to one log file at the same time are not modelled; every turn is one sequential step.

## Where the code and the system's design notes differ (the model follows the code)

- An unknown predicted tag does not produce a fallback message: `chatbot` returns `None`. The session stores `None`, and the log gets an empty response field (`Reply.NoReply`).
- A failure to write the log is not contained: the exception ends the page before the reply is shown, and the session may keep a message that has no log row. The design asks that log failures never block delivery of the reply.
- An artifact file that cannot be deserialized is not treated as a cache miss: loading raises.
- An intent with an empty response list makes the random pick raise. The turn then ends before anything is recorded (`Reply.EmptyResponses`).
- Duplicate tags are not rejected: the first intent with the tag wins (`Responder.LaterIntentsIgnored`).
- A log file that exists but has no rows at all makes the history read fail when it skips the header (`History.EmptyFile`).
