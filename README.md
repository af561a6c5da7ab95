# Hybrid chatbot response pipeline, modelled in Dafny

This project models the core of a small hybrid chatbot service. The core has three parts:

- **The session store** (`SessionManager`) maps a session id to the list of (user, bot) turns of that session. It is a class over `map<string, seq<Turn>>`. `Get` reads lazily. `Update` appends a turn and then applies the retention rule.
- **The response generator** (`ChatbotModel`) tries five stages in a fixed order: learned answers (a best-score scan over learned rows with a 0.6 threshold), the intent classifier (a tag lookup followed by a random reply), keyword escalation, the Hugging Face fallback, and finally a canned reply. It records the exchange in the session store when the session id is truthy.
- **Text preprocessing** (`TextPreprocessor`) covers `preprocess_text` (lower-case, then strip) and the grouping loop of `preprocess_data`.

The outside collaborators enter as values, bundled in `ChatbotModel.World`:

- The `difflib` similarity ratio is a function into reals in [0, 1].
- The classifier's output is the predicted tag.
- The HTTP call is an `HttpOutcome`: either raised, or a status code with a body that decoded or did not.
- Each `random.choice` is a draw number, and the pick is element `draw mod length`.

The code and its comment disagree about the retention rule. The comment at `app/session_manager.py:17` says the last 8 exchanges are kept. The code at lines 18-19 keeps only the last **2** once the list is longer than 8. The model follows the code. Its lemmas pin down the result:

- `ReplayLengthCycle`: the length of a fresh session runs 1..8, then 2..8, 2..8, and so on.
- `NineUpdatesKeepLastTwo`: nine updates leave only the 8th and 9th turns.

The HTTP handler in `app/main.py` calls `generate_response` with the session id and then stores the same turn again. `RequestStoresTurnTwice` states the effect: after a request the history always ends with two copies of that turn.

Python truthiness is modelled as written. An empty learned answer, an empty classifier reply or an empty generated text counts as "no result", so the next stage is tried. An absent or empty session id means the store is neither read nor written. `random.choice` on an intent whose responses list is empty raises `IndexError`, and that exception escapes `generate_response`. `Respond` and `GenerateResponse` return it as `Failure(EmptyResponseChoice(tag))`, and then the store is not updated.

## Model

| member | source | states |
|---|---|---|
| `SessionManager.AppendTurn` | app/session_manager.py:11-19 | After an update the history holds 1 to 8 turns and ends with the new turn. A history shorter than 8 becomes the old list plus the new turn, with the prefix unchanged. A history of 8 or more becomes exactly [previous last turn, new turn]. |
| `SessionManager.ReplayWithinCap` | app/session_manager.py:11-19 | As long as the total stays within 8 turns, successive updates only append. |
| `SessionManager.ReplayLengthCycle` | app/session_manager.py:8-19 | After n updates, a fresh session holds n turns for n up to 8, and 2 + (n - 9) mod 7 turns after that: the 1..8, 2..8, 2..8 cycle. |
| `SessionManager.NineUpdatesKeepLastTwo` | app/session_manager.py:17-19 | Nine updates on a fresh session leave exactly the 8th and 9th turns, not the last 8 that the comment describes. |
| `SessionManager.ReplayKeepsMostRecent` | app/session_manager.py:12-19 | From any starting history, what remains after any sequence of updates is a contiguous run of the most recent turns, in order: a suffix of old history followed by the updates. |
| `SessionManager.RequestStoresTurnTwice` | app/main.py:55-58 | The handler stores the turn once through the generator and once more itself. Afterwards the history has at least 2 turns, and the last two are both that turn. |
| `SessionManager.SessionStore.constructor` | app/session_manager.py:1-2 | The store starts as an empty dictionary that satisfies the at-most-8 invariant. |
| `SessionManager.SessionStore.Get` | app/session_manager.py:4-5 | Returns the stored list for a known id and [] for an unknown one. There is no modifies clause, so an unknown id is not inserted. |
| `SessionManager.SessionStore.Update` | app/session_manager.py:7-19 | The new dictionary is the old one with the entry for `id` set to `AppendTurn(old history, turn)`. An absent id ends with exactly one turn. The keys are the old keys plus `id`. Every other session is unchanged. The 1..8 invariant is kept. |
| `TextPreprocessor.Lower` | app/models/text_preprocessor.py:60 | Same length. Each upper-case letter becomes the same letter in lower case (code point + 32), and every other character is kept, so no upper-case letter is left. |
| `TextPreprocessor.TrimLeft` | app/models/text_preprocessor.py:60 | The result is a suffix of the input. Everything cut is whitespace. The result does not start with whitespace, so the cut is the longest one. |
| `TextPreprocessor.TrimRight` | app/models/text_preprocessor.py:60 | The result is a prefix of the input. Everything cut is whitespace. The result does not end with whitespace. |
| `TextPreprocessor.Strip` | app/models/text_preprocessor.py:60 | The result has no whitespace at either end. It is a slice of the input with only whitespace outside it. It adds no upper-case letters. |
| `TextPreprocessor.PreprocessText` | app/models/text_preprocessor.py:54-60 | The output is the lower-cased input with only whitespace cut from its two ends, and that cut leaves no whitespace at either end; so it has no upper-case letters and is no longer than the input. |
| `TextPreprocessor.StripFixesStripped` | app/models/text_preprocessor.py:60 | A string without surrounding whitespace is left unchanged by strip. |
| `TextPreprocessor.PreprocessTextIdempotent` | app/models/text_preprocessor.py:60 | Normalising twice equals normalising once. |
| `TextPreprocessor.SentencesLabelsAligned` | app/models/text_preprocessor.py:30-37 | `sentences` and `labels` have equal length, equal to the total number of patterns across all intents. |
| `TextPreprocessor.PatternPosition` | app/models/text_preprocessor.py:34-37 | Pattern p of intent k sits at position (number of patterns of the earlier intents) + p, so the order is intent order then pattern order. The label at that position is intent k's tag. |
| `TextPreprocessor.ResponseTableKeys` | app/models/text_preprocessor.py:34-38 | The responses dictionary has a key for exactly the tags of the intents, including intents with no patterns. |
| `TextPreprocessor.LaterDuplicateTagWins` | app/models/text_preprocessor.py:34-38 | A tag maps to the responses of the last intent that carries it. |
| `TextPreprocessor.PreprocessData` | app/models/text_preprocessor.py:29-38 | The nested loops build exactly `Sentences`, `Labels` and `ResponseTable` of the intents, and the two lists have the total pattern count as length. |
| `ChatbotModel.Pick` | app/models/chatbot_model.py:139 | `random.choice` returns a member of the (non-empty) list. |
| `ChatbotModel.PickReachesEveryElement` | app/models/chatbot_model.py:139 | Every element of the list is returned for some draw. |
| `ChatbotModel.Score` | app/models/chatbot_model.py:53 | The score of a row is the ratio of the lower-cased input and the lower-cased learned question, a value in [0, 1]. |
| `ChatbotModel.Scores` | app/models/chatbot_model.py:52-53 | There is one score per learned row, each in [0, 1]. |
| `ChatbotModel.ScanBest` | app/models/chatbot_model.py:50-56 | The scan that starts from 0 and uses strict `>` ends with no row exactly when no score is positive. Otherwise it ends at the first row that reaches the maximal score, and that score is positive. |
| `ChatbotModel.LearnedResponse` | app/models/chatbot_model.py:42-60 | A response is returned exactly when some row scores above 0 and at or above the threshold. It is the response of the first maximal row, whose score reaches the threshold. There is none when there are no rows. |
| `ChatbotModel.FetchLearnedResponse` | app/models/chatbot_model.py:42-60 | The best-score loop returns `LearnedResponse` of its inputs. |
| `ChatbotModel.FindIntent` | app/models/chatbot_model.py:70-71 | The linear scan finds the first intent with the tag, and returns none exactly when no intent has it. |
| `ChatbotModel.PredictIntent` | app/models/chatbot_model.py:62-73 | A reply is a member of the responses of the first intent whose tag equals the predicted tag. The result is None exactly when no intent has that tag. `random.choice` raises exactly when that first intent's response list is empty. |
| `ChatbotModel.QueryHuggingFace` | app/models/chatbot_model.py:75-88 | A value is returned only for status 200 with a decoded body. For an object it is the `generated_text` value if that key is present. For a list it is that value taken from the first element, which must be an object with the key. An empty list, a string, a scalar, a non-200 status, an undecodable body and a raised request all give None. |
| `ChatbotModel.GeneratedText` | app/models/chatbot_model.py:124-125 | A generated value gives text exactly when it is a JSON string. |
| `ChatbotModel.Contains` | app/models/chatbot_model.py:117 | Python's substring test: true exactly when the word occurs at some position of the text. |
| `ChatbotModel.Escalates` | app/models/chatbot_model.py:116-117 | True exactly when one of "manager", "supervisor" or "human support" occurs in the lower-cased input. |
| `ChatbotModel.AnyCaseKeywordEscalates` | app/models/chatbot_model.py:117 | A keyword written in any mix of cases ("MANAGER", "Human Support") anywhere in the raw input makes the input escalate. |
| `ChatbotModel.HumanSupportEscalates` | app/models/chatbot_model.py:116-121 | The input "I need a human support" triggers escalation. |
| `ChatbotModel.Respond` | app/models/chatbot_model.py:91-142 | Every reply is non-empty. The call fails (the escaping `IndexError`) exactly when there is no truthy learned answer and the first intent with the predicted tag has an empty response list. |
| `ChatbotModel.LearnedStageFirst` | app/models/chatbot_model.py:102-107 | A truthy learned answer is the reply, whatever the classifier, the keywords, Hugging Face or the draws would give. |
| `ChatbotModel.ModelStageSecond` | app/models/chatbot_model.py:109-114 | Without a learned answer, a non-empty classifier reply is the reply, whatever the later stages would give. |
| `ChatbotModel.EscalationStageThird` | app/models/chatbot_model.py:116-121 | Without a learned answer or classifier reply, an input that contains one of the three keywords in lower case gets the fixed escalation sentence. |
| `ChatbotModel.HuggingFaceStageFourth` | app/models/chatbot_model.py:123-128 | Next, a non-empty generated text is the reply. |
| `ChatbotModel.CannedStageLast` | app/models/chatbot_model.py:130-142 | When every earlier stage fails, the reply is one of the six canned strings. |
| `ChatbotModel.HuggingFaceFailureIsNoResult` | app/models/chatbot_model.py:77-88 | To the generator, any non-200 response is the same as a raised request (network error, timeout). |
| `ChatbotModel.GenerateResponse` | app/models/chatbot_model.py:91-142 | The method returns `Respond` of its inputs. With a truthy session id and a reply, the store afterwards is the old store with exactly one `AppendTurn(old history, (input, reply))` for that id. With a falsy id, or when the exception escapes, the store is unchanged. The store invariant is kept. |

## Left out

- `app/models/train_model.py` (Keras model building and training, pickle files) is offline tooling and is not part of this model.
- `app/main.py` is not modelled: FastAPI routing, CORS, static files, the MySQL inserts, teaching new answers and random session-id generation. Only its double store of each turn is stated, in `RequestStoresTurnTwice`.
- The database connection and query in `fetch_learned_response` are replaced by the `learned` rows parameter. A database error, which propagates in the source, is not modelled.
- `difflib.SequenceMatcher.ratio` is an arbitrary function into [0, 1]. Its floating-point computation is not modelled.
- Tokenisation, padding, `model.predict`, `np.argmax` and `inverse_transform` in `predict_intent` are replaced by the predicted tag. The same goes for the Tokenizer and LabelEncoder fitting in `preprocess_data` and its padded and encoded return values.
- `random.choice` is modelled only as a pick by a given draw number. Its distribution is not modelled.
- `requests.post`, the network, the API token, JSON decoding and the `print` of the caught exception are not modelled. Only the decision on the outcome is.
- `ChatbotModel.GeneratedText`: a `generated_text` value that is not a JSON string is treated as no result. The source would return that value (a dict, a list or a number) as the reply when it is truthy.
- `TextPreprocessor.Lower`: only ASCII letters are lower-cased. Python's Unicode case mapping is not modelled.
- `TextPreprocessor.Strip`: only ASCII whitespace is stripped (space, 9-13, 28-31). Non-ASCII whitespace is not.
- `load_data` and the module-level loading of the model, tokenizer, label encoder and intents file are file I/O. The intents enter as a value.
- The `chat_history` read at the start of `generate_response` is modelled as a `Get` whose result goes unused, as in the source.
- `SessionManager.SessionStore.Get`: returns a copy of the stored list, where the source returns the stored list object itself. A caller that keeps the result, as the handler in `app/main.py` does, sees later in-place appends in the source but not in the model. The handler can then echo more turns than the store keeps. That aliasing is not modelled.
- Concurrent access to the session store is not modelled.
