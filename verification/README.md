# Natural-language-to-SQL backend: a Dafny model of its request handler

The backend takes a question in English and asks a language model (Gemini) for a
SQL query. The model is prompted with a fixed instruction block that describes a
two-table t-shirt schema and gives a few examples. The backend then cleans up the
text the model returns and runs it against MySQL. The HTTP response carries the
query and the fetched rows, or an error with a status code. Before it calls the
model, the handler also embeds the question and looks up the nearest of thirteen
curated example questions in a FAISS index. It never uses the result of that
lookup.

This project models the logic in `app.py`, in three modules:

- `Sanitizer` (`sanitizer.dfy`) covers the cleanup applied to the model's text at
  line 91. Python's `str.strip()` runs first. Every backtick is then deleted, and
  the right and left single quotation marks (U+2019, U+2018) become `'`. Strip is
  modelled exactly: `IsSpace` is the set of 29 code points for which Python 3's
  `str.isspace()` holds. `str.replace` with one-character arguments is modelled
  as character-wise deletion or substitution.
- `Corpus` (`corpus.dfy`) holds the thirteen few-shot examples, the `questions`
  list derived from them (line 57) and the instruction prompt (lines 63-85), all
  as literal data.
- `Pipeline` (`pipeline.dfy`) covers `get_gemini_response`, the result shape of
  `read_sql_query` and the dispatch in `get_sql_query`. The handler is a pure
  function of:
  - the process-wide configuration (the question list and the prompt);
  - three outside capabilities, passed in as functions: the vector search
    (question to position), the language model (contents to text, a quota
    failure or another failure) and the database (SQL to rows or an error
    message);
  - the question (missing, or a string).

  It returns the HTTP response and the trace of calls it made. That trace is how
  the contracts say which capability was called and with what.

Three facts about the code that a reader might not expect:

- The sanitiser is not idempotent. It strips first and removes backticks
  afterwards, so whitespace inside a backtick fence survives.
  ``Sanitize("` x `")`` is `" x "`, and sanitising that again gives `"x"`. The
  model proves this counterexample. It also proves that a second pass does
  nothing except strip again.
- Both kinds of generator failure return status 429 (app.py:93-96, 135-136). A
  quota failure differs from any other failure only in its message.
- Errors from the embedder and from the vector search (app.py:129-130) are never
  caught (see Left out).

## Model

| member | source | states |
|---|---|---|
| `Sanitizer.LeadingSpace` | app.py:91 | the count of leading characters `strip()` removes: all of them are whitespace, and the character after them (if any) is not |
| `Sanitizer.TrailingEnd` | app.py:91 | where `strip()` cuts the tail: everything after the cut is whitespace, and the last kept character (if any) is not |
| `Sanitizer.Strip` | app.py:91 | `strip()` returns an infix of its input with only whitespace cut on either side; the result starts and ends with a non-space character; it is empty exactly when the input is all whitespace; it introduces no character |
| `Sanitizer.StripUnique` | app.py:91 | independent characterisation of `strip()`: for whitespace runs `a`, `b` and a text `m` that starts and ends with non-space (or is empty), `strip(a + m + b) == m` |
| `Sanitizer.StripIdempotent` | app.py:91 | stripping twice is the same as stripping once |
| `Sanitizer.IsSpace` | app.py:91 | the characters `strip()` removes: exactly the 29 code points for which Python 3's `str.isspace()` holds (U+0009-U+000D, U+001C-U+001F, U+0020, U+0085, U+00A0, U+1680, U+2000-U+200A, U+2028, U+2029, U+202F, U+205F, U+3000) |
| `Sanitizer.SpaceCharsExact` | app.py:91 | the whitespace ranges agree with a list of the 29 code points written out one by one |
| `Sanitizer.RemoveChar` | app.py:91 | ``replace("`", "")`` leaves no backtick, shortens the text by the number of backticks and leaves the count of every other character unchanged |
| `Sanitizer.RemoveCharAppend` | app.py:91 | deleting a character from a concatenation deletes it from each part separately, so the kept characters keep their order |
| `Sanitizer.RemoveCharSingle` | app.py:91 | on a one-character string, the character is dropped if it is the deleted one and kept otherwise; with `RemoveCharAppend` this fixes the result on every input |
| `Sanitizer.ReplaceChar` | app.py:91 | a one-character `replace(src, dst)` keeps the length and changes exactly the positions that held `src` |
| `Sanitizer.Normalize` | app.py:91 | the three chained replacements of line 91, in source order: delete backticks, then U+2019 to `'`, then U+2018 to `'`; `NormalizeIsCleanAll` states what the chain computes |
| `Sanitizer.Sanitize` | app.py:91 | the sanitised text contains no backtick, U+2018 or U+2019, and is shorter than the stripped text by exactly its number of backticks |
| `Sanitizer.NormalizeIsCleanAll` | app.py:91 | the three chained replacements equal a one-pass reference that handles one character at a time: drop a backtick, turn a smart quote into `'`, keep anything else, preserving order |
| `Sanitizer.SanitizeIsCleanAll` | app.py:91 | the sanitiser is the one-pass character reference applied to the stripped input |
| `Sanitizer.SanitizeCounts` | app.py:91 | for every character: backticks and smart quotes occur 0 times in the output; `'` occurs as often as `'`, U+2018 and U+2019 together in the stripped input; any other character occurs as often as in the stripped input |
| `Sanitizer.SanitizeTwice` | app.py:91 | a second sanitisation only strips, so sanitising is idempotent on an input exactly when its sanitised text has no whitespace at either end |
| `Sanitizer.SanitizeTrimsPadding` | app.py:91 | surrounding whitespace is all the sanitiser removes from a text that starts and ends with non-space and has no marks |
| `Sanitizer.SanitizeFixedPoint` | app.py:91 | a text without marks and without surrounding whitespace is left unchanged |
| `Sanitizer.SanitizeFence` | app.py:91 | a text without marks, wrapped in one backtick on each side, comes out exactly as it was inside, whitespace included |
| `Sanitizer.SanitizeKeepsFencedSpace` | app.py:91 | concrete case: ``"` x `"`` sanitises to `" x "` |
| `Sanitizer.SanitizeStripsSpace` | app.py:91 | concrete case: `" x "` sanitises to `"x"` |
| `Sanitizer.SanitizeNotIdempotent` | app.py:91 | some input is changed by a second sanitisation |
| `Sanitizer.SanitizeFencedQuery` | app.py:91 | concrete case: ``"`SELECT * FROM t_shirts;`"`` sanitises to `"SELECT * FROM t_shirts;"` |
| `Corpus.QuestionsOf` | app.py:57 | the question list has one entry per example, and entry `i` is the question of example `i` |
| `Corpus.CorpusShape` | app.py:28-57 | the corpus has 13 examples, and `Questions` is aligned with it position by position |
| `Pipeline.Truthy` | app.py:126 | Python truthiness of the question: a missing value (`None`) and `""` are falsy, and every other string is truthy |
| `Pipeline.Contents` | app.py:90 | the model input is the two-element list of the first prompt entry and the question |
| `Pipeline.GetGeminiResponse` | app.py:87-96 | the generator is called with `[prompt[0], question]`; the answer is SQL exactly when the model returned text, and that SQL is the sanitised text (so it contains no marks); a `ResourceExhausted` failure gives the quota message and any other failure gives the generic message |
| `Pipeline.AnswerQuestion` | app.py:121-142 | a missing or empty question gives 400 "No question provided" and calls nothing. Otherwise the search runs first and the model second, with the fixed prompt and the question as received. Both kinds of model failure give 429 with their own message, and the trace ends there. The database is called exactly when the model answered, once, with the sanitised text. A database error gives 500 carrying its message; otherwise the status is 200 and the body holds that SQL and the rows. No other status occurs |
| `Pipeline.RetrievalUnused` | app.py:129-133 | the search result is never used: for any two searches, the response and every call after the search are identical |
| `Pipeline.ExecutorCalledOnlyAfterAnswer` | app.py:133-140 | the trace holds a database call exactly when the question was truthy and the model answered; a 400 or a 429 never reaches the database |
| `Pipeline.CleanAnswerPassesThrough` | app.py:133-142 | model text with no surrounding whitespace and no marks is executed, and echoed with the rows, unchanged |
| `Pipeline.FencedAnswerIsUnwrapped` | app.py:90-92 | a model answer of ``"`SELECT * FROM t_shirts;`"`` leads to executing `"SELECT * FROM t_shirts;"` |
| `Pipeline.BlankQuestionIsSent` | app.py:126-127 | a question of one space is truthy in Python: it is not refused, and it reaches the model verbatim |
| `Pipeline.AppConfig` | app.py:28-85 | the configuration the app builds has the one-element prompt, and a 13-entry question list aligned with the examples |
| `Pipeline.StockQuestionScenario` | app.py:31-32 | "How many total t-shirts are left in stock?" is corpus question 1; a model that answers it with that example's SQL gets exactly that SQL executed and, when the database succeeds, a 200 response echoing that SQL with the rows |

## Left out

- Flask routing, `request.json`, `jsonify`, CORS, `load_dotenv`/`os.getenv` and `app.run` are HTTP and configuration plumbing. The question is modelled as missing or a string. JSON values of other types (numbers, lists, `false`) are not modelled, and neither is a body that is not JSON.
- The sentence-transformer embeddings and the FAISS `IndexFlatL2` build and search (lines 25, 58-60, 129-130) are floating-point work inside foreign libraries. The search is a function parameter, required to return a position inside the question list. FAISS's `-1` "no result" value, which Python's negative indexing would turn into the last question, is not modelled.
- The Gemini client (`genai.configure`, `GenerativeModel`, `generate_content`) is an outside call. It is modelled as a function that returns text, a quota failure or another failure. The model also leaves out the `GenerativeModel` construction at line 88, which sits outside the `try` block, so an exception there would not be caught.
- In `read_sql_query` (lines 98-115), the MySQL connection lifecycle (connect, cursor, fetch, close) is I/O. Only the result shape (rows or an error message) is kept, and the row type is a type parameter.
- Exceptions the handler does not catch are not modelled. This covers embedding and search failures and database exceptions that are not `mysql.connector.Error`. Flask would answer those with its own 500 page.
- The wording of the prompt (lines 63-85) is carried as a literal constant and is not analysed.
- The code runs one `k=1` search (line 130) and reads only the position it returns. Distances, ties and the index's dimension are not modelled.
- That every corpus SQL string is already in sanitised form is proved only for example 1, the one the stock-question scenario uses. Proofs over the literal text of all thirteen strings cost too much to verify.
- A Dafny `string` is a sequence of Unicode scalar values. A Python `str` can also hold a lone surrogate, e.g. from the JSON question `"\ud800"`, and such a question is not modelled. The handler only passes the question through to the model, so no property proved here depends on its characters.
