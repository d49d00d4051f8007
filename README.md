# Gaussian AI error assistant — the decision core of `app.py`

`app.py` is a Streamlit page. A user pastes a Gaussian error message or uploads a
`.log`/`.out` file and presses "Analyze with AI". Under the UI calls the page is a
small state machine over three pieces of state:

- the answer table `ai_error_memory.csv`, with rows `(log_hash, error_line, gpt_answer)`.
  It is created empty when missing, and rows are only ever appended;
- the snapshot of that table that `load_memory` reads once per process. It is cached by
  `st.cache_data` and is not refreshed when a row is appended;
- the per-session counter `query_count`, starting at 0 and capped by `MAX_FREE_QUERIES = 5`.

One press of the button does the following:
1. An empty error text only gives a warning.
2. Otherwise the text's SHA-256 digest is looked up in the snapshot, and the first
   matching row's answer is shown.
3. Otherwise, when the counter has reached the cap, the page says the limit is reached.
4. Otherwise it asks the OpenAI model, appends one row to the file, increments the
   counter and shows the answer and the remaining count.

The project has three files:

- `pytext.dfy` (module `PyText`): the Python string semantics the page uses.
  It covers `str.isspace`/`strip()`, `splitlines()` with its full set of line boundaries
  and `\r\n`, `"\n".join`, and `lines[-n:]`. It proves that splitting a joined list of
  break-free lines gives the lines back (except that an empty last line is lost), and
  that, for a text that does not end in a line boundary, the last line is the text
  after the last line break.
- `errorhelper.dfy` (module `ErrorHelper`): the value-level model. It covers input
  selection, `extract_log_tail`, `query_gpt`, the snapshot lookup, and one button press
  as the function `Click` from a state to a new state and an `Outcome`. On top of these
  it proves lemmas about single presses and about whole sessions (`Run`).
- `page.dfy` (module `Page`): class `Assistant`, whose fields `file`, `snapshot` and
  `queryCount` are updated in place. The constructor and the methods `StartSession`,
  `Analyze` and `Rerun` are proved against `Boot`, `NewSession` and `Click`;
  `SaveToMemory` is specified by its own postcondition (the file gains exactly the
  one row, nothing else changes).

The digest (SHA-256) is the `digest: string -> string` constant of the `Assistant`, and a
parameter of the value-level functions. The OpenAI service is a parameter
`remote: string -> RemoteReply`, which gives for the submitted error text either a
completion's content or the text of the exception the client raised. The digest is
fixed for the object's life, so the same text always gets the same lookup key. The
service is not assumed to be stable: each press brings its own `remote`, so two
presses with the same text may get different answers.

The page's behaviour differs from what one would expect of a "memory of previously
solved errors". An answer saved by a press is not found by later presses in the same
process, because the snapshot is stale. Asking the same question again therefore spends
another free query when one is left and appends a duplicate row, or is refused when the
first press used the last query (`StaleSnapshotRepeatsQuery`). The answer
is found only after the process restarts and reloads the file (`RestartRecallsAnswer`).
The model follows the page as written.

## Model

| member | source | states |
|---|---|---|
| PyText.Strip | app.py:73 | the result is a contiguous piece of the input with only whitespace (Python `isspace`) cut off at both ends; it is empty exactly when the input is all whitespace, and otherwise begins and ends with non-whitespace |
| PyText.StripIdempotent | app.py:73 | stripping an already stripped text changes nothing |
| PyText.SplitLines | app.py:90 | `splitlines()`: the empty text has no lines, a non-empty text has at least one, no line contains a line boundary, and a text without boundaries is its own single line |
| PyText.SplitJoin | app.py:71 | splitting the `"\n"`-join of break-free lines gives back the same lines, except that an empty last line is lost |
| PyText.JoinLines | app.py:71 | `"\n".join(lines)`: the result starts with the first line, and is empty exactly for no lines or one empty line; `SplitJoin` is its inverse on break-free lines, less an empty last line |
| PyText.LastLine | app.py:90 | `splitlines()[-1]` is defined for every non-empty text and contains no line boundary |
| PyText.LastLineIsFinalSegment | app.py:90 | for a text that does not end in a line boundary, the last line is exactly the text after its last boundary |
| PyText.TailOf | app.py:59 | `xs[-n:]`: a suffix of `xs` with `min(n, len(xs))` elements for `n > 0`, and all of `xs` for `n == 0` |
| ErrorHelper.ExtractLogTail | app.py:57-59 | the result is the final lines of the text in their original order; for `n > 0` exactly `min(n, len(lines))` of them, for `n == 0` all lines; no tail line contains a line boundary |
| ErrorHelper.SelectInput | app.py:68-73 | with an upload the text is the `"\n"`-join of its 30-line tail, and splits back into that tail less an empty last line; without an upload the text is the stripped paste, which is empty exactly when the paste is all whitespace (or absent) |
| ErrorHelper.UploadWins | app.py:68-71 | with an upload the submitted text is the same whatever was pasted beside it |
| ErrorHelper.QueryGpt | app.py:36-55 | with no API key the fixed "OpenAI API key not set…" message; otherwise the stripped completion, or the exception text after "Error calling OpenAI API: " |
| ErrorHelper.NoKeyNoRequest | app.py:37-38 | with no API key the answer is the fixed message whatever the service would do, so no request is made |
| ErrorHelper.Lookup | app.py:80-84 | there is an answer exactly when some snapshot row has the hash, and the answer is that of the first such row |
| ErrorHelper.Boot | app.py:16-26 | at start-up the file is the existing one (empty when there was none), the snapshot equals it and the counter is 0 |
| ErrorHelper.NewSession | app.py:16-17 | a new session starts its counter at 0 and shares the file and the snapshot |
| ErrorHelper.Click | app.py:75-94 | empty text: warning only. Snapshot hit: the first matching row's answer, whatever the counter. Miss at the cap: limit reached. In these three cases the state is unchanged. Otherwise: the `query_gpt` answer (also an error or missing-key text), one row `(hash, last line, answer)` appended at the end, the snapshot unchanged, the counter up by one, and remaining `5 - count` between 0 and 4 |
| ErrorHelper.ClickPreservesValid | app.py:16-19 | every press keeps the snapshot a prefix of the file and the counter at most 5 |
| ErrorHelper.RunKeepsBudget | app.py:85-93 | over any sequence of presses the counter never exceeds 5; the file only grows at its end, by exactly as many rows as the counter rose; the snapshot never changes |
| ErrorHelper.RunOfMisses | app.py:85-93 | a session submitting only new non-empty texts reaches `min(5, start + presses)` counted queries |
| ErrorHelper.FiveThenLimit | app.py:85-86 | after five fresh questions in a new session, a sixth is refused and leaves the state unchanged, with the counter at 5 |
| ErrorHelper.MemoryBeatsLimit | app.py:79-85 | a snapshot hit is answered even when the budget is used up, because the lookup comes before the limit check |
| ErrorHelper.NoRemoteCallUnlessSuggestion | app.py:76-89 | warning, memory answer and limit do not depend on the service, so the model is consulted only on the suggestion path |
| ErrorHelper.EmptyTextOnlyWarns | app.py:76-77 | an empty text gives a warning and leaves the state unchanged, whatever the digest or the service |
| ErrorHelper.StaleSnapshotRepeatsQuery | app.py:24-31 | after a fresh answer, the same text pressed again in the same process queries again and appends a second row with the same hash while the budget lasts (the counter below 4 before the first press); when the first press used the fifth query, the repeat is refused and the state is unchanged |
| ErrorHelper.RestartRecallsAnswer | app.py:21-26 | after a restart the reloaded file answers a question saved before, with the saved answer, as long as no earlier row had that hash |
| ErrorHelper.PastedErrorLine | app.py:90 | for pasted text the stored `error_line` is the text after its last line break (the whole text when it has none) |
| ErrorHelper.BlankUploadIsSubmitted | app.py:69-77 | a non-empty one-line upload, blanks included, is submitted exactly as it is and the press goes past the empty-input warning; the same line pasted only warns, with the state unchanged, when it is all whitespace |
| ErrorHelper.UploadWarnsOnlyWhenTailEmpty | app.py:69-77 | a press on an upload warns exactly when its tail is no line or one empty line, so a file of two or more blank lines is submitted |
| ErrorHelper.UploadedErrorLine | app.py:69-71 | for an upload whose tail's last line is non-empty, the submitted text is non-empty, splits into at most 30 lines, and its stored `error_line` is that last line |
| Page.Assistant.constructor | app.py:13-26 | the object starts in the state `Boot(existing)` with the configured key and digest, and is valid |
| Page.Assistant.StartSession | app.py:16-17 | the counter is reset to 0, and the file and snapshot are kept |
| Page.Assistant.SaveToMemory | app.py:28-31 | the file becomes the old file plus the one new row, and the snapshot is not touched |
| Page.Assistant.Analyze | app.py:75-94 | the new state and the outcome are exactly those of `Click` on the old state, and validity is kept |
| Page.Assistant.Rerun | app.py:64-94 | without a press nothing changes; with a press the outcome is that of `Click` on the selected input |

## Left out

- All Streamlit rendering (title, messages, markdown, page config). A press is modelled only by the `Outcome` it shows.
- The OpenAI HTTP request, the prompt text and the response parsing (app.py:40-53). `remote` stands for all of them; only the key check, the `.strip()` of the content and the exception message are modelled.
- SHA-256 (app.py:34), modelled as an arbitrary deterministic function `digest`.
- CSV and pandas serialisation and the file-existence check (app.py:21-31). The file is a `seq<Row>`; the `existing` argument is `None` when there is no file yet. Rows read back through pandas are assumed to be equal to the rows written.
- A failed write of the file: in the page the exception would skip the counter increment. The model assumes writes succeed.
- UTF-8 decoding with `errors="ignore"` (app.py:58): an upload is given as its already decoded text.
- `st.cache_data` itself. Only its effect is modelled: a snapshot loaded once per process and never refreshed.
- Concurrency between sessions sharing the file. Presses are modelled one at a time.
- `SequenceMatcher` is imported (app.py:3) but never used, and no reference catalog exists in app.py, so fuzzy matching is not modelled.
