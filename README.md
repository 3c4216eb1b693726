# homework_bot in Dafny

A model of the decision logic of `homework.py`, a bot that polls a
homework-review API and forwards status changes to a Telegram chat.

- `outcomes.dfy` (module `Outcomes`): Python exceptions as values. `Outcome<T>`
  is a value or a raised `Failure`. The kinds are `PracticumException` (with the
  reason it was raised for), `KeyError`, `TypeError` and any other exception.
- `json_values.dfy` (module `JsonValues`): the JSON value that `response.json()`
  yields. It also holds the three Python operations the bot applies to such
  values: `key in value`, `value[key]` and `str(value)`. They follow Python
  exactly. `in` looks up a key on a dict, tests membership on a list, searches
  for a substring on a str and raises TypeError on a number, a bool or None.
  `value[key]` raises KeyError on a dict that lacks the key and TypeError on
  anything else.
- `homework.dfy` (module `Homework`): the status table `HOMEWORK_STATUSES`,
  `check_response`, `parse_status` and `check_tokens`. It also has a decoder
  for the notification text, which proves that a message determines the
  homework name and status it was built from.
- `driver.dfy` (module `Driver`): the start-up check of `main` and one pass of
  its polling loop. `RunPass` is the pass as a function of the API's answer.
  The class `Poller` holds `current_timestamp` as its `cursor` field, plus an
  outbox of the messages handed to `send_message`. `Poller.Iterate` runs one
  pass. `Replay` folds a finite sequence of passes, and the lemmas after it
  describe several passes in a row.

In these places the code behaves differently from what its names and docstrings suggest; the model follows the code:

- An `error` field is rejected only when its value holds an inner `error`.
  On a str value, `'error' in ...` is a substring test, and indexing that str
  then raises TypeError.
- A `code` field without a `message` field raises KeyError, not the domain
  exception.
- The cursor takes whatever JSON value `current_date` holds, not only an
  integer.
- `check_tokens` inspects only the first token.

## Model

| member | source | states |
|---|---|---|
| JsonValues.Contains | homework.py:98-104 | Python `in` with a str key: True on a dict exactly when the key is present, on a list exactly when the str is an element, on a str exactly when the key occurs at some position; TypeError exactly on numbers, bools and None |
| JsonValues.IsSubstringFindsOccurrence | homework.py:98-100 | the recursive substring search is True exactly when the key occurs at some index of the str, in both directions |
| JsonValues.Index | homework.py:99-116 | Python `value[key]`: succeeds exactly on a dict holding the key, with that member; KeyError on a dict without it, TypeError on anything else |
| JsonValues.NatText | homework.py:131 | the decimal rendering of a natural number: non-empty digits whose decimal value is the number, with no leading zero |
| JsonValues.Display | homework.py:131 | `str()` in the f-string: a str renders as itself; an int as decimal digits denoting its absolute value without leading zero, after a `-` exactly when negative; a bool as `True`/`False`; null as `None`; a list or dict as the given repr |
| Homework.Notification | homework.py:131 | the message is the fixed lead up to the opening quote, then the name, then the closing quote, `. ` and the verdict, with nothing else |
| Homework.StatusTableKeys | homework.py:31-35 | the status table has exactly the keys approved, reviewing and rejected |
| Homework.ServerErrorCheck | homework.py:98-102 | `{"error": {"error": ...}}` raises the domain error; on an object the check passes exactly when there is no `error` or `'error' in response['error']` is False |
| Homework.CodeCheck | homework.py:104-107 | on an object, passes exactly when there is no `code`; with `code` it raises the domain error, or KeyError when `message` is missing |
| Homework.CheckResponse | homework.py:95-116 | a non-object always ends in TypeError; a server-reported error wins over `code`; any `code` is rejected, with the domain error or, when `message` is missing, KeyError; an `error` value that fails the guard without being an object holding `error` is a TypeError; accepted exactly when the guards pass and `homeworks` is a list, which is returned unchanged (empty included); missing `homeworks` is a KeyError, null and non-list `homeworks` are the two domain errors |
| Homework.ErrorWithoutInnerErrorIsIgnored | homework.py:98-102 | an `error` field that passes the first guard changes nothing: the verdict equals the one for the response without it |
| Homework.InStatusTable | homework.py:125 | `status in HOMEWORK_STATUSES` is True exactly for a str key of the table; TypeError exactly for a list or dict (unhashable) |
| Homework.ParseStatus | homework.py:119-131 | KeyError for a missing `homework_name`, then for a missing `status`; succeeds exactly when the status is a str key of the table, with the template filled with str(name) and that key's verdict; any other scalar status is the domain error; a non-dict record, or a list or dict status, is a TypeError |
| Homework.ParseStatusOfKnownStatus | homework.py:130-131 | for each of the three statuses and a str name, the result is exactly the template with that name and the table's verdict |
| Homework.DecodeNotification | homework.py:131 | whatever it decodes is a table key, and the message is exactly the template for the decoded name and that key's verdict |
| Homework.DecodeNotificationRoundTrip | homework.py:131 | every message parse_status renders decodes back to the name and the status it came from |
| Homework.NotificationInjective | homework.py:131 | two different (name, status) pairs never render the same message |
| Homework.FirstTokenVerdict | homework.py:142-146 | the loop returns after its first element: no verdict only for an empty tuple, otherwise True exactly when the first token is truthy |
| Homework.CheckTokens | homework.py:134-146 | True exactly when the first (Practicum) token is set and non-empty; the docstring's promise holds only in the direction "all present implies True" |
| Homework.CheckTokensMissesLaterTokens | homework.py:135-146 | there is a configuration with two tokens missing for which check_tokens returns True, contrary to its docstring |
| Driver.HandlerFor | homework.py:176-182 | a PracticumException goes to the first except clause, every other exception to the critical one; neither completes the pass |
| Driver.Announcements | homework.py:167-172 | an empty list gives no message; otherwise exactly the message of parse_status for the first homework, or its exception |
| Driver.RunPass | homework.py:163-182 | at most one message; the cursor advances exactly when the pass completes; a completed pass had a valid answer and moves to its `current_date`; a message is the notification of the first homework; an empty list sends nothing; a failing poll, validation or parse_status sends nothing and keeps the cursor; a valid answer whose announcement succeeds sends it, then completes and moves the cursor to `current_date` when the answer has one, and ends in a critical KeyError with the cursor kept otherwise |
| Driver.NextCursor | homework.py:173 | a pass that reached the assignment leaves the cursor at the date it read; any other keeps it |
| Driver.Poller.constructor | homework.py:161 | the cursor starts at 0 with nothing sent |
| Driver.Poller.Iterate | homework.py:163-182 | the outbox grows by the pass's messages, the cursor becomes the pass's `current_date` or stays, and the pass sleeps exactly when it completes |
| Driver.Start | homework.py:157-161 | no poller (no loop, no request) exactly when check_tokens fails or building the bot raises; otherwise a fresh cursor of 0 with nothing sent, rendering names with the given `str()` of nested values |
| Driver.Replay | homework.py:162-182 | successive passes from a cursor: no passes change nothing, and the first pass's messages are sent first (the lemmas below state the rest) |
| Driver.ReplaySentBound | homework.py:162-173 | over passes that each send at most one message, never more messages than passes |
| Driver.ReplayKeepsCursorWithoutCompletion | homework.py:176-182 | if no pass completes, the cursor stays where it was |
| Driver.ReplayAppend | homework.py:162-173 | replaying one more pass is one more step from the cursor and messages where the replay ended |
| Driver.ReplayEndsAtLastDate | homework.py:173 | after a completed pass the cursor is that answer's `current_date`, whatever came before |
| Driver.ReplayCursorOrigin | homework.py:161-182 | the cursor only ever holds its start value or the `current_date` of one of the completed passes |
| Driver.MissingDateRepeatsMessage | homework.py:170-182 | a valid announcing answer without `current_date` sends its message and keeps the cursor, so the same answer twice sends the message twice |
| Driver.ApprovedHomeworkIsAnnounced | homework.py:164-173 | one approved homework with any str name gives exactly one message with that name and the approval verdict, and the cursor moves to `current_date` |

## Left out

- get_api_answer (homework.py:61-92) is left out: the HTTP request, `ENDPOINT`, `HEADERS` and the status-code and JSON decoding. Its result is the input `answer`. get_api_answer can only give a JSON value, a `Practicum(ApiUnavailable)`, or `OtherError`. The input type `Outcome<Json>` is broader and admits every failure kind, and `RunPass` and `Poller.Iterate` are stated for all of them. `OtherError` covers, for example, the JSONDecodeError raised while logging a non-200 body that is not JSON.
- send_message (homework.py:44-58) and the Telegram bot are left out. A sent message is appended to the outbox, and the delivery outcome is ignored, as the source's swallowed Telegram errors make it. An exception from the bot library that is not a TelegramError is not modelled. Whether `telegram.Bot(token=TELEGRAM_TOKEN)` (homework.py:160) returns or raises is the input `botCreated` of `Start`; the token validation inside the library is not modelled.
- Logging, `timeout_and_logging`, `load_dotenv` and `os.getenv` are left out. The texts of logs and exceptions are replaced by the `Cause` tag and by which except clause catches the exception. Environment values are the input `Environment`.
- `time.sleep`, `RETRY_TIME`, the unbounded `while True` and the KeyboardInterrupt exit are left out. A pass reports whether it reached the sleep. Several passes in a row are described by the function `Replay` over a finite sequence of passes; no method runs the loop itself.
- JSON numbers with a fraction are not modelled: `JInt` stands for every number.
- Display: `str()` of a homework name that is a JSON list or object is Python's repr, with its quoting rules and dict insertion order. The model takes that text from the parameter `showNested` instead of computing it.
