# Chat client core: streamed-reply decoder and chat-history store

This project models the two parts of a Streamlit chat client that carry its logic. Everything else in the client is rendering.

- **The chat page** (`chatbot.py`):
  - The loop of `generate_assistant_response` reads a chat-completions server-sent-event body line by line. It skips lines that are blank or lack the `data: ` prefix, and stops at `data: [DONE]`. It reports an `error` frame, or any frame that raises, in an error box and keeps going. It appends `choices[0].delta.content` to the reply and shows the running reply. When the body ends, it adds one assistant message to the page's message list.
  - `get_input_content` builds the request's content parts: a text part, then one part per file. Each file part carries a `data:<mime>;base64,<data>` URL (section 3 of RFC 2397, with base64 as in section 4 of RFC 4648).
  - `display_error_message` builds the error-box text, and `is_list_not_empty` tests a list.
  - The submission handler refuses a message that has neither text nor files.
- **The history store** (`db/chat_history.py`) holds two AUTOINCREMENT tables, `sessions` and `messages`:
  - `create_session` inserts a session.
  - `get_sessions` lists sessions newest first.
  - `save_message` inserts a message, with its attachments serialised as `{name, mimetype, data}` records holding base64 data.
  - `fetch_chat_history` returns one session's messages in insertion order.

The modules are:

| module | file | what it holds |
|---|---|---|
| `Wrappers` | `wrappers.dfy` | `Option` and `Result` |
| `Base64` | `base64.dfy` | the encoder, a strict reference decoder, and round trips in both directions |
| `DataUrl` | `data_url.dfy` | building and parsing base64 data URLs |
| `Uploads` | `uploads.dfy` | the uploaded-file value |
| `ErrorDisplay` | `error_display.dfy` | `display_error_message` |
| `StreamDecoder` | `stream_decoder.dfy` | the line loop: a method, proved against the fold function `Decode`, and lemmas about `Decode` |
| `Chatbot` | `chatbot.dfy` | content parts, the empty-input guard, and the page's message list as a class |
| `ChatHistory` | `chat_history.dfy` | the store, as a class over two row sequences and two AUTOINCREMENT counters |

Some choices the model makes:

- **Parsing JSON.** A function `parse: string -> Frame` stands in for parsing each payload as JSON. It sorts each payload into one of the outcomes the Python code tells apart:
  - `JSONDecodeError`;
  - `KeyError`;
  - any other exception;
  - a non-null `error`;
  - no choices;
  - a delta without `content`;
  - a delta with a content that is null or a string.
- **Guessing MIME types.** `mimetypes.guess_type` is a parameter. An unknown type prints as `None` inside the data URL, as the f-string does.
- **Timestamps.** They are opaque strings. The "current time" default is a parameter `now`.

## Model

| member | source | states |
|---|---|---|
| `Base64.Encode` | db/chat_history.py:63 | the base64 text of n bytes has 4·⌈n/3⌉ characters, all from the base64 alphabet or the `=` pad |
| `Base64.DecodeEncode` | db/chat_history.py:63 | decoding the stored base64 text of any bytes gives back exactly those bytes |
| `Base64.EncodeDecode` | db/chat_history.py:63 | any text the decoder accepts is the encoding of what it decodes to, so the encoding is a bijection onto the accepted texts |
| `DataUrl.ParseMake` | chatbot.py:120-125 | the `data:{mime};base64,{b64}` URL built for a file gives back the media type and the file's exact bytes, even when the media type contains a comma |
| `ErrorDisplay.DisplayErrorMessage` | chatbot.py:69-75 | the step-by-step message is the title, then the subtitle and message each on a new line when non-empty |
| `ErrorDisplay.ErrorTextLines` | chatbot.py:69-75 | when none of the title, subtitle and message contains a newline, the error text split at newlines is the title followed by exactly the non-empty subtitle and message, in that order |
| `StreamDecoder.DecodeStream` | chatbot.py:36-64 | the line loop yields exactly the reply, the shown events and the [DONE] flag of the reference fold `Decode` |
| `StreamDecoder.RunSkipsOtherLines` | chatbot.py:39-44 | from any state, blank lines and lines without the `data: ` prefix change neither the text nor the events |
| `StreamDecoder.DecodeSkipsOtherLines` | chatbot.py:39-44 | decoding a body gives the same result as decoding only its data lines |
| `StreamDecoder.RunConcat` | chatbot.py:39-64 | reading two pieces of a body is reading the first, then the second from where the first left off |
| `StreamDecoder.DecodeStopsAtDone` | chatbot.py:45-46 | after `data: [DONE]` no line affects the result, and the reply and events equal those of the lines before it, so a body that ends without [DONE] gives the same reply |
| `StreamDecoder.RunText` | chatbot.py:53-57 | from any running state, the text grows by exactly the deltas' contents before [DONE] |
| `StreamDecoder.DecodeText` | chatbot.py:53-57 | the reply is the in-order concatenation of the `content` of every delta frame before [DONE] (null counts as ""); error frames, frames without choices and deltas without `content` add nothing |
| `StreamDecoder.RunAlerts` | chatbot.py:47-64 | from any running state, each error frame before [DONE] adds exactly its error text, in order |
| `StreamDecoder.StepAlerts` | chatbot.py:47-64 | one data frame adds at most one error box: its own error text, if it has one |
| `StreamDecoder.DecodeAlerts` | chatbot.py:47-64 | the error boxes shown are exactly those of the error, decode-error, missing-key and other-exception frames before [DONE], in order, and reading goes on after each |
| `StreamDecoder.RunPreviews` | chatbot.py:57-58 | the buffer only grows, and each preview is a prefix of the current text |
| `StreamDecoder.DecodePreviews` | chatbot.py:57-58 | every preview shown while streaming is a prefix of the final reply |
| `StreamDecoder.MalformedFrameBetweenDeltas` | chatbot.py:47-64 | deltas "A", a malformed frame, then "B" and [DONE] give the reply "AB" and exactly one JSON decode error box |
| `Chatbot.FileGuardMeansFileParts` | chatbot.py:77-78 | `is_list_not_empty` holds of the uploaded files exactly when the request gets at least one file part; a missing or empty list gives none |
| `Chatbot.GetInputContent` | chatbot.py:106-146 | the loop builds the reference content: the text part when there is text, then the parts of the files in order |
| `Chatbot.PartsForAt` | chatbot.py:118-143 | the file parts are one per file, the i-th built from the i-th file |
| `Chatbot.PartForCarriesFile` | chatbot.py:119-143 | a file guessed as application/pdf becomes a `file` part under its own name, and any other file an `image_url` part; either one's URL decodes to the guessed type and the file's bytes |
| `Chatbot.InputContentParts` | chatbot.py:106-146 | there is a text part first if and only if the text is non-empty, then exactly one part per file, in order, each carrying its file |
| `Chatbot.CheckSubmission` | chatbot.py:197-201 | a submission is refused, with the "Please enter a message or upload a file" box, exactly when it has no text and no file; otherwise the request content is never empty |
| `Chatbot.ChatSession.constructor` | chatbot.py:22-23 | the page starts with an empty message list |
| `Chatbot.ChatSession.SubmitUserInput` | chatbot.py:193-218 | a refused submission leaves the message list alone; an accepted one appends exactly one user message and returns the request content |
| `Chatbot.ChatSession.GenerateAssistantResponse` | chatbot.py:26-66 | appends exactly one assistant message holding the decoded reply, whether or not [DONE] was seen, and returns the events shown |
| `ChatHistory.ToRecord` | db/chat_history.py:60-64 | a stored attachment record keeps the file's name and type, and its data decodes to the file's bytes |
| `ChatHistory.SerializeFiles` | db/chat_history.py:56-66 | the files column is NULL when the file list is absent or empty; otherwise it holds one record per file, in order, each keeping name and type and decoding to the bytes |
| `ChatHistory.FilesRoundTrip` | db/chat_history.py:56-89 | a fetched message has no records when none were stored, and otherwise one record per saved file with that file's name, type and exact bytes |
| `ChatHistory.TextLeTotal` | db/chat_history.py:50 | any two created_at texts are comparable under SQLite's binary collation |
| `ChatHistory.TextLeTransitive` | db/chat_history.py:50 | the binary collation order is transitive |
| `ChatHistory.InsertPermutes` | db/chat_history.py:50 | inserting a session into the ordered list adds exactly that session |
| `ChatHistory.InsertOrders` | db/chat_history.py:50 | inserting a session keeps the list ordered newest first |
| `ChatHistory.SortNewestFirstPermutes` | db/chat_history.py:50 | the ordered session list holds every session exactly once |
| `ChatHistory.SortNewestFirstOrders` | db/chat_history.py:50 | the ordered session list never increases in created_at (descending order) |
| `ChatHistory.SelectMembers` | db/chat_history.py:81 | a session's history holds a row if and only if the row is stored with that session id |
| `ChatHistory.SelectAscending` | db/chat_history.py:81 | a session's history is in ascending id (insertion) order whatever the timestamps, so no row appears twice |
| `ChatHistory.SelectUnknown` | db/chat_history.py:78-93 | a session id that no message carries, including an unknown one, has an empty history |
| `ChatHistory.SelectAppend` | db/chat_history.py:71-81 | an inserted row is appended to its own session's history and to no other |
| `ChatHistory.FetchAfterSave` | db/chat_history.py:55-93 | after saving, fetching that session gives the earlier history plus the new message with its attachments; other sessions are unchanged |
| `ChatHistory.Store.InitDb` | db/chat_history.py:8-31 | a new database has both tables empty and satisfies the store invariant |
| `ChatHistory.Store.CreateSession` | db/chat_history.py:33-45 | adds exactly one session with the given name and creation time (or now) and returns an id greater than every existing one; messages are unchanged |
| `ChatHistory.Store.GetSessions` | db/chat_history.py:47-53 | returns (id, name) of every session exactly once, in an order whose created_at never increases (descending); rows with equal created_at may come in any order |
| `ChatHistory.Store.SaveMessage` | db/chat_history.py:55-76 | appends exactly one message row with the next id, the serialised files and the given timestamp (or now); sessions and earlier messages are unchanged |
| `ChatHistory.Store.FetchChatHistory` | db/chat_history.py:78-93 | returns, in order, the entries of exactly the rows with the given session id, with files `[]` when none were stored |

## Left out

- The Streamlit rendering is not modelled: `st.*` calls, `display_messages`, `styling_user_role`, `get_role_avatar`, the script's rerun loop (chatbot.py:175-191) and the uuid widget keys. They only draw. A `Preview` event stands for the running reply and leaves out the cursor glyph.
- The network side is not modelled: `requests.post`, its timeout and exception handling, the non-200 error path (chatbot.py:228-264), `get_input_headers` and `st.secrets`. They are I/O and secrets.
- `get_input_data` is not modelled. It is JSON serialisation of the request body, done by library code.
- Time is not modelled: `get_timestamp_string`, the timezone detection and `datetime.now()`. Timestamps are opaque strings, and the "current time" default is a parameter.
- JSON parsing of a payload is not modelled. The caller-supplied `parse` does the classification. The JSON round trip of the files column (`json.dumps` then `json.loads`) is taken as the identity, so the column holds the record list itself.
- How `iter_lines` splits the body into lines is not modelled, and neither is the UTF-8 decoding of each line. That decoding sits outside the `try`, so invalid UTF-8 would escape the loop. Lines are given as already-decoded strings.
- Python truthiness is simplified. A missing text (None) is modelled as "". An error `message` that is null, missing or falsy is given by `parse` as "". A falsy non-null `content` counts as null.
- `mimetypes.guess_type` and the file object's `read`, `seek` and `getvalue` are not modelled. The guess is a function parameter and a file's bytes are a sequence. The `seek(0)` rewind has no counterpart, because bytes are values.
- SQLite I/O is not modelled: opening and closing connections, commit, durability, and running `init_db` on a file that already holds data. The tables live in memory and start empty.
- `create_session` does not reject duplicate names: the code has no such check, so none is modelled.
- `save_message` does not reject a session id that has no session: SQLite leaves foreign keys unenforced by default, and the code adds no check.
- There is no operation that deletes sessions or messages, and no atomicity across several calls.
- The decoder reports no separate final outcome. Error frames never stop the loop: after one it keeps the text so far and reads on. A body that is read to its end always ends with the reply appended.
- `Chatbot.ChatSession.GenerateAssistantResponse`: when reading the body or decoding a line raises, the source appends nothing. That happens when `iter_lines` fails partway or times out, or when a line is not valid UTF-8, and nothing around the call catches it. In the model the lines are a finite sequence of already-decoded strings and never raise, so this path is not modelled.
- `ChatHistory.Store.GetSessions`: rows with equal `created_at` come back in an order that SQL leaves unspecified. The contract allows any such order. The body picks one, through `SortNewestFirst`, which the contract does not expose.
- Ids are unbounded integers. SQLite's AUTOINCREMENT fails with SQLITE_FULL once an id would pass 2^63 − 1; the model has no such limit.
- `Base64.Decode` is a strict reference decoder that accepts only canonical encodings. The code never decodes the stored data: `fetch_chat_history` returns it still base64-encoded. The decoder exists only to state the round trip.
