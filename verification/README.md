# AI chatbot conversation store, modelled in Dafny

The server in `index.js` keeps chat conversations behind a few HTTP
handlers. Without the file I/O, JSON and the completion API call, each
handler is a deterministic operation on two pieces of state:

- **the index** (`data/conversations.json`): an ordered sequence of records
  `{id, title, createdAt, updatedAt}`, newest first, which may not exist yet;
- **the transcripts** (`data/<id>.json`): for each conversation id, the
  sequence of `{role, content}` messages.

This project models those handlers and proves what they do to that state:

- listing, fetching, creating, renaming and deleting conversations;
- one chat turn: choosing the file prompt, building the messages sent to
  the completion API, appending the user turn and the reply, and refreshing
  `updatedAt`;
- the JSON and CSV exports.

Modules, one per part of the server:

- `chat_types.dfy` (`ChatTypes`): the records, the messages, the handler
  outcome (success, 400 or 404 with the handler's message), and JavaScript
  truthiness of an optional string field.
- `decimal.dfy` (`Decimal`): a new id is `Date.now().toString()`, and the
  "too large" prompt shows the size with `toFixed(2)`. Both are computed
  exactly on naturals. A byte count divided by 2^20 is exact in a double, so
  `toFixed(2)` rounds it to the nearest hundredth, with a tie going up.
- `conversation_index.dfy` (`ConversationIndex`): the index rewrites
  (`filter`, `map`, `find`) as functions, with the facts about order, length
  and which records change.
- `chat_turn.dfy` (`ChatTurn`): `path.basename`, the four file-prompt cases,
  the message list sent to the model, and the user turn that is stored.
- `csv_export.dfy` (`CsvExport`): the cell escaping, the export loop, and
  proofs that the text splits into the header plus one line per message,
  and that a CSV reader recovers each message's fields.
- `store.dfy` (`Store`): the class `ConversationStore`, whose fields are the
  index and the transcripts. Create, rename, delete and chat change them in
  place; list, fetch and export only read them. Three client methods replay
  scenarios through the class's contracts.

The clock, the id clock, the file system lookup of an uploaded file (does it
exist, its size, its text) and the completion API's reply are parameters of
the operations that use them.

Three behaviours of the handlers are easy to misread:

- Renaming an id that is not in the index returns success and leaves the
  index unchanged. It does not return "not found". A 404 comes only when the
  index file does not exist (`index.js:124-126`). Deleting works the same way.
- The server does not keep an index record for every transcript, even in a
  single process. A chat turn that names an id the index does not hold still
  writes a transcript for that id (`Store.ChatOrphansTranscript`). Creating,
  renaming, deleting and chatting into an indexed id keep it (the
  `Consistent()` postconditions).
- The creation handler reads the clock three times: `Date.now()` for the id
  (`index.js:175`), then `new Date()` once for `createdAt` and once for
  `updatedAt` (`index.js:179-180`). The model takes all three readings, so
  the two timestamps are equal exactly when their readings are.

## Model

| member | source | states |
|---|---|---|
| `Decimal.NatToString` | index.js:175 | The id text is non-empty, all decimal digits, with no leading zero unless it is "0". |
| `Decimal.ParseNatToString` | index.js:175 | Reading an id back as a decimal number gives the millisecond count it was made from. |
| `Decimal.NatToStringInjective` | index.js:175 | Ids made in different milliseconds differ. |
| `Decimal.Hundredths` | index.js:242-250 | The size in hundredths of a megabyte is the nearest hundredth to size / 2^20, with a tie going up. This is the rounding `toFixed(2)` does. |
| `Decimal.MegabytesFixed2` | index.js:250 | The megabyte text has a decimal point followed by exactly two digits. |
| `Decimal.MegabytesFixed2ReadsBack` | index.js:250 | The digits before the point and the two after it read back as the rounded number of hundredths. |
| `ConversationIndex.TitleOrDefault` | index.js:178 | A new title is the given one when it is present and non-empty. Otherwise it is "New Conversation". It is never empty. |
| `ConversationIndex.FindIndex` | index.js:342 | Gives the position of the first record with the id: no earlier record has it, and `|s|` means no record has it. |
| `ConversationIndex.FindByIdSpec` | index.js:342 | `find` returns nothing exactly when no record has the id. Otherwise it returns the first record with the id. |
| `ConversationIndex.DeleteById` | index.js:94 | The result is never longer, and it holds exactly the records of the index whose id differs from the target. |
| `ConversationIndex.DeleteByIdConcat` | index.js:94 | Deleting keeps order: deleting from `a + b` equals deleting from `a`, then from `b`, concatenated. |
| `ConversationIndex.DeleteAbsent` | index.js:94-97 | Deleting an id the index does not hold leaves the index unchanged. |
| `ConversationIndex.DeleteByIdLength` | index.js:94 | The index shrinks by exactly the number of records carrying the id. |
| `ConversationIndex.IdSetDelete` | index.js:94-102 | After a delete, the index's ids are the old ids minus the deleted one. |
| `ConversationIndex.DeleteKeepsTitles` | index.js:94 | Deleting keeps every remaining title non-empty. |
| `ConversationIndex.MapById` | index.js:132-141 | Same length. A record with the id is replaced by its update. Every other record is unchanged. |
| `ConversationIndex.Renamed` | index.js:132-141 | Same length and order. Ids and `createdAt` are kept. Records with the id get the new title and `updatedAt`. Other records are unchanged. |
| `ConversationIndex.Touched` | index.js:300-308 | Same length and order. Ids, titles and `createdAt` are kept. Records with the id get the new `updatedAt`. Other records are unchanged. |
| `ConversationIndex.IdSetSameIds` | index.js:132-141 | A rewrite that keeps each position's id keeps the index's set of ids. |
| `ConversationIndex.RenameAbsent` | index.js:132-146 | Renaming an id the index does not hold leaves the index unchanged. |
| `ConversationIndex.DeleteAfterRename` | index.js:94 | Once a conversation is deleted, an earlier rename of it leaves no trace in the index. |
| `ConversationIndex.IdSetCons` | index.js:191 | Putting a record in front adds exactly its id to the index's ids. |
| `ChatTurn.StripTrailingSlashes` | index.js:247 | The result is a prefix of the path that does not end in a slash, and everything cut off is slashes. |
| `ChatTurn.LastSegment` | index.js:247 | The result is a suffix of the path with no slash, and it is either the whole path or preceded by a slash: the text after the last slash. |
| `ChatTurn.Basename` | index.js:247 | The file name contains no slash. |
| `ChatTurn.BasenameNoSlash` | index.js:247 | A path without a slash, such as `notes.txt`, is its own file name. |
| `ChatTurn.BasenameOfJoin` | index.js:247 | For an upload stored as `<dir>/<name>`, the file name is `<name>`. |
| `ChatTurn.BasenameTrailingSlash` | index.js:247 | A trailing slash does not change the file name. |
| `ChatTurn.FilePrompt` | index.js:234-255 | The file prompt is empty exactly when the request has no (or an empty) `filePath`. |
| `ChatTurn.SmallFileInlined` | index.js:245-248 | A file of at most 5 * 1024 * 1024 bytes gives the prompt that names the file by its base name and carries its text. |
| `ChatTurn.InlinedTextRecoverable` | index.js:248 | That prompt is the header naming the file, then the whole file text, then the fixed footer. The text can be cut back out. |
| `ChatTurn.TooLargeIgnoresContent` | index.js:249-251 | For a file over 5 MB, the prompt depends only on the size. Neither the file text nor the path reaches it. |
| `ChatTurn.FilePromptCasesDistinct` | index.js:248-253 | The inline, too-large and missing-file prompts differ from one another. |
| `ChatTurn.ReadCaseOfFilePrompt` | index.js:238-254 | Which branch the file-prompt choice took (no path, missing file, inlined, too large) can be read back from the prompt it produced. |
| `ChatTurn.FilePromptShowsCase` | index.js:238-254 | Requests that fall in different branches get different prompts. |
| `ChatTurn.ModelMessages` | index.js:258-271 | The message list is the system message, then the client's messages unchanged, then one extra user message holding the file prompt exactly when that prompt is non-empty. |
| `ChatTurn.UserTurn` | index.js:285-289 | The stored user turn is the last message sent to the model. That is the file prompt when there is one, otherwise the client's last message. |
| `ChatTurn.StoredTurnShowsFileCase` | index.js:238-289 | When both requests carry a file path, the stored user turns of requests in different file branches differ. |
| `ChatTurn.NoPathTurnCanMatchFileTurn` | index.js:285-289 | Without a file path the stored turn is the client's message, which can equal the turn stored for a missing file. |
| `CsvExport.ReplaceChar` | index.js:396-397 | Replacing every `c` by text without `c` leaves no `c`. |
| `CsvExport.EscapeContent` | index.js:395-397 | An escaped content cell holds no newline. |
| `CsvExport.EscapeContentIsOnePass` | index.js:395-397 | The two global replacements equal a one-pass escape of each character: `"` becomes `""`, a newline becomes a space. |
| `CsvExport.EscapeDoublesQuotes` | index.js:396 | The cell has exactly twice the content's double quotes, and it is longer than the content by that count. |
| `CsvExport.ParseEscaped` | index.js:399 | Reading the quoted cell back gives the content with its newlines turned into spaces. |
| `CsvExport.ParsePlain` | index.js:399 | A quoted cell without quotes, such as the timestamp, reads back unchanged. |
| `CsvExport.RowsEndInNewline` | index.js:389-400 | The rows text is empty or ends with a newline. |
| `CsvExport.BuildCsv` | index.js:387-400 | The loop starts from the header and appends one row per message in transcript order. It yields exactly `CsvDocument`. |
| `CsvExport.DataLines` | index.js:399 | Data line `k` is message `k`'s role, then its escaped content in quotes, then its timestamp in quotes. |
| `CsvExport.RowsLines` | index.js:389-400 | The appended rows split into exactly those data lines. |
| `CsvExport.CsvLines` | index.js:387-400 | The export splits into the header line `Role,Content,Timestamp` and exactly one line per message, in order. This holds when roles and timestamps have no newline. |
| `CsvExport.RowLineParses` | index.js:399 | A CSV reader recovers a row's role, its content with newlines flattened, and its timestamp. This holds when the role has no comma and the timestamp no quote. |
| `CsvExport.CsvReadsBack` | index.js:387-400 | Reading the whole export gives the header, then, for each message in order, its role, its flattened content and its timestamp. |
| `Store.CsvCreatedAt` | index.js:376-384 | The CSV's base time is the `createdAt` of the first index record with the id. When there is no such record or no index, it is the current time. |
| `Store.ChooseFilePrompt` | index.js:234-255 | The handler's choice, made by reassigning a local, is `FilePrompt`. |
| `Store.ConversationStore.constructor` | index.js:22-26 | A fresh data directory has no index and no transcripts. |
| `Store.ConversationStore.List` | index.js:64-76 | Listing gives the stored index, or the empty sequence when none exists. |
| `Store.ConversationStore.Get` | index.js:154-169 | Fetching succeeds exactly when the transcript exists and returns it. Otherwise it is a 404. |
| `Store.ConversationStore.Create` | index.js:172-205 | The new record has the clock's id, the title rule and both timestamps. It goes in front of the old index (created if missing). The new id gets an empty transcript. Consistency and non-empty titles are kept. |
| `Store.ConversationStore.Rename` | index.js:112-151 | A missing or empty title gives a 400 and changes nothing. No index gives a 404 and changes nothing. Otherwise the index becomes `Renamed`, transcripts are untouched, and the reply is a success even for an absent id. Consistency and non-empty titles are kept. |
| `Store.ConversationStore.Delete` | index.js:79-109 | No index gives a 404 and changes nothing. Otherwise the index becomes `DeleteById` and the transcript is removed, with a success reply even for an absent id. Consistency and non-empty titles are kept. |
| `Store.ConversationStore.Chat` | index.js:230-321 | Sends `ModelMessages` and answers with the reply. Without a conversation id nothing changes. With one, the stored (or empty) transcript grows by exactly the user turn and the reply. The index, if it exists, becomes `Touched`. Chatting into an indexed id keeps consistency. |
| `Store.ConversationStore.ExportJson` | index.js:324-360 | A 404 exactly when the transcript is missing. Otherwise the messages are the transcript, and the metadata is the first index record with the id, or absent when no record has it. |
| `Store.ConversationStore.ExportCsv` | index.js:362-411 | A 404 exactly when the transcript is missing. Otherwise the text is `CsvDocument` of the transcript, stamped from `CsvCreatedAt`. |
| `Store.CreateThenChat` | index.js:276-291 | Creating "Test" and sending "hello" leaves the transcript as that user message followed by the reply. |
| `Store.CreateThenDelete` | index.js:79-109 | A conversation created without a title is listed first as "New Conversation". Once deleted, it is no longer listed and fetching it gives a 404. |
| `Store.ChatOrphansTranscript` | index.js:276-294 | A chat turn naming an id the index lacks leaves a transcript without an index record. |

## Left out

- HTTP routing, status plumbing, CORS, static files and the page route (`index.js:48-60`) are left out. Only the success, 400 and 404 outcomes and their messages are kept.
- Every handler's catch-all 500 is left out. It fires on file-system or JSON errors, which the model does not have. In the chat handler it also fires when the completion call rejects or its reply has no `choices[0]` (`index.js:265-273`, `index.js:317-319`); then nothing is written. The `reply` parameter of `Chat` models only a successful completion call.
- Reading and writing the data files and JSON (de)serialisation are left out. The index file and the transcript files are the two fields of `ConversationStore`, kept apart.
- The conversation id `conversations` is not modelled faithfully. Its transcript path is the index file, `data/conversations.json` (`index.js:82-83`). The real handlers then behave differently from the model's `Get`, `Delete`, `Chat`, `ExportJson` and `ExportCsv`. Deleting it rewrites the index and then unlinks it, so no index is left (`index.js:97-102`). Fetching it returns the index array as the transcript (`index.js:159-164`). When an index file exists, chatting into it throws at `messages.push` (`index.js:286-288`), giving a 500 with nothing written. When no index file exists, the handler starts from an empty transcript (`index.js:278`), the pushes succeed, and the transcript object is written as `data/conversations.json` (`index.js:294`). The following `map` over that object throws (`index.js:298-300`), so the reply is a 500 after the write. From then on the index file holds a transcript object: listing returns it (`index.js:70-71`), and creating, renaming and deleting answer 500 at `unshift` (`index.js:191`), `map` (`index.js:132`) and `filter` (`index.js:94`). While the index is an array, the JSON export of this id answers `{}`, because the array has no `messages` and no record carries the id (`index.js:340-349`). The CSV export throws at `forEach` (`index.js:389`), giving a 500. The model keeps the index and the transcripts in separate fields, so in the model that id is an ordinary key.
- `Store.ConversationStore.Get`, `Store.ConversationStore.Delete`, `Store.ConversationStore.Chat`, `Store.ConversationStore.ExportJson` and `Store.ConversationStore.ExportCsv` key transcripts by the id text. The handlers key them by the file `path.join(dataDir, id + ".json")` (`index.js:83`, `index.js:157`, `index.js:277`, `index.js:327`, `index.js:365`), and `path.join` normalises the path. Path normalisation and traversal are not modelled:
  - Different ids can name one file. `5`, `./5` and `x/../5` fetch, delete, extend and export the same transcript on the server, but three different keys in the model.
  - An id containing `..` leaves the data directory. A chat `conversationId` of `../x` writes `x.json` beside the server script (`index.js:277`, `index.js:294`).
  - The router decodes `%2F` in the `:id` path parameter, so `DELETE /api/conversations/..%2Fpackage` unlinks `package.json` (`index.js:100-101`). The handlers do not check that an id stays inside the data directory; this is a path-traversal defect of the server.
- The completion API call (`index.js:265-273`) is a foreign library call. Its reply is a parameter of `Chat`, and `Chat` returns the message list it would be sent.
- The multer upload handler (`index.js:29-41`, `index.js:208-227`) is library-driven disk I/O and is left out. `ChatTurn.BasenameOfJoin` covers the name it gives a stored file.
- What the file system says about an uploaded file (`path.join`, `existsSync`, `statSync`, `readFileSync`) is one parameter: absent, or a size and a text. A path naming a directory, which would make the read fail, is not modelled. Text decoding is not modelled.
- `path.basename` is modelled for POSIX separators only.
- ISO-8601 clock strings are opaque parameters. The CSV timestamp for message `k`, which is the creation time plus `k` minutes (`index.js:391-392`), is given by the parameter `stamp(createdAt, k)`.
- `ConversationIndex.Renamed`: the handler reads the clock again for every matching record. The model uses one reading for all of them. The readings can differ only when ids are duplicated.
- `ConversationIndex.Touched`: same as `Renamed`, one clock reading for all matching records.
- `Store.ConversationStore.Chat` and `ChatTurn.UserTurn` require a non-empty message list when a turn is saved without a file. Without that, the handler stores `undefined` (written as `null`).
- Request fields are modelled as strings. Non-string JSON values are not modelled: a numeric `conversationId` never equals a string id, and a `null` content would make the CSV export throw.
- The lost-update race between concurrent read-modify-write requests is a concurrency concern and is left out.
- The local IP discovery loop (`index.js:416-446`) only logs, and is left out.
- The browser front end is not part of this model. `advertise.js` (an mDNS announcement) is not part of this model either.
