# Voice-to-structured-action pipeline, modelled in Dafny

This project models the deterministic core of a voice note taker. A browser
records speech, the backend transcribes it, and a language model classifies
the transcript into a structured record. A database gateway stores entries,
reminders and per-user context variables. The model covers four parts:

- **AgentService** (`agent_service.dfy`, module `AgentService`). It builds the
  extraction request: the system prompt, an optional conversation history,
  and a user turn holding the invocation time, the quoted input and an
  optional "Global context" list. It returns the provider's parsed record, or
  a fixed fallback record when the call fails. `get_embedding` returns the
  provider's vector, or `[]` when the call fails.
- **Voice router** (`voice.dfy`, module `VoiceRouter`). `/transcribe` and
  `/process` build on the voice service's transcription. `/process`
  transcribes and then classifies with no context. Each endpoint wraps
  failures as HTTP 500 errors. The model records every provider call in
  order.
- **DatabaseService** (`database_service.dfy`, module `Database`). A class
  reads its three settings from the environment and creates and caches the
  anon and service Supabase clients lazily. Each operation builds its row
  and runs one query.
- **Supabase tables** (`supabase.dfy`, module `Supabase`). The tables are an
  in-memory `Store` class holding `entries`, `reminders` and
  `global_context` as sequences of rows. Pure functions give the query
  builder's meaning: `.eq` filters, `order(created_at, desc)`,
  `.limit().offset()`, update, delete and upsert on `(user_id, key)`.
- **Recorder component** (`audio_recorder.dfy`, module `AudioRecorder`). It
  covers the elapsed-time label, the choice of recording format, the file
  extension chosen for the upload, and the chunk buffer. A `Recorder` class
  holds the component's state and guards start, stop and button clicks.

Support modules:

- `wrappers.dfy` holds `Option` and `Result`.
- `strings.dfy` covers decimal rendering, `padStart`, `includes`, and `join`
  and `split`.
- `datetimes.dfy` covers Python's `datetime.isoformat()` for naive date-times.

External services are parameters of function type returning a `Result`:

- the clock, as the `now: DateTime` argument;
- speech-to-text, the chat-extraction call and the embedding call;
- the browser's `MediaRecorder.isTypeSupported`, the permission prompt and
  `getUserMedia`;
- the voice endpoint's reply to the recorder.

A failing `Result` stands for a raised exception or a rejected promise.
Python's falsiness is written out:

- a setting is missing when it is unset or `""`;
- an embedding is stored only when it is present and non-empty;
- the intent filter applies only when an intent is present and non-empty.

Three behaviours of the code that are easy to assume otherwise:

- `/process` neither embeds nor stores anything, even for a NOTE
  (`backend/app/routers/voice.py:24-48`).
- Intent membership, date resolution and "clarification iff incomplete" are
  instructions in the prompt text only. No code enforces them, so the model
  returns the provider's parsed record unchanged and claims nothing about it.
- `set_global_context` and `delete_global_context` use the anon client, not
  the service client, although `get_service_client`'s docstring says it is
  needed for context modifications.

## Model

| member | source | states |
|---|---|---|
| AgentService.FallbackRecord | backend/app/services/agent_service.py:101-111 | the fallback is a NOTE holding the original text unmodified, category "Uncategorized", no due date, incomplete, with a non-empty clarification question |
| AgentService.RenderContextLines | backend/app/services/agent_service.py:81-83 | for keys and values without newlines, splitting the rendered context at newlines gives back exactly one line per pair, in order; an empty context renders as nothing and a non-empty one never does |
| AgentService.BuildUserMessage | backend/app/services/agent_service.py:70-83 | the string grown with `+=` equals the user-turn specification and starts with "Current datetime: ", the ISO time, a blank line and the quoted input |
| AgentService.UserMessageSections | backend/app/services/agent_service.py:74-83 | the user turn starts with the header; it equals the header exactly when there are no context variables, and otherwise continues with the "Global context:" section |
| AgentService.NoneContextIsEmpty | backend/app/services/agent_service.py:70-71 | passing no context and passing an empty dictionary give the same user turn |
| AgentService.BuildMessages | backend/app/services/agent_service.py:144-146 | the list built by `extend` and `append` is the system prompt, every history entry unchanged and in order, then the user turn; its length is the history's plus two |
| AgentService.ClassifyRequestShape | backend/app/services/agent_service.py:87-94 | `classify_input` sends model gpt-4o and exactly two messages: the system prompt, then the user turn |
| AgentService.HistoryRequestShape | backend/app/services/agent_service.py:143-153 | `classify_with_history` sends the system prompt, the history in order, then the same user turn as `classify_input`; with an empty history the two requests are identical |
| AgentService.ClassificationOutcome | backend/app/services/agent_service.py:96-111 | a successful call with a choice returns the first parsed value unchanged; a failed call or an empty choice list returns the fallback for the text |
| AgentService.FallbackAgrees | backend/app/services/agent_service.py:158-167 | when extraction fails, both classification methods return the same fallback record, whatever the history |
| AgentService.EmptyHistoryIsClassifyInput | backend/app/services/agent_service.py:113-156 | with no history, `classify_with_history` answers what `classify_input` answers |
| AgentService.GetEmbeddingOutcome | backend/app/services/agent_service.py:169-181 | the embedding is the provider's first vector when it answers; it is empty exactly when the call fails, returns no vector, or returns an empty one |
| VoiceRouter.TranscribeAudioOutcome | backend/app/routers/voice.py:14-22 | `/transcribe` returns the provider's text, with its language or "unknown" when the reply has none; a failure becomes HTTP 500 with detail "Transcription failed: " plus the cause |
| VoiceRouter.ProcessCallOrder | backend/app/routers/voice.py:34-42 | `/process` calls speech-to-text first; it calls extraction second, and only after a successful transcription, with exactly the transcript and no context; it calls no other provider |
| VoiceRouter.ProcessFailsOnlyOnTranscription | backend/app/routers/voice.py:34-48 | `/process` fails exactly when transcription fails, with HTTP 500 and detail "Voice processing failed: " plus the cause; otherwise it returns the classifier's record for the transcript unchanged |
| VoiceRouter.ProcessAgreesWithTranscribe | backend/app/routers/voice.py:14-48 | `/process` succeeds exactly when `/transcribe` succeeds, then classifies the same transcript; on failure both report the same cause, each under its own prefix |
| VoiceRouter.ProcessWithFailingExtraction | backend/app/routers/voice.py:36-45 | a failing extraction after a successful transcription still yields success, with the fallback record for the transcript |
| Database.ServiceClientErrorsDiffer | backend/app/services/database_service.py:34-37 | when creating the service client fails, the error is the URL message exactly when the URL is missing |
| Database.EntryData | backend/app/services/database_service.py:54-63 | the entry row has user_id, content, intent, summary and category; it has an `embedding` key exactly when the embedding is present and non-empty, holding that vector |
| Database.ReminderData | backend/app/services/database_service.py:117-121 | the reminder row has exactly entry_id, status and the due date rendered in ISO 8601 |
| Database.ReminderDataInjective | backend/app/services/database_service.py:117-121 | two stored reminder rows are equal only when entry, due date and status all are |
| Database.ContextData | backend/app/services/database_service.py:165-170 | the context row holds user_id, key, value as text and the optional description |
| Database.SetThenGet | backend/app/services/database_service.py:153-183 | after setting (user, key, value), the single-key lookup finds the value and the user's map holds key → value |
| Database.DeleteThenGet | backend/app/services/database_service.py:153-191 | after deleting (user, key), the lookup finds nothing and the user's map lacks the key |
| Database.DatabaseService.constructor | backend/app/services/database_service.py:11-16 | the three settings are read from the environment once; no client exists yet |
| Database.DatabaseService.GetClient | backend/app/services/database_service.py:18-26 | returns the anon client the settings give, or the settings error; once created the client is cached and never created again; the service client is untouched |
| Database.DatabaseService.GetServiceClient | backend/app/services/database_service.py:28-39 | returns the service client the settings give, or the first failing check's error; it is cached independently of the anon client and never created twice |
| Database.DatabaseService.CreateEntry | backend/app/services/database_service.py:42-66 | with the defaults intent "NOTE" and no summary, category or embedding, the entries table gains exactly the built row, stamped with id and created_at, and that row is returned; a missing setting fails and leaves every table unchanged |
| Database.DatabaseService.GetEntries | backend/app/services/database_service.py:68-84 | with the defaults limit 100 and offset 0, answers exactly the entries query over the table: the user's rows, filtered by intent only when one is given, latest first, windowed |
| Database.DatabaseService.GetEntry | backend/app/services/database_service.py:86-91 | none exactly when no entry has that id; otherwise the table's earliest entry with that id |
| Database.DatabaseService.UpdateEntry | backend/app/services/database_service.py:93-98 | the rows with that id take the updated columns and the rest of the table is unchanged; returns the first updated row or an empty row |
| Database.DatabaseService.DeleteEntry | backend/app/services/database_service.py:100-105 | removes the rows with that id and, through the cascade, their reminders; answers true whether or not a row matched |
| Database.DatabaseService.CreateReminder | backend/app/services/database_service.py:108-123 | with the default status "PENDING", the reminders table gains exactly the built row, stamped, and that row is returned |
| Database.DatabaseService.UpdateReminder | backend/app/services/database_service.py:145-150 | as for entries, on the reminders table |
| Database.DatabaseService.GetGlobalContext | backend/app/services/database_service.py:153-158 | the value of the first row for the user and key; under one row per slot it is present exactly when the user's map has the key, with the same value |
| Database.DatabaseService.SetGlobalContext | backend/app/services/database_service.py:160-176 | an upsert on (user_id, key): the returned row is the row the upsert wrote, the user's map becomes the old map with key → value, the lookup finds the value, the serial advances once, and entries and reminders are unchanged |
| Database.DatabaseService.GetAllGlobalContext | backend/app/services/database_service.py:178-183 | the user's rows as a key → value map, with later rows winning, or `{}` when the user has none |
| Database.DatabaseService.DeleteGlobalContext | backend/app/services/database_service.py:185-191 | the user's map loses exactly the key, the lookup then finds nothing, the call answers true, and entries, reminders and the serial are unchanged |
| Supabase.Where | backend/app/services/database_service.py:78 | `.eq(column, value)` keeps a row exactly when the table holds it and it holds that value, and never returns more rows than the table has |
| Supabase.WhereAppend | backend/app/services/database_service.py:78 | filtering keeps table order and every match, duplicates included: the filter of `a + b` is the filter of `a` followed by the filter of `b` |
| Supabase.WhereHead | backend/app/services/database_service.py:90-91 | the filter is empty exactly when no row matches; otherwise its first row is the table's earliest matching row |
| Supabase.Except | backend/app/services/database_service.py:104 | `.delete().eq(column, value)` leaves exactly the rows not holding that value |
| Supabase.UpdateEffect | backend/app/services/database_service.py:97 | an update changes only matching rows, and in them only the updated columns, each of which takes the new value; it returns one row per match carrying the new values, and nothing exactly when no row matches |
| Supabase.SortDescCorrect | backend/app/services/database_service.py:83 | ordering by created_at descending returns the same rows, latest first, with NULLs first |
| Supabase.Window | backend/app/services/database_service.py:83 | `.limit(limit).offset(offset)` returns at most `limit` rows, consecutive from position `offset`: exactly `limit` when that many remain, the `|s| - offset` remaining rows of a partial last page, and none from an offset past the end |
| Supabase.EntriesFilterMembers | backend/app/services/database_service.py:78-81 | a row passes the entries filter exactly when it is the user's and, when an intent is given, has that intent |
| Supabase.EntriesQueryProperties | backend/app/services/database_service.py:78-84 | every entry returned is from the table and is the user's, with the requested intent; the result is latest first and at most `limit` long; a first page that can hold every match returns all of them |
| Supabase.UserContextAgreesWithLookup | backend/app/services/database_service.py:157-183 | when each user has one row per key, the single-key lookup and the user's map agree on every key |
| Supabase.Upsert | backend/app/services/database_service.py:172-175 | an upsert keeps the table's length or adds one row |
| Supabase.UpsertWellFormed | backend/app/services/database_service.py:172-175 | an upsert keeps one row per (user_id, key), and the row it returns carries the data's user, key and value |
| Supabase.UpsertContext | backend/app/services/database_service.py:172-175 | after an upsert, the data's user finds the key mapped to the new value, and every other user's map is unchanged |
| Supabase.DeleteSlot | backend/app/services/database_service.py:190 | the delete keeps exactly the rows outside the (user, key) slot |
| Supabase.DeleteSlotContext | backend/app/services/database_service.py:190 | deleting a slot removes that key from its user's map and changes no other user's map |
| Supabase.DeleteSlotSub | backend/app/services/database_service.py:190 | a delete keeps the context table well formed, with one row per slot |
| Supabase.Stamped | backend/app/services/database_service.py:65 | the stored row keeps every column of the inserted data and gains a generated id and created_at |
| Supabase.Store.InsertEntry | backend/app/services/database_service.py:65 | the entries table gains exactly the stamped row, the serial advances, and the other tables are unchanged |
| Supabase.Store.InsertReminder | backend/app/services/database_service.py:122 | the reminders table gains exactly the stamped row, and the other tables are unchanged |
| Supabase.Store.UpdateEntries | backend/app/services/database_service.py:97 | the entries table is updated in place where it matches; the updated rows are returned |
| Supabase.Store.UpdateReminders | backend/app/services/database_service.py:149 | the reminders table is updated in place where it matches; the updated rows are returned |
| Supabase.Store.DeleteEntry | backend/app/services/database_service.py:100-105 | removes the entry rows with the id and the reminders referring to it |
| Supabase.Store.UpsertContext | backend/app/services/database_service.py:172-175 | the context table becomes the upsert of the data and stays one row per slot |
| Supabase.Store.DeleteContext | backend/app/services/database_service.py:190 | the context table loses the slot's rows and stays well formed |
| DateTimes.IsoFormatFields | backend/app/services/database_service.py:119 | `isoformat()` has a fixed layout of 19 characters, or 26 with microseconds, and every field reads back as its value |
| DateTimes.IsoFormatInjective | backend/app/services/database_service.py:119 | different date-times never render alike |
| AudioRecorder.FormatTimeReadsBack | frontend/src/components/AudioRecorder.jsx:237-241 | the label is minutes, a colon and exactly two digits of seconds below 60; reading both back gives 60·minutes + seconds = the elapsed time |
| AudioRecorder.FormatTimeInjective | frontend/src/components/AudioRecorder.jsx:237-241 | different elapsed times get different labels |
| AudioRecorder.FirstSupportedChoice | frontend/src/components/AudioRecorder.jsx:48-56 | the choice is "" exactly when no listed format is supported; otherwise it is a supported entry of the list and no earlier entry is supported |
| AudioRecorder.GetSupportedMimeType | frontend/src/components/AudioRecorder.jsx:39-57 | the loop returns the first supported format of the fixed preference list, or ""; the result is "" or a list member |
| AudioRecorder.ExtensionsOfPreferredFormats | frontend/src/components/AudioRecorder.jsx:196-198 | the ordered substring tests give webm for both webm formats, m4a for mp4, ogg for ogg and wav for wav |
| AudioRecorder.BlobMimeType | frontend/src/components/AudioRecorder.jsx:143 | the blob is labelled with the chosen format when one was chosen, and never with "" |
| AudioRecorder.NoSupportedFormatUpload | frontend/src/components/AudioRecorder.jsx:143-205 | when the browser supports none of the listed formats, the upload is `recording.webm`, typed "audio/webm", holding the recorded bytes |
| AudioRecorder.Buffered | frontend/src/components/AudioRecorder.jsx:135-139 | only a chunk with data joins the buffer: no empty chunk is ever held, and the bytes held grow by exactly the chunk's bytes |
| AudioRecorder.UploadNames | frontend/src/components/AudioRecorder.jsx:190-205 | whatever format the browser chose, the upload's extension is one of webm, m4a, ogg, wav, and it is m4a exactly when the type is audio/mp4 |
| AudioRecorder.Recorder.constructor | frontend/src/components/AudioRecorder.jsx:19-33 | not recording, time 0, permission unknown, no error or response, no recorder, an empty buffer and format |
| AudioRecorder.Recorder.StartRecording | frontend/src/components/AudioRecorder.jsx:102-169 | clears the error and response; asks permission only while it is unknown, and stops with the permission message on refusal; a failing microphone sets "Failed to start recording: " plus the cause; both failures leave the recorder, timer, buffer and format as they were; otherwise recording starts at time 0 with an empty buffer, the chosen format and a running timer; uploads never change |
| AudioRecorder.Recorder.BeginCapture | frontend/src/components/AudioRecorder.jsx:121-163 | a fresh recorder with an empty buffer and the preferred supported format; recording is on and the timer runs from 0 |
| AudioRecorder.Recorder.OnDataAvailable | frontend/src/components/AudioRecorder.jsx:135-139 | the buffer becomes the buffered form of the event's chunk and still holds every reported byte; only the buffer changes |
| AudioRecorder.Recorder.TimerTick | frontend/src/components/AudioRecorder.jsx:161-163 | each tick adds one second while the timer runs; only the elapsed time can change |
| AudioRecorder.Recorder.StopRecording | frontend/src/components/AudioRecorder.jsx:174-185 | changes nothing unless a recorder exists and recording is on; otherwise it stops the recorder and clears the timer; nothing but those three pieces of state can change |
| AudioRecorder.Recorder.OnStop | frontend/src/components/AudioRecorder.jsx:142-221 | releases the microphone and uploads the file, named `recording.` plus the blob format's extension and holding every reported byte; shows the reply's record, or keeps the old one and shows "Processing failed: " plus the cause; the recording state, timer, buffer and permission are untouched |
| AudioRecorder.Recorder.HandleButtonClick | frontend/src/components/AudioRecorder.jsx:226-232 | while recording it stops the recorder and the timer and leaves every other piece of state as it was; otherwise it has exactly the effect of starting |

## Left out

- Network calls, async/await, logging and tracebacks. Each provider call is one sequential step whose outcome is a parameter.
- AgentService.ClassificationOutcome: the parsed value is a well-formed record. A provider answer that parses to `None` (a refusal) is not modelled.
- The prose rules in the system prompt (date resolution, completeness, intent values) are data sent to the language model. No code checks them, so no property about a successful result is claimed.
- `datetime.now()` is the `now` parameter. Time-zone-aware date-times are not modelled. `DateTimes.Valid` bounds the day by 31 without checking month lengths, which plays no part in the rendering.
- The voice service's own body (`backend/app/services/voice_service.py`) is represented only by the transcription request it sends and its language default of "unknown".
- `get_reminders` is left out. It joins reminders to entries, and its `.eq("entries.user_id", ...)` filter on the embedded resource has PostgREST semantics not modelled here.
- `search_similar_entries` is an RPC over floating-point vector similarity, so it is left out.
- Row-level security, foreign-key checks other than the reminder cascade on entry delete, and `create_client`'s own URL validation and connection errors are left out. A missing setting is the only modelled client failure.
- Generated ids and timestamps are the store's serial number: the id is its decimal string and `created_at` the number itself. Real UUIDs and clock times are not modelled.
- Database.DatabaseService.GetEntries: `limit` and `offset` are natural numbers. Negative values, which PostgREST rejects, are not modelled.
- Database.DatabaseService.UpdateEntry and UpdateReminder: the `updates` dictionary is applied as given. Updates that change `id` or violate the schema are not rejected.
- AudioRecorder.Recorder.StartRecording: the MediaRecorder constructor itself never fails. The permission prompt and `getUserMedia` are the only failures modelled.
- AudioRecorder.Recorder.OnStop: the reply is the voice endpoint's answer as a `Result`. The client picks the error text from `err.response?.data?.detail || err.message`, and that choice is folded into the failure string.
- React rendering, `isTranscribing` (the button's disabled state), the track stopping inside `requestPermission`, the unmount cleanup, and `Blob` and `File` objects, whose contents are the concatenated chunk bytes, are left out.
