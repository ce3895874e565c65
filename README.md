# AI-powered motion authorization, modelled in Dafny

The system waits for a motion sensor on a serial port. On a trigger it captures a burst of five camera
frames and matches the faces in them against enrolled embeddings. The first frame with a score decides
between `"authorized"`, `"intruder"` and `"none"`. A decisive outcome is written as one
`timestamp | STATUS | path` line to a local log and to the database. An intruder also triggers an e-mail
and a Telegram alert. The `__main__` loop either ends after a decisive result or sends `resume` back to
the sensor and waits again. A small HTTP task registry runs the single-shot variant in the background
and serves its status, results and logs. A dashboard and an importer read the log back. Three scripts
are also modelled:

- enrolment of the known faces;
- a manual trigger;
- a stand-alone verifier that checks the newest capture.

The model is one Dafny module per source file. Four shared modules support them:

| module | contents |
|---|---|
| `Common` | options, Python exceptions as `Outcome`, and a score that may be infinite |
| `Text` | the Python string operations the code relies on |
| `Effects` | one event type for every call into a collaborator |
| `Matching` | the nearest-reference search the three matchers share |

The collaborators are inputs:

- the camera is a device with a list of read outcomes;
- the serial port is a list of reads;
- face embeddings are values of an opaque type `E`, compared by an uninterpreted distance;
- notifiers, database inserts and file writes are events in a trace, and can fail;
- clocks, directory listings and `:.2f` formatting are parameters.

Loops in the source are Dafny methods. Each is proved equal to a function that states the same
behaviour, and lemmas state the properties of those functions. The task registry is a class whose two
maps are fields.

Behaviour of the code worth knowing:

- `log_event` does not catch a failing database insert (`main.py:34`). That exception reaches the caller after the local line is written. It is not turned into a warning.
- `wait_for_trigger` leaves the port open when a read error or an interrupt comes after the port was opened (`src/serial_listener.py:26-31`).
- The resume handshake of `__main__` waits for another motion line before it writes `resume` (`main.py:114-115`).
- The enrolment script stores one vector per name (`face_auth/build_embeddings.py:53`). `face_auth/verify_faces.py` reads that format. `src/predict_with_embed.py` and `face_auth/trigger.py` instead iterate each name's value as a list of reference vectors (`src/predict_with_embed.py:48-50`, `face_auth/trigger.py:49-50`). Each module models its own side as written.

## Model

| member | source | states |
|---|---|---|
| Camera.CaptureImages | src/camera.py:8-36 | The capture loop returns the paths of the successful reads in read order and prints a warning for each failed read. It releases the camera at the end; an unopened camera gives `[]`. |
| Camera.SavedPathsAreFrames | src/camera.py:20-31 | At most `num_images` paths come back, and a path is returned exactly when one of the reads produced that frame. |
| Camera.SleepsFollowFrames | src/camera.py:21-33 | The frames written are exactly the paths returned, in the same order. Each saved frame is followed by its announcement and a pacing sleep, and no sleep happens anywhere else. |
| Camera.CaptureContract | src/camera.py:12-36 | An unopened device yields `[]` and only the error message. An opened device is released exactly once, as the last event, and the files written are the paths returned. |
| Camera.CaptureOnlyTouchesCamera | src/camera.py:8-36 | A capture only prints, writes frames, sleeps and releases the camera; it never logs, alerts or touches the port. |
| SerialListener.WaitForTrigger | src/serial_listener.py:9-31 | Opening the port, announcing it and then reading: the outcome and the printed messages are exactly those of the wait specification. |
| SerialListener.ReadUntilEnd | src/serial_listener.py:18-31 | The `while True` loop over the reads ends at the first error, interrupt or motion line, or stays blocked when none comes. It prints each non-empty line's echo and the message of the read that ends it. |
| SerialListener.ListenContract | src/serial_listener.py:14-31 | The port is returned exactly when it opens and the first read that ends the wait is a motion line. `None` comes back exactly when opening fails or that read is a serial error or an interrupt. The wait is still blocked exactly when no read ends it. Only messages and the port opening are effects. |
| SerialListener.ListenFromCases | src/serial_listener.py:18-31 | From any point of the stream, the outcome is decided by the first read that ends the wait, in both directions. |
| SerialListener.MotionMatchIgnoresPadding | src/serial_listener.py:19-22 | The trigger test is a case-insensitive substring test for `motion`; stripping the line never changes its answer. |
| DetectionLog.LogEvent | main.py:28-34 | Exactly one line `ts \| STATUS \| path` is appended before the database insert. A failing local write writes nothing. A failing insert leaves the line in place and raises. |
| DetectionLog.FieldsRoundTrip | main.py:32 | A record whose fields are writable is parsed back field for field from the line `log_event` writes. |
| DetectionLog.PipelineRecordsRoundTrip | main.py:29-32 | Every record the pipeline writes (a `%Y-%m-%d %H:%M:%S` timestamp, `AUTHORIZED` or `ALERT`, and a path without the separator or trailing whitespace) is read back unchanged. |
| PredictWithEmbed.CompareEmbedding | src/predict_with_embed.py:44-55 | The nested loops return the first strictly closest (person, reference) pair over the whole enrolled map, and `(None, inf)` when there is none. |
| Matching.BestMatchIsFirstMin | src/predict_with_embed.py:48-53 | The best score is the distance at the first index holding the minimum, so ties go to the earlier pair. |
| Matching.BestMatchIsMinimal | src/predict_with_embed.py:48-53 | The best score is no larger than any distance and is the distance of a pair owned by the named person. |
| PredictWithEmbed.Verdict | src/predict_with_embed.py:61-77| A failed embedding gives `("Unknown", path, None)`. A score below 0.4 gives the name of the first closest reference. Any other score gives `"Intruder"`. The path and score are carried unchanged. |
| PredictWithEmbed.VerifyCapturedImages | src/predict_with_embed.py:57-79 | One result per input path, in input order, each carrying its path and the verdict for it. |
| PredictWithEmbed.ThresholdIsStrict | src/predict_with_embed.py:72-77 | A distance of exactly 0.4 is labelled `"Intruder"`, and a failed embedding reports no score. |
| PredictWithEmbed.EmptyEnrollmentGivesIntruder | src/predict_with_embed.py:45-77 | An empty map, or one whose reference lists are all empty, makes every embedded face an `"Intruder"` at infinite distance. |
| FaceTrigger.VerifyEmbedding | face_auth/trigger.py:43-63 | The result is `"authorized"` exactly when there is a reference and the smallest distance is at most the threshold, and it then names the first closest owner. Otherwise the result is `"intruder"` with no identity. |
| FaceTrigger.DefaultThresholdIsInclusive | face_auth/trigger.py:43-58 | With the default threshold 0.4 used by the single-capture call, a reference exactly at distance 0.4 is authorized under its owner's name, because the test is inclusive. |
| Matching.Judge | face_auth/trigger.py:58-63 | The threshold test is inclusive. An authorized result names the closest owner, an intruder result names nobody, and the distance is reported as found. |
| Matching.EmptyEnrollmentIsIntruder | face_auth/trigger.py:44-63 | With nothing enrolled, every face is an intruder at infinite distance, whatever the threshold. |
| VerifyFaces.VerifyEmbedding | face_auth/verify_faces.py:33-46 | The flat map is scanned one reference per name. The result is `"authorized"` exactly when the smallest distance is at most the threshold; otherwise it is `"intruder"` with no identity. |
| VerifyFaces.Latest | face_auth/verify_faces.py:50-58 | The chosen file has an image extension (case-insensitively) and the greatest modification time. Among equally recent files, the first listed one is chosen. |
| VerifyFaces.VerifyLatestImage | face_auth/verify_faces.py:48-72 | A listing failure, no candidate images, a failed embeddings load and a failed embedding each give their own failure reason. Otherwise the matcher's verdict comes back with the chosen image's path. |
| Dashboard.LastAlertIndex | app.py:27-33 | The scan stops at the last line that contains `ALERT` and splits into three fields; every later line fails that test. Without such a line there is no result. |
| Dashboard.ReadLatestLog | app.py:20-33 | A missing log gives no result; otherwise the result is the last alert record's timestamp and path. |
| Dashboard.AppendedAlertIsShown | app.py:27-32 | After `log_event` appends an `ALERT` line with writable fields, the dashboard shows exactly that timestamp and path. |
| Dashboard.LatestCapturedImage | app.py:36-41 | No result exactly when no visible `.jpg` exists. Otherwise the result is the first `.jpg` with the greatest creation time. |
| ImportLogs.ImportExistingLogs | utils/import_logs_to_db.py:12-27 | A missing file only prints. Otherwise there is one insert per three-field line, in file order. A failing insert stops the import after that insert. |
| ImportLogs.RowsPrefix | utils/import_logs_to_db.py:17-25 | The rows of an earlier part of the file are a prefix of the rows of a later part, so inserts follow file order. |
| ImportLogs.PrefilterIsRedundant | utils/import_logs_to_db.py:19-24 | The emptiness and `"\|"` tests never reject a line that splits into three fields. |
| ImportLogs.ImportRoundTrip | utils/import_logs_to_db.py:17-25 | Every record written with writable fields is imported unchanged, in order, one row per line. |
| Pipeline.ConcludeDecides | main.py:46-81 | The results loop acts on the first scored result alone. With no scored result it is inconclusive and only notes that. |
| Pipeline.LaterFramesIgnored | main.py:46-78 | Whatever follows the first scored result never changes the outcome or the effects. |
| Pipeline.DecideOutcome | main.py:47-78 | The decisive result gives `authorized` exactly for a label containing "authorized" with a score below 0.4 and a successful log. It gives `intruder` exactly for other labels on the same conditions, `none` exactly for a score at or above 0.4, and raises exactly when logging fails. |
| Pipeline.EmailAttemptAlerts | main.py:62-66 | The e-mail attempt calls the mail channel once, fails or not, and writes no record. |
| Pipeline.TelegramAttemptAlerts | main.py:68-73 | The Telegram attempt always looks the location up and sends the alert exactly when the lookup succeeds. |
| Pipeline.AlertTraceAlerts | main.py:62-73 | The intruder branch calls e-mail, then the location lookup, then Telegram unless the lookup failed. A failing e-mail does not stop Telegram. |
| Pipeline.DecideRecords | main.py:47-78 | A confident decision writes exactly one line with its status and path, and only an intruder alerts. An inconclusive decision writes and sends nothing. |
| Pipeline.StartIsQuiet | main.py:37-38 | The capture burst neither records nor alerts. |
| Pipeline.EmptyCaptureIsNone | main.py:37-42 | An empty capture returns `none` at once, with no log line and no alert. |
| Pipeline.PipelineDecidedBy | main.py:44-78 | A run with a scored result is the capture burst followed by the decision on the first such result. |
| Pipeline.PipelineUnscored | main.py:46-81 | A run with no scored result returns `none` without logging or alerting. |
| Pipeline.AuthorizedExactlyWhen | main.py:48-52 | A run returns `authorized` if and only if the first scored frame has a label containing "authorized", a score below 0.4 and a successful log. Exactly that frame's `AUTHORIZED` line is then written and no alert is sent. |
| Pipeline.IntruderExactlyWhen | main.py:57-75 | A run returns `intruder` if and only if the first scored frame has a label without "authorized", a score below 0.4 and a successful log. Exactly that frame's `ALERT` line is then written. |
| Pipeline.LineBeforeAlerts | main.py:59-71 | In the intruder branch the `ALERT` line is written before any alert is attempted. |
| Pipeline.NoneNeverLogs | main.py:40-81 | Every `none` outcome returns without logging and without alerting. |
| Pipeline.AuthorizedAboveThresholdUnreachable | main.py:53-55 | Every verdict whose label contains "authorized" has a score below the threshold, so the "authorized but above threshold" branch never runs. |
| Pipeline.IntruderIsNotVerified | main.py:48 | The matcher's `"Intruder"` label never passes the "authorized" test. |
| Pipeline.PlainNamesNeverAuthorized | main.py:48-52 | If no enrolled name contains "authorized" (case-insensitively), no run returns `authorized`. |
| Pipeline.WaitAndRunContract | main.py:84-94 | Without a handle, the result is `no_trigger` and the camera is never touched. With one, the result is the pipeline's and the port is closed after it. |
| Pipeline.RunLeavesPort | main.py:36-81 | A run of the pipeline neither opens, writes nor closes the port. |
| Pipeline.SendResume | main.py:112-119| The handshake blocks exactly when the second wait blocks, and `resume` is written exactly when a second motion line arrives and the write succeeds. Any failure is printed and swallowed. |
| Pipeline.ResumeContract | main.py:113-119 | The handshake blocks exactly when its wait does. `resume` is written exactly when a second trigger arrives and the write succeeds. |
| Pipeline.Pass | main.py:100-120| One pass of the `while True` body stops the program exactly when no port handle is obtained. It repeats exactly when a trigger leads to an inconclusive run and the handshake does not block. `resume` is written only after a second trigger and a successful write. |
| Pipeline.AfterRun | main.py:106-120| After the run: an intruder or authorized result ends the loop as handled, an exception ends it as a crash, and an inconclusive result repeats unless the handshake blocks. A returning run is followed at once by closing the port. |
| Pipeline.HandleOutcome | main.py:106-120 | The loop goes round again exactly on `none` after a handshake that did not block. It ends as handled exactly on `intruder` or `authorized`, and as crashed exactly on an exception. |
| Pipeline.HandleEffects | main.py:106-119 | The port is closed right after a run that returned, and `resume` is written only after a second trigger and a successful write. |
| Pipeline.StepContract | main.py:100-120 | A pass goes round again exactly when a trigger arrives, the run returns `none` and the handshake's wait ends. It stops exactly on a missing handle. It is handled exactly on a decisive result. |
| Pipeline.DetectionLoop | main.py:96-120 | The `while True` loop ends as the first pass that does not go round again, with the same trace. |
| Pipeline.LoopEndsAtFirstExit | main.py:99-110 | The program ends with the first pass that does not go round again. |
| Pipeline.LoopRunsOut | main.py:99-120 | While every pass goes round again, the program is still waiting. |
| Pipeline.MainExit | main.py:96-120 | The program ends as the first pass that does not go round again says, and a handled end is only ever `intruder` or `authorized`. |
| TaskRegistry.TaskIdInjective | backend/flask_back.py:55 | Two submissions get the same id exactly when they fall in the same second. |
| TaskRegistry.Stamped | backend/flask_back.py:29-30 | One line per message, in order, each the callback's clock reading, ` \| `, and the message. |
| TaskRegistry.Terminal | backend/flask_back.py:38-47 | A returned run stores its result text with "Task completed successfully". An exception stores `"error"` with its message. The status is never `running` again. |
| TaskRegistry.Registry.constructor | backend/flask_back.py:16-22 | Both dictionaries start empty. |
| TaskRegistry.Registry.GetTaskStatus | backend/flask_back.py:63-68 | 404 with "Task not found" exactly for an unknown id, else 200 with the stored entry. |
| TaskRegistry.Registry.GetTaskResults | backend/flask_back.py:70-83 | 400 exactly for an unknown or running task. 500 exactly for an error, carrying its message. Otherwise 200, with `detection_result` equal to the stored status. |
| TaskRegistry.Registry.GetTaskLogs | backend/flask_back.py:89-93 | Always 200: the task's lines, or an empty list for an unknown id. |
| TaskRegistry.Registry.StartDetection | backend/flask_back.py:50-61 | Responds 202 with the second-based id and marks it running, overwriting any entry with that id. The logs are untouched. Afterwards, results for that id answer 400. |
| TaskRegistry.Registry.LogCallback | backend/flask_back.py:29-30 | Appends one stamped line to the task's list and changes nothing else. |
| TaskRegistry.Registry.LogMessages | backend/flask_back.py:29-36 | The callbacks of a run append one stamped line per message, in call order. |
| TaskRegistry.Registry.TerminalResults | backend/flask_back.py:70-83 | Once a task has ended, the results endpoint answers 200 with the result text repeated and "Task completed successfully", or 500 with the exception's message. |
| TaskRegistry.Registry.RecordRun | backend/flask_back.py:32-48 | The run starts a fresh log list and appends its messages. A returned run then gets its result as the status. An exception gets `"error"`, its message, and one `❌ Error:` line. The results endpoint then answers 200 or 500 accordingly. |
| TaskRegistry.Registry.BackgroundTask | backend/flask_back.py:24-48 | The task's entries are exactly those of the single-shot run's outcome and messages. |
| ManualTrigger.RunManualTrigger | manual_trigger.py:9-27 | The script follows its specification: print, capture, then the first frame's prediction and notifications. |
| ManualTrigger.FirstFrameDecides | manual_trigger.py:13-27 | With a captured frame, the run is the capture followed by one prediction line and the calls for the first frame only. |
| ManualTrigger.ManualAlerts | manual_trigger.py:11-27 | An empty capture sends nothing. Otherwise the notifications are exactly the first frame's intended calls, up to the first one that raises. |
| ManualTrigger.CallsByLabel | manual_trigger.py:17-27 | A label containing "authorized" gets a message then the photo, and no location or e-mail. Any other label gets message, photo, location and e-mail, in that order. |
| ManualTrigger.UnauthorizedPasses | manual_trigger.py:17 | The test is a substring test, so a label "Unauthorized" takes the authorized branch. |
| ManualTrigger.SameTestAsPipeline | manual_trigger.py:17 | The manual trigger applies the same label test as the pipeline. |
| ManualTrigger.AttemptContract | manual_trigger.py:18-26 | Without a raising call every intended call is made. A raising call is the last one made, and its message is the outcome. |
| BuildEmbeddings.StemSpec | face_auth/build_embeddings.py:49| The key is the file name without its last extension: a name with a dot preceded by something other than dots always loses its last dot and what follows it. A name with only dots before its last dot, such as `.jpg`, is kept whole. |
| BuildEmbeddings.StemExamples | face_auth/build_embeddings.py:49 | Examples: `alice.jpg` gives `alice`, `bob.smith.png` gives `bob.smith`, `.jpg` stays `.jpg`, and `carol` stays `carol`. |
| BuildEmbeddings.Put | face_auth/build_embeddings.py:53 | A key already present keeps its position; a new key is appended. |
| BuildEmbeddings.PutLookup | face_auth/build_embeddings.py:53 | After the assignment the key holds the new vector, no other key changes, and keys stay unique. |
| BuildEmbeddings.BuildEmbeddingsDb | face_auth/build_embeddings.py:35-64 | The enrolment loop and its checks follow the build specification, messages included. |
| BuildEmbeddings.EnrollIsLastWriteWins | face_auth/build_embeddings.py:43-55 | Each stem maps to the vector of the last stored file with that stem, and no other key exists. Keys are unique. |
| BuildEmbeddings.SkippedEntryChangesNothing | face_auth/build_embeddings.py:46-55 | A non-file, a failed embedding or an empty one leaves the dictionary as it was. |
| BuildEmbeddings.StoredEntryPosition | face_auth/build_embeddings.py:53 | A later file with an existing stem overwrites in place; a new stem is appended. |
| BuildEmbeddings.BuildContract | face_auth/build_embeddings.py:35-64 | A missing directory raises before the model loads and prints nothing. An empty dictionary raises before the write. A success writes a non-empty dictionary whose keys are exactly the stems of the stored files. |

## Left out

- The TFLite classifier of `src/predictor.py` is left out: the manual trigger takes `predict` as a parameter.
- DeepFace embedding, cosine and Euclidean distances, `round(..., 4)` and `:.2f`/`:.4f` formatting are floating-point library work. They are an opaque embedding type, an uninterpreted distance and a formatting parameter.
- The internals of `src/notifier.py`, `src/notifier_telegram.py` and `db.py` are SMTP, HTTP and SQL. Each call is one event that may fail. `send_tg_location` returns nothing, so the location passed to `send_telegram_alert` is always `None` and the Telegram event carries only the path.
- Loading the model and the pickle file when `main.py` and the matchers are imported is left out. The enrolled map is a parameter.
- `pickle` encoding, `os.makedirs`, `tqdm` progress output and `save_results` are not modelled. A failing write in enrolment is an input.
- The informational prints of `src/predict_with_embed.py`, `face_auth/trigger.py` and `face_auth/verify_faces.py` are not modelled; only their results are.
- The `__main__` blocks of `src/predict_with_embed.py` and `face_auth/trigger.py`, and `capture_image`/`main` of `face_auth/trigger.py`, are left out. They are single-call wrappers around the modelled functions.
- The Streamlit rendering of `app.py` is UI code.
- The Flask thread is left out: a background task runs as one sequential call, and concurrent requests are not interleaved.
- `Text.Lower` maps only ASCII letters; Python's `str.lower` also folds other Unicode letters.
- UTF-8 decoding of serial lines is left out: reads arrive as decoded text.
- SerialListener.WaitForTrigger: an interrupt is modelled only as a read outcome after the port opened. One during the opening itself is not distinguished from a failed open.
- Pipeline.WaitAndRun and Pipeline.DetectionLoop: a serial stream with no motion line leaves the wait blocked. This is modelled as a still-running outcome rather than a loop that never ends.
- Pipeline.SendResume: a failing `time.sleep` or `close` in the handshake is not modelled; only a failing write is.
- Dashboard.LatestCapturedImage: the glob is POSIX, so it skips hidden names and matches `.jpg` case-sensitively. A case-insensitive file system is not modelled.
- Clocks (`time.time`, `strftime`, `datetime.now`) are inputs. Frame file names are part of the camera's read outcomes.
