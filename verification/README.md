# RAG pipeline runner: front end and kernel back end

This project models the core of a small retrieval-augmented-generation
workbench.

The React front end does the following:
- It lists pipeline configs, creates them from a form and runs them.
- It shows each run's terminal output and lists past calculations.
- It edits and deletes component scripts.

The back end is a Django Channels socket consumer:
- It validates JSON commands.
- It keeps one Jupyter kernel per config and runs the pipeline code in it.
- It forwards the kernel's output as frames.

Beside them sit the Python helpers the pipeline code relies on:
- the text splitter;
- the default components' pure parts;
- the two `get_fn`/`exec_task` modules;
- the import-statement extractor;
- the importer that loads modules from strings.

Modelling conventions:
- Each front-end component is a `class Component` whose fields are its React state.
  - `setX(prev => ...)` updaters are functions, and they carry the lemmas.
  - Event handlers are methods whose `ensures` give the whole new state.
- WebSocket frames arrive as an `Incoming` value: either unparsable, or a parsed `Json`.
- Frames a component sends are appended to a `sent` sequence.
- JavaScript and Python values share one `Json` datatype (undefined, null, booleans, integers, strings, arrays, objects).
  - Truthiness and `String()` are written out.
  - Python's `str()` and `int()` are written out too.
- On the back end, the Jupyter kernel manager is a set of live kernel ids plus a counter for fresh ids.
- What a kernel publishes during one execution is an input sequence of iopub messages.
- The database tables are maps, and a new row's id is a parameter.
- The string importer's `Loader` and finder share one dictionary, so they are one `Importer` class.
  - Its `modules` map grows when a package is executed, which is visible to later `find_spec` calls.
  - `sys.modules` and `sys.meta_path` are fields of an `ImportSystem` object.

Where the repository's own description and the code differ, the model follows the code:
- `App.js` records every `ok`/`error` run report (App.js:53-60). It does not compare run numbers to drop stale reports.
- `App.runConfig` stores `runNumber: null` (App.js:82-85). Because of that, the reset in `ConfigDetails` never fires from App's own flow (`App.ResetNeverFiresFromApp`).
- The back end knows only `update`, `close`, `run` and `config`. The front end's `list_configs`, `delete_config`, `list_scripts`, `delete_script`, `list_calculations` and `config_creation_info` get "Unknown command" (`Consumers.FrontEndOnlyCommandsUnknown`).

## Model

| member | source | states |
|---|---|---|
| TerminalLines.Cap | frontend/src/components/updateTerminalLines.js:33-34 | at most 500 lines are kept; a short buffer is unchanged, a long one keeps exactly its last 500 lines |
| TerminalLines.UpdateTerminalLines | frontend/src/components/updateTerminalLines.js:7-37 | the forEach loop over the `\n` pieces computes the specification `Update` (append or overwrite, then cap) |
| TerminalLines.PushPieces | frontend/src/components/updateTerminalLines.js:20-31 | the forEach loop continues an unterminated last line with the first piece and pushes every other piece: the lines `Appended` specifies |
| TerminalLines.CarriageReturnOverwrites | frontend/src/components/updateTerminalLines.js:11-18 | output starting with `\r` replaces the last line by the text after it and leaves the earlier lines alone |
| TerminalLines.NewlineCount | frontend/src/components/updateTerminalLines.js:20-31 | plain output adds one line per newline, plus one unless the last line is continued; earlier lines are untouched |
| TerminalLines.ContinuationExample | frontend/src/components/updateTerminalLines.js:24-27 | text continues an unterminated last line, then starts new lines |
| TerminalLines.OverwriteExample | frontend/src/components/updateTerminalLines.js:11-18 | `\rXYZ` over `abc` leaves `XYZ` |
| TerminalLines.TextExtends | frontend/src/components/updateTerminalLines.js:20-31 | the buffer joined by newlines is the old text followed by the output: nothing is lost or reordered |
| TerminalLines.EmptyBufferText | frontend/src/components/updateTerminalLines.js:23-31 | on an empty buffer the lines joined by newlines are exactly the output |
| TerminalLines.FeedSingleLines | frontend/src/components/updateTerminalLines.js:7-34 | feeding single-line outputs grows the buffer by one per output up to the cap |
| AnsiChunker.SgrLen | frontend/src/utils/splitAnsiLineByVisibleLength.js:11 | an SGR match starts with ESC, spans at least three characters and stays inside the string |
| AnsiChunker.NextSgr | frontend/src/utils/splitAnsiLineByVisibleLength.js:11-20 | the regex scan finds the first SGR sequence at or after a position, or reports that there is none |
| AnsiChunker.ChunksFrom | frontend/src/utils/splitAnsiLineByVisibleLength.js:48 | the final chunk is always pushed, so there is at least one chunk |
| AnsiChunker.SplitAnsiLineByVisibleLength | frontend/src/utils/splitAnsiLineByVisibleLength.js:9-51 | the imperative split returns the position-based specification `Chunks` |
| AnsiChunker.CopyVisible | frontend/src/utils/splitAnsiLineByVisibleLength.js:22-31 | the inner loop over visible characters preserves the chunks still to come |
| AnsiChunker.ChunksReassemble | frontend/src/utils/splitAnsiLineByVisibleLength.js:20-48 | the chunks concatenate back to the input line |
| AnsiChunker.ChunksMatchSpans | frontend/src/utils/splitAnsiLineByVisibleLength.js:11-35 | each chunk is a slice of the input whose ends lie outside every escape sequence: no SGR code is cut |
| AnsiChunker.SpansVisibleCounts | frontend/src/utils/splitAnsiLineByVisibleLength.js:23-48 | every chunk but the last holds exactly the maximum number of visible characters, and the last fewer |
| AnsiChunker.NoVisibleOneChunk | frontend/src/utils/splitAnsiLineByVisibleLength.js:48-50 | a line without visible characters comes back as a single chunk |
| AnsiChunker.NonPositiveMax | frontend/src/utils/splitAnsiLineByVisibleLength.js:26-29 | a maximum of zero or less behaves as one visible character per chunk |
| ConfigDetails.TerminalAt | frontend/src/components/ConfigDetails.js:103 | a config without a terminal reads as the empty terminal |
| ConfigDetails.OutputUpdater | frontend/src/components/ConfigDetails.js:102-143 | the state updater for an output frame computes `OutputUpdate`: a stale or foreign run number leaves the state alone, a non-string output raises TypeError, otherwise the line update is applied to that key's terminal (the inline copy at lines 119-131 is the same loop as `updateTerminalLines`) |
| ConfigDetails.Component.constructor | frontend/src/components/ConfigDetails.js:23-43 | the initial state: no terminals, not active, not deactivating, no error |
| ConfigDetails.Component.CurrentTerminal | frontend/src/components/ConfigDetails.js:47 | the selected config's terminal, or the empty one |
| ConfigDetails.Component.HandleTerminalOutput | frontend/src/components/ConfigDetails.js:63-171 | the message handler's new state for each frame kind: deletion, close reply, close error and output; an unparsable frame changes nothing |
| ConfigDetails.Component.OnRunStatus | frontend/src/components/ConfigDetails.js:180-190 | a running status with a truthy run number resets the shown config's terminal to follow that run; otherwise nothing changes |
| ConfigDetails.OutputTouchesOnlyItsConfig | frontend/src/components/ConfigDetails.js:101-142 | an output frame changes only the terminal of the config it names |
| ConfigDetails.StaleRunIgnored | frontend/src/components/ConfigDetails.js:105-142 | output from a run other than the terminal's current run leaves the state unchanged |
| ConfigDetails.AcceptedOutputUpdatesLines | frontend/src/components/ConfigDetails.js:108-133 | accepted output updates the lines as `updateTerminalLines` does |
| ConfigDetails.ResetThenOutput | frontend/src/components/ConfigDetails.js:180-189 | after a reset, output of the new run is accepted onto an empty buffer |
| ConfigDetails.DeletionMatchesAsStrings | frontend/src/components/ConfigDetails.js:68-76 | deletion replies match the config id when compared as strings, in both frame forms |
| App.RunStatusOf | frontend/src/components/App.js:110-112 | the recorded status of a config, or idle |
| App.Component.constructor | frontend/src/components/App.js:11-13 | no statuses, no running configs, nothing sent |
| App.Component.GetRunStatus | frontend/src/components/App.js:110-112 | lookup by `String(configId)`, idle by default |
| App.Component.HandleMessage | frontend/src/components/App.js:48-64 | an ok/error run report records its status and run number and drops the config from the running list; other frames change nothing |
| App.Component.RunConfig | frontend/src/components/App.js:79-95 | when a socket exists (in any state) and the id is truthy: status running with a null run number, id added once, one `run` frame sent; otherwise nothing |
| App.Component.UpdateStopConfig | frontend/src/components/App.js:97-107 | a truthy id becomes idle and leaves the running list |
| App.WithoutKeyKeeps | frontend/src/components/App.js:60 | the filter keeps exactly the ids whose string differs from the key, without creating duplicates |
| App.WithIdAdds | frontend/src/components/App.js:86-88 | adding an id gives the old ids plus it, with no duplicate |
| App.StopRemoves | frontend/src/components/App.js:104-106 | stopping removes exactly that id |
| App.WithoutIdKeeps | frontend/src/components/App.js:105 | the strict-inequality filter keeps every other id and no duplicate |
| App.ResetNeverFiresFromApp | frontend/src/components/App.js:82-85 | the status App reports never triggers `ConfigDetails`' terminal reset |
| CalculationsTablePopup.StatusColor | frontend/src/components/CalculationsTablePopup.js:6-12 | ok is success, fail/error is danger, running is warning, anything else secondary |
| CalculationsTablePopup.ProcessOutput | frontend/src/components/CalculationsTablePopup.js:118-124 | the replay loop computes `ProcessedOutput` |
| CalculationsTablePopup.ReplayPlainText | frontend/src/components/CalculationsTablePopup.js:118-124 | output without carriage returns or marker characters that fits in the buffer comes back unchanged |
| CalculationsTablePopup.CarriageReturnExample | frontend/src/components/CalculationsTablePopup.js:118-122 | `a\rb` displays as `b` |
| CalculationsTablePopup.ReplayCarriageReturn | frontend/src/components/CalculationsTablePopup.js:118-124 | for any stored output `s` and any text `c` without newline, carriage return or marker, replaying `s + "\r" + c` is replaying `s` and then one `updateTerminalLines` call with `"\r" + c` |
| CalculationsTablePopup.CarriageReturnOverwritesReplay | frontend/src/components/CalculationsTablePopup.js:118-124 | in that case the display keeps as many lines, all but the last unchanged, and the last line becomes `c` |
| CalculationsTablePopup.MarkedCarriageReturn | frontend/src/components/CalculationsTablePopup.js:118-119 | marking `s + "\r" + c` is marking `s`, then a newline, then `"\r" + c` |
| CalculationsTablePopup.ReplayAppend | frontend/src/components/CalculationsTablePopup.js:120-123 | replaying one more segment is one more line update on the lines replayed so far |
| CalculationsTablePopup.ReplayBounded | frontend/src/components/CalculationsTablePopup.js:120-123 | replaying at least one segment leaves between one and 500 lines |
| CalculationsTablePopup.MarkedExample | frontend/src/components/CalculationsTablePopup.js:118 | a carriage return gets a newline in front |
| CalculationsTablePopup.SplitExample | frontend/src/components/CalculationsTablePopup.js:119 | the marked text splits at that newline |
| CalculationsTablePopup.Component.constructor | frontend/src/components/CalculationsTablePopup.js:23-27 | not loading, no rows, no error, no listener |
| CalculationsTablePopup.Component.Open | frontend/src/components/CalculationsTablePopup.js:29-41 | opening with an open socket and a truthy config sends `list_calculations` and listens; otherwise it clears the list, sets the connection error and stops loading |
| CalculationsTablePopup.Component.Close | frontend/src/components/CalculationsTablePopup.js:66-68 | the effect's cleanup removes the reply listener and changes nothing else |
| CalculationsTablePopup.Component.HandleMessage | frontend/src/components/CalculationsTablePopup.js:43-62 | the reply for this config fills the rows, an error reply sets the error, and an unparsable frame sets the parse error |
| ConfigList.IdsOf | frontend/src/components/ConfigList.js:39 | the ids exist exactly when no config is null or undefined (reading `.id` of those throws), one id per config |
| ConfigList.AddedIdsExact | frontend/src/components/ConfigList.js:42-44 | the added ids are exactly the new ids that were not there before |
| ConfigList.FirstAddedId | frontend/src/components/ConfigList.js:51-53 | the selected new config is the first new id not seen before |
| ConfigList.NothingAdded | frontend/src/components/ConfigList.js:78 | if every id was known, nothing counts as added |
| ConfigList.Component.constructor | frontend/src/components/ConfigList.js:13-19 | empty list, loading, nothing sent |
| ConfigList.Component.Fetch | frontend/src/components/ConfigList.js:76-81 | records the current ids and sends `list_configs` when the socket is open |
| ConfigList.Component.HandleMessage | frontend/src/components/ConfigList.js:34-58 | a list reply replaces the configs and stops loading; other frames change nothing |
| ItemSelector.StripCaretDots | frontend/src/components/ItemSelector.js:9 | the result does not start with `^.` and is a suffix of the input |
| ItemSelector.StripCaretDotPrefixes | frontend/src/components/ItemSelector.js:7-10 | strings lose their leading `^.` markers; other values pass through |
| ItemSelector.StripCaretDotsSplits | frontend/src/components/ItemSelector.js:9 | the input is the removed markers followed by the result |
| ItemSelector.StripCaretDotsUnique | frontend/src/components/ItemSelector.js:9 | markers in front of a marker-free text leave exactly that text |
| ItemSelector.StripCaretDotsIdempotent | frontend/src/components/ItemSelector.js:9 | stripping twice is stripping once; a marker-free string is unchanged |
| ItemSelector.CurrentLabel | frontend/src/components/ItemSelector.js:55-57 | a falsy value shows an empty label, a string shows without its markers, any other truthy value shows as it is |
| ItemSelector.SelectEffectOf | frontend/src/components/ItemSelector.js:59-68 | the create-new entry calls `onCreate` (if given) and never `onChange`; other entries call `onChange` with an event carrying the value |
| ItemSelector.Component.constructor | frontend/src/components/ItemSelector.js:36 | the list starts closed and no link call has been made |
| ItemSelector.Component.HandleSelect | frontend/src/components/ItemSelector.js:59-68 | selecting closes the list and has the effect above |
| ItemSelector.Component.HandleArrowClick | frontend/src/components/ItemSelector.js:78-81 | the arrow toggles the list unless disabled |
| ItemSelector.Component.HandleLinkClick | frontend/src/components/ItemSelector.js:70-76 | `onLinkClick(name, value)` is called, with the selector's name and current value, exactly when a link handler is given and the selector is enabled; the list stays open or closed as it was |
| MonacoCodeEditorPopup.InitialCode | frontend/src/components/MonacoCodeEditorPopup.js:25-29 | a string is the code as is, an array is joined, anything else is empty |
| MonacoCodeEditorPopup.SplitKeepingNewlines | frontend/src/components/MonacoCodeEditorPopup.js:62 | the split always yields at least one piece |
| MonacoCodeEditorPopup.SplitKeepingNewlinesConcat | frontend/src/components/MonacoCodeEditorPopup.js:61-62 | the pieces concatenate back to the code |
| MonacoCodeEditorPopup.SplitKeepingNewlinesLines | frontend/src/components/MonacoCodeEditorPopup.js:62 | every piece but the last ends with its newline and holds no other |
| MonacoCodeEditorPopup.SaveReopenLines | frontend/src/components/MonacoCodeEditorPopup.js:56-64 | code saved as lines reopens as the same code |
| MonacoCodeEditorPopup.Component.constructor | frontend/src/components/MonacoCodeEditorPopup.js:24-29 | the save format follows the input's type, and the code is its initial text |
| MonacoCodeEditorPopup.Component.OnEditorChange | frontend/src/components/MonacoCodeEditorPopup.js:115 | an undefined editor value becomes the empty string |
| MonacoCodeEditorPopup.Component.HandleSave | frontend/src/components/MonacoCodeEditorPopup.js:56-66 | saves a string when the input was a string and the lines otherwise; nothing without `onSave` |
| ComponentFileSelector.SelectedFor | frontend/src/components/ComponentFileSelector.js:47-52 | a selection goes through exactly when it is truthy |
| ComponentFileSelector.ConfirmedPath | frontend/src/components/ComponentFileSelector.js:59-64 | a blank path is refused; otherwise the path is trimmed at both ends |
| ComponentFileSelector.ContinueButtonMatchesHandler | frontend/src/components/ComponentFileSelector.js:144 | when not creating, the Continue button is enabled exactly when its handler would accept |
| ComponentFileSelector.CreateButtonMatchesHandler | frontend/src/components/ComponentFileSelector.js:163 | when not creating, the Create button is enabled exactly when its handler would accept the trimmed path |
| ComponentFileSelector.ConfirmedPathTrims | frontend/src/components/ComponentFileSelector.js:60-61 | surrounding whitespace is dropped |
| ComponentFileSelector.ConfirmedPathBlank | frontend/src/components/ComponentFileSelector.js:60 | whitespace only is refused |
| ComponentFileSelector.Component.constructor | frontend/src/components/ComponentFileSelector.js:28-30 | nothing selected, not creating, empty path |
| ComponentFileSelector.Component.OnOpenChange | frontend/src/components/ComponentFileSelector.js:33-39 | opening resets all three fields; closing keeps them |
| ComponentFileSelector.Component.HandleFileChange | frontend/src/components/ComponentFileSelector.js:43-45 | the selection becomes the event's value |
| ComponentFileSelector.Component.HandleSelect | frontend/src/components/ComponentFileSelector.js:47-52 | selects and closes exactly when the selection is truthy |
| ComponentFileSelector.Component.HandleCreateNew | frontend/src/components/ComponentFileSelector.js:54-57 | enters create mode with an empty path |
| ComponentFileSelector.Component.HandleCreateConfirm | frontend/src/components/ComponentFileSelector.js:59-64 | creates the trimmed path unless it is blank |
| ComponentFileSelector.Component.HandleCreateCancel | frontend/src/components/ComponentFileSelector.js:66-69 | leaves create mode and clears the path |
| ComponentFileSelector.Component.HandlePathInput | frontend/src/components/ComponentFileSelector.js:116 | the path becomes the typed text |
| ComponentFileSelector.Component.ChooseInList | frontend/src/components/ComponentFileSelector.js:99-105 | choosing create-new in the item list enters create mode; another entry becomes the selection |
| ScriptsListPopup.WithoutRemovesExactly | frontend/src/components/ScriptsListPopup.js:61 | the filter removes exactly that file and leaves a list without it unchanged |
| ScriptsListPopup.WithoutKeepsOrder | frontend/src/components/ScriptsListPopup.js:61 | the filter keeps the order of the remaining files |
| ScriptsListPopup.DeleteReplyOf | frontend/src/components/ScriptsListPopup.js:51-70 | a frame is a success, a failure with its message, or ignored, exactly as the handler branches |
| ScriptsListPopup.DeleteUpdate | frontend/src/components/ScriptsListPopup.js:51-72 | a delete reply never changes loading or the list error |
| ScriptsListPopup.ListUpdate | frontend/src/components/ScriptsListPopup.js:19-34 | an ok reply with an array sets the files, an error reply sets its message or the default text, an unparsable frame sets the parse error, each ending loading; any other frame, an ok reply without an array included, changes nothing; delete state is untouched |
| ScriptsListPopup.OtherStatusesUnchanged | frontend/src/components/ScriptsListPopup.js:46-63 | a reply changes the delete status only of files with a pending delete |
| ScriptsListPopup.DeleteOkRemovesFile | frontend/src/components/ScriptsListPopup.js:58-61 | a success marks the file deleted and removes it from the list |
| ScriptsListPopup.DeleteFailedKeepsFile | frontend/src/components/ScriptsListPopup.js:62-65 | a failure marks the file failed, keeps it listed and shows the message |
| ScriptsListPopup.IgnoredFrameLeavesPending | frontend/src/components/ScriptsListPopup.js:54-71 | an unrelated frame leaves everything as it was |
| ScriptsListPopup.OneReplySettlesBoth | frontend/src/components/ScriptsListPopup.js:51-74 | with two deletes pending, one success reply settles both files |
| ScriptsListPopup.WithoutListListener | frontend/src/components/ScriptsListPopup.js:38-40 | removing the list listener keeps every other listener |
| ScriptsListPopup.Component.constructor | frontend/src/components/ScriptsListPopup.js:4-8 | no files, loading, no errors, no listeners |
| ScriptsListPopup.Component.OnOpenChange | frontend/src/components/ScriptsListPopup.js:11-41 | the old list listener is always removed; opening with a socket sets loading, clears the error, adds a new listener and sends `list_scripts` |
| ScriptsListPopup.Component.HandleDelete | frontend/src/components/ScriptsListPopup.js:44-75 | with an open socket: marks the file pending, clears the delete error, adds its listener and sends `delete_script`; otherwise nothing |
| ScriptsListPopup.Component.OnMessage | frontend/src/components/ScriptsListPopup.js:19-72 | a frame is delivered to every registered listener in order, and each listener removes itself |
| ConfigCreateForm.InitialForm | frontend/src/components/ConfigCreateForm.js:9-15 | a name field and one field per component, all empty |
| ConfigCreateForm.DefaultPath | frontend/src/components/ConfigCreateForm.js:40 | a component's default path if truthy, else the empty string |
| ConfigCreateForm.WithDefaults | frontend/src/components/ConfigCreateForm.js:37-42 | every component field takes its default path and other fields are kept |
| ConfigCreateForm.WithDefaultsIdempotent | frontend/src/components/ConfigCreateForm.js:37-42 | applying the defaults twice is applying them once |
| ConfigCreateForm.DefaultsOverride | frontend/src/components/ConfigCreateForm.js:37-42 | a component value chosen before the defaults arrive is overwritten by them |
| ConfigCreateForm.ResponseOf | frontend/src/components/ConfigCreateForm.js:95-109 | an ok reply is a creation, an error reply a failure with a truthy message |
| ConfigCreateForm.BuildConfigJson | frontend/src/components/ConfigCreateForm.js:76-82 | the built config maps every component to `{path: field}` |
| ConfigCreateForm.Component.constructor | frontend/src/components/ConfigCreateForm.js:6-17 | loading, empty registry and defaults, the initial form |
| ConfigCreateForm.Component.Mount | frontend/src/components/ConfigCreateForm.js:20-54 | without a socket nothing happens; otherwise it listens for defaults and asks for `config_creation_info` at once on an open socket, or arms a one-shot `open` listener on a connecting one; nothing else changes |
| ConfigCreateForm.Component.OnOpen | frontend/src/components/ConfigCreateForm.js:24-29 | the armed `open` listener sends `config_creation_info` once and is gone; nothing else changes |
| ConfigCreateForm.Component.Unmount | frontend/src/components/ConfigCreateForm.js:56-61 | stops listening for defaults and, while the socket is connecting, drops the `open` listener; form, loading, registry, defaults, error, submission listeners and sent frames are unchanged |
| ConfigCreateForm.Component.HandleChange | frontend/src/components/ConfigCreateForm.js:65-68 | one field changes and the others are kept; no other state changes |
| ConfigCreateForm.Component.HandleSubmit | frontend/src/components/ConfigCreateForm.js:70-116 | clears the error, marks submitting, adds a response listener and, on an open socket, sends one `config` frame; form, loading, registry, defaults and mount listeners are unchanged |
| ConfigCreateForm.Component.OnMessage | frontend/src/components/ConfigCreateForm.js:31-109 | a frame goes to the defaults listener and to any response listener |
| ConfigCreateForm.Component.HandleDefaults | frontend/src/components/ConfigCreateForm.js:31-46 | a defaults frame sets registry and defaults, fills the form and stops loading |
| ConfigCreateForm.Component.HandleResponse | frontend/src/components/ConfigCreateForm.js:95-109 | a creation or failure ends submitting, consumes the listener, and on failure shows the message |
| ConfigCreateForm.MountWhileConnecting | frontend/src/components/ConfigCreateForm.js:20-54 | on a connecting socket the creation info is requested exactly once, when the socket opens |
| ConfigCreateForm.MountWithoutSocket | frontend/src/components/ConfigCreateForm.js:20-21 | without a socket no listener is added and the form stays loading |
| KernelCli.IndexerFlag | kmengine/consumers.py:48-53 | the task flag is `True` exactly when the indexer argument is the string `"true"` |
| KernelCli.LoaderArg | kmengine/consumers.py:48-53 | indexer runs pass `path='...'`, other runs `query='...'` |
| KernelCli.Forwarded | kmengine/consumers.py:80-93 | only the execution's own result, stream and error messages are forwarded; plain streams pass as they are |
| KernelCli.StreamCarriageReturn | kmengine/consumers.py:85-87 | a stream containing `\r` is forwarded as `\r` plus its last piece, which holds no `\r` |
| KernelCli.FirstIdle | kmengine/consumers.py:94-95 | the loop stops at the first idle status of the execution |
| KernelCli.ErrorReported | kmengine/consumers.py:90-93 | an error message forwards a text starting with the error header |
| KernelCli.ForeignMessagesIgnored | kmengine/consumers.py:76 | messages of other executions forward nothing |
| KernelCli.HandleMessage | kmengine/consumers.py:76-95 | one message forwards exactly what `Forwarded` gives, an error of this execution sets the status to fail, and the idle status is reported |
| KernelCli.Await | kmengine/consumers.py:67-98 | fail or ok, with the outputs up to the first idle status; `queue.Empty` after forwarding everything when no idle status comes |
| KernelCli.MissingKernel | kmengine/consumers.py:68 | the kernel manager's `KeyError` for a kernel it no longer holds, whose text ends with that kernel's id |
| KernelCli.Attempt | kmengine/consumers.py:65-98 | a kernel the manager no longer holds raises its `KeyError` ("Kernel with id not found") before any output; otherwise the run waits as in `Await` |
| KernelCli.SortPipelines | kmengine/consumers.py:21-29 | good and bad partition the pipelines; each good one has a live kernel credited to no other; with distinct kernels every bad one's kernel is gone |
| KernelCli.Drain | kmengine/consumers.py:74-95 | the loop forwards the outputs up to the first idle status, and the status is fail exactly when an error came first |
| KernelCli.KernelCli.constructor | kmengine/consumers.py:15-17 | no pipelines and no kernels |
| KernelCli.KernelCli.ClosePipeline | kmengine/consumers.py:34-41 | an unknown config gets "No pipeline N running"; a known one has its kernel shut down but keeps its entry |
| KernelCli.KernelCli.Update | kmengine/consumers.py:19-32 | pipelines are split into good (kernel alive, each kernel credited once) and bad, and bad ones are closed |
| KernelCli.KernelCli.CloseAll | kmengine/consumers.py:30-31 | closing the bad pipelines shuts exactly their kernels down |
| KernelCli.KernelCli.RunPipeline | kmengine/consumers.py:43-98 | a new config starts a kernel and prepends the import line; the run raises `KeyError` on a dead kernel, returns fail/ok after the idle status, or times out |
| KernelCli.KernelCli.StartKernel | kmengine/consumers.py:59-63 | a kernel id never handed out before is started, recorded for the config after every known pipeline and counted live |
| KernelCli.KernelCli.ShutdownAllKernels | kmengine/consumers.py:100-104 | every kernel is shut down and the pipelines are forgotten |
| KernelCli.RunAfterClose | kmengine/consumers.py:34-65 | a config run, closed and run again fails with a `KeyError` the second time |
| Consumers.PyInt | kmengine/consumers.py:147 | `int()` of an integer is itself, of a digit string its decimal value; bad strings raise `ValueError` |
| Consumers.PyIntOfDecimal | kmengine/consumers.py:154 | an id the front end sends as a decimal string is read back as the same integer |
| Consumers.ValidateClose | kmengine/consumers.py:146-152 | no argument or id 0 is "No config_id provided"; a nonzero `int(args[0])` closes that id; a failing `int()` is rejected with its message |
| Consumers.ValidateRun | kmengine/consumers.py:153-157 | a run is accepted exactly when the id is a nonzero integer and indexer and path or query are truthy |
| Consumers.ValidateConfig | kmengine/consumers.py:186-190 | fewer than three arguments is refused; otherwise the first three |
| Consumers.ArgItems | kmengine/consumers.py:141-190 | `args` has items exactly when it is a list (its elements) or a string (its characters) |
| Consumers.ValidateNoItems | kmengine/consumers.py:146-190 | any other `args`: falsy closes ask for an id, a non-empty dictionary raises `KeyError: 0`, and values without a length raise `TypeError` for `run` and `config` |
| Consumers.Validate | kmengine/consumers.py:140-205 | non-objects fail on `.get`, unknown commands are refused, `update` is recognised, and `args` without items never yields a command |
| Consumers.StringArgsIndexed | kmengine/consumers.py:153-190 | a string `args` is indexed by character: `run` with "1ab" runs config 1 with indexer "a" and query "b"; `config` with "abc" creates config "a" |
| Consumers.FalsyCloseArgs | kmengine/consumers.py:147-152 | a falsy `args` of any type makes `close` ask for an id |
| Consumers.FrontEndRunAccepted | kmengine/consumers.py:153-157 | the front end's run frame is accepted with the same id, unless the id is 0 or a text is empty |
| Consumers.FrontEndOnlyCommandsUnknown | kmengine/consumers.py:204-205 | the front end's list and delete commands are unknown here |
| Consumers.FinalReply | kmengine/consumers.py:181-183 | a status ends the run with an ok reply; an exception with an error reply carrying its text |
| Consumers.OutputFrames | kmengine/consumers.py:167-171 | one output frame per forwarded text, in order, tagged with config and calculation |
| Consumers.Nums | kmengine/consumers.py:145 | the good pipelines as JSON numbers, in order |
| Consumers.Consumer.constructor | kmengine/consumers.py:121-123 | a fresh kernel manager and empty tables |
| Consumers.Consumer.Disconnect | kmengine/consumers.py:130-131 | all kernels shut down |
| Consumers.Consumer.HandleUpdate | kmengine/consumers.py:143-145 | replies with exactly the pipelines whose kernels are alive |
| Consumers.Consumer.HandleClose | kmengine/consumers.py:146-150 | replies with the close message and shuts that kernel down |
| Consumers.Consumer.HandleConfig | kmengine/consumers.py:186-201 | stores the new row and replies with its id |
| Consumers.Consumer.HandleRun | kmengine/consumers.py:153-183 | a missing config is an error; otherwise a running row, output frames, then the status and "Execution finished", or an error reply leaving the row running |
| Consumers.Consumer.RunConfig | kmengine/consumers.py:158-183 | the calculation row is running, the output frames go out in order, then the status is stored with "Execution finished", or an error reply leaves the row running |
| Consumers.Consumer.Finish | kmengine/consumers.py:181-183 | a status is stored under the calculation and "Execution finished" replied; an exception is replied with its message and stores nothing |
| Consumers.Consumer.Execute | kmengine/consumers.py:173-179 | the run's status is ok or fail; a dead kernel raises `KeyError` |
| Consumers.Consumer.ReceiveJson | kmengine/consumers.py:133-207 | per command, the whole reply and state change of its handler: an error reply for no data or a rejected request; the live pipelines for `update`; the close message and that kernel gone for `close`; the new row and its id for `config`; for `run`, the missing-config error, or the output frames then one final reply with the calculation stored at `calcId` |
| Splitters.Chunked | utils/splitters.py:6-21 | a text that fits is one chunk; an overlap not below the window raises exactly when splitting is needed |
| Splitters.SplitByConst | utils/splitters.py:6-21 | the while loop computes `Chunked` |
| Splitters.ChunkLengths | utils/splitters.py:14-19 | chunks hold at most `max_len` characters, all but the last exactly `max_len`, and the last ends the text |
| Splitters.ChunksOverlap | utils/splitters.py:14-19 | each chunk begins with the last `overlap_len` characters of the one before |
| Splitters.ChunksRebuild | utils/splitters.py:14-19 | dropping the overlaps and concatenating gives the text back |
| Splitters.ChunkedProperties | utils/splitters.py:6-21 | with `0 <= overlap < max_len` the split succeeds, rebuilds the text and has the length and overlap properties |
| Splitters.NegativeOverlapSkips | utils/splitters.py:10-19 | a negative overlap is accepted and skips characters |
| DefaultComponents.SplitByConst | components/default.py:78-92 | the loop computes `DefaultChunks`, ignoring the overlap argument |
| DefaultComponents.DefaultIsHalfOverlap | components/default.py:78-92 | it is the general splitter with overlap `max_len // 2`, so it never raises and rebuilds the text |
| DefaultComponents.Augment | components/default.py:194-197 | the prompt starts with the sentence quoting the query and then holds the documents |
| DefaultComponents.AugmentEndsWithLastDocument | components/default.py:197 | the prompt ends with the last document |
| DefaultComponents.AugmentOneMore | components/default.py:197 | one more document adds a blank line and that document |
| PipelineCalls.Invoke | utils/fnuser.py:9-14 | calls are made in order until the first missing key, which raises `KeyError` |
| UtilsFnUser.ModulePath | utils/fnuser.py:24 | the module file is the module name with every `.` replaced by `/` and nothing else changed, followed by `.py` |
| UtilsFnUser.GetFn | utils/fnuser.py:16-28 | after `^.` collapsing, the path is cut at its last dot; without a dot the unpacking raises |
| UtilsFnUser.CollapseWithoutCaret | utils/fnuser.py:18-22 | a path without `^.` is unchanged |
| UtilsFnUser.LeadingCaretsDropComponents | utils/fnuser.py:18-22 | `k` markers are counted and drop the first `k` dotted components |
| UtilsFnUser.ExecTask | utils/fnuser.py:6-14 | indexing calls only the indexer; a query never calls it |
| UtilsFnUser.ExecTaskCompletes | utils/fnuser.py:6-14 | with all four components present: the indexer alone with `path`, or exactly `retriever(query)`, `augmenter(query, retrieved)`, `generator(query, augmented)` in that order |
| FnUser.GetFn | fnuser.py:15-18 | the path is cut at its last dot, raising without one |
| FnUser.GetFnAgrees | fnuser.py:15-16 | on a path without `^.` both `get_fn`s agree |
| FnUser.NestedQuery | fnuser.py:13 | every key is looked up before any call; the calls are retriever, augmenter, then generator with the augmenter's result only |
| FnUser.IndexerTask | fnuser.py:9-10 | indexing calls the indexer with the path |
| FnUser.ExecTaskAsWritten | fnuser.py:7-13 | indexing succeeds exactly when an indexer is present; a query succeeds exactly when generator, augmenter and "retreiver" are keys, calling "retreiver", augmenter, generator in turn; a failure calls nothing |
| FnUser.ExecTask | fnuser.py:7-13 | the same with the key "retriever": a query succeeds exactly when generator, augmenter and retriever are keys, calling them retriever first; a failure calls nothing |
| FnUser.QueryRunFailsAsWritten | fnuser.py:13 | as written, a query over any config from the form calls nothing and raises `KeyError: 'retreiver'` |
| FnUser.QueryRunCompletes | fnuser.py:7-13 | with the intended key the query calls all three stages in order, and indexing is unchanged |
| ImportGetter.NodeImports | utils/import_getter.py:13-22 | one record per imported name; `from . import x` raises on `None.split` |
| ImportGetter.Records | utils/import_getter.py:21-22 | each name split on dots, with its alias |
| ImportGetter.GetImports | utils/import_getter.py:8-22 | the generator loop yields `Imports` |
| ImportGetter.AppendRecords | utils/import_getter.py:21-22 | the inner loop appends one record per name |
| ImportGetter.ImportsCount | utils/import_getter.py:8-22 | exactly one record per imported name |
| ImportGetter.OtherNodesIgnored | utils/import_getter.py:18-19 | statements other than imports contribute nothing |
| ImportGetter.RelativeLevelDropped | utils/import_getter.py:16-17 | the leading dots of a relative import are dropped |
| ImportGetter.GetImportsAsString | utils/import_getter.py:24-41 | the rendered lines joined by newlines, or the extraction's error |
| ImportGetter.RenderLines | utils/import_getter.py:26-39 | the loop appends exactly one rendered line per record, in order |
| ImportGetter.ImportsConcat | utils/import_getter.py:8-22 | extracting from two lists of statements in turn: the first error wins, otherwise the records follow each other |
| ImportGetter.RenderReproducesStatement | utils/import_getter.py:28-37 | a single-name statement renders back as itself |
| ImportGetter.LinesSplitBack | utils/import_getter.py:41 | the text splits back into one line per record |
| StringImporter.CollectModuleNames | utils/string_importer_utils.py:62-72 | the recursive loop computes `Collect` |
| StringImporter.CollectEntry | utils/string_importer_utils.py:64-71 | one entry yields its own full name followed by the names collected from each non-`__init__` child |
| StringImporter.TopLevelListed | utils/string_importer_utils.py:64-66 | every top-level name is collected |
| StringImporter.ChildListed | utils/string_importer_utils.py:67-71 | every submodule is collected under its package's full name |
| StringImporter.ParentFirst | utils/string_importer_utils.py:64-71 | a package's own name comes first and all later names lie under it |
| StringImporter.ChildrenUnder | utils/string_importer_utils.py:69-71 | collected children all start with the package name and a dot |
| StringImporter.InitContributesNothing | utils/string_importer_utils.py:70 | an `__init__` entry adds no name |
| StringImporter.ToMap | utils/string_importer_utils.py:39-40 | the importer's keys are the top-level names |
| StringImporter.Importer.constructor | utils/string_importer_utils.py:39-41 | the importer holds the given modules |
| StringImporter.Importer.FindSpec | utils/string_importer_utils.py:43-53 | a spec with origin `<string>` exactly for known names |
| StringImporter.Importer.IsPackage | utils/string_importer_utils.py:15-16 | packages are dictionaries; an unknown name raises `KeyError` |
| StringImporter.Importer.ExecModule | utils/string_importer_utils.py:25-37 | an unknown module raises `ImportError`; a known one enters `sys.modules`, and a package registers its children under dotted names |
| StringImporter.Importer.RegisterEntries | utils/string_importer_utils.py:33-36 | the loop adds exactly the dotted children |
| StringImporter.ExecutedPackageFindsChildren | utils/string_importer_utils.py:33-36 | after a package executes, each child's dotted name is known |
| StringImporter.Kept | utils/string_importer_utils.py:80-84 | exactly the finders that are not string importers owning a collected name are kept |
| StringImporter.KeptAll | utils/string_importer_utils.py:80-84 | with no string importer owning a name, the path is unchanged |
| StringImporter.OthersKeepOrder | utils/string_importer_utils.py:80-84 | other finders keep their order |
| StringImporter.ImportSystem.ReloadStringModules | utils/string_importer_utils.py:56-87 | collected names leave `sys.modules`, owning importers leave `sys.meta_path`, and a fresh importer is appended |

## Left out

- Rendering: JSX, CSS and Bootstrap components are not modelled, only the state and the handlers.
- JavaScript semantics: strict equality is value equality on `Json`; numbers are integers; strings are sequences of characters, not UTF-16 code units; prototype keys are ignored.
- WebSocket plumbing: listeners are flags or sequences, frames are delivered one at a time, and the JSON text of a frame is its `Json` value.
- `JSON.stringify` of the built config is abstracted. It travels as a `Json` value, so `Consumers.Consumer.HandleConfig` stores `str()` of that value.
- `Json.PyStr`: Python's `str()` of lists and dictionaries is not spelled out.
- `Consumers.PyInt`: `int()` with surrounding whitespace or digit underscores is not modelled.
- `Consumers.PyInt`: the `ValueError` text always quotes the argument with `'`; Python's `repr` switches to `"` when the string holds a `'` and escapes control characters, which is not modelled.
- The "Failed to create config" path (consumers.py:202-203) is not modelled, because the database is not. The `connect` greeting and the `help` text are left out.
- Jupyter kernel ids are UUID strings; here they are numbers handed out by a counter, so `KernelCli.MissingKernel` writes a number where Jupyter writes the UUID.
- `ConfigCreateForm.Component.HandleSubmit` takes a socket that exists. Without one, `Mount` leaves the form loading, so the submit form is never shown.
- `App.Component.RunConfig` tests only that a socket exists, as the source does, and records its `run` frame in `sent` whatever the socket's state. A closed socket discards that frame, and a connecting one throws on `send`; neither is modelled.
- Concurrency is not modelled: the run executes in a thread pool, and output frames are sent from it.
- Python's set iteration order is not modelled. `KernelCli.KernelCli.Update` closes the bad pipelines in an order it picks itself.
- The kernel itself is not modelled. It is a set of ids plus the messages it publishes; what the executed code does is not modelled.
- A `get_iopub_msg` timeout is the error `Empty`, raised when the messages run out.
- `Consumers.Consumer.Execute`: it states only the status and the dead-kernel case. The full result is in `KernelCli.KernelCli.RunPipeline`.
- `DefaultComponents.SplitByConst` requires `max_len >= 1` whenever the text is longer than `max_len`. Below that the source loop never ends.
- `compile`, `exec`, `ast.parse` and the file reading are left out. So are `spec_from_file_location` and `exec_module` in both `get_fn`s, and the execution of a package's `__init__` source.
- `reload_string_modules` takes only `StringImporter` as `importer_class`. Any other finder is an opaque `OtherFinder`.
- `FnUser.NestedQuery`: the generator in fnuser.py gets one argument, while utils/fnuser.py passes two; each module is modelled as written.

## Findings

| source | as written | input that shows it | evidently intended | confidence | as-written member | corrected member |
|---|---|---|---|---|---|---|
| fnuser.py:13 | the query branch looks the retriever up as `fn_dict["retreiver"]` | a query run (`indexer` not `"true"`) of any config created by the form, whose keys are indexer, retriever, augmenter and generator | look it up as `fn_dict["retriever"]`, the key every config carries | high, not executed | FnUser.ExecTaskAsWritten | FnUser.ExecTask |
