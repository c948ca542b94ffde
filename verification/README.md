# LlamaRig control plane: a verified model

LlamaRig is a Go control plane around a llama.cpp Router. This project models the state machines and the one
hand-written text format under it, and proves what they promise. Every module is one Dafny file; `dafny verify
dfyconfig.toml` checks all of them.

Where the code changes state step by step, the model has a class or a method with a loop, proved against a
specification function; the properties are then lemmas about that function, over every input or every run. Where
goroutines or several callers interleave, the model is a transition system: one step for each critical section or
outside effect, and a theorem about every list of steps from the start.

| part | modules |
|---|---|
| `models.ini` as a map from section to values | `PresetKeys`, `PresetFile`, `PresetReading` (what lines and files mean), `PresetRemove`, `PresetRender`, `PresetStore` |
| download manager | `Downloads` (tables, copy loop), `DownloadRuns` (interleavings), `DownloadCancel` (when a Cancel is in time), `DownloadEnds` (how jobs end), `DownloadParts` (partial files) |
| control manager | `ControlWorld` (failing stores and Router), `RouterRefresh`, `PresetOps`, `PresetOutcomes` (when each operation goes through), `PresetFailures` (names and answers that fail), `ControlManager` (the methods), `MutationGate` |
| log tail and follow | `LogTail`, `LogFollow` |
| events and streams | `EventLog`, `EventStream` |
| model catalog | `CatalogFit`, `CatalogRefit`, `CatalogLevels` (what an entry says of the machine) |
| `config.yaml` edits | `YamlEdit`, `ConfigLists` |
| storage watcher | `StorageWatch` |
| PID file of the Router | `PidRecord` |
| proposed preset names | `UniqueName` |
| shared | `Text`, `Sorting`, `Numerals`, `Wrappers` |

## What the proofs show about the code

The properties hold as promised except in these places, where the exact condition is proved, and a run or an input at
which the promise fails.

- A Put is read back as written exactly when the name has no space around it and every value is trimmed and opens
  no inline comment (`PresetStore.PutRoundTrip`, failing at `PresetStore.SpacedValueIsCut`). A file stays readable over
  a run exactly when no Put writes an untrimmed name next to its trimmed form (`PresetStore.RunReadable`, failing at
  `PresetStore.UntrimmedPutBreaksFile`).
- References to presets always name existing ones exactly when no such Put happens while there are references
  (`PresetOps.ReferencesAlwaysExist`, failing at `PresetFailures.SpaceBeforeNameBreaks`); a name is safe in every state
  exactly when it is trimmed or refused anyway (`PresetFailures.SafeNames`).
- A failed creation leaves the presets as they were exactly when the Put failed, or the name is trimmed and not `*`, and
  the disk lets the section be read back and the rollback read and write the file (`PresetOps.PutRollsBack`). Two kinds
  of name fail on every disk: an untrimmed one, which is not found again, and `*`, the section for all presets, which
  a creation accepts and the rollback's Delete refuses (`PresetFailures.FailedCreationStays`).
- A Cancel that is reported done keeps the body from being put in place exactly when the job's goroutine has not passed
  its last look at the context (`DownloadCancel.CancelInTime`, failing from a fresh manager at
  `DownloadCancel.CancelledYetInstalled`). A failed job can have its body in place too, when the sync after the rename
  failed (`DownloadCancel.InstalledExactly`).
- The tail of a log that was cut off by the window equals the tail of the whole file exactly under the condition of
  `LogTail.TailAgrees`; a line longer than the window loses its beginning (`LogTail.LongLineIsCut`).
- Refitting a cached listing keeps the video memory estimates of a GPU that is gone, and keeps the choice of models
  made for the earlier machine when a minimum fit was asked for (`CatalogRefit.RefitAgrees`, failing at
  `CatalogRefit.GpuGoneKeepsEstimate` and `CatalogRefit.SmallerMachineKeepsModel`).
- Enabling autostart does nothing, and reports no error, when the `router` section or its `autostart_presets` is
  present but null (`YamlEdit.EnableExact`, failing at `YamlEdit.NullSectionIgnoresEnable`).
- The environment form and the command-line form of a key agree exactly when the key has no underscore or is one of
  three aliases (`PresetKeys.EnvironmentFormAgrees`).
- A waiter that reads the PID file before a new start writes it, and deletes it afterwards, takes the new record
  away. Records are safe exactly as long as no such removal overlaps a write (`PidRecord.RecordExact`, failing at
  `PidRecord.LateDeleteLosesRecord`).

## Model

| member | source | states |
|---|---|---|
| PresetKeys.CanonicalIdempotent | core/modelpresets/store.go:213-233 | canonicalising a canonical key gives it back, and it is a key the parser accepts |
| PresetKeys.SpellingOfKey | core/modelpresets/store.go:213-229 | every string of the key pattern is its own spelling, and only such strings come out |
| PresetKeys.AliasSettles | core/modelpresets/store.go:196-208 | the replacement of an alias is a key and is no alias itself |
| PresetKeys.EnvironmentFormAgrees | core/modelpresets/store.go:218-223 | the `LLAMA_ARG_` form and the command-line form of a key have the same canonical key if and only if the key has no underscore or is one of the three aliases spelled with one |
| PresetKeys.AliasesExact | core/modelpresets/store.go:196-208 | the eleven aliases and what each becomes; every other key stands for itself |
| PresetKeys.SpellingsExact | core/modelpresets/store.go:213-233 | by their characters, exactly which strings are accepted as a key in either form, and the key in lower case that each stands for |
| PresetFile.ValidNameExact | core/modelpresets/store.go:135-140 | a section name is valid if and only if it is not blank and has none of seven characters |
| PresetReading.CommentsIgnored | core/modelpresets/store.go:153-157 | a blank line, or one that begins with `;` or `#` after space, can be put at any place of any text and changes nothing |
| PresetReading.HeaderRead | core/modelpresets/store.go:158-171 | brackets, with any space around and inside, open the section of the trimmed name |
| PresetReading.OpenHeaderRead | core/modelpresets/store.go:158-161 | a bracket that is not closed at the end of the line is an error |
| PresetReading.EntryRead | core/modelpresets/store.go:175-186 | a key with a canonical form, the first `=` and a value up to the first comment mark that a space or tab precedes |
| PresetReading.BadLineRead | core/modelpresets/store.go:175-182 | any other line has no `=` or no key before it, and is an error |
| PresetReading.ReadExact | core/modelpresets/store.go:143-189 | a file is readable if and only if no header is broken, invalid or repeated and no bad line follows a header; its sections are its headers, and a key has the value of its last entry before the next header |
| PresetFile.ReadEntry | core/modelpresets/store.go:175-186 | the loop body's entry branch reads what the line grammar says: key up to the first `=`, value without its comment |
| PresetFile.Read | core/modelpresets/store.go:143-189 | the parsing loop computes the fold of line meanings over the whole text, or fails on the first bad line |
| PresetRender.ClassifyHeaderLine | core/modelpresets/store.go:151-171 | a printed header line is read as the header of the trimmed name |
| PresetRender.ClassifyEntryLine | core/modelpresets/store.go:172-186 | a printed entry line is read as the entry of its key, with the value as far as it survives |
| PresetFile.ParsedNames | core/modelpresets/store.go:155-171 | every section of a readable file has a trimmed, valid name |
| PresetFile.FoldAppend | core/modelpresets/store.go:148-188 | reading a concatenation is reading the second part from where the first one ended |
| PresetFile.FoldTextTrimmed | core/modelpresets/store.go:191-194 | dropping the line ends at the end of a text does not change what it says |
| PresetFile.ParseWritten | core/modelpresets/store.go:191-194 | what is written to disk says what the content said |
| PresetRemove.RemoveSection | core/modelpresets/store.go:251-279 | the two scans compute the block and cut it out; without the section the text is returned as it was |
| PresetRemove.RemovedBlock | core/modelpresets/store.go:253-278 | the removed lines are the header and its own lines; all other lines stay, also the blank and comment lines that trail the section |
| PresetRemove.RemoveParses | core/modelpresets/store.go:249-279 | removing a section from any readable text removes exactly that section from the map |
| PresetRemove.HeaderTestsAgree | core/modelpresets/store.go:256-258 | on readable text the remover takes a line for a header exactly when the parser does |
| PresetRender.Render | core/modelpresets/store.go:235-247 | prints the header and the values in the order of their keys |
| Sorting.LexExact | core/modelpresets/store.go:242 | one string comes before another if and only if it begins it or has the smaller character at the first difference |
| PresetRender.StoredValueExact | core/modelpresets/store.go:183-186 | a value survives printing and parsing if and only if it is trimmed and opens no inline comment |
| PresetRender.AppendParses | core/modelpresets/store.go:235-247 | appending a printed section to readable text adds exactly that section, or makes the text unreadable when the trimmed name is there already |
| PresetRender.WrittenLines | core/modelpresets/store.go:112-113 | the lines after a Put are the old ones, a blank one and the printed section |
| PresetStore.CanonicalValues | core/modelpresets/store.go:87-100 | the loop, in any order of the keys, fails on a bad key, a multi-line value or two spellings of one key, and otherwise renames every key |
| PresetStore.AcceptableExact | core/modelpresets/store.go:87-100 | values are accepted if and only if all keys have different canonical forms and no value holds a line break |
| PresetStore.Store.Load | core/modelpresets/store.go:143-148 | a missing file is an empty map; other failures are told apart |
| PresetStore.Store.List | core/modelpresets/store.go:37-52 | the presets with their values, in the order of their names, without the section for all presets; or why they cannot be read |
| PresetStore.Store.Get | core/modelpresets/store.go:67-79 | the values under a name, or not found, or why the file cannot be read |
| PresetStore.Store.Put | core/modelpresets/store.go:81-114 | the file and the error after a Put, on every failure path |
| PresetStore.Store.Delete | core/modelpresets/store.go:116-133 | the file and the error after a Delete, on every failure path |
| PresetStore.Store.Write | core/modelpresets/store.go:191-194 | a failed write leaves the file as it was |
| PresetStore.PutExact | core/modelpresets/store.go:81-114 | what the file says after a successful Put, for any name and any values |
| PresetStore.PutRoundTrip | core/modelpresets/store.go:81-114 | parsing after a Put gives the old map with the name bound to the values, if and only if the name is trimmed and every value round-trips |
| PresetStore.PutKeepsLines | core/modelpresets/store.go:105-113 | after a Put the file holds all lines outside the replaced section in order, without the line ends and empty lines at the end of the text, then a blank line and the printed section |
| PresetStore.DeleteKeepsLines | core/modelpresets/store.go:116-133 | after a Delete the file holds all lines outside the section in order, without the line ends and empty lines at the end of the text |
| Text.SplitTrimmed | core/modelpresets/store.go:112 | trimming the line ends of a text trims its lines |
| Text.TrimLinesExact | core/modelpresets/store.go:112 | trimming lines keeps every line up to the last one that holds more than carriage returns, that one without its line ends |
| Text.TrimLineEndExact | core/modelpresets/store.go:192 | exactly the carriage returns and line feeds at the end of a text go |
| Text.SpacesExact | core/modelpresets/store.go:153 | the characters that count as space, by code point |
| PresetStore.StepExact | core/modelpresets/store.go:81-133 | what a Put or Delete does to what the file says, for every file, name, value and failure |
| PresetStore.RunExact | core/modelpresets/store.go:81-133 | the same over every run of operations |
| PresetStore.RunReadable | core/modelpresets/store.go:81-133 | over every run a readable file stays readable if and only if no Put writes an untrimmed name next to its trimmed form |
| PresetStore.UntrimmedPutBreaksFile | core/modelpresets/store.go:81-114 | two Puts of `a` and ` a` leave a file that cannot be read |
| PresetStore.SpacedValueIsCut | core/modelpresets/store.go:183-186 | a value with a leading space, or a comment mark after a space, does not come back |
| PresetStore.StepRefines | core/modelpresets/store.go:81-133 | a Put or Delete under a trimmed name, failing or not, is the update or removal of the map |
| PresetStore.RunRefines | core/modelpresets/store.go:81-133 | over every run under trimmed names the file stays readable and equal to the map |
| Downloads.Manager.Start | core/modeldownload/manager.go:79-94 | an active target returns its job and changes nothing; otherwise the job, its context and its index entry are made together |
| Downloads.Manager.StoreAlreadyDownloaded | core/modeldownload/manager.go:67-74 | the job is whole and over, so that it cannot be cancelled; it enters no index, and no other job changes |
| Downloads.Manager.Cancel | core/modeldownload/manager.go:110-129 | only a queued or running job becomes cancelled and has its context ended |
| Downloads.Manager.Update | core/modeldownload/manager.go:254-269 | only the one job changes, never its target; its received bytes only grow and a cancelled job stays cancelled |
| Downloads.Manager.ClearActive | core/modeldownload/manager.go:271-282 | nothing of the job is left in the index and the contexts, and every entry of another job stays |
| Downloads.Manager.CopyDownload | core/modeldownload/manager.go:224-240 | writes the chunks up to the end of the body or the first failure, and counts exactly the bytes written |
| Downloads.CopiedBody | core/modeldownload/manager.go:224-240 | a successful copy is the whole body, any copy a prefix of it |
| DownloadRuns.StepKeeps | core/modeldownload/manager.go:52-282 | every step of every goroutine keeps the invariant of the tables, the files and the goroutines |
| DownloadRuns.ActiveIsIndex | core/modeldownload/manager.go:79-93 | in every interleaving `active` is exactly the injective index of the running goroutines and `cancel` holds exactly their ids; no two write one partial file |
| DownloadRuns.ExclusiveParts | core/modeldownload/manager.go:155-175 | two goroutines never share a partial file |
| DownloadRuns.TerminalForever | core/modeldownload/manager.go:110-153 | a job that reached a terminal state never changes state again |
| DownloadRuns.TargetsNeverMixed | core/modeldownload/manager.go:155-252 | at every step a target holds its earlier content or one complete response body |
| DownloadRuns.CompletedIsWhole | core/modeldownload/manager.go:131-153 | a completed job received the length of its body, and that body was renamed onto the target once |
| DownloadCancel.CancelInTime | core/modeldownload/manager.go:110-153 | a Cancel reported done keeps the body from ever being put in place, in every continuation, if and only if the goroutine has not passed its last look at the context and the body is not in place |
| DownloadCancel.CancelledYetInstalled | core/modeldownload/manager.go:186-204 | from a fresh manager, for every target and body, a run that ends cancelled with the body in place |
| DownloadCancel.InstalledExactly | core/modeldownload/manager.go:242-252 | over every run a body is in place if and only if its rename went through; a completed job was synced too, and a failed one is in place exactly when that sync failed |
| DownloadRuns.GgufExact | core/modelcatalog/huggingface.go:445 | a file name is one of a model if and only if it ends in `.gguf` in any case |
| DownloadEnds.JobFollowsEvents | core/modeldownload/manager.go:131-153 | over every run and interleaving the state of a job follows from the events: cancelled if and only if a Cancel met it queued or running, and otherwise queued, running, completed after a synced rename, or failed without one; its size is that of the start or of the response |
| DownloadParts.NoPartLeft | core/modeldownload/manager.go:155-252 | in every run in which no removal fails a partial file has a goroutine writing it, or was there before and no job of its target got a bad status or made a file |
| RouterRefresh.ActiveNamesExact | core/control/router_refresh.go:110-123 | the sorted names are exactly the listed models that are loaded, sleeping, loading or downloading |
| RouterRefresh.StatesOfExact | core/control/router_refresh.go:88-92 | a name has a state if and only if it is listed, and of several entries the last one counts |
| RouterRefresh.RestoreInOrder | core/control/router_refresh.go:93-107 | the listed names that are not active are loaded once each, in order |
| RouterRefresh.RestoreExact | core/control/router_refresh.go:88-108 | succeeds if and only if every name is listed and every load went through; loads exactly the listed names that are not active |
| RouterRefresh.RestartExact | core/control/router_refresh.go:70-86 | a successful restart leaves every name active in the new listing or loaded |
| RouterRefresh.RefreshExact | core/control/router_refresh.go:24-52 | after success every preset active before is active or was loaded, and no other was loaded; a stopped or missing Router is not called |
| RouterRefresh.RestartSucceeds | core/control/router_refresh.go:70-86 | a restart succeeds if and only if stop, start and list do, every name is listed and every load goes through; it stops, then starts, then only loads |
| RouterRefresh.RefreshSucceeds | core/control/router_refresh.go:24-52 | exactly when a refresh has nothing to do, reloads, or restarts the Router, and that a reload comes before the loads |
| PresetOps.ReferencesAlwaysExist | core/control/presets.go:52-226 | over every run, after every single write and whichever call fails, default and autostart name existing presets, if and only if no PutPreset writes an untrimmed name next to its trimmed form while there are references |
| PresetOps.TrimmedNamesAreSafe | core/control/presets.go:52-226 | with trimmed names every run keeps the references right |
| PresetFailures.SafeNames | core/control/presets.go:52-88 | putting under a name is safe in every state and whichever calls fail if and only if the name is trimmed or refused |
| PresetFailures.SpaceBeforeNameBreaks | core/control/presets.go:52-88 | with `[a]` stored and referenced, a PutPreset of ` a` leaves an unreadable file under the reference |
| PresetFailures.FailedCreationStays | core/control/presets.go:61-88 | failed creations that leave a preset behind: an untrimmed name, a section that cannot be read back, and `*`, whose rollback the store refuses, although the disk fails nowhere |
| PresetOps.PutPresetKeeps | core/control/presets.go:52-88 | a PutPreset with its rollback keeps every reference right if and only if it does not break the file under them |
| PresetOps.DeletePresetKeeps | core/control/presets.go:90-129 | a Delete checks references before it removes the section |
| PresetOps.DeletePresetExact | core/control/presets.go:90-129 | only an unreferenced preset is deleted, references never change, and after success the preset is gone |
| PresetOps.CleanupPresetKeeps | core/control/presets.go:160-226 | a cleanup removes references before the section |
| PresetOps.CleanupPresetExact | core/control/presets.go:160-226 | one preset and the references to it go, references first; a preset that is ready stays |
| PresetOps.SetAutostartKeeps | core/control/config_controller.go:19-33 | the preset's existence is checked before it is referenced |
| PresetOps.DeleteLocalModelKeeps | core/control/model_cleanup.go:11-94 | deleting a model file with its presets keeps every reference valid |
| PresetOps.PutRollsBack | core/control/presets.go:52-88 | a failed creation leaves the presets as before if and only if the Put failed, or the name is trimmed and not `*`, the file could be read for the section, and read and written for the rollback; after a complete recovery the presets that were active are active or loaded |
| PresetOps.ModelDeletionExact | core/control/model_cleanup.go:11-94 | if the file delete is not reached or fails nothing changed; it is reached only with no referencing preset active; on success exactly the presets of that path and the references to them are gone, on failure only some of these |
| PresetOps.RemoveReferencedExact | core/control/model_cleanup.go:80-94 | a successful removal takes out exactly the named presets and the references to them; a failing one removes references before presets and touches no other preset or reference |
| PresetOps.DeleteEachExact | core/control/model_cleanup.go:87-91 | the names are deleted in order up to the first failure, each deletion visible in the log, and nothing else changes |
| PresetOutcomes.RunningExact | core/control/presets.go:228-249 | a name is running, or not, or it cannot be told, exactly by the answers of the Router and the four active states |
| PresetOutcomes.ClearSucceeds | core/control/presets.go:213-226 | references can be taken out if and only if the config store answers, or is missing and none refers to the names |
| PresetOutcomes.DeletableSucceeds | core/control/presets.go:113-129 | yes, no and conflict, each if and only if the stores and the Router say so |
| PresetOutcomes.DeletePresetSucceeds | core/control/presets.go:90-111 | a stored preset is gone if and only if its name can be deleted, nothing refers to it, it is not active and the disk lets it be read and written; then the error is that of the refresh; a reference or an active entry is a conflict |
| PresetOutcomes.DeleteMissingSucceeds | core/control/presets.go:90-111 | deleting what is not stored succeeds if and only if the file can be read, and changes nothing |
| PresetOutcomes.CleanupSucceeds | core/control/presets.go:160-211 | a stored preset is cleaned up if and only if it is not ready, not active, its references can be taken out and the disk lets it be deleted; then the error is that of the refresh |
| PresetOutcomes.CleanupRefuses | core/control/presets.go:195-211 | cleaning up a preset that is ready or active is a conflict and leaves the references |
| PresetOutcomes.CleanupMissingSucceeds | core/control/presets.go:160-183 | cleaning up what is not stored takes out the references to it, if and only if the file can be read and they can |
| PresetOutcomes.AutostartSucceeds | core/control/config_controller.go:19-33 | enabling succeeds if and only if the preset is stored and the list has room or names it, disabling if what is left has room; the only conflict is the cap; the list afterwards |
| PresetOutcomes.PutSucceeds | core/modelpresets/store.go:81-114 | the store takes a section if and only if name and values are acceptable, the file can be read and written, and a creation finds the name free, which is the one conflict |
| PresetOutcomes.PutPresetSucceeds | core/control/presets.go:52-76 | a PutPreset succeeds if and only if the store takes the section, finds it again under a trimmed name and the Router is refreshed; without createOnly the section stays whatever follows |
| PresetOutcomes.ModelDeletionByValues | core/control/model_cleanup.go:11-78 | told by the values `model` and `models-dir` of the presets: the file goes only when none that uses it is active and, where one loads it, with the cascade; after success no preset loads it, all others keep their values, and only the references to the former are cleared |
| PresetOutcomes.ModelDeletionRefuses | core/control/model_cleanup.go:43-78 | a preset that loads the file without the cascade, or an active one that uses it, makes the deletion a conflict that changes nothing |
| PresetOutcomes.NotConfigured | core/control/presets.go:52-170 | without the stores that an operation needs it is invalid and changes nothing |
| PresetOutcomes.ModelDeletionSucceeds | core/control/model_cleanup.go:11-94 | the file goes if and only if the check passes and its deletion does; the whole succeeds if and only if the presets that load it are also cleaned up |
| PresetOutcomes.DeleteEachSucceeds | core/control/model_cleanup.go:87-91 | stored presets are all deleted if and only if every single deletion goes through |
| ControlManager.Manager.ActiveModelNames | core/control/router_refresh.go:110-119 | the loop lists the active names in order |
| ControlManager.Manager.RestoreActiveModels | core/control/router_refresh.go:88-108 | the loop makes the loads of the specification, in order, and reports them |
| ControlManager.Manager.RestartRouterSources | core/control/router_refresh.go:70-86 | the stores stay as they are; after success every given name is listed active or was loaded, and no other was loaded |
| ControlManager.Manager.RefreshRouterSources | core/control/router_refresh.go:24-52 | the stores stay as they are; a stopped or missing Router gets no call that changes it; after success every preset that was active is active or loaded |
| ControlManager.Manager.CaptureRouterState | core/control/router_refresh.go:54-68 | running exactly when the Router answers that it is not stopped; the names captured are exactly the listed active models |
| ControlManager.Manager.IsModelRunning | core/control/presets.go:228-249 | yes and no, each if and only if the Router answers so, with the four active states |
| ControlManager.Manager.RollbackPresetCreation | core/control/presets.go:78-88 | the created preset is gone unless the Delete failed, and references that did not name it stay right |
| ControlManager.Manager.Put | core/control/presets.go:52-76 | references stay right if and only if the Put does not break the file; a failed creation is undone exactly under the rollback condition; success means that the store took the section, and what is returned is what is stored; without createOnly it stays stored |
| ControlManager.Manager.IsDeletable | core/control/presets.go:113-129 | yes, no and conflict, each if and only if the stores and the Router say so |
| ControlManager.Manager.Delete | core/control/presets.go:90-111 | references stay right; at most the one unreferenced preset goes, exactly under the condition of `PresetOutcomes.DeletePresetSucceeds`, and it is gone after success |
| ControlManager.Manager.RemovePresetReferences | core/control/presets.go:213-226 | goes through if and only if the config store answers or nothing refers to the names; after success no named preset is referenced and every other reference stays, after failure all stay |
| ControlManager.Manager.IsUnavailable | core/control/presets.go:195-211 | passes if and only if the preset is stored and readable, its source is not ready and it is not listed active |
| ControlManager.Manager.Cleanup | core/control/presets.go:160-189 | references stay right; the preset goes only after its references and only when it is not ready, exactly under the condition of `PresetOutcomes.CleanupSucceeds`; after success both are gone |
| ControlManager.Manager.SetPresetAutostart | core/control/config_controller.go:19-33 | references stay right; an enabled preset exists and is added once, if and only if the cap allows it, a disabled one is gone from the list, and a failure changes nothing |
| ControlManager.Manager.ValidateModelCascade | core/control/model_cleanup.go:43-78 | passes if and only if no referencing preset can be active and, where presets name the file, the cascade was asked for |
| ControlManager.Manager.RemoveReferencedPresets | core/control/model_cleanup.go:80-94 | references stay right; only named presets go, after the references to them, and after success all of them are gone |
| ControlManager.Manager.DeleteModel | core/control/model_cleanup.go:11-41 | references stay right; the stores change only after the file is gone, which happens if and only if the check passes and the deletion does; after success exactly the presets whose `model` is the path, and the references to them, are gone |
| MutationGate.OneAtATime | core/control/manager.go:129-150 | under any interleaving one body runs at most; each admitted mutation leaves exactly one audit event, after all of its changes and before any change of the next, and events are numbered in that order |
| MutationGate.RejectionsLeaveNoTrace | core/control/manager.go:130-132 | any run without its rejected callers is the same run, state and audit events included |
| MutationGate.Manager.TryEnter | core/control/manager.go:130-132 | the swap admits a caller exactly when the flag was down |
| MutationGate.Manager.Leave | core/control/manager.go:133-137 | one audit event is recorded, then the flag goes down |
| LogTail.ReadTailChunks | platform/audit/logs.go:387-407 | the backward chunked read returns the window of the file that its three stopping rules define |
| LogTail.WindowEnds | platform/audit/logs.go:388-391 | the read stops at the start of the file, at the byte cap, or with enough line breaks, and never exceeds the cap |
| LogTail.WindowExact | platform/audit/logs.go:387-407 | the window is the least number of 64 KiB chunks with enough line breaks, at most 10 MiB of them, or the whole file |
| LogTail.FormatSkips | platform/audit/logs.go:409-423 | formatting drops the lines before the last ones and nothing else but a lone line break |
| LogTail.WindowTail | platform/audit/logs.go:409-423 | the tail of a window is a suffix of the whole tail, and when it is all of it |
| LogTail.TailAgrees | platform/audit/logs.go:387-423 | the chunked tail is a suffix of the whole file's tail, and equal to it if and only if the window is the file, has more lines than asked for, or has as many and begins at a line |
| LogTail.LongLineIsCut | platform/audit/logs.go:387-423 | a line of 64 KiB with its line break, tailed for one line, loses its first byte |
| LogTail.TailFile | platform/audit/logs.go:364-385 | the tail of an existing log within the allowed number of lines |
| LogFollow.Follower.constructor | platform/audit/logs.go:186-207 | the tail written first and the offset come from one view of the file |
| LogFollow.Follower.Poll | platform/audit/logs.go:209-240 | a file that went on from the last position adds exactly what is new in it, any other file all it holds, a missing file nothing |
| LogFollow.FollowLog | platform/audit/logs.go:152-184 | the output is the first tail followed by what every poll adds |
| LogFollow.EachByteOnce | platform/audit/logs.go:209-240 | while a file only grows, the polls write exactly the bytes from the offset to the last size, once and in order |
| LogFollow.RestartsAtZero | platform/audit/logs.go:217-219 | a replaced, shrunken or reappeared file is written from its start |
| EventLog.EventStore.Record | core/control/events.go:37-53 | the next id, the trimmed ring and the offers to all subscribers |
| EventLog.EventStore.Broadcast | core/control/events.go:47-52 | in any order of the channels each one gets the event unless it holds 100 |
| EventLog.EventStore.List | core/control/events.go:55-61 | the newest event first |
| EventLog.EventStore.SubscribeAndList | core/control/events.go:63-72 | the backlog and the subscription are taken at the same moment |
| EventLog.FindEventsAfter | core/rpc/misc_rpc.go:132-142 | the search returns what follows the first event with the id, or everything |
| EventStream.RingIsSuffix | core/control/events.go:37-46 | after every run the ring is exactly the last events, 200 of them unless another limit was given, numbered from 1 |
| EventStream.HistoryIsRecorded | core/control/events.go:37-46 | every recording of a run, and nothing else, is one event with what was recorded, in order |
| EventStream.BacklogResumes | core/rpc/misc_rpc.go:132-142 | the backlog after an id is the gapless rest of history if and only if the ring reaches back to it |
| EventStream.ResumesWithoutGap | core/control/events.go:37-81 | backlog and channel together are every later event, once and in order, as long as no send was dropped |
| EventStream.AlwaysIncreasing | core/rpc/events_rpc.go:26-46 | for any id asked for, found or not, and with dropped sends, the whole stream (rest of the backlog, then the channel) is in the order of the recorded events and never repeats one |
| CatalogFit.BestFile | core/modelcatalog/huggingface.go:545-553 | the loop with a running best computes the best of the list |
| CatalogFit.BestIsMaximum | core/modelcatalog/huggingface.go:545-575 | with distinct file names the result beats every other file, and is the same in every order of the list |
| CatalogFit.CompareTransitive | core/modelcatalog/huggingface.go:555-575 | the lexicographic comparison of files is transitive |
| CatalogLevels.QuantExact | core/modelcatalog/huggingface.go:577-596 | the rank of every quantisation by the beginning of its name |
| CatalogLevels.BestPrefers | core/modelcatalog/huggingface.go:545-575 | the best file is on disk if any is, and among equals has the best level, then the best quantisation, then the smallest size, then the first name |
| CatalogLevels.RequiredExact | core/modelcatalog/fit.go:5-8 | the estimate is the size and 512 MiB, wrapped at 64 bits |
| CatalogLevels.LevelExact | core/modelcatalog/fit.go:19-43 | with the video memory as capacity where there is a GPU and the RAM otherwise, a size fits or is marginal if and only if it is above 0 and within capacity, is too large beyond, and unknown without both numbers |
| CatalogLevels.FitExact | core/modelcatalog/fit.go:19-43 | the required and available amounts, and the reason of each level |
| CatalogLevels.KeptExactly | core/modelcatalog/huggingface.go:260-276 | a source is listed if and only if it has files, the best one fits as well as asked for, and one is on disk where that is asked for |
| CatalogLevels.BuiltListingRated | core/modelcatalog/huggingface.go:214-284 | a listing holds exactly a model for every kept source, with the source's files, each rated by its size for the machine, and a score that counts level, presence and quantisation |
| CatalogLevels.RefitListingRated | core/modelcatalog/huggingface.go:183-202 | after a refit every model and file of any listing is rated for the new machine |
| CatalogLevels.RefitKeeps | core/modelcatalog/huggingface.go:183-202 | what a refit leaves as it was, also the score of a model without files |
| CatalogLevels.SortExact | core/modelcatalog/huggingface.go:204-212 | the sorted listing has the same models, the higher score first and the smaller id among equals |
| CatalogRefit.FetchCatalog | core/modelcatalog/huggingface.go:214-237 | the loop over the service's answers builds and sorts the listing of the kept sources |
| CatalogRefit.CatalogModel | core/modelcatalog/huggingface.go:239-284 | a source is listed exactly when it has files and its best one passes the filters |
| CatalogRefit.EstimateFiles | core/modelcatalog/fit.go:7-17 | every file is estimated in its place |
| CatalogRefit.Cached.RefitResult | core/modelcatalog/huggingface.go:183-202 | refits every model in place and sorts |
| CatalogRefit.SortCatalogModels | core/modelcatalog/huggingface.go:204-212 | the stable sort by score and id |
| CatalogRefit.InsertsCommute | core/modelcatalog/huggingface.go:204-212 | for different ids the sorted order does not depend on the order of arrival |
| CatalogRefit.RefitAgrees | core/modelcatalog/huggingface.go:183-284 | refitting equals rebuilding in order, files, best file, fit and score if and only if both machines keep the same sources, and in the video memory estimates too if and only if no GPU went away or nothing is estimated |
| CatalogRefit.GpuGoneKeepsEstimate | core/modelcatalog/fit.go:10-12 | a listing refitted to a machine without a GPU keeps the video memory estimate and differs from a fresh one in nothing else |
| CatalogRefit.SmallerMachineKeepsModel | core/modelcatalog/huggingface.go:183-202 | a listing of fitting models refitted to a machine that is too small still lists them |
| CatalogRefit.EveryFitKeepsAll | core/modelcatalog/huggingface.go:260-276 | without a minimum fit all machines keep the same sources |
| CatalogRefit.RefitIdempotent | core/modelcatalog/huggingface.go:183-212 | refitting any listing twice for one machine is refitting it once, and leaves it in order |
| ConfigLists.DisableUndoesEnable | core/configstore/config_store.go:144-159 | disabling what was enabled gives the earlier list back |
| ConfigLists.WithoutAt | core/configstore/config_store.go:213-229 | every place of the list is kept or taken out by itself, in order |
| YamlEdit.FilterInPlace | core/configstore/config_store.go:213-229 | filtering in the backing array it reads from keeps the order of what is left and reports whether anything went |
| YamlEdit.AppendNameIfAbsent | core/configstore/config_store.go:199-211 | appends a scalar once, if the name is not there |
| YamlEdit.MappingValue | core/configstore/config_store.go:246-256 | the value of the first matching key |
| YamlEdit.EnableExact | core/configstore/config_store.go:144-211 | enabling changes the document if and only if the sections are no nulls and the name is absent; then the list gains the name once and is valid exactly below the cap, and nothing else changes |
| YamlEdit.NullSectionIgnoresEnable | core/configstore/config_store.go:171-211 | with a null `router` or `autostart_presets` enabling reports success and changes nothing |
| YamlEdit.DisableExact | core/configstore/config_store.go:144-229 | disabling removes every copy in order, always leaves a valid file, and touches nothing else |
| YamlEdit.RemoveExact | core/configstore/config_store.go:213-244 | removing references filters the list and empties the default, always leaves a valid file, and touches nothing else |
| YamlEdit.DefaultCleared | core/configstore/config_store.go:236-241 | a default is emptied if and only if its text is removed, a form of null included |
| YamlEdit.ConfigReads | config/config.go:242-252 | what a file says in its three fields: at least one model, none counting as one, and no more presets than models |
| YamlEdit.StepRefines | core/configstore/config_store.go:97-130 | each edit of the file is the list operation; the only refusal of a valid file is enabling at the cap |
| YamlEdit.RunRefines | core/configstore/config_store.go:97-130 | over every run of edits the file means what the list operations give, with at most `models_max` autostart presets |
| YamlEdit.FileStore.SetRouterAutostartPreset | core/configstore/config_store.go:39-46 | finds or makes the nodes on the way, edits the list, validates and writes |
| YamlEdit.FileStore.RemoveRouterPresetReferences | core/configstore/config_store.go:26-37 | edits default and list, validates and writes once |
| StorageWatch.LocalWatchState.Observe | core/modelcatalog/local.go:106-119 | reports exactly the scan that equals the one before it and differs from the inventory accepted last, and keeps that inventory |
| StorageWatch.ObserveExact | core/modelcatalog/local.go:106-119 | a scan is reported if and only if it equals the scan before it and differs from the inventory accepted last |
| StorageWatch.NoLostWakeup | bootstrap/service.go:130-147 | a report that no refresh was started after, or only one that ended in a conflict, leaves a token, an owed refresh or one under way until the context ends; with nothing pending the last refresh without a conflict covers the inventory that counts |
| PidRecord.RecordExact | core/runtime/llama_server_runtime.go:115-132 | once start and waiter are done the file does not name the exited child; the record of a running child is there if and only if no removal overlapped its write |
| PidRecord.LateDeleteLosesRecord | platform/pidfile/pidfile.go:20-62 | a removal that reads before and deletes after the next start takes that start's record |
| PidRecord.OneChildRuns | core/runtime/llama_server_runtime.go:93-98 | over every run in which stops wait for their child, no two children run at once, and a running one is the current one |
| PidRecord.WaiterTakes | platform/pidfile/pidfile.go:43-62 | an uninterrupted removal takes the record of its own process and a file without a number, and no other |
| PidRecord.RecoverTakes | platform/pidfile/pidfile.go:27-41 | a look for a running process leaves only the record of a living one, as it is |
| PidRecord.CleanUpTakes | core/runtime/llama_server_runtime.go:154-163 | a stop takes the record of its own child and a file without a number, and no other |
| UniqueName.UniquePresetName | webui/web/src/panels/models/presetDraft.ts:3-12 | the first free candidate, found after at most one more try than there are used names; it is a valid, trimmed section name |
| UniqueName.BaseKeeps | webui/web/src/panels/models/presetDraft.ts:4-5 | a name is its own base if and only if there is nothing to strip, replace or trim |
| UniqueName.StemExact | webui/web/src/panels/models/presetDraft.ts:4 | one `.gguf` at the end is dropped, in any case, and nothing else |
| UniqueName.RunBecomesHyphen | webui/web/src/panels/models/presetDraft.ts:5 | every maximal run of other characters becomes one hyphen |
| UniqueName.BaseTrims | webui/web/src/panels/models/presetDraft.ts:5 | hyphens at both ends go, and where nothing is left the name is `model` |
| UniqueName.CandidateReads | webui/web/src/panels/models/presetDraft.ts:8-9 | a candidate is the base, a hyphen and the number in decimal |
| UniqueName.TriedCount | webui/web/src/panels/models/presetDraft.ts:8-11 | no candidate is tried twice |

## Left out

- HTTP, RPC, MCP and CLI adapters, protobuf mapping, the terminal and web interfaces: plumbing and display.
- `core/llamainstall`: downloads and process runs around a small retention rule.
- File system details (symbolic links, sync, temporary files and renames inside `platform/filedoc`): a write is one step that succeeds or fails and leaves the file as it was.
- YAML, JSON, URL and regular-expression libraries: encoding and decoding YAML are inverse; the two patterns of `store.go` and those of `presetDraft.ts` are explicit predicates.
- Strings are sequences of Unicode scalar values. Case mapping covers ASCII and the two characters whose lower case is ASCII; no other cased character can pass the key pattern.
- Event ids do not wrap around at 64 bits. The size sum in the fit estimate does wrap, as in the code.
- Floating point: scores are real numbers, and the 90% share of a capacity is any function of it. Time enters the score as a fixed part for each model.
- Whether a model file is on disk is taken from the listing when it is refitted, as the code does; cache files and their expiry are not modelled.
- Job ids are fresh, as the random ids of the code are taken to be; the check of the model's repository before a download starts gives parameters.
- The router settings are read without failure, because the code falls back to the settings it started with.
- The control manager's preset store is what `models.ini` says, or that it cannot be read, as `PresetStore.StepExact` proves it of the text. Its config store uses the list operations of `YamlEdit`, for documents whose sections are no nulls.
- Parallel readers of the preset file while it is being replaced.
- The audit sink of the gate is configured, and recording does not fail.
- A log file does not change between the look at its size and the read in one tail or one poll; reads do not fail.
- `yaml.Node` is a value here, so sharing of nodes is not captured; only the filter's reuse of its array is. Aliases, merge keys, null list items, comments and the size limit of the file are not modelled.
- `SetStartupServices` and `SetRouterExecutable`: the same shape of edit as the ones proved.
- Watcher and PID steps are interleavings of atomic steps; real time (scan interval, 250 ms retry, readiness and stop timeouts) is not modelled, and neither is adopting a process at startup.
- A runtime's own removals, made under its mutex, are one step each; only the waiters' removals are split into reading and deleting. Process ids are not reused.
- The exit status that a waiter sends, and readiness.
- A body that panics: the gate is released without an audit event.
- Liveness: the theorems say what is still owed, not that it happens in time.
