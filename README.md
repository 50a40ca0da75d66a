# GoogleAppsScriptManager — a Dafny model of its decision logic

The repository has two small programs. This project models their deterministic core.

**The mail daemon** (`src/app/mail.js`) is an Apps Script run every 30 minutes.
- `getRules` builds one archive rule. It has four Gmail searches: threads in the inbox older than a limit date. The limit depends on the thread's important/read category: -7, -14, +3 and -7 days around "now". Its single action is "Move to archive".
- `start` arms a 5 min 30 s time budget and runs every rule.
- `doDaemonAction` searches each query.
- `applyRule` walks the threads found, the rule's actions, and the labels or messages an action names. Before every unit of work it asks the timer `canContinue()`. As soon as the timer says no, it returns without error.
- `createSearchFilter` builds each Gmail query from an options record. The clauses come in the order after, before, important, labels, read, each preceded by one space.

**The uploader** (`src/GoogleAppsScriptManager.js`) pushes a local directory to Google Drive as an Apps Script project.
- `toGoogleAppScriptFormat` keeps the `.js`/`.html` files (the extension is compared in lower case). It fails on an unreadable directory or when no file is kept. Each kept file becomes `{name, type: "server_js", source}`.
- `getAppFile` lists the project by the query `name='<name>' and mimeType='application/vnd.google-apps.script'` and takes the first hit.
- `upload` creates the project when there is none. Otherwise `update` exports the project, copies each exported file's id onto the first local file of the same name, and writes the result back.
- `upload` answers `https://script.google.com/d/<id>/edit` with status `success`.

## Structure

| file | module | models |
|---|---|---|
| `wrappers.dfy` | `Wrappers` | `Option`, `Result` |
| `text.dfy` | `Text` | ECMAScript Number-to-String for integers up to 2^53 and for millisecond/1000 values, ASCII lower-casing, affix extraction |
| `search_filter.dfy` | `SearchFilter` | `createSearchFilter`: a clause list and its rendering, plus the imperative builder proved against it |
| `mail_timer.dfy` | `MailTimer` | `MailDaemon.timer` as a `Timer` class over a `Clock` oracle; the `setMinutes`/`setSeconds` arithmetic |
| `mail_host.dfy` | `MailHost` | Gmail threads, labels and stars; the `Mailbox` class with one method per Gmail call |
| `mail_rules.dfy` | `MailRules` | `ActionTypes`, `ArchiveRules`, the switch's case order, and `getRules` |
| `mail_engine.dfy` | `MailEngine` | the reference semantics: every loop as a flat list of steps (a time check, or a host mutation), and its run under the guard; the untimed meaning of each action kind |
| `mail_daemon.dfy` | `MailDaemon` | `applyRule`, `doDaemonAction` and `start` as imperative loops over the `Mailbox` and `Timer`, each proved equal to the engine's run |
| `script_format.dfy` | `ScriptFormat` | `toGoogleAppScriptFormat`, with Node's `path.extname` |
| `script_manager.dfy` | `ScriptManager` | `getAppFile`, the id-copying loop of `update` on an array in place, and `upload` as the list of Drive requests it sends |

Time is integer milliseconds since the epoch, in UTC. The k-th `new Date()` of a run reads `clock.reading(k)`. Every `Timer` method records how many readings it took, so each imperative method's contract pins down exactly how many clock readings it took and where it stopped.

The model follows the code in three places that are easy to misread:
- `CLEAR_LABEL` is declared but has no case in the switch, so it changes nothing.
- The label cache `labels` of `applyRule` is read but never written. For every name that the empty object `{}` does not inherit from `Object.prototype`, the lookup therefore goes to Gmail. The inherited names (`constructor`, `toString`, …) are a latent bug, described under "## Findings". The daemon methods model the intended lookup.
- `upload` issues the Drive list request alongside the directory scan, so that request is sent even when the directory holds no script file.

## Model

| member | source | states |
|---|---|---|
| Text.NatTextRoundTrip | src/app/mail.js:229 | the decimal digits produced for a number read back as that number |
| Text.NatText | src/app/mail.js:229 | Number-to-String of a natural number up to 2^53: at least one decimal digit, and no leading zero unless it is 0 |
| Text.SecondsText | src/app/mail.js:229 | Number-to-String of `getTime() / 1000`: sign, whole seconds and the fraction without trailing zeros |
| Text.Lower | src/GoogleAppsScriptManager.js:50 | `toLowerCase` on ASCII: same length, each letter lower-cased |
| Text.WholeSecondsText | src/app/mail.js:235 | a time on a whole second prints as its integer number of seconds, with no fraction |
| Text.BetweenWrap | src/GoogleAppsScriptManager.js:193 | the value between a prefix and a suffix is recovered from their concatenation |
| SearchFilter.CreateSearchFilter | src/app/mail.js:220-255 | the `+=`-built query equals the rendering of the options' clause list |
| SearchFilter.BoundText | src/app/mail.js:228-237 | a Date contributes its seconds, a number (an integer of magnitude at most 2^53) its decimal numeral, a token its text, and an unset value, 0 or `''` nothing |
| SearchFilter.ClauseText | src/app/mail.js:229-252 | the text of each kind of clause after its leading space |
| SearchFilter.Clauses | src/app/mail.js:227-252 | the clauses the options call for, in the builder's order |
| SearchFilter.FilterText | src/app/mail.js:220-255 | the query those clauses render to |
| SearchFilter.ClausesOrdered | src/app/mail.js:225-252 | a clause never precedes one of an earlier kind: after, before, important, label, read |
| SearchFilter.RankAt | src/app/mail.js:227-252 | the k-th clause belongs to the option group that position k falls in |
| SearchFilter.FilterTextShape | src/app/mail.js:227-252 | the query is the after, before, important, labels and read texts concatenated in that order |
| SearchFilter.FilterEmptyIff | src/app/mail.js:225-254 | the query is empty iff no option contributes; otherwise it starts with a space |
| SearchFilter.NoOptionsGiveEmptyFilter | src/app/mail.js:225 | empty options give the empty query |
| SearchFilter.LabelsRender | src/app/mail.js:244-248 | each label contributes one ` label:<l>` clause, in list order |
| SearchFilter.ImportantTextForm | src/app/mail.js:240-241 | true gives ` is:important`, false gives ` -is:important`, unset gives nothing |
| SearchFilter.ReadTextForm | src/app/mail.js:251-252 | true gives ` is:read`, false gives ` is:unread`, unset gives nothing |
| SearchFilter.PartRenders | src/app/mail.js:227-252 | each option's clauses render to that option's text, one leading space each |
| SearchFilter.RenderAppend | src/app/mail.js:225-254 | rendering distributes over concatenation of clause lists |
| MailTimer.DeadlineAfterStart | src/app/mail.js:197-202 | setting minutes+5 and then seconds+30, with carries, gives exactly start + 5 min 30 s |
| MailTimer.ShiftSeconds | src/app/mail.js:201-202 | whole minutes added do not change the seconds field |
| MailTimer.SetMinutes | src/app/mail.js:201 | `setMinutes`: replaces the minutes field and carries any overflow into the larger fields |
| MailTimer.SetSeconds | src/app/mail.js:202 | `setSeconds`: replaces the seconds field and carries any overflow |
| MailTimer.Clock.Now | src/app/mail.js:194 | `new Date()` returns the next clock reading and consumes it |
| MailTimer.Timer.Start | src/app/mail.js:197-203 | records one reading as the start time and puts the end time 5 min 30 s after it |
| MailTimer.Timer.CanContinue | src/app/mail.js:193-195 | true iff the reading taken is strictly before the end time; false before `start` |
| MailTimer.ExpiryIsFinal | src/app/mail.js:193-195 | on a clock that never runs backwards, once a check fails every later check fails |
| MailHost.Apply | src/app/mail.js:92-179 | the state after one Gmail mutation: only that thread changes, and only a created label changes the user's labels |
| MailHost.ApplyKeepsCounts | src/app/mail.js:98-179 | no host mutation changes which threads exist or how many messages they have |
| MailHost.Mailbox.Search | src/app/mail.js:271 | answers the search oracle's result, all of whose threads exist |
| MailHost.Mailbox.HasUserLabel | src/app/mail.js:92 | true iff the user has a label of that name |
| MailHost.Mailbox.CreateLabel | src/app/mail.js:95 | adds the label to the user's labels and changes nothing else |
| MailHost.Mailbox.AddLabel | src/app/mail.js:98 | the new state is the old one with the label attached to that thread |
| MailHost.Mailbox.RemoveLabel | src/app/mail.js:153 | the new state is the old one with the label detached from that thread |
| MailHost.Mailbox.MarkRead | src/app/mail.js:107-117 | sets the thread's read flag, nothing else |
| MailHost.Mailbox.MarkImportant | src/app/mail.js:103-113 | sets the thread's important flag, nothing else |
| MailHost.Mailbox.MoveTo | src/app/mail.js:119-133 | sets the thread's location, nothing else |
| MailHost.Mailbox.MessageCount | src/app/mail.js:160 | the number of messages of the thread |
| MailHost.Mailbox.Star | src/app/mail.js:167-179 | sets the star of one message, nothing else |
| MailRules.TypeName | src/app/mail.js:33-45 | the type string of each action kind |
| MailRules.SwitchCase | src/app/mail.js:77-183 | the case of the switch a type string selects |
| MailRules.FirstCase | src/app/mail.js:77-183 | the first case whose type string matches, or none when no case matches |
| MailRules.SwitchCaseOfTypeName | src/app/mail.js:33-45 | each action kind's type string selects its own case; CLEAR_LABEL's selects none |
| MailRules.SwitchCaseSound | src/app/mail.js:77-183 | a string selects a case iff it is the type string of a kind other than CLEAR_LABEL, and then selects that kind |
| MailRules.TypeNameInjective | src/app/mail.js:33-45 | distinct action kinds have distinct type strings |
| MailRules.ArchiveDays | src/app/mail.js:24-27 | the day offset of each important/read category |
| MailRules.AddDays | src/app/mail.js:294 | `setDate(getDate() + days)` in UTC |
| MailRules.ArchiveOptions | src/app/mail.js:295-310 | the options of one archive search: the inbox label, its category, and its limit date |
| MailRules.ArchiveSearches | src/app/mail.js:289-310 | one search per category, in order |
| MailRules.ArchiveRule | src/app/mail.js:283-316 | the four archive searches and the single action "Move to archive" |
| MailRules.GetRules | src/app/mail.js:280-319 | exactly one rule: one search per category in order (T,T), (T,F), (F,T), (F,F), and the single action "Move to archive" |
| MailRules.ArchiveSearchAt | src/app/mail.js:292-310 | the i-th search is the filter of the i-th category, with its day offset |
| MailRules.ArchiveSearchesPush | src/app/mail.js:295-310 | each push appends that category's search to those before it |
| MailRules.ArchiveSearchText | src/app/mail.js:24-27 | the exact query: ` before:<limit seconds>`, the important token, ` label:inbox`, the read token |
| MailEngine.Run | src/app/mail.js:63-185 | performs steps in order, and stops right after the first check that fails |
| MailEngine.LabelSteps | src/app/mail.js:81-99 | the label loop: a check, then one label effect, per name |
| MailEngine.StarSteps | src/app/mail.js:161-180 | the message loop: a check, then one star effect, per message |
| MailEngine.CaseSteps | src/app/mail.js:79-181 | the steps of each case of the switch; none for CLEAR_LABEL |
| MailEngine.SwitchSteps | src/app/mail.js:77-183 | the steps of the first case whose type string matches, and none when no case does |
| MailEngine.ActionsSteps | src/app/mail.js:70-184 | the action loop: a check, then the action's steps, per action |
| MailEngine.ThreadsSteps | src/app/mail.js:63-185 | the thread loop: a check, then the action loop, per thread |
| MailEngine.DaemonRun | src/app/mail.js:261-274 | per search: a check, the search, and applyRule's run; the next search follows even after applyRule stopped |
| MailEngine.RulesRun | src/app/mail.js:348-354 | per rule: a check, then doDaemonAction's run |
| MailEngine.RunAppend | src/app/mail.js:63-185 | running two step lists is running the first and, unless it stopped, the second from where it ended |
| MailEngine.RunKeepsCounts | src/app/mail.js:63-185 | a run creates and removes no thread or message, and never un-takes a reading |
| MailEngine.RunStopsOnFailedCheck | src/app/mail.js:65-176 | a run stops only right after a failed time check |
| MailEngine.RunUntimed | src/app/mail.js:63-185 | while every check passes, a run performs all its mutations in order and stops nowhere |
| MailEngine.RunPerformsPrefix | src/app/mail.js:63-185 | every run performs exactly a prefix of its steps, so nothing after the stopping check is done |
| MailEngine.DaemonRunAfterExpiry | src/app/mail.js:266-273 | once the deadline has passed, doDaemonAction changes nothing |
| MailEngine.RulesRunAfterExpiry | src/app/mail.js:348-354 | once the deadline has passed, the rule loop of `start` changes nothing |
| MailEngine.DaemonStopsWithApplyRule | src/app/mail.js:266-273 | when applyRule stops early, doDaemonAction's next check fails and it changes nothing more |
| MailEngine.DaemonRunStopsOnFailedCheck | src/app/mail.js:266-273 | when doDaemonAction ends on a failed check, every later check fails and the later runs change nothing |
| MailEngine.SwitchStepsCase | src/app/mail.js:77-183 | the switch runs the steps of the case selected by the type string, and nothing when none is selected |
| MailEngine.ActionStepsCase | src/app/mail.js:77-183 | an action runs the steps of the case that its type selects |
| MailEngine.Retouch | src/app/mail.js:98-179 | replacing one thread keeps the other threads, the thread ids and the labels |
| MailEngine.CaseMeaning | src/app/mail.js:77-183 | every case changes only its own thread, drops no label, and keeps the message count |
| MailEngine.ActionMeaning | src/app/mail.js:77-183 | an action changes only its own thread, drops no label, and keeps the message count |
| MailEngine.AttachAll | src/app/mail.js:79-101 | APPLY_LABEL adds every named label to the user's labels (creating the missing ones) and to the thread |
| MailEngine.DetachAll | src/app/mail.js:135-156 | REMOVE_LABEL removes from the thread the named labels the user has, and skips the others |
| MailEngine.LabelLoopAsWritten | src/app/mail.js:61-153 | the label loop with the cache `{}` as written: a name inherited from `Object.prototype` makes the run fail in the state reached so far |
| MailEngine.LabelLoopAgrees | src/app/mail.js:81-154 | without inherited names, the label loop as written performs exactly the label steps |
| MailEngine.InheritedLabelName | src/app/mail.js:89-153 | `constructor` as an APPLY_LABEL name fails as written where the label steps attach it; `toString` as a REMOVE_LABEL name fails where they skip it |
| MailEngine.StarFrom | src/app/mail.js:158-181 | starring from message m on sets those messages and keeps the earlier ones |
| MailEngine.StarAll | src/app/mail.js:158-181 | STAR/UNSTAR sets every message of the thread to that star, and touches no other thread |
| MailEngine.SingleEffect | src/app/mail.js:103-133 | each MARK_AS and MOVE_TO case is exactly one host mutation |
| MailEngine.CaseStepsMeaning | src/app/mail.js:77-183 | the mutations of a case's steps amount to that case's meaning |
| MailEngine.ActionStepsMeaning | src/app/mail.js:77-183 | the mutations of one action on one thread amount to the action's meaning; unknown types and CLEAR_LABEL change nothing |
| MailEngine.ActionMeaningKeepsCounts | src/app/mail.js:77-183 | an action keeps every thread's message count |
| MailEngine.ActionsMeaning | src/app/mail.js:70-184 | the action list's meaning keeps the set of threads |
| MailEngine.ThreadsMeaning | src/app/mail.js:63-185 | the rule's meaning over the found threads keeps the set of threads |
| MailEngine.ActionsStepsMeaning | src/app/mail.js:70-184 | a thread's action loop performs its actions' meanings one after the other |
| MailEngine.ThreadsStepsMeaning | src/app/mail.js:63-185 | the thread loop performs the rule's meaning on each found thread in order |
| MailEngine.ApplyRuleWithTime | src/app/mail.js:47-186 | with time to spare, applyRule's run completes and its state is the rule's meaning |
| MailEngine.EffectsAppend | src/app/mail.js:63-185 | the mutations and checks of a concatenation are those of its parts |
| MailEngine.ApplyAllAppend | src/app/mail.js:63-185 | performing two mutation lists is performing their concatenation |
| MailDaemon.AttachLabels | src/app/mail.js:79-101 | the label loop: a check per label, look up, create if missing, attach; state and readings are those of the engine's run |
| MailDaemon.DetachLabels | src/app/mail.js:135-156 | the label loop: a check per label, detach when the user has it, skip otherwise; as the engine's run |
| MailDaemon.SetStars | src/app/mail.js:158-181 | the message loop: a check per message, then star or unstar it; as the engine's run |
| MailDaemon.ApplyAction | src/app/mail.js:77-183 | the switch on the action type, as the engine's run of the selected case |
| MailDaemon.ApplyActions | src/app/mail.js:70-184 | the action loop with its checks and early return, as the engine's run |
| MailDaemon.ApplyRule | src/app/mail.js:47-186 | applyRule's nested loops, as the engine's run over the found threads |
| MailDaemon.DoDaemonAction | src/app/mail.js:261-274 | the search loop, as the engine's doDaemonAction run |
| MailDaemon.RunRules | src/app/mail.js:348-354 | the rule loop of `start`, as the engine's rules run |
| MailDaemon.Start | src/app/mail.js:340-355 | builds the archive rule from the first reading, starts the timer on the second, then runs the rule with checks from the third reading on |
| ScriptFormat.LastDot | src/GoogleAppsScriptManager.js:50 | the position of the last dot, or none when the name has no dot |
| ScriptFormat.Extname | src/GoogleAppsScriptManager.js:50 | the extension is a suffix of the name that starts with a dot and is shorter than the name |
| ScriptFormat.Stem | src/GoogleAppsScriptManager.js:71 | the entry name followed by the extension gives back the file name |
| ScriptFormat.IsScriptFile | src/GoogleAppsScriptManager.js:50 | the lower-cased extension is `.js` or `.html` |
| ScriptFormat.ScriptFiles | src/GoogleAppsScriptManager.js:50 | the listed names that pass the filter, in listing order |
| ScriptFormat.ScriptFilesMembers | src/GoogleAppsScriptManager.js:50 | a name is kept iff it is listed and its lower-cased extension is `.js` or `.html` |
| ScriptFormat.ScriptFilesAppend | src/GoogleAppsScriptManager.js:50 | the filter keeps relative order |
| ScriptFormat.ScriptFilesSingle | src/GoogleAppsScriptManager.js:50 | a single name is kept exactly when it passes the filter |
| ScriptFormat.ScriptFilesEmpty | src/GoogleAppsScriptManager.js:52 | nothing is kept iff no listed name passes the filter |
| ScriptFormat.ErrorMessage | src/GoogleAppsScriptManager.js:43-53 | the readdir error is rethrown as it is; no kept file gives the message of line 53, with its trailing quote |
| ScriptFormat.EntryOf | src/GoogleAppsScriptManager.js:63-73 | the entry of one file: its stem, `server_js`, its content |
| ScriptFormat.Entries | src/GoogleAppsScriptManager.js:55-76 | one entry per kept file, in order |
| ScriptFormat.ToAppScriptFormat | src/GoogleAppsScriptManager.js:25-77 | the conversion with its two errors; its properties are FormatResult's |
| ScriptFormat.FormatResult | src/GoogleAppsScriptManager.js:25-77 | fails iff the directory is unreadable or keeps no file; otherwise one entry per kept file in order, with its stem as name, type `server_js`, the file content, and no id |
| ScriptFormat.ExtnameOf | src/GoogleAppsScriptManager.js:50-71 | `stem.ext` has extension `.ext` and entry name `stem` |
| ScriptFormat.HiddenFileDropped | src/GoogleAppsScriptManager.js:50 | a dot file such as `.js` has no extension and is dropped |
| ScriptManager.AppFileQueryRoundTrip | src/GoogleAppsScriptManager.js:250 | the name, unescaped, is recovered from the query between its fixed prefix and suffix |
| ScriptManager.AppFileQueryInjective | src/GoogleAppsScriptManager.js:250 | distinct names give distinct queries |
| ScriptManager.AppFileQuery | src/GoogleAppsScriptManager.js:250 | `name='<name>' and mimeType='application/vnd.google-apps.script'`, unescaped |
| ScriptManager.GetAppFile | src/GoogleAppsScriptManager.js:256 | the first listed file, and none iff nothing is listed |
| ScriptManager.FindName | src/GoogleAppsScriptManager.js:224 | the first local entry with the name, or none when no entry has it |
| ScriptManager.FindNameShape | src/GoogleAppsScriptManager.js:224 | the first match does not depend on ids |
| ScriptManager.Assign | src/GoogleAppsScriptManager.js:222-229 | one pass of the forEach: the first local entry with the export's name takes its id |
| ScriptManager.Reconciled | src/GoogleAppsScriptManager.js:221-230 | the forEach over the exports, in export order |
| ScriptManager.ReconcileKeepsShape | src/GoogleAppsScriptManager.js:221-230 | id copying adds, drops and reorders no entry, and changes no name, type or source |
| ScriptManager.LastMatch | src/GoogleAppsScriptManager.js:221-229 | the last export with the name, or none when no export has it |
| ScriptManager.ReconciledId | src/GoogleAppsScriptManager.js:221-230 | an entry gets the id of the last export with its name iff it is the first local entry with that name; every other entry keeps its id |
| ScriptManager.Reconcile | src/GoogleAppsScriptManager.js:221-230 | the in-place forEach leaves the array equal to the reconciled entries |
| ScriptManager.Update | src/GoogleAppsScriptManager.js:207-241 | sends the export request and then the update with the reconciled project; answers the update's metadata |
| ScriptManager.UpdatedEntryId | src/GoogleAppsScriptManager.js:221-230 | in the project sent, a local file has the id of the last export with its name when it is the first local file with that name, and no id otherwise |
| ScriptManager.EditUrl | src/GoogleAppsScriptManager.js:193 | `https://script.google.com/d/<id>/edit` |
| ScriptManager.EditUrlRoundTrip | src/GoogleAppsScriptManager.js:193 | the file id is recovered from the editor address |
| ScriptManager.Upload | src/GoogleAppsScriptManager.js:165-198 | lists first; a failed conversion fails the upload; no app file gives create, otherwise export and update; success answers the editor address of the written file |

## Left out

- Time is UTC milliseconds. Local time zones and daylight saving, invalid dates and the ECMAScript time-value range are not modelled.
- `setDate` is modelled as adding whole days of 86,400,000 ms. Its carry through months and years is then exact.
- SearchFilter.BoundText: a number bound is modelled only for safe integers, |n| at most 2^53, which JavaScript prints exactly. Larger integers (rounded digits, and exponent form from 10^21), fractions, NaN and Infinity are not modelled; their text can be given as a `Token`.
- The Number-to-String conversion of `getTime() / 1000` is modelled for integers and for exact thousandths. Exponent notation for magnitudes of at least 10^21 is not modelled.
- A `before`/`after` option that is neither a Date nor a number is a literal token. JavaScript's other truthy values (objects, arrays) are not modelled.
- `action.parameter1` is a sequence of names. An action without it is modelled with the empty sequence; in the source, the label cases would throw on it.
- `toLowerCase` is modelled on ASCII letters only. The filter's outcome does not depend on this, because no non-ASCII character lower-cases to a letter of `.js` or `.html`.
- Gmail search is an oracle from the query and current threads to thread ids. `SearchSound` says that the found threads exist. Query semantics, pagination and result limits are not modelled.
- Label objects are identified by name. The never-written label cache of `applyRule` is not a variable of the imperative model. Its lookup as written is modelled by `MailEngine.LabelLoopAsWritten`.
- `install()` registers a scheduler trigger with the host. It is not part of this model.
- The concurrency of `Promise.all` in `upload` and in the file reads is modelled as sequential. The list request comes first.
- Drive and file-system calls are not performed. Their answers are inputs: the directory listing or its error, the file contents, the listed files, the export and the written metadata. Errors of the file reads and of Drive requests are not modelled.
- `JSON.stringify` of the project is modelled as sending the `AppScript` value itself. The `fields` part of the list request (`nextPageToken, files(id, name)`), the `fields` and `modifiedTime` parts of the update request, and the auth argument are not modelled.
- `console.error` logging before the rethrow is not modelled.
- `run()` forwards a call to the Apps Script API with a callback-to-promise wrapper. It is left out because it contains no decision logic.
- The `WeakMap` used by `declare` and `get` is object-identity plumbing. It is not part of this model.
- MailDaemon.AttachLabels: looks every name up in Gmail, creates it if missing and attaches it. In the source, a name inherited by `{}` from `Object.prototype` hits the cache instead, and its inherited member goes to `addLabel`, which throws. See "## Findings" and `MailEngine.LabelLoopAsWritten`.
- MailDaemon.DetachLabels: looks every name up in Gmail and skips a missing one. In the source, an inherited name hits the cache instead, and its inherited member goes to `removeLabel`, which throws. See "## Findings".
- Every Gmail call is modelled as succeeding, and the `Mailbox` methods are total. In the source, an exception from any of these calls escapes `applyRule`, `doDaemonAction` and `start` and drops the rest of the run: `GmailApp.search`, `getUserLabelByName`, `createLabel`, `addLabel`, `removeLabel`, the `mark*` and `moveTo*` calls, `getMessages`, `star` and `unstar`.
- MailDaemon.ApplyRule: returns no value, as in the source. Whether it stopped early is stated through the engine's run, not through an out-parameter.

## Findings

| source | as written | input that shows it | evidently intended | confidence | as-written member | corrected member |
|---|---|---|---|---|---|---|
| src/app/mail.js:61-153 | The cache `labels = {}` inherits from `Object.prototype`, so `labels[labelName]` is truthy for an inherited name. Its inherited member, not a label, is then passed to `thread.addLabel` / `thread.removeLabel`, which throw and end the run. | An APPLY_LABEL action with `parameter1` `["constructor"]`, or a REMOVE_LABEL action with `["toString"]` | A cache that holds only stored labels, so the lookup misses and the label is fetched (and, for APPLY_LABEL, created) in Gmail | not executed | MailEngine.LabelLoopAsWritten, MailEngine.InheritedLabelName | MailEngine.AttachAll, MailEngine.DetachAll (used by MailDaemon.AttachLabels and MailDaemon.DetachLabels; MailEngine.LabelLoopAgrees shows both agree on every other name) |
