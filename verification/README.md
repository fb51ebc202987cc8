# propmonitor in Dafny

propmonitor watches a radio beacon: it measures the signal in a passband, uploads each measurement, and lets a
website change its configuration. This project models the parts of it where a mistake is expensive, and proves what
they promise.

* **The configuration text.** A hand-written parser and a hand-written writer for `config.yaml`
  (`Text`, `Yaml`, `YamlRoundTrip`, `Numbers`), the configuration on top of them (`NodeConfig`, `ConfigText`) and the
  one unquoted word of it that is not checked before it is written (`BareMode`). Whatever the writer writes, the
  parser reads back or refuses, for every string; saving what was loaded changes nothing; and whatever stands for the
  mode, everything else an update says is read as meant. For texts that people write: what each line does, which are
  refused and which line an error names (`YamlLayout`), which number a text is (`NumberValues`), and exactly which
  texts load, as which config (`ConfigFields`).
* **The configuration in place.** Disk, memory, listener and worker under failing binds and writes (`ConfigStore`,
  `ConfigListener`).
* **The two-way sync with the website.** One push as a lens and many pushes as a last-writer-wins register
  (`SyncConfigs`), what is answered to one (`PushReplies`), and the protocol as a transition system of a node, a server
  log and two channels per session (`SyncProtocol`). Over every run the last local edit is in the log, on its way in a
  report, or owed by a node that still runs it, if and only if none of four steps occurs (`SyncEdits`); a quiet node
  agrees with the log (`SyncAgreement`); versions come from the website and only rise (`SyncVersions`). What is kept is
  content: the config the node ran right after the edit.
* **The measurement.** Streaming accumulators against the batch definition, gating, median noise, scale and bin
  indexing (`Measure`, `MeasureLaws`, `MeasureScale`, `Passband`), and the loop that cuts samples into frames and fills
  the waterfall ring (`Worker`).
* **Timestamps** (`Calendar`): nested divisions against the Gregorian calendar, and RFC 3339 text.
* **Self-update** (`Update`, `UpdateLaws`, `UpdateTrust`, `UpdateOutcomes`): what may reach the install path, what is
  left to fall back to, and exactly what each turn comes to.
* **The upload queue** (`Uploader`, `UploaderIntake`): what is read from the stream is queued and has one fate, and
  back-off.

Code that changes state step by step is a class or a method with loops; its `ensures` equates the new state with a
function of the old one, and the lemmas are about that function. What the outside world decides (a bind or write that
fails, where a write stops, a server's answer, a dropped session) is a parameter of each operation, so "over every
run" means over every such choice.

## What was found

Some claims do not hold as they stand. Each of these is a lemma over a whole family of inputs, next to the condition
under which the claim does hold.

* A polling round whose report fails goes on to pull. A newer version then replaces the edit that is still owed, and the
  next round reports the website's own content in its place (`SyncEdits.FailedPollLosesTheEdit`), although
  `api.md:950-951` says the edit stays pending and goes up through the polling POST. The same happens to any edit that
  is unseen or owed, and not on its way in a report, when a push is applied that is taken as anything else
  (`SyncEdits.ClobberingLosesExactly`). An edit that is on its way when the push is applied still reaches the log,
  unless the session drops or the website refuses the report before that
  (`SyncEdits.OvertakenReportHangsOnItsSession`).
* The acceptance of an adopted `hello` is taken for the answer to a report, so an edit whose report is still on its way
  is no longer owed, and a drop then loses it (`SyncEdits.AdoptionLosesAnEdit`). Waiting for a token consumes the edit
  that sets it (`SyncEdits.WaitingForATokenLosesTheEdit`).
* A report sent right behind `hello` crosses the push that answers `hello`; the acceptance then stamps a newer version
  on the wrong content (`SyncAgreement.ReconnectRace`).
* A local edit without a `microwaveprop` block can bring one along in the lines of its mode, and with it any token and
  any version (`SyncVersions.AnInjectedEditSetsTheVersion`); exactly which edits move the version is
  `SyncVersions.EditVersionExactly`, and exactly what any mode string is read as is `BareMode.AnyModeReadsExactly`.
* `persist_config_version` changes memory before the disk, so repeating a failed call reports success without writing
  (`ConfigStore.RepeatedPersistIsNoProof`).
* A pushed mode such as `usb #x` is accepted and applied as `usb` (`SyncConfigs.CommentedPushIsTakenAmiss`).
* Wide FM at 250 kS/s is an accepted configuration that never measures (`Passband.WideFmMeasuresExactly`).
* `.prev` is not always the last build that ran. With another build at the path, a second install loses it, and so does
  one failed rename even when the way back works, because that leaves no `.prev` at all: exactly when is
  `UpdateLaws.RunningBuildStaysExactly`. An unreadable build is set aside for itself
  (`UpdateLaws.UnreadableLosesTheBackup`, `UpdateLaws.BackupDiffersExactly`).

## Model

| member | source | states |
|---|---|---|
| Yaml.StripComment | src/yaml.rs:117-133 | the loop over quote and escape state cuts the line at the first hash sign outside quotes |
| Yaml.Unquote | src/yaml.rs:150-187 | the loop resolves exactly the two escapes, and reports a stray quote, an unknown escape and a dangling backslash |
| Yaml.WithUnique | src/yaml.rs:189-205 | a key is taken exactly when it is new, and then the map gains just that entry |
| Yaml.TakeTopLine | src/yaml.rs:62-78 | a top-level line closes the open block first, then opens a block or sets a scalar |
| Yaml.TakeNestedLine | src/yaml.rs:79-99 | a nested line needs an open block and a value, and goes into that block only |
| Yaml.TakeLine | src/yaml.rs:53-106 | blank and comment lines change nothing; indent 0 and 2 are dispatched, any other refused |
| Yaml.Parse | src/yaml.rs:45-115 | the whole loop, with the first error and its line number |
| Yaml.YamlWriter.Scalar | src/yaml.rs:243-248 | appends one bare line and keeps what was written |
| Yaml.YamlWriter.String | src/yaml.rs:250-255 | appends one quoted line |
| Yaml.YamlWriter.NestedOpen | src/yaml.rs:257-260 | appends the line that opens a block |
| Yaml.YamlWriter.NestedScalar | src/yaml.rs:262-268 | appends a bare line indented by two |
| Yaml.YamlWriter.NestedString | src/yaml.rs:270-276 | appends a quoted line indented by two |
| Yaml.YamlWriter.WriteQuoted | src/yaml.rs:278-288 | the loop escapes quotes and backslashes and nothing else |
| YamlRoundTrip.UnquotedQuoted | src/yaml.rs:150-187 | unquoting undoes quoting on every string |
| YamlRoundTrip.OpenQuoteNeverUnquotes | src/yaml.rs:150-187 | an opened quote whose text was escaped never unquotes without its closing quote, even if the text ends in one |
| YamlRoundTrip.DocumentRoundTrip | src/yaml.rs:45-187 | a document of distinct clean keys, clean bare scalars and one-line quoted texts parses back to exactly its mapping |
| YamlRoundTrip.QuotedTextIsFailSafe | src/yaml.rs:250-255 | for every string and every surrounding text the parser reads exactly that string under the key, or refuses; a newline makes it refuse |
| YamlRoundTrip.NestedTextIsFailSafe | src/yaml.rs:270-276 | the same inside a block, and the value lands in the block the line stands in |
| YamlRoundTrip.BrokenDocumentFails | src/yaml.rs:234-293 | a clean document with a newline in any quoted text is refused as a whole |
| YamlRoundTrip.EndingIsRead | src/yaml.rs:45-187 | whatever text comes before them, the clean entries a document ends in are read exactly as written, or the document is refused |
| YamlRoundTrip.BrokenEndingFails | src/yaml.rs:45-187 | whatever comes before, a newline in a quoted text of the ending refuses the document |
| YamlRoundTrip.ParsedFits | src/yaml.rs:45-115 | nothing the parser yields holds a newline |
| YamlLayout.UncommentedExactly | src/yaml.rs:117-133 | what is kept of a line is what stands before its first hash sign outside quotes, and nothing else would do |
| YamlLayout.TopLineExactly | src/yaml.rs:62-78 | exactly when a line at the left edge is taken, by its key and value alone, and what it does: closes the open block, and adds a value or opens a block under a new key |
| YamlLayout.NestedLineExactly | src/yaml.rs:79-99 | exactly when a line indented by two bytes is taken: under an open block, with a value and a key new to the block |
| YamlLayout.OtherLinesFail | src/yaml.rs:53-106 | every other line that says anything, without a colon or under any other indent, is refused |
| YamlLayout.ShapeOf | src/yaml.rs:135-148 | every line that says anything and has a colon is an indent, a key and a value with white space between, so the above covers all lines |
| YamlLayout.NextInQuotes | src/yaml.rs:150-187 | behind any escaped text: which characters and escapes may follow in quotes, what they stand for, and which are refused |
| YamlLayout.SilentLinesAreSkipped | src/yaml.rs:53-60 | a blank line or comment line under any indent, anywhere in any text, changes nothing |
| YamlLayout.CommentLinesAreBlank | src/yaml.rs:53-60 | a comment line reads exactly as a blank line in its place, errors and their lines included |
| YamlLayout.LayoutIsNoMatter | src/yaml.rs:53-106 | in any text a line may be exchanged for one with the same key and value, whatever the white space around them and the comment behind |
| YamlLayout.ErrorNamesItsLine | src/yaml.rs:45-115 | an error names the first line that cannot be read behind those before it, or the end of the text for a repeated last block |
| Numbers.UnsignedRoundTrip | src/yaml.rs:223-230 | printing and parsing an unsigned number are inverse up to the type's bound, and fail from it on |
| Numbers.FloatRoundTrip | src/yaml.rs:218-221 | printing and parsing an `f64` are inverse, infinities and NaN included |
| NumberValues.NumbersAreRead | src/yaml.rs:218-221 | every text of sign, digits, point and exponent is read as the number it says |
| NumberValues.OnlyNumbersAreRead | src/yaml.rs:218-221 | every text that is read as a finite number has that form |
| NumberValues.UnsignedExactly | src/yaml.rs:223-230 | a text is an unsigned number below the bound if and only if it is digits behind a plus sign at most, with that value |
| NodeConfig.ModeNames | src/config.rs:16-46 | a word is parsed as a mode exactly when it is that mode's name |
| ConfigFields.ModeWords | src/config.rs:16-46 | the seven words, and no other, are modes |
| ConfigFields.ModesListenTo | src/config.rs:50-62 | the edges of the band each mode listens to, in Hz from the tuned frequency |
| ConfigText.BuildYamlFromUpdate | src/server.rs:645-724 | the writer calls produce exactly the document of the update, redacted token and carried-forward fields resolved |
| ConfigText.RenderedUpdateReads | src/server.rs:645-724 | for a mode that is a clean word: reading a rendered update back gives exactly the config it means, checked by the rules, or an error when a text does not fit its line |
| ConfigText.ReadIsAcceptable | src/config.rs:156-375 | every config the reader returns keeps all rules and holds no newline |
| ConfigText.RenderedConfigReads | src/server.rs:608-643 | an accepted config rendered from its own update or its own view reads back as itself at the given version |
| ConfigText.SavingUnchangedIsNoOp | src/server.rs:346-374 | for every text that loads, putting back what GET showed changes nothing |
| ConfigText.SampleLoads | src/config.rs:439-460 | there is an accepted config with every block, and its own rendering loads as it |
| ConfigFields.LoadsExactly | src/config.rs:156-375 | a text loads as a config if and only if it parses to keys that say it, each absent key standing for its default, and the config keeps the rules |
| ConfigFields.RulesExactly | src/config.rs:377-430 | no rule is broken if and only if all limits hold, with both edges of a beacon's passband inside the spectrum |
| ConfigFields.FieldsAreTaken | src/server.rs:645-724 | for every mode string, field by field: what a taken update leaves in the config, the token unless it says redacted, and what stands in for each field left out |
| ConfigFields.NothingElseIsTaken | src/server.rs:645-724 | with a clean mode word a gain, beacon or block left out is absent, and the mode is the word |
| ConfigFields.PutStoresItsFields | src/server.rs:590-606 | a PUT that succeeds stores those fields on disk, in memory and for the worker |
| ConfigFields.ViewHidesTheToken | src/server.rs:346-375 | what GET shows does not depend on the token |
| ConfigFields.ViewShowsTheRest | src/server.rs:346-375 | and shows every other field as it is |
| BareMode.AnyModeReads | src/server.rs:645-724 | for every mode string, newlines and all: an update that is taken is taken as meant in the frequency, driver, rate, ppm, period, address and update block, and in every gain, beacon and `microwaveprop` block it has |
| BareMode.ParsesExactly | src/yaml.rs:45-187 | for every mode string, a rendered update parses if and only if its texts fit their lines and the lines up to the mode's read and bring no key written behind them; then the mapping is what they bring and what is written |
| BareMode.AnyModeReadsExactly | src/config.rs:156-375 | for every mode string, a rendered update is taken if and only if it parses and the config it makes keeps the rules, and it is that config: what it says as meant, its mode and whatever it leaves out as its mode brought them |
| BareMode.TakenAsSentExactly | src/server.rs:590-606 | an update is taken exactly as sent if and only if its mode is a mode's name, its texts fit their lines and what it means keeps the rules |
| BareMode.VersionExactly | src/server.rs:656-662 | the version after any taken update: kept with a `microwaveprop` block of its own, otherwise the one its mode brought, or none |
| BareMode.CleanBringsNothing | src/server.rs:666 | a mode that is a clean word brings itself and nothing else |
| BareMode.InjectedEntryReads | src/server.rs:666 | an entry the update does not write itself, put behind its mode, is read as if it did |
| BareMode.InjectedVersionIsTaken | src/server.rs:666 | so an update without a `microwaveprop` block can be given any token and any version |
| BareMode.TakenEverywhere | src/sync.rs:230-256 | the same request with any mode string is taken by every node or by none, and read alike but for the node's own address, token, version and update block |
| BareMode.CommentedModeReads | src/server.rs:666 | a mode with a comment behind it is read as the mode alone, in any update |
| ConfigStore.FileSystem.WriteAtomic | src/yaml.rs:297-310 | stopped at any step the path keeps its old contents; finished, it has the new ones and no sibling is left |
| ConfigStore.Store.ApplyConfig | src/server.rs:477-534 | render, read, bind, write, commit, in that order: the new disk, config, listener and worker, or no change at all |
| ConfigStore.Store.PersistConfigVersion | src/server.rs:573-588 | memory takes the version before the write; no block is an error, an equal version a success without a write |
| ConfigStore.Store.PutConfig | src/server.rs:590-606 | applies, and announces an edit exactly when it was applied |
| ConfigStore.OpenedIsConsistent | src/main.rs:49-64 | whatever text a process starts from, disk, memory, listener and worker agree exactly |
| ConfigStore.StepKeepsConsistent | src/server.rs:477-588 | one operation, however it ends, keeps disk, memory, listener and worker in agreement but for the version; one that writes leaves the disk exact |
| ConfigStore.RunKeepsConsistent | src/server.rs:477-588 | the same over every sequence of operations and failures |
| ConfigStore.CrashLeavesOldOrNew | src/yaml.rs:297-310 | wherever an operation is cut off the disk parses, to the old document or to the new active config |
| ConfigStore.PersistSavedExactly | src/server.rs:573-588 | after recording a version the disk is exact if and only if there is no block, or this call wrote, or the disk had that version before |
| ConfigStore.RepeatedPersistIsNoProof | src/server.rs:573-588 | after a failed write a repeat reports success, writes nothing and leaves the old version on disk |
| ConfigListener.ServesWhatWasBound | src/server.rs:494-518 | over every run the address served is the first one or one that an operation asked for and got bound |
| ConfigListener.ActiveAddressWasBound | src/server.rs:494-518 | and so is the address in the active config |
| ConfigListener.FailedBindChangesNothing | src/server.rs:499-512 | an update to another address that cannot be bound is refused and leaves the node as it was |
| ConfigListener.AppliedExactlyWhen | src/server.rs:477-534 | an update succeeds if and only if its text loads, its address is the same or gets bound, and the write succeeds; otherwise nothing changes, and the error says which |
| SyncConfigs.ApplyPush | src/sync.rs:608-631 | the decision, the new store and whether the reply says ok, for each of the three decisions |
| PushReplies.PersistedExactly | src/server.rs:573-588 | recording a version succeeds if and only if there is a block, and it has that version or the write succeeds; listener and worker are not touched |
| PushReplies.SameContentIsOnlyRecorded | src/sync.rs:273-286 | a newer push of equal content records the version and touches neither listener nor worker; the reply says ok if and only if there is a block and the write succeeds |
| PushReplies.OtherContentIsApplied | src/sync.rs:608-631 | any other newer push is applied whole, with a fresh worker, or changes nothing; the reply says ok if and only if it is taken and written |
| PushReplies.OldPushIsIgnored | src/sync.rs:273-286 | a push that is not newer changes nothing, whatever it says |
| PushReplies.PushedFieldsLand | src/sync.rs:230-256 | where each field of a taken push goes, for every mode string, and which fields stay the node's own |
| PushReplies.ReportsShowTheConfig | src/sync.rs:206-228 | what a node reports is what it runs, field by field |
| PushReplies.ReportsHideTheRest | src/sync.rs:206-228 | and does not depend on its token, version, address or update block |
| SyncConfigs.PushLands | src/sync.rs:206-256 | for every push and every accepted config: whether and as what a push is taken does not depend on the node, which then runs that content at the pushed version with its own token, address and update block |
| SyncConfigs.TakenExactly | src/sync.rs:206-256 | a push is taken as itself if and only if it is legal: a known mode, whole lines and no rule broken |
| SyncConfigs.PushLandsExactly | src/sync.rs:608-631 | a node takes a push and runs exactly what was pushed if and only if the push is legal |
| SyncConfigs.CommentedPushIsTakenAmiss | src/server.rs:666 | a push with a comment behind its mode is not legal and is taken as the push without it |
| SyncConfigs.SecondPushWins | src/sync.rs:230-256 | a push leaves no trace under the next one |
| SyncConfigs.OwnContentOnlyRaisesVersion | src/sync.rs:206-256 | a node's own content is a legal push and changes only the version |
| SyncConfigs.PushOwnContent | src/sync.rs:273-286 | through the three-way decision as well: own content raises the version if it is newer, and does nothing otherwise |
| SyncConfigs.PushesLand | src/sync.rs:608-631 | over any run of any pushes the node ends on the one with the highest version above its own among those it takes, whole, or untouched |
| SyncConfigs.LastWriterWins | src/sync.rs:273-286 | two deliveries of the same pushes, legal or not, in any orders and with any repetitions, end on the same config: the content of the highest version taken, exactly as pushed when it is legal |
| SyncProtocol.ReportState.MarkEdit | src/sync.rs:373-382 | an edit is pending, or dirty while a report is in flight |
| SyncProtocol.ReportState.Acked | src/sync.rs:384-394 | an ack settles the report, and a dirty edit becomes pending |
| SyncProtocol.ReportState.BeginSession | src/sync.rs:493-499 | a new session gives up the report in flight and owes what was dirty |
| SyncProtocol.LatchLocalEdit | src/sync.rs:454-459 | a changed counter is marked once and read up to date |
| SyncProtocol.HandleServerFrame | src/sync.rs:570-605 | what each frame does to the store and the flags, and when `config_applied` is sent |
| SyncProtocol.StepKeepsSession | src/sync.rs:486-568 | every event but a stray acceptance keeps the bookkeeping: a report awaited is pending, a dirty one awaited, and one report or its answer at most is in flight, the last one sent |
| SyncProtocol.PushedConfig | src/sync.rs:608-631 | whatever the push and the failures: nothing, the version alone, or the whole config it reads back as |
| SyncProtocol.EditedConfig | src/server.rs:645-724 | any local edit: the version is as it was if the edit is refused or has its own block, otherwise what its mode brings |
| SyncEdits.KeptExactly | src/sync.rs:357-395 | over every run of any events, from any start, with or without a token, against any log: what the node ran right after its last edit is all along in a version logged since, in a report on its way, or still what the node runs while the edit is unseen or pending, if and only if no step clobbers, missettles, forgets or abandons it |
| SyncEdits.StepLosesExactly | src/sync.rs:486-568 | one step of any kind ends with the edit kept if and only if it is none of the four |
| SyncEdits.NoEditIsLost | src/sync.rs:357-395 | over every run without a stray acceptance the same holds with three kinds: a push that clobbers, a wait for a token that forgets, a drop or refusal that abandons; the answers to reports never lose an edit |
| SyncEdits.MissettlingIsStray | src/sync.rs:594-598 | the acceptance of a report settles an edit only once the edit is in the log; one that settles it too early is that of an adopted `hello` |
| SyncEdits.StartedIsTracked | src/sync.rs:401-411 | every process starts such runs |
| SyncEdits.StepTracks | src/sync.rs:486-568 | any step but a stray acceptance keeps the edit if and only if it is none of those three, and then keeps it tracked: a current report carries it, and its answer names a version that holds it |
| SyncEdits.ClobberingLosesExactly | src/sync.rs:608-631 | a push to be applied keeps the edit if and only if the edit is logged or on its way in a report, or the push cannot be written, is refused or is taken as the edit itself |
| SyncEdits.AcceptanceLosesExactly | src/sync.rs:594-598 | any acceptance, stray or not, keeps the edit if and only if it is logged, on its way, unseen or dirty |
| SyncEdits.ConsumingLosesExactly | src/sync.rs:440-447 | the wait for a token keeps the edit it consumes if and only if it is logged or one is pending |
| SyncEdits.DroppingLosesExactly | src/sync.rs:493-499 | a drop keeps the edit if and only if it is logged, or owed and still what the node runs |
| SyncEdits.RefusingLosesExactly | src/sync.rs:599-602 | a refusal keeps the edit if and only if it is logged, or owed and still what the node runs, or what is refused is another frame, or a later report carries it |
| SyncEdits.OvertakenReportHangsOnItsSession | src/sync.rs:518-525 | on every reconnect whose report is overtaken by the push that answers `hello` the edit is kept and gets logged when the report is accepted; after a drop or a refusal it is kept if and only if the push was refused or taken as the edit itself |
| SyncEdits.PollingGetsItThrough | src/sync.rs:454-459 | between sessions a latch and one answered polling report log an edit the node runs and owes, noticed before or not, and then nothing is owed unless an older session left a report unanswered |
| SyncEdits.ASessionGetsItThrough | src/sync.rs:518-561 | in a session that is up to date, noticing the edit and reporting it log it once it is accepted |
| SyncEdits.TokenEndsTheWait | src/sync.rs:440-447 | a check of the token ends the wait if and only if there is one |
| SyncEdits.FailedPollLosesTheEdit | src/sync.rs:680-699 | after a failed and a successful polling round nothing is outstanding, and the edit is kept if and only if the pulled version was refused or says the same |
| SyncEdits.AdoptionLosesAnEdit | src/sync.rs:594-598 | an edit during the adoption of `hello`, with a drop before its report is read, is kept if and only if it changed nothing that is synced |
| SyncEdits.WaitingForATokenLosesTheEdit | src/sync.rs:440-447 | an edit made during the wait for a token ends neither owed nor logged |
| SyncAgreement.QuietMeansAgreement | src/sync.rs:570-631 | over every run without a race (a push that replaces the content while a current report awaits its answer), an illegal push that is taken, a stray acceptance or a consumed edit, with any local edits and from first contact on, a node with no edit outstanding runs what the server logged under its version |
| SyncAgreement.StartedIsGood | src/sync.rs:401-411 | any process starts such a run, against any log that agrees with it |
| SyncAgreement.StepSettles | src/sync.rs:486-568 | every event but those four kinds keeps agreement, the snapshot of a current report, and what a first `hello` said |
| SyncAgreement.PollCycleAgrees | src/sync.rs:680-699 | with a token, and with a legal newest version when nothing is pending: a fully successful polling round, every write done, ends at the newest version if and only if an edit went up or the node was not ahead, and in agreement if and only if an edit went up, or the server was ahead, or they agreed before |
| SyncAgreement.AppliedPushAgreesExactly | src/sync.rs:608-631 | a push that is applied leaves the node with the content logged under its version if and only if it is legal |
| SyncAgreement.AnnouncedVersionArrives | src/sync.rs:583-590 | a version announced to a node with a token that has read its frames and is not ahead of the log, every write done, is run as it is if and only if it is legal |
| SyncAgreement.ReconnectRace | src/sync.rs:518-525 | on every reconnect with a report owed and a newer version waiting, the node ends quiet at the newest version, in agreement if and only if the push is refused or carries its own content |
| SyncVersions.VersionsComeFromTheWebsite | src/sync.rs:584-597 | over every run from any state, tokens and log or none, the version is the first one, none, or one the server sent, if each applied local edit has its own block or a mode that brings no other version |
| SyncVersions.EditKeepsProvenanceExactly | src/server.rs:656-662 | that condition is exact: an applied local edit keeps provenance if and only if it meets it |
| SyncVersions.EditVersionExactly | src/server.rs:656-662 | an applied local edit leaves the version as it was or none if and only if it has its own block, or its mode brings no block, or one without a version or with the present one |
| SyncVersions.AnInjectedEditSetsTheVersion | src/server.rs:666 | every version and every token can be brought along by a local edit without a block |
| SyncVersions.StepRaisesVersion | src/sync.rs:584-597 | no event lowers the version, if a local edit has its own block or brings the present version; then no local edit moves it |
| SyncVersions.VersionsOnlyRise | src/sync.rs:584-597 | over every run of such events, against a log that reaches the node's version, the version only rises |
| SyncVersions.DroppingTheBlockDropsTheVersion | src/server.rs:656-662 | a local edit without a block, whose mode brings none, takes the version away |
| Calendar.YearOfEraIs | src/timefmt.rs:37 | the nested quotients find the year of a 400-year era from any day of it |
| Calendar.OneDayOn | src/timefmt.rs:31-45 | the next day count gives the next date |
| Calendar.DaysToYmdCounts | src/timefmt.rs:31-45 | for every day count the divisions give the date reached by counting days under the Gregorian rules |
| Calendar.DaysAndDates | src/timefmt.rs:31-45 | inverse, both ways, to the number of days before a date |
| Calendar.DatesInOrder | src/timefmt.rs:31-45 | the order of day counts is the order of dates |
| Calendar.TimestampReads | src/timefmt.rs:15-26 | up to the year 10000 a timestamp has 20 characters and, read by the grammar of RFC 3339 section 5.6, names its second; earlier than 1970 names the epoch |
| Calendar.TimestampsSort | src/timefmt.rs:15-26 | timestamps sort as text exactly as the times they name |
| Measure.SpectrumAnalyzer.StartWindow | src/measure.rs:88-107 | empties the accumulators and fixes the bins, with `isize` saturation and wrap-around |
| Measure.SpectrumAnalyzer.AddFrame | src/measure.rs:114-144 | the accumulators equal the batch sums, peak and powers of the frames so far |
| Measure.SpectrumAnalyzer.OutOfBand | src/measure.rs:164-180 | the averaged powers of exactly the bins outside the guarded passband |
| Measure.GatePowers | src/measure.rs:196-208 | count, peak and sum of the powers above the threshold |
| Measure.SpectrumAnalyzer.Finalize | src/measure.rs:149-235 | returns the batch measurement of the window's frames, nothing for a closed window, and closes it |
| Measure.SpectrumAnalyzer.Analyze | src/measure.rs:240-251 | a stream of frames measures what the batch definition says of all of them |
| MeasureLaws.PeakIsGreatest | src/measure.rs:137-139 | the running peak is the greatest power and one of them |
| MeasureLaws.MeasurementIsGated | src/measure.rs:185-222 | with a frame above twice the noise: twice the noise < average <= peak, the peak is the greatest of all frames, the average at least the ungated one; without, the peak stays below; the active fraction lies in 0..1 |
| MeasureLaws.SilenceOnlyThins | src/measure.rs:185-222 | in a window with an active frame, silence inserted anywhere changes only the active fraction, by the count |
| MeasureLaws.MedianSplits | src/measure.rs:181-182 | the noise figure is one of the bins, with at most half of them below and fewer than half above |
| MeasureLaws.NoiseIgnoresTheSignal | src/measure.rs:164-183 | no change inside the passband and its guard moves the noise floor |
| MeasureLaws.FrameOrderIsIrrelevant | src/measure.rs:114-234 | every rearrangement of the frames measures the same |
| MeasureScale.FlatSpectrumIsNoise | src/measure.rs:149-235 | a flat spectrum of any level measures no signal in any passband inside the spectrum: noise, peak and average are the level times the number of bins measured over the window's energy, and both ratios 1 |
| MeasureScale.SilenceMeasuresTheFloor | src/measure.rs:183-217 | without any power in the spectrum the levels are 10^-30 |
| MeasureScale.NoiseIsMedianOutside | src/measure.rs:149-183 | for a passband inside the spectrum, the noise is the number of bins measured times a median of the average powers of exactly the bins outside the guarded passband |
| MeasureScale.NoiseNeedsOutsideBins | src/measure.rs:177-180 | there is noise to measure if and only if some bin is outside |
| MeasureScale.ToneIsMeasuredExactly | src/measure.rs:114-136 | a tone in one bin is measured, whole, if and only if the bin is in the passband |
| MeasureScale.PowersAdd | src/measure.rs:114-136 | the power of a sum of spectra is the sum of their powers |
| MeasureScale.AmplifyingScales | src/measure.rs:149-235 | amplifying the input multiplies noise, peak and average alike above the floor, and moves neither ratio nor the active fraction |
| MeasureScale.LevelIsOfActiveFrames | src/measure.rs:185-222 | peak and average are those of the frames above twice the noise, or of all when there are none; ratio times noise is the level, and the active fraction their share |
| Passband.AcceptedFits | src/config.rs:377-418 | the passband of every accepted config lies inside the sampled spectrum |
| Passband.BandIsCut | src/measure.rs:88-96 | for such a passband no cast saturates or wraps, and 0 <= lo <= hi <= FFT_SIZE - 1 |
| Passband.SpectrumIsShifted | src/measure.rs:127-128 | the shift is its own inverse and puts every bin at its frequency, lowest first |
| Passband.BandCoversPassband | src/measure.rs:88-96 | every bin a bin inside the passband's edges is measured and none further than one and a half bins outside |
| Passband.AcceptedMeasuresExactly | src/measure.rs:149-183 | a window over an accepted config measures if and only if it has a frame, two bins and some noise outside the guard |
| Passband.WideFmMeasuresExactly | src/config.rs:50-62 | wide FM measures if and only if the rate exceeds 150000 * 16384 / 8191, so never at 250000 |
| Passband.OtherModesMeasure | src/config.rs:50-62 | every USB, LSB, AM, NFM and CW config measures as soon as there is a frame, at every accepted rate |
| Passband.MeasuresInBins | src/measure.rs:88-183 | for any passband in the spectrum, exactly which rounded offsets and half-widths measure |
| Passband.BeaconMeasures | src/measure.rs:88-183 | a beacon measures when its width less its offset stays four bins below half the rate, a bin from the upper edge, and never from two bins above half the rate on |
| Worker.ComputeWaterfallBins | src/worker.rs:53-76 | the row of the ring read from its oldest sample, negative frequencies first |
| Worker.RowRunsUpwards | src/worker.rs:69-76 | every bin of the transform stands in the row at the place of its frequency, from -512 up |
| Worker.Waterfall.Store | src/worker.rs:250-254 | the ring holds all samples, then the last 1024 |
| Worker.Waterfall.FullRing | src/worker.rs:60-67 | once filled, the ring read from `wf_pos` is exactly the last 1024 samples in order |
| Worker.Waterfall.Push | src/worker.rs:250-270 | a row is sent when the ring has filled and then once every tenth of a second, over exactly the last 1024 samples |
| Worker.Waterfall.RowsComeOnTime | src/worker.rs:250-270 | when the i-th row was sent, and the 1024 samples it shows |
| Worker.Waterfall.NoRowIsLate | src/worker.rs:250-270 | before the next row is due there have been too few samples for it |
| Worker.FramingKeeps | src/worker.rs:273-279 | the frames and the rest behind them are the samples, in order, nothing lost or repeated |
| Worker.DrainFrames | src/worker.rs:275-279 | complete frames go to the analyzer in order until less than a frame is buffered |
| Worker.CaptureWindow | src/worker.rs:212-286 | whatever the sizes of the reads, a window measures the full frames of exactly the samples read, and the buffer is shorter than a frame at each read |
| Update.Updater.Swap | src/update.rs:766-795 | the path, its backup and the staging file after each outcome of the three renames |
| Update.Updater.Receive | src/update.rs:565-586 | what is hashed is what is in the staging file, and a failed write leaves the chunks before it and a torn one |
| Update.Updater.DownloadAndVerify | src/update.rs:544-629 | the swap is reached only by a complete download with the digest and a passed preflight |
| Update.Updater.Activate | src/update.rs:832-866 | a restart runs what is at the path and starts over; a refused one is recorded |
| Update.Updater.RunInstall | src/update.rs:435-537 | each refusal, the shortcut for a build already installed, and the clean-up |
| Update.Updater.RunCheck | src/update.rs:382-431 | what each answer of the channel leaves in the state |
| Update.Updater.Pass | src/update.rs:306-354 | one turn of the loop: the pause, the retry and whether anything is installed |
| UpdateLaws.InstallIsSafe | src/update.rs:435-629 | bytes reach the path only with the manifest's digest and a passed preflight; otherwise the path keeps its bytes, or `.prev` has them when the way back failed too |
| UpdateTrust.DigestsExactly | src/update.rs:598-606 | digests are the same if and only if they are so letter by letter, in either case |
| UpdateTrust.PreflightedExactly | src/update.rs:645-689 | exactly which answers of the two probes pass a build |
| UpdateTrust.InstalledBytesAreVerified | src/update.rs:544-629 | new bytes at the path have the manifest's digest letter by letter and have answered a probe |
| UpdateOutcomes.InstallsExactly | src/update.rs:306-354 | a turn installs if and only if it reaches the channel, and Install was clicked or a release build that updates itself is offered another commit |
| UpdateOutcomes.OtherTurnsRecord | src/update.rs:306-431 | what every other turn leaves: only the wait when disabled, the finding of an answered check, or the retry of a failed one; never the files |
| UpdateOutcomes.InstallingTurns | src/update.rs:306-354 | a turn that installs records its check first and does nothing else besides |
| UpdateOutcomes.NothingToInstall | src/update.rs:435-465 | without a manifest, a way to update, an asset for this node or a directory, an install only reports an error |
| UpdateOutcomes.JoinedInOrder | src/update.rs:565-586 | what lands is the chunks in the order they came |
| UpdateOutcomes.FailedDownloadsAreCleaned | src/update.rs:483-537 | a download that is cut, cannot be written or is not trusted leaves path, backup and running build alone, is reported, and its staging file removed |
| UpdateOutcomes.WholeDownloadsAreSwappedIn | src/update.rs:766-866 | a whole and trusted download, for every outcome of the renames, the way back, the clean-up and the restart |
| UpdateOutcomes.InstalledBuildIsStarted | src/update.rs:473-481 | a build that is at the path already is only started |
| UpdateOutcomes.InstalledIsRecognised | src/update.rs:797-830 | it is recognised if and only if it can be read and has the manifest's digest |
| UpdateLaws.OnlyPreflightedBuildsRun | src/update.rs:435-537 | over every run no build runs or lies at the install path but the first one and those that passed their preflight |
| UpdateLaws.BackupDiffersExactly | src/update.rs:473-502 | after a swap over a binary `.prev` is that binary, and differs from the installed one if and only if it was readable or the two differ |
| UpdateLaws.UnreadableLosesTheBackup | src/update.rs:822-824 | without readability an installed build is set aside for itself |
| UpdateLaws.RunningBuildStaysExactly | src/update.rs:766-795 | an install leaves the running build at the path or at `.prev`, where it was, if and only if it is at the path, or nothing is set aside, or the swap's rename works and the new build runs or is the same |
| UpdateLaws.SparedBuildStays | src/update.rs:306-354 | over every run whose installs all meet that condition, whatever is published, the running build is on disk |
| UpdateLaws.RunningBuildSurvives | src/update.rs:435-537 | over every run with one published build and readable files, the running build is at the path or at `.prev` |
| UpdateLaws.TwoPublicationsLoseTheRunningBuild | src/update.rs:473-481 | two builds published between failed restarts push the running one off the disk exactly when the second is new to the path |
| UpdateLaws.InstallActivates | src/update.rs:435-537 | an install that goes through runs the published build and keeps the one before |
| UpdateLaws.UpToDateNodesStay | src/update.rs:418-431 | a node running the published commit installs nothing more, not even on a click |
| UpdateLaws.UnattendedNodesStay | src/update.rs:243-247 | without a click a development build, or a node told not to, is never replaced |
| UpdateLaws.RunEndsIdle | src/update.rs:933-954 | every check and install, however it ends, ends idle |
| UpdateLaws.FailedChecksBackOff | src/update.rs:368-379 | the n-th failed check in a row is followed by 30 * 2^(n-1) seconds, capped at the interval, and changes nothing installed |
| Uploader.Task.EnqueueMeasurement | src/uploader.rs:265-310 | only measurements of a fully configured uploader enter; at capacity the oldest leaves first |
| Uploader.Task.BackoffAndDrain | src/uploader.rs:322-342 | measurements keep entering during a pause, until it ends or the stream closes |
| Uploader.Task.Pass | src/uploader.rs:184-258 | one turn of the loop, for each class of answer |
| Uploader.RunTask | src/uploader.rs:167-260 | the loop ends exactly when the stream closes |
| Uploader.RunIsLawful | src/uploader.rs:167-342 | over every run only the head is posted, it leaves exactly when its post is settled or its place is needed at 1440, and the n-th transient failure in a row is followed by min(2^(n-1), 300) seconds |
| Uploader.Conservation | src/uploader.rs:265-310 | what entered is what left, in order, followed by the queue |
| Uploader.FatesMatchAnswers | src/uploader.rs:58-68 | exactly the posts answered 2xx are delivered and exactly those answered with another 4xx than 429 given up, in order |
| Uploader.EveryRunConserves | src/uploader.rs:167-342 | both over every run from the start, and every removed measurement has one fate |
| UploaderIntake.EveryMeasurementIsTakenIn | src/uploader.rs:262-342 | over every run the measurements queued are exactly those read while fully configured, in order, during pauses too, each with its levels and the config of its moment; what was read is told from the turns |
| UploaderIntake.FatesAreStatuses | src/uploader.rs:58-68 | over every run, delivered are the posts answered 2xx and given up those answered 4xx but for 429, in order |

## Left out

- Numbers.FloatRoundTrip: no rounding, range or sign of zero of `f64`, because a number is the exact decimal it prints
  as. Integers have their widths; `usize` is 64 bits.
- Measurement arithmetic is over reals; decibels are stated as ratios of powers. The transforms are parameters: a frame
  is its bin powers.
- ConfigText.RenderedUpdateReads: updates whose mode is not a clean word; `BareMode.AnyModeReadsExactly` covers them.
- ConfigStore.FileSystem.WriteAtomic: a rename that is itself torn by the file system, because rename is atomic there.
- SyncProtocol.HandleServerFrame: an edit between the read of the current config and the write of an applied push,
  because `apply_push` is one step here; so is a polling POST with its snapshot and the record of its version.
- ConfigStore.Store.PutConfig: the gap between the swap of the config and the count of the edit, because a PUT is one
  step here; an acceptance or a push handled in between is not modelled.
- SyncEdits.NoEditIsLost: an edit before the last one, which the last one was made on top of, and edits still owed when
  the process restarts, because the flags live in memory.
- SyncAgreement.PollCycleAgrees: a local edit inside the round. `run`'s own back-off and the minute between rounds are
  not modelled; events come in any order that the code's own conditions allow.
- The `status`, `ping` and `error` frames, which change nothing, and the shape of frames on the wire.
- The restart of the capture worker, beyond the config it is given; broadcasts to open user interfaces.
- Worker.CaptureWindow: a window's clock and the stop flag, which only end it, and the raw level shown live.
- Update.Updater.Receive: the transport; a stream that is cut is a fate. Digests, probes and the commit of a build are
  functions of its bytes. Probe time-outs are one of a probe's outcomes, and staging files of other processes are not
  modelled.
- Update.Updater.Activate: the service manager's restart after a refused `execve`. Whether a build is a release build
  stays as it was across an activation, because it is part of `Env`.
- Update.Updater.RunCheck: the comment that `last_check_at` is set on failed checks; the code sets it on successful
  ones only, and so does the model.
- Uploader.Task.EnqueueMeasurement: the tuned frequency and the version string of the payload, and the queue length
  shown in the status, which is only written when a post ends.
- Measurements dropped by the broadcast channel before the uploader reads them.
- Routing, WebSockets, device access, the store of recent measurements, the diagnostics tool and the installer.
