# Stardew Mod Manager: a verified model

A model in Dafny of the parts of the mod manager whose correctness is not plain
from reading one function, with proofs about every input, run or reachable
state.

- **Guided bisection** (`Keys`, `Requirements`, `Collapse`, `Surviving`,
  `Troubleshoot`, `TroubleshootSession`, `SearchInvariant`, `SearchHistory`,
  `SearchBounds`, `SearchVerdict`, `ProfileSearch`). `Troubleshoot` says what each step of a
  session does to its state. The invariants of the search, its bounds and the
  meaning of its verdicts are proved over every run. The class `Session` works
  field by field, remembers the calls made to it, and is proved to be in the
  state they lead to, so all of that holds of the object after every call.
- **Settings redaction** (the modules named `Settings...`). A settings file is
  read into a value that remembers each character, so reading is the inverse of
  printing. The edits that take fields out are proved to be the edits between
  two printed values. `SettingsScan` and `SettingsWalker` are the program's own
  cursor, walk and splicing loops. `SettingsGrammar` and `SettingsSecrets` say in
  the file's own terms what is read, and what is taken out and named.
- **Folder moves and save restores** (`Disks`, `Moves`, `Saves`). Folders are
  maps from paths to contents. Every primitive may fail and those on many files
  may stop after any of them; the disk keeps every state it has been in, and the
  guarantees are about all of those states, so about a crash at any moment.
- **Threads** (`Jobs`, `InstanceLock`, `Geometry`, with `Runs`). Each is a state
  machine over the atomic steps of its threads, with theorems about every run;
  its class `World` carries out the program's own functions as such steps, with
  any steps of the other threads in between.
- **Windows quoting** (`Quoting`), against the argument rules of the Microsoft C
  runtime.

Check everything with `dafny verify dfyconfig.toml`.

Conventions. Unit keys are distinct, as deployment ids are; where merged keys
are split again, keys hold no `+`. Normalising a UniqueID is an arbitrary
function carried by the graph. That the problem happens with every mod on, which
starts a session, is a precondition of the theorems about verdicts. The
settings reader works on characters. Its string and number decoder is arbitrary
but for two facts: the token of an empty text decodes to it, and nothing is no
number. Lower-casing, key bindings and private texts are arbitrary; where it
matters, the empty text is not private. Save checksums are taken to tell
contents apart.

Where the code does not do what its comments say, or what its callers may
expect, the code is modelled:

- Merging a requirement loop drops a requirement that some member meets even
  when a mod outside the loop meets it too, so that mod may not be pulled in:
  `Surviving.TwoProvidersLoseOne` is an input, `Surviving.SameClosuresIff` and
  `ProfileSearch.EnabledOriginalsCanRunIff` say exactly when it does no harm.
- The answer that another process holds the instance lock can be about this
  process (`InstanceLock.ProbeSeesOwnLock`), can miss another process's lock
  (`InstanceLock.UnopenedProbeMisses`) and can be about nobody's
  (`InstanceLock.RefusedProbeMisleads`): `InstanceLock.RightIff` says exactly
  when it is true.
- A move aside that was stopped with files left on both sides is not finished by
  running it again: `Moves.StopLeavesBoth` and `Moves.Quarantine`. Putting the
  folder back is what recovers every file: `Moves.RestoreQuarantined`.
- A save backup holds the files its listing could read, which is the whole save
  exactly when none was passed over, and a restore drops the others:
  `Saves.UnreadFileIsLost`, with the condition in `Saves.CopyToBackup` and
  `Saves.Restore`.
- A live save or a backup without files can be neither backed up nor restored,
  although nothing fails, and restoring such a backup removes the live save:
  `Saves.EmptySaveStays` and `Saves.EmptyBackupRemovesSave`, with the conditions
  in `Saves.CopyToBackup` and `Saves.Restore`.
- The estimate of tests left is right up to two to the thirty-second candidates:
  `SearchBounds.NarrowEstimateIsLog`, with arithmetic that wraps around as a
  release build's does.
- The last window geometry is stored only if its save does not fail; a failed
  save is not tried again: `Geometry.FailedSaveIsLost` and
  `Geometry.NewestIsSavedLast`.
- A program name is read back only if it is a safe one:
  `Quoting.UnsafeNamesAreLost` and `Quoting.ProgramRoundTrip`.

## Model

| member | source | states |
|---|---|---|
| Requirements.ClosureIsLeastClosed | crates/manager-core/src/troubleshoot.rs:102-126 | a set is the closure of a seed exactly when it is the least set that holds the seed and is closed under requirements, on every graph, cyclic or not |
| Requirements.ComputeClosure | crates/manager-core/src/troubleshoot.rs:104-126 | the loop that adds every provider of a required id until nothing is new ends, with the closure |
| Requirements.CollectRequiredIds | crates/manager-core/src/troubleshoot.rs:107-111 | one pass collects exactly the normalised ids the units so far require |
| Requirements.AddProviders | crates/manager-core/src/troubleshoot.rs:113-121 | one pass adds exactly the units that provide one of those ids |
| Requirements.ClosureUnion | crates/manager-core/src/troubleshoot.rs:104-126 | what two seeds need together is what each needs, so a pair's closure can be split |
| Requirements.DependencyIsSmaller | crates/manager-core/src/troubleshoot.rs:331-334 | on a graph without loops a unit's requirements have a strictly smaller closure than it has |
| Requirements.ByClosureSizeFacts | crates/manager-core/src/troubleshoot.rs:184-196 | ordering by closure size keeps every key once and sorts the closures |
| Requirements.FrontNeedsNothingBehind | crates/manager-core/src/troubleshoot.rs:331-340 | the closure of a front part of that order reaches no key behind it, so any front part can be tested without dragging in a suspect from the back |
| Collapse.ComputeCollapse | crates/manager-core/src/troubleshoot.rs:132-182 | the loop over units that places each loop once and joins its keys builds the collapsed graph |
| Collapse.FindLoop | crates/manager-core/src/troubleshoot.rs:143-151 | the members gathered for a unit are those it reaches and that reach it |
| Collapse.GroupMembersRecover | crates/manager-core/src/troubleshoot.rs:89-96 | splitting a merged key gives back exactly the keys of its loop, in order, when no key holds the separator |
| Collapse.MergedProvides | crates/manager-core/src/troubleshoot.rs:170-173 | a merged unit provides exactly the ids its members provide |
| Collapse.MergedKeeps | crates/manager-core/src/troubleshoot.rs:174-178 | a requirement of a member is kept unless some member of the loop provides that id |
| Collapse.CollapseIsPartition | crates/manager-core/src/troubleshoot.rs:132-182 | the collapsed units stand for exactly the classes of mutual reachability, one each, with distinct keys |
| Collapse.EachKeyOnce | crates/manager-core/src/troubleshoot.rs:132-182 | every original key is in the key of exactly one collapsed unit, and nothing else is |
| Collapse.CollapseIsAcyclic | crates/manager-core/src/troubleshoot.rs:128-131 | no requirement loop between different units is left, so the sessions' bounds apply to any profile |
| Collapse.CollapsedClosureIsWithin | crates/manager-core/src/troubleshoot.rs:132-182 | on every graph, what a collapsed seed needs expands to no more than the originals need |
| Surviving.MergedNeedsExactly | crates/manager-core/src/troubleshoot.rs:174-178 | a merged unit requires exactly the requirements of its members that no member of the loop provides |
| Surviving.CollapsedReachIs | crates/manager-core/src/troubleshoot.rs:132-182 | a merged unit reaches exactly the mods its members reach through loops and the requirements that survive the filter, a reachability defined on the input alone |
| Surviving.SameClosuresIff | crates/manager-core/src/troubleshoot.rs:160-178 | merging changes no closure if and only if every mod outside a loop that provides a requirement the filter drops is still reached from the loop that way |
| Surviving.OneProviderKeepsClosures | crates/manager-core/src/troubleshoot.rs:160-178 | for that it is enough that no dropped requirement is provided outside its loop, and for that, that no normalised id has two providers |
| Surviving.TwoProvidersLoseOne | crates/manager-core/src/troubleshoot.rs:160-178 | with three mods of which two need each other and the third shares an id with one of them, the third is lost |
| Surviving.OtherWayKeeps | crates/manager-core/src/troubleshoot.rs:160-178 | with the same three mods and one more requirement for the third, a dropped requirement has a provider outside and nothing is lost: the sufficient condition is not necessary |
| TroubleshootSession.HistoryIsSound | crates/manager-core/src/troubleshoot.rs:205-521 | after any answers and narrowings, on any graph: the units on can run and whatever is named is one of the units; after a find, of one or of a pair, everything that can run without the mod named first is on and that mod is off; an inconclusive end leaves on exactly what the history cleared, nothing if the problem was there with everything off, and lists exactly the partners the history leaves; for every monotone problem the answers were true of, what is named is pivotal, and an inconclusive end leaves the problem absent unless it was there with everything off; and answers alone take at most one more than the units, or two and the logarithm on a graph without loops |
| TroubleshootSession.AnswersKeepWithin | crates/manager-core/src/troubleshoot.rs:357-454 | whatever was answered so far, the steps made and the measure left together stay within the bound |
| TroubleshootSession.Session.Answer | crates/manager-core/src/troubleshoot.rs:357-454 | the session object stays in the state its history of calls leads to and keeps those promises; an answer to a session that is over changes nothing, and any other counts one step and lowers the measure of what is left, the logarithmic one too when there are no loops |
| TroubleshootSession.Session.Narrow | crates/manager-core/src/troubleshoot.rs:236-243 | the same for looking for a partner, which counts no step, changes nothing unless it is offered, and otherwise leaves a measure no larger than the candidates and the estimate |
| TroubleshootSession.Session.AskUntilOver | crates/manager-core/src/troubleshoot.rs:537-551 | a session object answered truthfully until it is over gets there, by answers alone |
| TroubleshootSession.Session.Find | crates/manager-core/src/troubleshoot.rs:745-757 | a whole search on a session object and the narrowing after it: what it names is pivotal; without loops a sole cause, whichever it is, is named within the bound and stays so, and two mods that cause the problem only together are first not blamed on one and then both named within the estimate |
| TroubleshootSession.Session.InvolvedClosure | crates/manager-core/src/troubleshoot.rs:245-250 | what the involved mod needs, or nothing when there is none |
| TroubleshootSession.Session.PushMissing | crates/manager-core/src/troubleshoot.rs:422-428 | the loop that adds mods pulled in by the test adds each missing key once |
| TroubleshootSession.Session.Without | crates/manager-core/src/troubleshoot.rs:479-489 | the units that can run without a set of mods |
| SearchInvariant.RunInv | crates/manager-core/src/troubleshoot.rs:205-521 | after any answers and narrowings, on every graph: what is cleared is closed, suspects and cleared mods are disjoint and together closed and equal to the last failing test, and the enabled set can run |
| SearchInvariant.TestSplits | crates/manager-core/src/troubleshoot.rs:339-352 | every test holds all cleared mods, no stranger, and some but not all suspects |
| SearchInvariant.RecordPresent | crates/manager-core/src/troubleshoot.rs:418-429 | after yes, fewer suspects are left and at least one, and the loop over mods pulled in by the test adds none: the suspects and cleared mods are exactly the test |
| SearchInvariant.RecordAbsent | crates/manager-core/src/troubleshoot.rs:430-439 | after no, exactly the test is cleared, the suspects left are fewer and at least one, and nothing is forgotten |
| SearchInvariant.PartnerSplit | crates/manager-core/src/troubleshoot.rs:360-369 | in the partner search either answer leaves fewer candidates and at least one |
| SearchInvariant.RunsWithoutIsGreatest | crates/manager-core/src/troubleshoot.rs:480-490 | what is switched on beside a named mod is the largest runnable set without it |
| SearchInvariant.CombinationInv | crates/manager-core/src/troubleshoot.rs:501-519 | the candidates for a partner are exactly the cleared mods the involved one does not need |
| SearchHistory.GoodIsCleared | crates/manager-core/src/troubleshoot.rs:415-439 | what a session counts as cleared is, after any history, exactly what was on in its main tests without the problem |
| SearchHistory.HistoryLeaves | crates/manager-core/src/troubleshoot.rs:254-320 | after any history the note says why the session ended and only then, and the partners listed or sought are exactly those the history leaves: all cleared mods the involved one does not need, then those on in every test with the problem and off in every one without since narrowing began |
| SearchBounds.MainSearchEnds | crates/manager-core/src/troubleshoot.rs:389-454 | on every graph, cyclic ones included, the main search ends within one answer more than there are units, whatever the answers |
| SearchBounds.NarrowEnds | crates/manager-core/src/troubleshoot.rs:236-287 | each partner search ends within as many answers as it has candidates, on every graph |
| SearchBounds.AnswerSpendsBudget | crates/manager-core/src/troubleshoot.rs:357-454 | each answer of a search that is not over counts one step and lowers a measure |
| SearchBounds.TestIsFrontHalf | crates/manager-core/src/troubleshoot.rs:331-352 | on a graph without loops each test is exactly the front half of the suspects and what is cleared |
| SearchBounds.RecordHalves | crates/manager-core/src/troubleshoot.rs:415-439 | so an answer leaves exactly half of the suspects, rounded up for yes and down for no |
| SearchBounds.PartnerTestIsFrontHalf | crates/manager-core/src/troubleshoot.rs:275-283 | a partner test holds exactly the front half of the candidates |
| SearchBounds.MainSearchIsLogarithmic | crates/manager-core/src/troubleshoot.rs:389-454 | on a graph without loops the main search of n units ends within 2 plus the logarithm of n, rounded up, answers, for every sequence of answers |
| SearchBounds.NarrowKeepsToEstimate | crates/manager-core/src/troubleshoot.rs:227-287 | a partner search takes at most the logarithm of its candidates, rounded up, and one more |
| SearchBounds.NarrowEstimateIsLog | crates/manager-core/src/troubleshoot.rs:227-232 | the bit-length formula is that number exactly up to two to the thirty-second candidates; beyond, the cast makes it too small |
| SearchBounds.DeadBranches | crates/manager-core/src/troubleshoot.rs:341-449 | no run on any graph reaches the branch for no suspect left, and none on a graph without loops the branch for mods that cannot be tested apart |
| SearchVerdict.RunVerdict | crates/manager-core/src/troubleshoot.rs:357-521 | with truthful answers about any monotone problem: it is absent from what is cleared and present in the last failing test, in every reachable state |
| SearchVerdict.NamedCulpritIsPivotal | crates/manager-core/src/troubleshoot.rs:456-496 | a mod that is named shows the problem with only what it needs on, and the same set without it does not |
| SearchVerdict.FoundLeavesTheRestOn | crates/manager-core/src/troubleshoot.rs:475-490 | after naming, every runnable set without the named mod is on and the named mod is off |
| SearchVerdict.NamedPairIsPivotal | crates/manager-core/src/troubleshoot.rs:289-308 | a named pair shows the problem together and neither does with only what it needs, whether or not the pair had its own test |
| SearchVerdict.SingleCauseIsFound | crates/manager-core/src/troubleshoot.rs:389-496 | on a graph without loops, if exactly one mod causes the problem every run names it within the logarithmic bound |
| SearchVerdict.PairIsNotBlamedOnOne | crates/manager-core/src/troubleshoot.rs:456-496 | if two mods cause it only together, no run with truthful answers names one alone, on any graph |
| SearchVerdict.PairIsReportedAsPair | crates/manager-core/src/troubleshoot.rs:501-521 | then the main search ends with one of the two involved and the other among the candidates |
| SearchVerdict.PairIsFound | crates/manager-core/src/troubleshoot.rs:223-308 | and narrowing names exactly the two, within the bound of the estimate |
| ProfileSearch.AnyProfileIsLogarithmic | crates/manager-core/src/troubleshoot.rs:15-20 | after collapsing loops the logarithmic bound holds for every profile |
| ProfileSearch.EnabledOriginalsCanRun | crates/manager-core/src/troubleshoot.rs:15-20 | what a session on collapsed units enables can run as original mods, if merging changes no closure |
| ProfileSearch.EnabledOriginalsCanRunIff | crates/manager-core/src/troubleshoot.rs:15-20 | everything every session on collapsed units can enable can run as original mods if and only if every outside provider of a dropped requirement is still reached without it |
| ProfileSearch.AnyCauseIsFound | crates/manager-core/src/troubleshoot.rs:15-20 | whichever mod causes the problem, the session names the unit whose members include it |
| ProfileSearch.OriginalsAreNeeded | crates/manager-core/src/troubleshoot.rs:15-20 | the original mods switched on for a set of collapsed units are exactly what those mods need, if merging changes no closure |
| ProfileSearch.NamedOriginalsArePivotal | crates/manager-core/src/troubleshoot.rs:15-20 | whenever a session on collapsed units names one, on any profile, the original mods on with it show the problem and do not without the members of the named unit |
| ProfileSearch.NamedOriginalPairIsPivotal | crates/manager-core/src/troubleshoot.rs:15-20 | the same for a pair: the original mods of both show the problem, those of either alone do not |
| ProfileSearch.AnyPairIsFound | crates/manager-core/src/troubleshoot.rs:15-20 | on any profile two mods that cause the problem only together end up named, as members of the two units of the pair, within the bounds |
| SettingsSyntax.SpaceAppend | crates/manager-core/src/settings_privacy.rs:111-128 | a gap of spaces and closed comments before anything else is read whole and no further |
| SettingsSyntax.SpaceTake | crates/manager-core/src/settings_privacy.rs:111-128 | what is taken as a gap, when text follows, is spaces and closed comments |
| SettingsReading.ReadingInvertsPrinting | crates/manager-core/src/settings_privacy.rs:106-268 | a text reads as a document if and only if it is that document's text and the document is well formed: the reader accepts exactly the grammar and loses no character |
| SettingsScan.Scan.Space | crates/manager-core/src/settings_privacy.rs:111-128 | the cursor ends just after the gap |
| SettingsScan.Scan.ToClosingQuote | crates/manager-core/src/settings_privacy.rs:130-142 | the cursor ends just after the closing quote, escapes skipped, or the string is unclosed |
| SettingsScan.Scan.String | crates/manager-core/src/settings_privacy.rs:130-144 | the token is decoded and the cursor is just after it |
| SettingsScan.Scan.MemberHere | crates/manager-core/src/settings_privacy.rs:173-191 | a member is placed from its key's quote to its value's end, and the gap after it is passed |
| SettingsScan.Scan.ItemHere | crates/manager-core/src/settings_privacy.rs:214-221 | an item is placed from its start to its end, and the gap after it is passed |
| SettingsScan.Scan.ObjectHere | crates/manager-core/src/settings_privacy.rs:164-205 | an object's tree of positions is the located value the grammar reads, with its braces' places, and failure is failure of the grammar |
| SettingsScan.Scan.ArrayHere | crates/manager-core/src/settings_privacy.rs:206-230 | the same for a list |
| SettingsScan.Scan.WordHere | crates/manager-core/src/settings_privacy.rs:232-254 | a word or a number ends where the grammar says |
| SettingsScan.Scan.ValueHere | crates/manager-core/src/settings_privacy.rs:162-255 | one value by its first character |
| SettingsScan.Scan.Value | crates/manager-core/src/settings_privacy.rs:146-160 | one value within the nesting limit, the depth restored either way |
| SettingsScan.ReadWhole | crates/manager-core/src/settings_privacy.rs:258-268 | the whole text is read as one value with only gaps around it, or not at all |
| SettingsTree.HoldsSame | crates/manager-core/src/settings_privacy.rs:284-292 | whether a value holds something worth hiding depends on what it means, not on its layout |
| SettingsTree.FateSame | crates/manager-core/src/settings_privacy.rs:324-358 | what becomes of a member depends on what it means, not on where it is |
| SettingsWalk.WalkFindsEdits | crates/manager-core/src/settings_privacy.rs:303-413 | the edits the walk pushes are, up to order, the edits in text order that turn the value's text into the redacted value's |
| SettingsWalk.FoundSame | crates/manager-core/src/settings_privacy.rs:324-358 | what the walk names is the same whether flagged fields are kept or not |
| SettingsWalker.Walker.EndOfRun | crates/manager-core/src/settings_privacy.rs:371-376 | the inner loop stops at the last of a run of neighbouring indices |
| SettingsWalker.Walker.PushRuns | crates/manager-core/src/settings_privacy.rs:367-391 | the loop over gone indices pushes one edit for each run, reaching back to the member before for a run at the end |
| SettingsWalker.Walker.VisitMember | crates/manager-core/src/settings_privacy.rs:319-358 | one member is named, taken out, kept or looked into |
| SettingsWalker.Walker.VisitMembers | crates/manager-core/src/settings_privacy.rs:317-359 | the indices collected are exactly those of the members taken out |
| SettingsWalker.Walker.VisitItem | crates/manager-core/src/settings_privacy.rs:394-409 | a private list text is emptied, anything else looked into |
| SettingsWalker.Walker.WalkTree | crates/manager-core/src/settings_privacy.rs:303-413 | the finds and edits added are those of the walk, in the program's order |
| SettingsRewrite.RewriteValue | crates/manager-core/src/settings_privacy.rs:360-391 | making the edits all at once in a well-formed value's text gives the redacted value's text |
| SettingsRedact.EditsInOrder | crates/manager-core/src/settings_privacy.rs:360-404 | at every depth all edits are in bounds and lie one after another, and together they give the redacted document's text |
| SettingsRedact.SpliceIsRewrite | crates/manager-core/src/settings_privacy.rs:455-459 | splicing such edits from the back never falls outside the text and is the same as making them at once |
| SettingsRedact.SortedWalk | crates/manager-core/src/settings_privacy.rs:455 | sorting the pushed edits by start gives the edits in text order from the back |
| SettingsWalker.SpliceAll | crates/manager-core/src/settings_privacy.rs:456-459 | the splicing loop makes the replacements one after another |
| SettingsWalker.ListFound | crates/manager-core/src/settings_privacy.rs:441-454 | the two lists name each path once, and nothing is listed as removed when flagged fields are kept |
| SettingsWalker.Redact | crates/manager-core/src/settings_privacy.rs:432-465 | the whole redaction, refusals included, with no splice outside its text |
| SettingsRedact.RedactedText | crates/manager-core/src/settings_privacy.rs:427-465 | the text given back is the document's with only the chosen parts changed; everything outside the edits survives in order |
| SettingsRedact.RedactedReadsAsPruned | crates/manager-core/src/settings_privacy.rs:427-465 | reading it again succeeds and gives exactly the tree with the chosen members deleted and the chosen list texts emptied, for every layout |
| SettingsPrune.RedactedGood | crates/manager-core/src/settings_privacy.rs:360-391 | the redacted value is still well formed, trailing commas and comments included |
| SettingsPrune.RedactMeans | crates/manager-core/src/settings_privacy.rs:303-413 | and means the pruned tree |
| SettingsRedact.RefusedExactly | crates/manager-core/src/settings_privacy.rs:34-45 | a file is refused as not JSON exactly when no well-formed document has its text, and as not an object exactly when that document is something else |
| SettingsPrune.PruneClean | crates/manager-core/src/settings_privacy.rs:317-358 | at every depth pruning leaves no member whose fate is to be taken out and, with flags not kept, no private text; which members those are is SettingsSecrets.FateIs |
| SettingsSecrets.WhiteIs | crates/manager-core/src/settings_privacy.rs:285 | the white space a blank text is made of is 25 listed characters and no other |
| SettingsSecrets.PlainIs | crates/manager-core/src/settings_privacy.rs:47-49 | normalising a name drops its hyphens, underscores and spaces and keeps every other character in its place |
| SettingsSecrets.ContainsIs | crates/manager-core/src/settings_privacy.rs:332 | a word is found in a name exactly when it stands somewhere in it |
| SettingsSecrets.SecretIs | crates/manager-core/src/settings_privacy.rs:270-295 | a member is never shared exactly when at some depth it holds a number or a text that is not blank, under a name ending in password, passwd or token, or, unless it is a text that is a key binding, under one ending in apikey, authkey, accesskey, privatekey or secret |
| SettingsSecrets.FateIs | crates/manager-core/src/settings_privacy.rs:317-358 | a member is blocked exactly when it is such a secret, flagged exactly when it is a private text or a text that is neither blank nor a key binding under an account's name and no secret, and looked into exactly when it is neither a secret nor a text |
| SettingsSecrets.PruneTakesOut | crates/manager-core/src/settings_privacy.rs:317-413 | pruning takes out of each object exactly the secrets and, unless flags are kept, the flagged texts, and empties exactly the private texts in lists |
| SettingsSecrets.NoSecretIsShared | crates/manager-core/src/settings_privacy.rs:427-465 | read again, what is shared holds at no depth, in either mode, a number or a text to see under a password's or token's name, nor one that is no key binding under a key's or secret's, whatever counts as a key binding; and no flagged text unless they are kept |
| SettingsSecrets.ListsAre | crates/manager-core/src/settings_privacy.rs:441-454 | a path is listed as blocked exactly when a secret stands there outside any other, and as removed exactly when a flagged text or a private list text does and flags are not kept |
| SettingsGrammar.GapsAre | crates/manager-core/src/settings_privacy.rs:111-128 | spaces, tabs, line breaks, line comments and block comments before a gap make a gap |
| SettingsGrammar.StringsAre | crates/manager-core/src/settings_privacy.rs:130-144 | what stands between two quotes is a string exactly when it has no quote of its own and every backslash is followed by a character |
| SettingsGrammar.NestingLimit | crates/manager-core/src/settings_privacy.rs:91-95 | nesting is read to a depth of 128 and no deeper |
| SettingsGrammar.TailKeeps | crates/manager-core/src/settings_privacy.rs:379-388 | after the last field is taken out only a line break and the white space after it stay before the closing brace, and no comment |
| SettingsRedact.RedactedIsClean | crates/manager-core/src/settings_privacy.rs:427-465 | so the shared file holds none of them |
| SettingsRedact.CleanIsUnchanged | crates/manager-core/src/settings_privacy.rs:427-431 | a file with nothing to take out comes back character for character, with nothing listed |
| SettingsRedact.RedactTwice | crates/manager-core/src/settings_privacy.rs:427-465 | redacting again in the same mode changes no character and lists nothing |
| SettingsRedact.BlockedSameEitherWay | crates/manager-core/src/settings_privacy.rs:441-454 | the list of fields never shared is the same in both modes |
| Disks.Disk.Rename | crates/manager-infra/src/deployment.rs:430-438 | a rename moves a whole folder in one step or nothing, and never replaces files; being refused for files that are there is not counted as a failure of the disk |
| Disks.Disk.RemoveAll | crates/manager-infra/src/deployment.rs:473-477 | a deletion goes file by file, may stop anywhere, and what it reports is not believed |
| Moves.CopyTree | crates/manager-infra/src/deployment.rs:552-584 | a copy changes nothing but its target at every step, and is whole when it succeeds |
| Moves.RestoreFromCopy | crates/manager-infra/src/deployment.rs:518-550 | at every step nothing still there is overwritten and what is added comes from the copy; success is the copy with what was there over it |
| Moves.AtomicMove | crates/manager-infra/src/deployment.rs:428-516 | whatever fails or stops, at every state source or target holds every original file; done means the target does and the source is gone, not done means the source does, split means the target does; a target with files is never touched; when nothing fails it is done exactly if the target is absent or empty, it is split only after the undoing failed too, and not done leaves nothing behind at the target unless dropping the copy failed |
| Moves.Fill | crates/manager-infra/src/deployment.rs:523-536 | the loop that fills in overwrites nothing at any step and ends with the copy and what was there over it |
| Moves.FinishMove | crates/manager-infra/src/deployment.rs:473-500 | deleting the original, or else completing it again and dropping the copy, keeps a complete copy at every state; undone means nothing is different unless dropping the copy failed |
| Moves.DropCopy | crates/manager-infra/src/deployment.rs:457-472 | dropping the unpromoted copy leaves the original complete |
| Moves.MoveDeployment | crates/manager-infra/src/deployment.rs:390-411 | a move is refused, or already done, without touching anything, or is an atomic move; enabling, disabling and setting a copy aside are this |
| Moves.Quarantine | crates/manager-infra/src/deployment.rs:121-156 | at every state it passes through, whatever a stopped one left, the live folder or the one set aside is complete and neither holds anything else; when nothing fails it is done exactly if there is a live folder and no files in its way, or no live folder and one set aside; with a live folder there and files set aside it is never done |
| Moves.StopLeavesBoth | crates/manager-infra/src/deployment.rs:473-477 | a stop while the original is deleted leaves a state from which running it again is never done |
| Moves.RestoreQuarantined | crates/manager-infra/src/deployment.rs:191-247 | from any such state a restore that succeeds gives the live folder every original file, and no state on the way overwrites what was still there or loses a file; it succeeds when nothing fails and either folder is there, and then nothing is left aside |
| Moves.FillFromAside | crates/manager-infra/src/deployment.rs:208-227 | filling in a partly emptied live folder gives the copy with what was still there over it |
| Moves.StoppedMoveCanBeRestored | crates/manager-infra/src/deployment.rs:191-247 | each of the three ways a restore can go gives exactly the original, from any state a stopped move can leave |
| Moves.FillIsWhole | crates/manager-infra/src/deployment.rs:518-538 | the moved copy with the rest of the live folder over it is the original |
| Texts.DecimalsDiffer | crates/manager-infra/src/saves.rs:237-242 | different counters give different folder names |
| Saves.FreshStamp | crates/manager-infra/src/saves.rs:231-244 | the counter loop ends with a name no backup, finished or not, has |
| Saves.ValidIdIsOneStep | crates/manager-infra/src/saves.rs:45-48 | an id is taken exactly when as a path it is one folder that is not hidden, so no id leads out of the backups |
| Saves.ReadSums | crates/manager-infra/src/saves.rs:131-155 | the checksums read are those of the files listed |
| Saves.SumsTell | crates/manager-infra/src/saves.rs:128-155 | equal checksums mean equal files |
| Saves.NoMismatch | crates/manager-infra/src/saves.rs:157-167 | nothing differs exactly when the two records are equal, extra and missing files included |
| Saves.CopyFiles | crates/manager-infra/src/saves.rs:171-186 | a copy that may write wrong bytes or stop changes nothing but its target, and is exact when nothing fails |
| Saves.CopyToBackup | crates/manager-infra/src/saves.rs:222-284 | everything there was is unchanged and no finished backup is part-written or unrecorded at any state, and a backup that succeeds is a new finished folder with exactly the files listed and a true record, whatever bytes the copying wrote; it holds the whole live save if and only if the listing passed over none of its files; with no failure it succeeds exactly when a file is listed |
| Saves.WriteRecord | crates/manager-infra/src/saves.rs:269-274 | a record that is written is the record of the files there |
| Saves.VerifyBackup | crates/manager-infra/src/saves.rs:286-318 | a backup is verified only if its record is read and is that of its files, unrecorded only if it has none, and damaged only if it has one that cannot be read as a record or is not that of its files |
| Saves.OnlyTheSamePass | crates/manager-infra/src/saves.rs:286-318 | under a record made for some files a folder passes exactly when its files are those |
| Saves.CopyIn | crates/manager-infra/src/saves.rs:442-443 | the copy goes over whatever could not be cleared away, and is exact when nothing fails |
| Saves.BringIn | crates/manager-infra/src/saves.rs:439-466 | the copy beside the live save is accepted only if its files are exactly the backup's |
| Saves.Replace | crates/manager-infra/src/saves.rs:467-474 | from removing the live save to putting the copy in its place, every state still has the finished backup |
| Saves.Exchange | crates/manager-infra/src/saves.rs:424-474 | with a backup that is not damaged: at every state the live save is untouched or a finished backup holds it, and success changes only the new backup, the live save and the folder beside it |
| Saves.Restore | crates/manager-infra/src/saves.rs:412-482 | at every state the live save is untouched or a finished backup holds what is listed of it, all of it exactly if no file of it is passed over, no backup changes and no new one is part-written; only a backup with no record, or with one that reads as that of its files, is restored, and any other, unreadable records included, changes nothing on the disk and is reported as changed when nothing fails; success leaves the live save with exactly the backup's files, the old one kept in a new backup in the same sense, and everything else as it was; with no failure it succeeds exactly for a finished backup that holds files and is not damaged, over a live save that lists some or none there, and for a backup without files the live save is removed and nothing put in its place |
| Saves.UnreadFileIsLost | crates/manager-infra/src/saves.rs:98-126 | a restore over a live save with a file the listing passes over succeeds, and that file is then in no folder |
| Saves.EmptyBackupRemovesSave | crates/manager-infra/src/saves.rs:439-474 | restoring a backup without files, with nothing failing, ends with no live save |
| Saves.EmptySaveStays | crates/manager-infra/src/saves.rs:222-284 | a live save without files can be neither backed up nor replaced, with nothing failing |
| Jobs.ChangesTakeTurns | apps/desktop/src-tauri/src/background.rs:135-180 | in every interleaving change bodies begin in the order asked, each after the one before is over, and the count covers every unfinished change, is zero only when there is none and never goes below zero |
| Jobs.ResultsHandedOnce | apps/desktop/src-tauri/src/background.rs:187-203 | in every interleaving a job's result is recorded at most once and handed to the window at most once, never both there and handed out |
| Jobs.EveryJobIsSomewhere | apps/desktop/src-tauri/src/background.rs:135-273 | in every interleaving each job that has its number is in exactly one place, from being asked for to its result being recorded, and none is refused while the threads are there |
| Jobs.OverIsRecorded | apps/desktop/src-tauri/src/background.rs:187-203 | in every interleaving each change and read whose body is over and off its thread, and each dialog answered or dropped, is recorded exactly once and is there to collect or was handed out, and nothing else ever is |
| Jobs.ReadsBeginInOrder | apps/desktop/src-tauri/src/background.rs:144-163 | reads begin in the order they were asked for |
| Jobs.NeverClosedOnAChange | apps/desktop/src-tauri/src/background.rs:421-436 | once the window is closed no change is queued, running or asked for any more |
| Jobs.CollectedOnce | apps/desktop/src-tauri/src/background.rs:368-381 | results asked for are handed out once each, also when asked for twice |
| Jobs.World.Change | apps/desktop/src-tauri/src/background.rs:241-273 | asking for a change puts it last in line, or, exactly without the changes thread, refuses it and leaves nothing counted, whatever the threads do in between |
| Jobs.World.NextChange | apps/desktop/src-tauri/src/background.rs:138-143 | a turn of the changes thread takes the change that waited longest from its body to its result, which is then recorded once and there to collect or handed out |
| Jobs.World.CloseAfterChanges | apps/desktop/src-tauri/src/background.rs:427-436 | the window waits exactly when a change is in line or at work, and otherwise may close with all of them over |
| Jobs.World.TakeResults | apps/desktop/src-tauri/src/background.rs:368-393 | the results asked for are handed out; the window is closed only if a close waited and every change is over, and if one waited it is closed unless a change is in line or at work |
| Jobs.World.CloseIfOver | apps/desktop/src-tauri/src/background.rs:385-391 | the same of the closing alone, with the other threads running between its two looks |
| Jobs.Gather | apps/desktop/src-tauri/src/background.rs:376-380 | the loop that takes results out gives each one there once |
| InstanceLock.GuardsAreTheLock | crates/manager-infra/src/lock.rs:20-55 | in every interleaving of any number of processes, dying ones included: between calls a process has live guards exactly when it holds the lock of the operating system, its count is its guards, and no two processes hold it |
| InstanceLock.ReleasedByLastGuard | crates/manager-infra/src/lock.rs:39-55 | the lock is let go exactly by the last guard's drop or the process's death, and taken only when nobody has it |
| InstanceLock.OwnerStands | crates/manager-infra/src/lock.rs:115-155 | from any step at which a process is without the lock it has it later exactly if it took it in between and has neither let go of it nor died since |
| InstanceLock.RightIff | crates/manager-infra/src/lock.rs:115-155 | for a check that finds no local holder and a later probe, with anything in between: a probe that tried the lock answers truly exactly if its own process has not taken the lock in between and kept it, one that could not open the file exactly if no other process had taken it and kept it, one refused for another reason exactly if one had |
| InstanceLock.HolderIsRight | crates/manager-infra/src/lock.rs:115-120 | a process that holds the lock answers at once that no other does, and that is true |
| InstanceLock.NotHeldIsRight | crates/manager-infra/src/lock.rs:143-154 | not held is the whole truth when there is no lock file, and when the lock was tried |
| InstanceLock.ProbeSeesOwnLock | crates/manager-infra/src/lock.rs:115-121 | a thread that found no local holder can be told of its own process's lock |
| InstanceLock.UnopenedProbeMisses | crates/manager-infra/src/lock.rs:145-147 | a probe that cannot open the file answers that it is not held while another process holds it |
| InstanceLock.RefusedProbeMisleads | crates/manager-infra/src/lock.rs:148-154 | a probe refused for another reason answers that it is held while nobody holds it |
| InstanceLock.World.HeldByAnother | crates/manager-infra/src/lock.rs:115-155 | the whole question, with every other thread running between its check and its probe, is answered truly exactly on those conditions, a process that holds the lock is answered truly at once, and a probe that got the lock lets go of it |
| InstanceLock.World.TryBriefly | crates/manager-infra/src/lock.rs:133-141 | the loop that tries the file ends with the lock, or gives up at a state in which another process held it or a probe was under way |
| InstanceLock.World.AcquireGuard | crates/manager-infra/src/lock.rs:67-113 | with every other thread running in between: a process that has a guard always gets one; any other gets one exactly if the file opens, unless another process held the lock or a probe was under way after that; a guard given has the lock behind it and a failure keeps nothing |
| InstanceLock.World.Drop | crates/manager-infra/src/lock.rs:39-55 | dropping a guard keeps the lock exactly while others are left |
| Geometry.NewestIsSavedLast | apps/desktop/src-tauri/src/window.rs:155-173 | in every interleaving a pending geometry has a writer that will look for it, saves come in event order, and with no writer left what is stored is the last event's exactly if its save did not fail |
| Geometry.FailedSaveIsLost | apps/desktop/src-tauri/src/window.rs:164-173 | after one event whose save fails nothing is pending, no writer is left and its geometry is not stored |
| Geometry.World.Persist | apps/desktop/src-tauri/src/window.rs:155-173 | an event's geometry is in the slot, being saved or saved, with a writer for it |
| Geometry.World.Write | apps/desktop/src-tauri/src/window.rs:164-173 | a writer that ends has saved the last event's geometry last |
| Quoting.QuoteArgument | scripts/native-smoke/win32-process.ts:157-176 | the loop over characters builds the quoted argument |
| Quoting.Repeat | scripts/native-smoke/win32-process.ts:164-174 | a run of backslashes of the length asked for |
| Quoting.RoundTrip | scripts/native-smoke/win32-process.ts:156-180 | the C runtime's rules read back exactly the argument list, for any backslashes, quotes, blanks and empty arguments |
| Quoting.ProgramRoundTrip | scripts/native-smoke/win32-process.ts:178-180 | read as a whole command line, whose first word has the program-name rule, the list comes back exactly when the program name has no quote and, if it needs quoting, no backslash at its end |
| Quoting.UnsafeNamesAreLost | scripts/native-smoke/win32-process.ts:156-180 | a program name with a quote, and a quoted one that ends in a backslash, are not read back |

## Left out

- User-facing notes are tags; the step count is an unbounded number.
- The set of mods pulled in by a test is walked in the order they were enabled;
  the program's hash set has no fixed order. No mod is ever added there
  (`SearchInvariant.RecordPresent`), so the order does not matter.
- That three or more mods are involved when a partner search gives up is not
  claimed: with several independent causes halving can drop a valid partner.
  Nor is it claimed that repeated partner searches end.
- Units that change while a session runs, or share a key.
- Bytes and their decoding: a settings text is a sequence of characters, so the
  byte-order mark counts as one, and text that is not UTF-8 does not arise.
- JSON string and number decoding, lower-casing, the key-binding and private-text
  heuristics, and the wording of settings warnings.
- A text in the settings reader that ends inside an escape makes the program's
  cursor pass the end by one; the model's does too, and both then fail.
- Symlinks, permissions other than unreadable files in a live save, free space
  (a backup may fail for it), modification times, empty sub-folders, and writes
  that stop inside one file.
- What a listing of the live save passes over is the same throughout a backup or
  a restore, and nothing in a backup is passed over.
- Other programs changing a folder while it is moved, copied or restored.
- The retry schedules of renames and lock attempts, and all timing; that trying
  the lock can fail for another reason than the lock or a probe.
- Which of the save folder's paths are known, and the listing of saves and
  backups.
- Job answers' contents, panics inside bodies beyond ending them, and the notice
  that something changed. That a waiting close ever happens is not claimed; it
  goes ahead only when the window asks for results.
- Poisoned mutexes, a window that is already gone, the app's presence lock, and
  a lock file that is deleted or replaced while the program runs.
- The threads' code is given as methods that take atomic steps of the state
  machine, not as code that shares memory: the interleaving is at those steps.
- `Quoting.ProgramRoundTrip` names when a program name survives; the callers'
  program paths are not modelled.
- Tauri commands, dialogs, bindings, window placement, the database, the React
  interface and the release scripts.
