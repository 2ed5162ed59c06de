# Gas Town agent core: a Dafny model

The `gt-agent` program turns a language model's reply into shell scripts and file edits, and drives a bounded,
restartable turn loop around it. This project models the parts of it that carry real obligations, together with
three smaller pieces of the repository, and proves what they keep over every input, every run or every history.

* **Replies to scripts.** `Heredoc`, `HeredocProtect` and `HeredocNested` (payloads hidden behind fresh keys and
  restored), `ReplyScripts`, `ReplyProperties` and `ReplyEndings` (the line state machine that cuts scripts),
  `ShellQuote` (the quote scanner against POSIX quote removal), `ScriptCleanup`, `FileSanitize`, `ScriptPipeline` and
  `ScriptEscapes` (script preparation: the four clean-up passes, and what comes before them).
* **Native edits.** `EditLines`, `NativeEdit`, `NativeEditSpans`, `NativeEditPrint`, `NativeEditSurvive` (the
  READ/EDIT/WRITE parser), `DiffPatch`, `DiffHunks`, `DiffApply` (search/replace, hunks, patches and undoing them),
  `LineCounts`.
* **Verdicts.** `JsonScan` (the brace scanner against the grammar of sections 4 and 7 of RFC 8259), `JsonVerdict`
  (which object of a reply has the last word) and `Verdicts` (the outcomes a step allows).
* **Runs.** `TurnLoop` and `TurnLoopGates` (one attempt), `BeadTurns` (durable turn counts over crashes and
  restarts), `CmdFailures`, `AttemptLog`, `RetryRecord`.
* **Smaller pieces.** `Hanoi`, `HanoiMinimal`, `HanoiFormula`, `AllowList`, `CiState`.

`Text` and `TextTrim` hold the operations of Go's `strings` package. Regular expressions and path rules that the
state machines only consult are parameters (predicates or functions) of the model; the here-document opener is
spelled out. Replies, disk contents, failing writes, crashes and bead listings are inputs that range over every
possibility. Loops and updated fields of the source are loops and classes here, each proved equal to a function
of its inputs or of the old state; the lemmas are about those functions.

## Where the code and its words differ

The model follows the code.

* `parseLLMResponse` does not lower its "here-document just closed" flag when the next script begins
  (`ReplyEndings.FlagOutlivesItsScript`), so a step line can cut a later script inside a quoted string;
  `ReplyEndings.FlagIff` and `ReplyEndings.StepLineCutsQuoteIff` say exactly when.
* The comment on `hasOpenShellQuote` says it need not know about here-documents. It scans their bodies, so a quote
  in a body keeps the script open and the narration below it is swallowed (`ReplyEndings.QuoteInBodySwallowsProse`);
  `ReplyEndings.EndsAfterHeredocIff` gives the exact condition.
* The comment on `filterHallucinatedScriptLines` promises verbatim here-document bodies. That pass keeps its word,
  but `scrubOrphanBashLcQuoteLines`, three passes later, drops lone-quote lines inside bodies too
  (`ScriptPipeline.QuoteLineIsLost`), and the rewriting of `\$` at the start of preparation reaches bodies as well
  (`ScriptEscapes.EscapeExample`). `ScriptPipeline.PrepareKeepsDocsIff` and
  `ScriptEscapes.PreparationKeepsDocsIff` give the exact conditions.
* A WRITE body whose last line is `---` loses that line (`NativeEditPrint.FinalDashLineIsLost`), and plain lines
  between an EDIT header and its SEARCH marker end up in the replacement (`NativeEditPrint.PreludeHarmlessIff`); if
  the divider is forgotten, they overwrite the file (`NativeEditSurvive.ForgottenDivider`; exactly when is
  `NativeEditSpans.EditOverwritesIff`).
* A hunk loses every line that prints like a file header, such as the deletion of a `-- ` comment
  (`DiffHunks.CommentDeletionIsLost`), and a first line that prints like a range, such as the deletion of a line
  starting with a digit (`DiffHunks.FirstDigitDeletionIsLost`); `DiffHunks.ExtractsIff` is exact. A unique match
  counted without overlaps may swap back at the wrong place (`DiffPatch.OverlapSwapsBackWrong`).
* A section heading behind a hunk's range is read as a context line, so that the hunk is only found right below that
  line (`DiffApply.SectionHunkApplies`, `DiffApply.HeadingHidesHunk`).
* The comment on `extractOrchestratedJSONObjects` says that the last object wins. Objects nested in another count too,
  so that an inner outcome overrules the outer one (`JsonVerdict.NestedOverrules`); `JsonVerdict.VerdictOfObjectIff`
  is exact.
* `completed` is a success outcome, but artifact validation only looks at `success`, `task_passed` and
  `all_passed`, so it passes with open beads when it comes with commands; and without a title filter or required
  files validation does not count beads at all. `TurnLoopGates.OpenBeadGateIff` is exact: either way the outcome gets
  that far only in a step that allows it, and no template of the repository lists `completed`.
* The open-bead breaker is described as counting refusals in a row; it counts all refusals of an attempt
  (`TurnLoopGates.BreakerCountsAllRefusals`).
* `addBeadTurn` says a restart must not reset a bead's allowance. It does when the record cannot be read back
  (`BeadTurns.LossesResetTheAllowance`; when a loss does harm is `BeadTurns.StaysWithinIff`).
* A state file that could not be written, whose error is ignored, can bring a settled failure back after a restart
  (`RetryRecord.StaleFileReplays`), exactly when a restart finds a record for a step for which memory has none
  (`RetryRecord.AlwaysRecentIff`); and a report made without a rig leaves the step's old failure in place
  (`RetryRecord.RiglessReportReplays`, `RetryRecord.LastReportKeepsIff`).
* The second `if hadNative` branch of the turn loop is unreachable: the branch above it takes those turns. It is
  not modelled.

## Model

| member | source | states |
|---|---|---|
| `Heredoc.DetectTermIsIdent` | cmd/gt-agent/main.go:1515-1521 | the delimiter found on any line is a bare identifier that does not start with a digit |
| `Heredoc.TrimKeepsRole` | cmd/gt-agent/main.go:914 | trimming a line changes neither the here-document it opens nor the one it closes |
| `HeredocProtect.FreshKeyIsFresh` | cmd/gt-agent/orchestrated_response_parse.go:53-80 | growing a key ends with one that occurs nowhere in the reply and only adds underscores |
| `HeredocProtect.KeysPrefixFree` | cmd/gt-agent/orchestrated_response_parse.go:53-80 | keys made for different lines are never prefixes of one another |
| `HeredocProtect.HiddenUpToExact` | cmd/gt-agent/orchestrated_response_parse.go:53-80 | exactly the lines inside closed here-documents are hidden |
| `HeredocProtect.RestoreActsLineByLine` | cmd/gt-agent/orchestrated_response_parse.go:53-80 | on lines that are keys or free of keys, restoring replaces exactly the key lines, each by its own payload |
| `HeredocProtect.RoundTrip` | cmd/gt-agent/orchestrated_response_parse.go:53-80 | restore(protect(reply)) is the reply, for every reply |
| `HeredocProtect.RewritingKeepsPayloads` | cmd/gt-agent/orchestrated_response_parse.go:53-80 | dropping, adding, reordering and rewriting outer lines with key-free text leaves every surviving payload line untouched after restoring |
| `HeredocNested.SameHiddenLines` | cmd/gt-agent/orchestrated_response_parse.go:24-80 | protecting a protected reply hides exactly the same lines again |
| `HeredocNested.NestedRewriting` | cmd/gt-agent/orchestrated.go:1134-1147 | whatever key-free rewriting happens under both protections, restoring the inner keys leaves an edit of the once protected reply, and restoring the outer keys brings back every surviving payload line |
| `HeredocProtect.GrowKey` | cmd/gt-agent/orchestrated_response_parse.go:53-80 | the key-growing loop terminates with the fresh key of its line |
| `HeredocProtect.ProtectHeredocBodies` | cmd/gt-agent/orchestrated_response_parse.go:53-80 | overwriting the lines in place yields the protected reply, well-formed keys and a table that restores the reply |
| `ReplyScripts.ParseLLMResponse` | cmd/gt-agent/main.go:983-1233 | the loop over lines, with its buffer, delimiter and flags, returns the texts, summary and abort of the line state machine |
| `ReplyProperties.ScriptsAreRuns` | cmd/gt-agent/main.go:983-1233 | scripts are disjoint, in order, contiguous runs of reply lines, starting with the last command of a `CMD:` line and verbatim after it; inline commands are the commands before it; no script ended by a blank, markdown, narration or fake-listing line has an open quote |
| `ReplyProperties.ScriptHandedOutIff` | cmd/gt-agent/main.go:983-1233 | unless the reply is aborted, a `CMD:` line yields a script from that line if and only if it ends in a command and no here-document of the script stays open to the end |
| `ReplyProperties.InlinesHandedOut` | cmd/gt-agent/main.go:983-1233 | unless the reply is aborted, every command before the last on a `CMD:` line is handed out |
| `ReplyProperties.HeredocsClosedInScript` | cmd/gt-agent/main.go:983-1233 | every here-document entered in a script that is handed out is closed in that same script |
| `ReplyEndings.FlagIff` | cmd/gt-agent/main.go:983-1233 | the just-closed flag is up if and only if some here-document was closed and no ordinary, step or listing line has lowered it since |
| `ReplyEndings.StepLineCutsQuoteIff` | cmd/gt-agent/main.go:983-1233 | a reply has a script cut by a given step line inside a quote if and only if the line is met as a step line with a quote open and a here-document closed earlier, with nothing lowering the flag since |
| `ReplyEndings.FlagOutlivesItsScript` | cmd/gt-agent/main.go:983-1233 | a reply whose second script, without any here-document, is cut inside a quote by the step line `- Do` because of the first one's flag |
| `ReplyEndings.BodyQuotesCount` | cmd/gt-agent/main.go:1279-1317 | behind closed quotes, the scan after a here-document reports an open quote exactly when the body has one |
| `ReplyEndings.EndsAfterHeredocIff` | cmd/gt-agent/main.go:983-1233 | right after a here-document, in a script with no quote open before its body, a blank, markdown or narration line ends the script if and only if the quotes in the body are balanced |
| `ReplyEndings.QuoteInBodySwallowsProse` | cmd/gt-agent/main.go:1279-1317 | a reply whose here-document holds a quote and whose script swallows a blank line and the narration `So.` |
| `ShellQuote.HasOpenShellQuote` | cmd/gt-agent/main.go:1279-1317 | the two-flag loop reports exactly an open quote after all lines |
| `ShellQuote.ScanLinesIsScanJoined` | cmd/gt-agent/main.go:1279-1317 | scanning line by line equals scanning the joined text, for any split into lines |
| `ShellQuote.ScanLinesAppend` | cmd/gt-agent/main.go:1279-1317 | scanning a buffer is scanning its parts in turn |
| `ShellQuote.OpenIsUnterminated` | cmd/gt-agent/main.go:1279-1317 | an open quote is reported exactly for the scripts on which POSIX quote removal fails |
| `ShellQuote.SingleQuoteRoundTrip` | cmd/gt-agent/orchestrated_exec.go:2050-2052 | quote removal takes a quoted string, pasted in front of anything, back to the string |
| `ShellQuote.SingleQuoteIsClosed` | cmd/gt-agent/orchestrated_exec.go:2050-2052 | a quoted string is removed to exactly the string and leaves no open quote |
| `ScriptCleanup.TrimKeepsDocs` | cmd/gt-agent/orchestrated_exec.go:179-218 | trimming a whole script keeps its closed here-documents, line for line |
| `ScriptCleanup.AllClosedIff` | cmd/gt-agent/orchestrated_exec.go:124-150 | the clean-up passes see all documents closed exactly when payload protection awaits no delimiter at the end |
| `ScriptCleanup.DropJunkLines` | cmd/gt-agent/orchestrated_exec.go:179-218 | the loop with its in-document flag drops exactly the junk lines outside documents |
| `ScriptCleanup.DropJunkKeepsDocs` | cmd/gt-agent/orchestrated_exec.go:124-150 | either junk-dropping pass keeps every here-document of a script with all documents closed, in order, line for line |
| `FileSanitize.SanitizeNativeFileContent` | cmd/gt-agent/orchestrated_response_parse.go:1080-1120 | the nested shrinking loops terminate and return the specified text |
| `FileSanitize.KeptIsCore` | cmd/gt-agent/orchestrated_response_parse.go:1080-1120 | what is kept is the content without a run of front junk and a run of back junk, and neither end of it is junk |
| `FileSanitize.CleanMeaning` | cmd/gt-agent/orchestrated_response_parse.go:1080-1120 | a cleaned body is exactly the body cut at front and back junk, neither end left being junk, with one final empty line if there were any; or the body itself, or one empty line when nothing is left |
| `FileSanitize.CleanFixed` | cmd/gt-agent/orchestrated_response_parse.go:1080-1120 | a body is left alone exactly when its first line is no front junk and its last non-empty line no back junk |
| `ScriptPipeline.StripMarkdownFences` | cmd/gt-agent/orchestrated_exec.go:69-107 | the loop that holds back body lines returns the specified script |
| `ScriptPipeline.FlushedStaysOpen` | cmd/gt-agent/orchestrated_exec.go:69-107 | cleaning a body never produces a line that closes its document |
| `ScriptPipeline.StripFencesCleansBodies` | cmd/gt-agent/orchestrated_exec.go:69-107 | on a script with all documents closed every line outside bodies is kept verbatim, and each body becomes its cleaned form |
| `ScriptPipeline.ScrubOrphanQuotes` | cmd/gt-agent/orchestrated_exec.go:111-121 | the loop drops exactly the lone-quote lines |
| `ScriptPipeline.ScrubQuotesReachesBodies` | cmd/gt-agent/orchestrated_exec.go:111-121 | the quote pass keeps openers and closers but drops lone-quote lines from every body |
| `ScriptPipeline.PrepareScript` | cmd/gt-agent/orchestrated_exec.go:43-55 | the last four passes of script preparation run in order |
| `ScriptPipeline.PrepareDocs` | cmd/gt-agent/orchestrated_exec.go:43-55 | together they keep all opener and closer pairs, and change bodies only by cleaning and quote dropping |
| `ScriptPipeline.PrepareKeepsDocsIff` | cmd/gt-agent/orchestrated_exec.go:43-55 | the last four passes let all here-documents through as they get them if and only if each body has no lone quote, no front junk first and no back junk last |
| `ScriptEscapes.UnescapeRole` | cmd/gt-agent/orchestrated_exec.go:37 | rewriting escaped dollar signs changes neither which here-document a line opens nor which it closes |
| `ScriptEscapes.UnescapeReachesDocs` | cmd/gt-agent/orchestrated_exec.go:37 | it keeps all documents closed and rewrites openers and bodies line by line |
| `ScriptEscapes.RewrittenAbsent` | cmd/gt-agent/orchestrated_exec.go:58-67 | a script without `-c` and without a wrapped delimiter has nothing to respell |
| `ScriptEscapes.UnwrapBashLc` | cmd/gt-agent/orchestrated_exec.go:223-252 | the trimming and the loop over closing quote lines return the unwrapped command |
| `ScriptEscapes.PlainCommandKeepsDocs` | cmd/gt-agent/orchestrated_exec.go:223-228 | a command that is not wrapped keeps all its documents |
| `ScriptEscapes.PrepareOrchestratedScript` | cmd/gt-agent/orchestrated_exec.go:35-56 | unwrapping, rewriting, respelling and the four passes run in order |
| `ScriptEscapes.PreparationKeepsDocsIff` | cmd/gt-agent/orchestrated_exec.go:35-56 | with nothing left to respell, the whole preparation leaves all here-documents of the unwrapped command as they were if and only if no opener or body holds an escape and each body passes the last four passes |
| `ScriptEscapes.EscapeIsLost` | cmd/gt-agent/orchestrated_exec.go:37 | so the here-documents of such a script are never all left as they were when a body holds an escape |
| `ScriptEscapes.EscapeExample` | cmd/gt-agent/orchestrated_exec.go:37 | a three-line script whose here-document loses its backslash |
| `ScriptPipeline.QuoteLineIsLost` | cmd/gt-agent/orchestrated_exec.go:111-121 | a closed document that loses a line holding only a quote |
| `NativeEdit.ParseNativeEditSearchReplace` | cmd/gt-agent/orchestrated_native_edit.go:97-153 | the mode loop over an EDIT body returns the specified block |
| `NativeEdit.ParseNativeWriteBody` | cmd/gt-agent/orchestrated_native_edit.go:302-327 | the loop returns the lines above the first terminator and where parsing goes on |
| `NativeEdit.SkipNativeEditBlock` | cmd/gt-agent/orchestrated_native_edit.go:176-190 | the loop skips to the next header or past the next marker |
| `NativeEdit.ParseNativeEdits` | cmd/gt-agent/orchestrated_native_edit.go:38-95 | the index loop terminates, always advancing, with the specified operations and their spans |
| `NativeEditSpans.BlockIsExplained` | cmd/gt-agent/orchestrated_native_edit.go:97-153 | a block is exactly what the lines above the first line that stops the reading spell out: the unmarked lines of its SEARCH sections and those outside them, the kind of stop deciding whether it is accepted and where parsing goes on |
| `NativeEditSpans.EditOverwritesIff` | cmd/gt-agent/orchestrated_native_edit.go:67-82 | an EDIT block overwrites the whole file with a content if and only if its first stop is an END marker with no replacement begun, and the content is its plain lines, not empty and no diff |
| `NativeEditSpans.WriteEndMeaning` | cmd/gt-agent/orchestrated_native_edit.go:302-327 | a WRITE body ends at the first line that terminates it |
| `NativeEditSpans.SpansDisjointInOrder` | cmd/gt-agent/orchestrated_native_edit.go:38-95 | on arbitrary lines accepted operations come from non-empty spans in order, each spelled out by its own lines |
| `NativeEditSpans.SpansApart` | cmd/gt-agent/orchestrated_native_edit.go:38-95 | of any two accepted operations the earlier ends before the later begins |
| `NativeEditPrint.ParsePrint` | cmd/gt-agent/orchestrated_native_edit.go:38-153 | parsing the printed form of any list of printable READ, EDIT, diff and WRITE operations gives back that list |
| `NativeEditPrint.WriteSurvivesIff` | cmd/gt-agent/orchestrated_native_edit.go:302-327 | a printed WRITE comes back if and only if no line of its content ends the body early |
| `NativeEditPrint.FinalDashLineIsLost` | cmd/gt-agent/orchestrated_native_edit.go:310-316 | content whose last line is `---` never comes back |
| `NativeEditPrint.FinalDashLineExample` | cmd/gt-agent/orchestrated_native_edit.go:310-316 | a two-line content that does not come back |
| `NativeEditPrint.PreludeJoinsReplacement` | cmd/gt-agent/orchestrated_native_edit.go:97-153 | plain lines under an EDIT header become the front of the replacement |
| `NativeEditPrint.PreludeHarmlessIff` | cmd/gt-agent/orchestrated_native_edit.go:97-153 | such an edit means what its sections say if and only if there are no such lines, or they and the replacement are all empty |
| `NativeEditSurvive.EditHolds` | cmd/gt-agent/orchestrated_native_edit.go:97-153 | on arbitrary lines an EDIT holds no more lines of text than stand unmarked below its header |
| `NativeEditSurvive.SurvivesIff` | cmd/gt-agent/orchestrated_native_edit.go:38-153 | any operation printed alone on a stable path comes back if and only if it is printable |
| `NativeEditSurvive.ForgottenDivider` | cmd/gt-agent/orchestrated_native_edit.go:97-153 | without its divider an EDIT becomes a WRITE of the plain lines above the SEARCH section, unless there are none or they are a diff |
| `DiffPatch.SwapCutsLeftmost` | cmd/gt-agent/orchestrated_native_edit.go:1125-1133 | a successful swap replaces the leftmost occurrence and nothing else |
| `DiffPatch.SearchReplaceCutsLeftmost` | cmd/gt-agent/orchestrated_native_edit.go:900-924 | search/replace succeeds on exactly one counted match, in the text or with CRLF normalised, and replaces the leftmost occurrence |
| `DiffPatch.SwapBackIff` | cmd/gt-agent/orchestrated_native_edit.go:1125-1133 | swapping back restores the text if and only if the new block is counted once and first occurs where it was written |
| `DiffPatch.SwapBackWhenUnique` | cmd/gt-agent/orchestrated_native_edit.go:1125-1133 | it does when the new block stands nowhere before that place |
| `DiffPatch.OverlapSwapsBackWrong` | cmd/gt-agent/orchestrated_native_edit.go:1125-1133 | a text where overlapping matches make the swap back land elsewhere |
| `DiffHunks.ExtractSearchReplace` | cmd/gt-agent/orchestrated_native_edit.go:1144-1178 | the loop over a hunk returns its old and new blocks |
| `DiffHunks.ExtractsIff` | cmd/gt-agent/orchestrated_native_edit.go:1144-1178 | a hunk printed from any keep/delete/add script of single lines yields exactly its blocks if and only if no line prints as a file header or stray marker and the first is not taken for a hunk header |
| `DiffHunks.NothingInvented` | cmd/gt-agent/orchestrated_native_edit.go:1144-1178 | reading a printed hunk never gives more lines with text than its script has, and fewer as soon as one line is not recognised |
| `DiffHunks.CommentDeletionIsLost` | cmd/gt-agent/orchestrated_native_edit.go:1160 | a hunk that deletes, anywhere, a line of two dashes, a blank and text never yields its blocks |
| `DiffHunks.CommentDeletionExample` | cmd/gt-agent/orchestrated_native_edit.go:1160 | a two-line hunk that does not yield its blocks |
| `DiffHunks.FirstDigitDeletionIsLost` | cmd/gt-agent/orchestrated_native_edit.go:1187-1195 | a hunk that first deletes a line starting with a digit never yields its blocks |
| `DiffHunks.BlocksExactIff` | cmd/gt-agent/orchestrated_native_edit.go:1176-1177 | a block is its joined lines exactly when it does not end in an empty line |
| `DiffApply.DiskFile.ApplyUnifiedDiffPatch` | cmd/gt-agent/orchestrated_native_edit.go:1097-1142 | a patch is all or nothing: every failure before the single write leaves the file alone, and a completed write leaves all hunks applied |
| `DiffApply.HunksAreCuttable` | cmd/gt-agent/orchestrated_native_edit.go:1108-1119 | whatever is cut out of a text with a mark holds no mark, is not blank and is trimmed |
| `DiffApply.HunksOfPrintedIff` | cmd/gt-agent/orchestrated_native_edit.go:1108-1119 | a printed patch, with bare marks, ranges or section headings, is cut into exactly its hunks and their ranges if and only if every hunk holds no mark, is not blank, and neither starts nor ends with a line break |
| `DiffApply.ScrubbedPrinted` | cmd/gt-agent/orchestrated_native_edit.go:1098-1099 | scrubbing leaves a printed patch alone unless it holds the end-of-file phrase |
| `DiffApply.RangeChangesNothing` | cmd/gt-agent/orchestrated_native_edit.go:1120-1124 | a range, cut out as if it were a hunk, leaves the content alone |
| `DiffApply.PatchOfPrinted` | cmd/gt-agent/orchestrated_native_edit.go:1107-1137 | patching with a printed patch applies exactly its hunks, ranges changing nothing, and fails when nothing changes |
| `DiffApply.SectionIsContext` | cmd/gt-agent/orchestrated_native_edit.go:1144-1178 | a section heading makes its hunk the hunk with one more context line |
| `DiffApply.SectionHunkApplies` | cmd/gt-agent/orchestrated_native_edit.go:1120-1134 | such a hunk is found if and only if its old block stands right below the heading, and swaps the two blocks with the heading in front |
| `DiffApply.HeadingHidesHunk` | cmd/gt-agent/orchestrated_native_edit.go:1120-1134 | a hunk that applies by itself and is not found with its heading |
| `DiffApply.UndoHunkIff` | cmd/gt-agent/orchestrated_native_edit.go:1120-1134 | the inverted hunk restores the content if and only if the new block occurs once and first where the old one stood |
| `DiffApply.UndoPatch` | cmd/gt-agent/orchestrated_native_edit.go:1120-1134 | a list of hunks, each of which the inverted hunk undoes where it lands, is undone by the inverted hunks in reverse order |
| `DiffApply.PrintedPatchUndone` | cmd/gt-agent/orchestrated_native_edit.go:1097-1142 | for such hunks that change something, patching with the printed patch and then with the printed inverted hunks in reverse order gives back the content, whatever ranges they carry |
| `JsonScan.JsonObjectEnd` | cmd/gt-agent/orchestrated.go:4487-4523 | the loop over depth, string and escape returns the end the scan defines, or reports none |
| `JsonScan.FindsMatchingBrace` | cmd/gt-agent/orchestrated.go:4487-4523 | from the opening brace of any RFC 8259 object, with any white space inside and any text around it, the scan stops exactly at its closing brace |
| `JsonScan.NeverEndsTruncated` | cmd/gt-agent/orchestrated.go:4487-4523 | an object cut short is never taken for complete |
| `JsonScan.ExtractObjects` | cmd/gt-agent/orchestrated.go:4467-4485 | the loop collects exactly the accepted candidates, in order |
| `JsonScan.EmbeddedObjectIsExtracted` | cmd/gt-agent/orchestrated.go:4467-4485 | every acceptable object written anywhere in a reply is among them, verbatim |
| `JsonVerdict.ParseJson` | cmd/gt-agent/orchestrated.go:4395-4421 | the loop over the candidates returns the last outcome said |
| `JsonVerdict.OverallGoesFirst` | cmd/gt-agent/orchestrated.go:4395-4421 | the reply as a whole goes before a fenced block, and both before the objects found |
| `JsonVerdict.VerdictOfObjectIff` | cmd/gt-agent/orchestrated.go:4395-4421 | the verdict is the outcome of a given object if and only if the whole reply, or else a fenced block, or else the objects that start behind its opening brace say nothing else |
| `JsonVerdict.NestedOverrules` | cmd/gt-agent/orchestrated.go:4395-4421 | a nested object that starts last overrules the object around it |
| `Verdicts.NormalizeOutcome` | cmd/gt-agent/orchestrated.go:4549-4590 | the set of allowed outcomes and the chain of cases give the normalised outcome |
| `Verdicts.NormalIff` | cmd/gt-agent/orchestrated.go:4549-4590 | every outcome but the two failures is given for that very word if and only if the step lists it or lists nothing |
| `Verdicts.NormalIsStable` | cmd/gt-agent/orchestrated.go:4381-4393 | normalising again, as the callers do, changes nothing |
| `BeadTurns.StateRunner.AddBeadTurn` | cmd/gt-agent/implementation_progress.go:723-739 | the count goes up in memory and on disk; a failed save or a count over the limit stops the attempt |
| `BeadTurns.StateRunner.InitImplementationProgress` | cmd/gt-agent/implementation_progress.go:149-165 | a restart continues the stored record, or starts a new one with the default limit |
| `BeadTurns.RequestsWithinLimit` | cmd/gt-agent/implementation_progress.go:57-113 | over any interleaving of turns, saves, crashes and restarts that loses no record, requests for a bead plus its recorded turns stay within its limit |
| `BeadTurns.StaysWithinIff` | cmd/gt-agent/implementation_progress.go:57-113 | from any point of a run a bead stays within its first limit until the next loss if and only if it is within it now and neither the record in memory nor the stored one lets too many more turns through |
| `BeadTurns.LossAtStartIff` | cmd/gt-agent/implementation_progress.go:149-165 | a record passed over at the start does no harm exactly when the default allowance fits into what was left |
| `BeadTurns.RequestsWithLosses` | cmd/gt-agent/orchestrated.go:301-312 | over any run, each loss of the record buys at most one more allowance |
| `BeadTurns.LossesResetTheAllowance` | cmd/gt-agent/implementation_progress.go:57-77 | that bound is reached: `k` losses allow forty requests `k + 1` times |
| `TurnLoop.Runner.Execute` | cmd/gt-agent/orchestrated.go:292-612 | the loop with its mutable counters returns the specified outcome, exit, turn and number of requests |
| `TurnLoop.Runner.HandleJson` | cmd/gt-agent/orchestrated.go:444-549 | a verdict passes the guards in order, moving only the counters they own |
| `TurnLoop.Runner.CompletionRejectionLimitReached` | cmd/gt-agent/completion_progress.go:22-50 | changed contents restart the count, unreadable ones leave it |
| `TurnLoopGates.RequestsBounded` | cmd/gt-agent/orchestrated.go:292-612 | every run makes at most `maxTurns` requests |
| `TurnLoopGates.SuccessWasAccepted` | cmd/gt-agent/orchestrated.go:292-612 | any success outcome not completed automatically was accepted by artifact validation for that outcome in that turn |
| `TurnLoopGates.SayableIff` | cmd/gt-agent/orchestrated.go:4549-4590 | replies yield a success outcome if and only if the step lists it or lists nothing |
| `TurnLoopGates.OpenBeadGateIff` | cmd/gt-agent/state_runner.go:1043-1063 | with implementation artifacts no run over replies returns a given success outcome over open beads if and only if beads can be counted and validation looks at that outcome, or the step does not allow it |
| `TurnLoopGates.UncountedSlipsThrough` | cmd/gt-agent/orchestrated.go:2824 | with no title filter and no required files, a run that returns any given success outcome with a bead open, for which there is a reply exactly when the step allows that outcome |
| `TurnLoopGates.CompletedSlipsThrough` | cmd/gt-agent/orchestrated.go:2819-2839 | a run that returns `completed` with a bead open, for which there is a reply exactly when the step allows `completed` |
| `TurnLoopGates.JsonVerdictCounted` | cmd/gt-agent/implementation_guard.go:118-175 | a verdict sent without commands also passed the count of all open beads, unless that count failed |
| `TurnLoopGates.EndsIff` | cmd/gt-agent/orchestrated.go:292-612 | ending at a turn, told by the counters or by the loop, is the same |
| `TurnLoopGates.ProseBreakerIff` | cmd/gt-agent/orchestrated.go:552-571 | the prose breaker fires exactly when the prose-only turns since the last tool turn reach four, or eight for implementation |
| `TurnLoopGates.OpenBeadBreakerIff` | cmd/gt-agent/implementation_guard.go:118-175 | the open-bead breaker fires exactly at the fifth refusal of the attempt |
| `TurnLoopGates.BreakerCountsAllRefusals` | cmd/gt-agent/implementation_guard.go:166-175 | five refusals with working turns between them trip it |
| `TurnLoopGates.NoProgressIff` | cmd/gt-agent/completion_progress.go:22-50 | the completion breaker fires exactly when a readable rejection makes the run of equal contents as long as the limit |
| `TurnLoopGates.UnchangedMeaning` | cmd/gt-agent/completion_progress.go:22-50 | that run is at least `n` long exactly when the last `n` readings are equal |
| `CmdFailures.NormalizedCmdKey` | cmd/gt-agent/orchestrated_exec.go:1566-1573 | the collapsing loop terminates with every run of blanks squeezed to one |
| `CmdFailures.KeyIsNormal` | cmd/gt-agent/orchestrated_exec.go:1566-1573 | a key has no tab, no double blank, no outer white space, and is its own key |
| `CmdFailures.Tracker.After` | cmd/gt-agent/orchestrated_exec.go:1633-1642 | a loop is reported exactly on a time-out whose count reaches three |
| `CmdFailures.CounterIsStreak` | cmd/gt-agent/orchestrated_exec.go:1575-1587 | over any history the counter of a key is its time-outs since it last finished in time |
| `CmdFailures.FinishForgets` | cmd/gt-agent/orchestrated_exec.go:1582-1587 | a timely finish wipes out everything before it |
| `AttemptLog.Log.Record` | cmd/gt-agent/orchestrated.go:269-284 | one record appends and cuts as specified |
| `AttemptLog.LogIsBoundedWhole` | cmd/gt-agent/orchestrated.go:269-284 | after any records the log is their concatenation, or the marker and exactly its last 6000 characters |
| `RetryRecord.Agent.Handle` | cmd/gt-agent/orchestrated.go:132-150 | one pass of the agent loop sets, clears and saves the record as specified |
| `RetryRecord.Agent.UpdateRetryAfterComplete` | cmd/gt-agent/orchestrated.go:858-899 | leaving a step clears its record, a failure that stays stores one, anything else that stays clears it |
| `RetryRecord.AlwaysRecentIff` | cmd/gt-agent/orchestrated.go:858-899 | stored records are made by the most recent completion or completion error of their pair throughout a history if and only if every restart finds a file without a record or with one for the step that memory has one for |
| `RetryRecord.RecordIsRecent` | cmd/gt-agent/orchestrated.go:858-899 | under that condition a stored record was made by the most recent completion or completion error of its pair, a failure that stayed or a non-spurious error |
| `RetryRecord.CleanRestartsAgree` | cmd/gt-agent/main.go:286-305 | the condition holds where no restart follows a write that did nothing |
| `RetryRecord.HarmlessWriteAgrees` | cmd/gt-agent/main.go:286-305 | and in a history where such a write lost nothing |
| `RetryRecord.LastReportKeepsIff` | cmd/gt-agent/orchestrated.go:92-97 | counting reports without a rig, the most recent report on the pair of a stored record is such a failure or error if and only if it was not made without a rig |
| `RetryRecord.RecordSurvivesIff` | cmd/gt-agent/orchestrated.go:858-899 | whatever the files, a failure not settled since is still stored if and only if every restart read it back |
| `RetryRecord.RecentIsRecord` | cmd/gt-agent/orchestrated.go:858-899 | so it is when every restart finds the file as last written |
| `RetryRecord.StaleFileReplays` | cmd/gt-agent/main.go:286-305 | a write that did nothing brings a settled failure back after a restart |
| `RetryRecord.RiglessReportReplays` | cmd/gt-agent/orchestrated.go:92-97 | a history in which a step is reported again without a rig and its old failure stays stored |
| `Hanoi.Solver.Solve` | scripts/gen_hanoi.py:26-32 | the recursion appends exactly the specified moves to the shared list |
| `Hanoi.MovesSolve` | scripts/gen_hanoi.py:23-34 | replaying the list is legal throughout and takes the whole tower from A to C |
| `Hanoi.EveryPrefixLegal` | scripts/gen_hanoi.py:23-34 | after every prefix all pegs are ordered and no disk is lost |
| `Hanoi.MovesLength` | scripts/gen_hanoi.py:23-34 | the list has 2^n - 1 moves |
| `HanoiMinimal.NoneShorter` | scripts/gen_hanoi.py:23-34 | no legal sequence that brings the tower to C is shorter |
| `HanoiFormula.GenerateFormula` | scripts/gen_hanoi.py:79-99 | the loop emits setup, one step per move and verify, each needing the one before |
| `HanoiFormula.ExecutionsFollowChain` | scripts/gen_hanoi.py:79-99 | in every execution the closed steps are a prefix of the chain |
| `HanoiFormula.ExactlyOneReady` | scripts/gen_hanoi.py:79-99 | exactly one unclosed step is ready until all are closed |
| `HanoiFormula.ResumesToTheEnd` | scripts/gen_hanoi.py:79-99 | from any crash point, closing ready steps replays the remaining moves legally and ends at verify with the tower on C |
| `AllowList.BuildAllowedSubcmds` | cmd/gt-proxy-server/config.go:199-210 | the map is printed in some order of its keys, each once |
| `AllowList.ParseAllowedSubcmds` | cmd/gt-proxy-server/config.go:212-242 | the loops build the map the text specifies |
| `AllowList.ParseIsWellFormed` | cmd/gt-proxy-server/config.go:212-242 | whatever is parsed, commands and subcommands are non-empty, trimmed and free of separators |
| `AllowList.ParseBuildIff` | cmd/gt-proxy-server/config.go:199-242 | printed in any order, a map parses back to itself if and only if it is well-formed |
| `AllowList.ParseBuildParse` | cmd/gt-proxy-server/config.go:199-242 | parse(build(parse(s))) is parse(s), for every text and order |
| `CiState.ClassifyIsFold` | scripts/ci_state_classifier.py:77-100 | the classification is the maximum of single-check verdicts |
| `CiState.ClassifyJoins` | scripts/ci_state_classifier.py:77-100 | classifying a concatenation takes the worse verdict, so one more check never improves it |
| `CiState.ClassifyIgnoresOrder` | scripts/ci_state_classifier.py:77-100 | order and repetition of checks do not matter |

## Left out

- The regular expressions and substring lists that classify narration, listings, step lines, junk lines and policy checks: they are parameters.
- ScriptEscapes.PreparationKeepsDocsIff: about the here-documents of the unwrapped command, and on commands in which the two respelling passes (cmd/gt-agent/orchestrated_exec.go:38-39) find nothing to respell.
- ScriptEscapes.EscapeIsLost: on the same commands.
- JsonVerdict.ParseJson: the decoding of a candidate and the fenced block are parameters, and so are the outcome lines in `Verdicts.Parsed`.
- Reply preprocessing before the parsers, and the learning directives: line rewriting that would add easy members.
- Path sanitising and path validity of native edits: functions of the parser's configuration; a printable path is one they leave alone.
- The `replaceAll` way of applying an edit, Go formatting checks, and the suggestions for blocks that do not match.
- NativeEditPrint.ParsePrint: for lists only the direction from printable to restored; for an operation on its own `NativeEditSurvive.SurvivesIff` has both.
- NativeEdit.ParseNativeEdits: each line is classified once before the loops, which then read the classification; the source looks at the text of the line inside the loops.
- DiffHunks.ExtractSearchReplace: lines are classified before the loop in the same way.
- DiffApply.DiskFile.ApplyUnifiedDiffPatch: a write that fails half way leaves arbitrary text, as `os.WriteFile` may; removing a duplicate file with another letter case is not modelled.
- TurnLoop.Runner.Execute: the messages sent to the model, hints and prompts; `tryAutoOutcome` exits are taken as given.
- TurnLoop.Runner.CompletionRejectionLimitReached: the fingerprint is the contents, so hash collisions do not occur.
- BeadTurns.StateRunner.AddBeadTurn: retries inside the HTTP client count as one request, and turns without a progress record are not counted, as in the source.
- Unicode case mapping and byte lengths: case mapping is ASCII and a character has length one.
- The language-model client, subprocesses, process groups, NATS, beads, logging, locking and platform files.
- Newsletter, endpoint, rig and workflow-instance scripts, the agent console, and the proxy's TLS handling.
