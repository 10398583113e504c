# Verified models of TclDTrace

TclDTrace is a Tcl extension that gives scripts access to libdtrace. It ships the doctools
documentation toolchain with which its manual is built. This project models the parts of both that
keep state from one step to the next, and proves what that state guarantees.

The three document checkers are state machines fed one macro at a time. `Machines` holds what they
share: the run of a step function, and `RunIsParse`, which says that a machine and a parser that agree on
every step agree on every document. Each checker is then compared with trees. `Spell` turns a tree into
macros; the language theorems say that the checker accepts a document if and only if, noise such as
comments and blank text left out, it is the spelling of a tree.

- `TocChecker` and `TocGrammar`: the pushdown automaton for tables of contents. Its language is the trees of
  divisions, nested without bound.
- `IndexChecker`: the checker for keyword indices and its language.
- `ManpageState`, `ManpageGrammar`, `SectionNumbering` and `ManpageChecker`: the manpage checker. The first two
  treat document state and list contexts, the third the numbering of sections over several passes and the
  references to them, and the fourth the commands that change the globals.
- `CvsLog`, `CvsCollector`: collecting the revisions of cvs logs and printing them as a ChangeLog. `CvsFormat` is the
  text of a cvs log and what is read of it, `PrintedText` the text of the ChangeLog.
- `ChangeLog`, `ChangeLogMerge`, `ChangeLogDoctools`: scanning ChangeLogs, merging them, and turning them into a
  manpage. `ItemLines` is what the lines of a ChangeLog give, `ChangeLogContent` what the manpage says, and
  `QuotedArgument` what the interpreter makes of an author's name in it.
- `SectionReading`, `RoundTrip`: when scanning a printed ChangeLog gives back what was printed. `TclText`,
  `TrimmedLines`, `Textutil` and `Sorting` supply string and list commands, and the indentation of
  comments.
- `Registry`, `Aggregations`, `HandleBuffers`: the bookkeeping of the C part. That is the tables of handles and programs,
  the assembly of aggregations from single records, the trimmed texts and the growing vector of processes.
- `Bitmap`: the bit macros.

A class holds the globals or the structure that the source updates, and its methods change them in the same
order. Each method is tied to a function on values; the lemmas are about these functions. The setters of the checkers
(`Go`, `Push` and `Pop` of the table of contents, `LPush` and `LPop` of the manpage, their initialization) are methods too,
with their new state as contract. They serve the commands, and the table below does not list them.

Some results show what the code does not do:

- The table of states in the comment of `checker_toc.tcl` has neither `division_end` nor `item` in the state
  `div_series`, and it enters a state `division`. The code allows both macros there and never enters that state.
  The model follows the code.
- `LPush` saves the item flag without resetting it. So only an outermost list has to start with an item
  (`ManpageGrammar.NestedListNeedsNoItem`).
- `ck_initialize` of the manpage checker unsets a local `sectt`, so titles survive from document to document. Every id
  has a title, but a title has an id only if the document defines it (`SectionNumbering.SameKeysIff`, with a second document
  that leaves a stale title in `SectionNumbering.StaleTitle`).
- The two passes give the same physical ids exactly when the logical ids of the document are unique.
- A comment with a blank line inside it, or with a line that starts with `* `, does not survive printing and scanning;
  every other one does (`RoundTrip.BlankLineNotRead`).
- `merge` loses a day exactly when two different days have the same date and author once joined by a comma
  (`ChangeLogMerge.DayLost` at two entries). For the
  same reason a ChangeLog can name tuples that no revision has; none is ever lost (`CvsLog.NothingLost`,
  `CvsLog.ConservationIff`, and two revisions that invent a third in `CvsLog.CommasInvent`).
- A scan of a cvs log that reaches a date before any file name stops between its appends. `toChangeLog` can print what it
  leaves exactly if a file is already on record for that day and comment (`CvsLog.ScanCompleteIff`; both outcomes at one log
  in `CvsLog.StoppedScan`).
- The generator protects the double quotes in an author and nothing else. A bracket in an author runs a script and a dollar
  sign reads a variable: where that fails, the manpage is rejected (`ChangeLogDoctools.BracketedAuthor`, `DollarAuthor`). A
  double quote after two backslashes escapes its escaping (`QuotedArgument.TwoBackslashesFail`).
- A backslash at the end of an author takes the closing quote of its word, and the expander looks for the end of the macro in
  the lines after it. If no section text there holds a double quote or a name in braces, there is none and the manpage is
  rejected (`ChangeLogDoctools.BackslashAuthor`). But section texts are written with their quotes as they are: one of
  them may end the word, and the rest of the text becomes a command. Then the manpage can be accepted
  (`ChangeLogDoctools.LaterQuoteAccepted`).
- `cutWhiteSpace` has no defined result for a text of blanks only, where it reads a variable it never set, and for a
  text that fills its buffer, where it writes behind it (`HandleBuffers.BlankText`, `HandleBuffers.LongText`).
- Closing any handle, or failing to open one, makes the programs of all handles unusable.
- An aggregation print that fails between a key and its value spoils the first tuple of the next print that has one, and
  nothing else (`Aggregations.ListsRightIff`).

## Model

| member | source | states |
|---|---|---|
| TocGrammar.Language | tools/doctools/checker_toc.tcl:122-226 | a document runs from initialize to a successful complete without an error if and only if its text is blank, its comments come before `toc_end`, and the rest spells a tree `toc_begin (item+ or division+) toc_end`, where a division is `division_start division* item* division_end` |
| TocGrammar.StepIsExtend | tools/doctools/checker_toc.tcl:186-226 | in every configuration that belongs to a tree under construction, a macro is accepted exactly when some tree continues with it, and then leads to the configuration of the longer tree |
| TocGrammar.ParsesToc | tools/doctools/checker_toc.tcl:186-222 | the spelling of any well-formed tree is parsed back to that tree |
| TocGrammar.Unambiguous | tools/doctools/checker_toc.tcl:186-222 | two trees with the same spelling are equal |
| TocGrammar.ReachableShape | tools/doctools/checker_toc.tcl:122-149 | in every reachable configuration the stack is `end` below any number of `div_series`, it is not empty exactly in the states `div_series` and `div_items`, and the state is neither `division` nor empty; so `done` means no open division |
| TocChecker.Checker.Begin | tools/doctools/checker_toc.tcl:186-191 | the state change or the error that Step prescribes for `toc_begin`, nothing else changed |
| TocChecker.Checker.End | tools/doctools/checker_toc.tcl:192-197 | the same for `toc_end` |
| TocChecker.Checker.StartDivision | tools/doctools/checker_toc.tcl:198-206 | the same for `division_start`, with the state to return to on the stack |
| TocChecker.Checker.EndDivision | tools/doctools/checker_toc.tcl:207-212 | the same for `division_end`, in `div_series` as well as in `div_items` |
| TocChecker.Checker.AddItem | tools/doctools/checker_toc.tcl:213-222 | the same for `item`, in all four states that take one |
| TocChecker.Checker.Expand | tools/doctools/checker_toc.tcl:152-226 | every macro, plain text and comments included, does what Step says |
| TocChecker.Checker.Format | tools/doctools/doctoc.tcl:387-403 | a pass over a document succeeds exactly when the document is accepted, and otherwise reports the first error |
| TocChecker.Refusals | tools/doctools/checker_toc.tcl:152-222 | each command refuses with its own error, and text only for a character that is no blank, tab or newline |
| IndexChecker.Language | tools/doctools/checker_idx.tcl:108-205 | the checker accepts exactly `index_begin (key (manpage or url)+)+ index_end`, with comments before `done` and blank text anywhere |
| IndexChecker.StepIsExtend | tools/doctools/checker_idx.tcl:172-205 | each step of the checker is the growth of an index by one macro |
| IndexChecker.ParsesIndex | tools/doctools/checker_idx.tcl:172-201 | the spelling of any index is parsed back to it |
| IndexChecker.Checker.Begin | tools/doctools/checker_idx.tcl:172-177 | the state change or the error that Step prescribes for `index_begin` |
| IndexChecker.Checker.End | tools/doctools/checker_idx.tcl:178-183 | the same for `index_end` |
| IndexChecker.Checker.AddKey | tools/doctools/checker_idx.tcl:184-189 | the same for `key` |
| IndexChecker.Checker.AddReference | tools/doctools/checker_idx.tcl:190-201 | the same for `manpage` and `url`, each with its own error |
| IndexChecker.Checker.Expand | tools/doctools/checker_idx.tcl:138-205 | every macro does what Step says |
| IndexChecker.Checker.Format | tools/doctools/checker_idx.tcl:124-135 | a pass between initialize and complete succeeds exactly when the document is accepted, and otherwise reports the first error |
| IndexChecker.Refusals | tools/doctools/checker_idx.tcl:138-201 | each command refuses with its own error, and text only for a character that is no blank, tab or newline |
| Machines.RunIsParse | tools/doctools/doctools.tcl:474-490 | a machine that agrees with a parser step by step survives a document exactly when the noise of the document is allowed and the rest of it parses, and then stands where the parsed tree puts it |
| ManpageGrammar.Language | tools/doctools/checker.tcl:136-245 | a document is accepted if and only if, inline macros before `manpage_end` and blank text aside, it is a header, `description`, a body of well-nested lists with items of their own kind, headings outside lists, examples of text only, in which each outermost list starts with an item, and `manpage_end` |
| ManpageGrammar.StepIsExtend | tools/doctools/checker.tcl:236-517 | each macro is accepted exactly when a page under construction continues with it, and has the effect of the longer page on document state, list contexts and item flag; macros that leave no trace have no effect; the longer page is spelled with the macro at its end |
| ManpageGrammar.ParsesPage | tools/doctools/checker.tcl:271-503 | the spelling of any well-formed page is parsed back to it |
| ManpageGrammar.Unambiguous | tools/doctools/checker.tcl:271-503 | two pages with the same spelling are equal |
| ManpageGrammar.ReachableFlags | tools/doctools/checker.tcl:139-160 | in every reachable state the deepest saved flag is unset and all others are set, two open lists imply a set item flag, and no open list an unset one |
| ManpageGrammar.NestedListNeedsNoItem | tools/doctools/checker.tcl:139-143 | a page whose inner list starts with text and no item is well formed and is read |
| ManpageState.StepContexts | tools/doctools/checker.tcl:384-400 | only `list_begin` and `list_end` change the list contexts, by one at the inner end |
| ManpageState.InwardKeepsContexts | tools/doctools/checker.tcl:139-160 | a run that closes no list opened before it keeps the contexts it started with, below those it opened |
| ManpageState.ListIsFrame | tools/doctools/checker.tcl:384-400 | from any `list_begin` to its matching `list_end`, over every run between them, list contexts and item flag come back to what they were |
| ManpageState.ListWords | tools/doctools/checker.tcl:162-192 | where a list may begin, it begins with exactly the words of some item macro, and any other word is an invalid list |
| ManpageState.ItemsByWord | tools/doctools/checker.tcl:402-486 | in every run inside a list each item macro is taken exactly if the list began with one of its own words: `options`, `opt` or `opts` for `opt_def`, `tkoptions` or `tkoption` for `tkoption_def`, and so on for all eight |
| ManpageState.ItemRefused | tools/doctools/checker.tcl:402-486 | otherwise it is refused with the error that names its type of list |
| ManpageState.Refusals | tools/doctools/checker.tcl:271-503 | every other refusal, by macro: the test of the state comes before those of the lists, and decides the error |
| ManpageState.TextPasses | tools/doctools/checker.tcl:236-245 | text of blanks, tabs and newlines passes everywhere; any other character makes it text that the body and examples take, not before the first item |
| ManpageState.Endings | tools/doctools/checker.tcl:220-233 | a run is accepted if and only if it has no error, is at its end and out of all lists; an error-free run that is not has one of three errors |
| SectionNumbering.FirstPass | tools/doctools/checker.tcl:339-372 | the first pass misses no key, counts sections and subsections separately, and keeps for each logical id the physical id of its last heading |
| SectionNumbering.CountedDistinct | tools/doctools/checker.tcl:356-365 | the physical ids of a first pass are pairwise distinct |
| SectionNumbering.LaterPassUpTo | tools/doctools/checker.tcl:339-372 | up to any heading of a later pass no key is missing, `sect` is unchanged, and each heading got the entry of its logical id |
| SectionNumbering.LaterPass | tools/doctools/checker.tcl:339-372 | after the ids of a first pass, every later pass gives each heading the physical id of the last heading with its logical id |
| SectionNumbering.TwoPasses | tools/doctools/checker.tcl:206-219 | for any document: both passes succeed, ids of the first are distinct, those of the second are those of the last heading with the same logical id, and the passes agree if and only if the logical ids are unique |
| SectionNumbering.DefineAppends | tools/doctools/checker.tcl:339-372 | the physical ids given before a heading have no influence on those given from it on |
| SectionNumbering.PassTitled | tools/doctools/checker.tcl:206-219 | after any pass every id in `sect` has a title in `sectt`, also when titles of earlier documents are still there |
| SectionNumbering.PassTitles | tools/doctools/checker.tcl:366-371 | after any pass `sectt` is what it was before, with each logical id of the document set to the title of its last heading, and the current section is that of the last heading |
| SectionNumbering.ForwardReferences | tools/doctools/checker.tcl:554-604 | at any point of the second pass over any document a reference by a logical id of the document, before or after its heading, resolves to the physical id given to it |
| SectionNumbering.ForwardTitles | tools/doctools/checker.tcl:608-614 | at any point of the second pass, where logical ids are unique, the title on file for a logical id is that of its heading |
| SectionNumbering.CurrentSectionReference | tools/doctools/checker.tcl:578-602 | at any point of the second pass over any document, a reference by the title of a subsection without id, from the section it belongs to, resolves to that subsection, whatever else has this title, unless the title is an id or that of a section; assumed is only that the pattern of the title matches the id |
| SectionNumbering.IdIs | tools/doctools/checker.tcl:344-350 | the logical id of every heading by the headings alone: its own id, or the list of the title of a section, or the list of the id of the last section before a subsection and of its title |
| SectionNumbering.SectionTitleReference | tools/doctools/checker.tcl:570-577 | at any point of the second pass, a reference by the title of a section without id resolves to that section, unless the title is an id |
| SectionNumbering.PatternReference | tools/doctools/checker.tcl:578-602 | a reference by anything else leads nowhere if no id matches its pattern, and otherwise to an id that does |
| SectionNumbering.SameKeysIff | tools/doctools/checker.tcl:206-219 | after a first pass ids and titles have the same keys if and only if every title that was there before belongs to an id of the document |
| SectionNumbering.TitleStays | tools/doctools/checker.tcl:206-219 | an id of one document that the next does not define keeps its title and loses its physical id |
| SectionNumbering.StaleTitle | tools/doctools/checker.tcl:206-219 | so it is after a document with a section and one without |
| ManpageChecker.DescriptionFirst | tools/doctools/checker.tcl:303-337 | in every error-free run the first heading is the one of `description`, and there is one exactly when the body was reached; so no subsection lacks a section |
| ManpageChecker.HeadingAdded | tools/doctools/checker.tcl:303-337 | a document has one heading for its description, under the id `description`, and one for each section and subsection, under its title and id, in their order |
| ManpageChecker.Checker.Initialize | tools/doctools/checker.tcl:206-219 | resets state, list contexts and counters, `sect` in the first pass only, and `sectt` and the current section never |
| ManpageChecker.Checker.Complete | tools/doctools/checker.tcl:220-233 | succeeds in `done` without open lists, otherwise one of three errors |
| ManpageChecker.Checker.Sectdef | tools/doctools/checker.tcl:339-372 | files the heading under its logical id as Record says, in the first pass with a new number, and answers with the physical id on file |
| ManpageChecker.Checker.Headline | tools/doctools/checker.tcl:303-337 | one heading is one step of the numbering; every id has a title and there is a current section afterwards |
| ManpageChecker.Checker.Reference | tools/doctools/checker.tcl:554-619 | in every valid state no lookup misses a key; the formatter gets a physical id and a text that belong to a target the rules allow |
| ManpageChecker.Checker.PlainText | tools/doctools/checker.tcl:236-245 | blank text passes everywhere, other text in the body and in examples, not before the first item |
| ManpageChecker.Checker.BodyMacro | tools/doctools/checker.tcl:374-486 | paragraphs, lists and items do what Step says, with the same error in the same order of tests |
| ManpageChecker.Checker.ExampleMacro | tools/doctools/checker.tcl:487-503 | the same for examples; `example` is its three parts in a row |
| ManpageChecker.Checker.FrameMacro | tools/doctools/checker.tcl:271-302 | the same for the begin and the end of the page and its header |
| ManpageChecker.Checker.TextMacro | tools/doctools/checker.tcl:504-553 | the same for external references, markup and text, which change nothing |
| ManpageChecker.Checker.HeadingMacro | tools/doctools/checker.tcl:303-337 | a heading changes the state as Step says and files one id, after the tests of state and lists |
| ManpageChecker.Checker.Expand | tools/doctools/checker.tcl:271-690 | each macro changes the control globals as Step says and the numbering globals as its heading says, and nothing else; a macro that the interpreter cannot evaluate is an error |
| ManpageChecker.Checker.RunPass | tools/doctools/doctools.tcl:470-490 | a pass succeeds exactly when the document is accepted and no heading misses a key, and hands out the ids of that pass |
| ManpageChecker.Checker.Format | tools/doctools/doctools.tcl:462-491 | with any number of passes, formatting succeeds exactly when the document is accepted, and the last pass hands out the ids that the passes determine |
| ManpageChecker.SecondPassReaches | tools/doctools/doctools.tcl:470-490 | the numbers that the second pass over an accepted document has when it reaches a macro |
| ManpageChecker.ReferenceInDocument | tools/doctools/checker.tcl:554-619 | a reference anywhere in an accepted document by the logical id of one of its headings: in the second pass the formatter gets the physical id that this pass gives to the heading, and as text the title of the reference or, where ids are unique, that of the heading |
| CvsLog.ScanCollects | tools/doctools/cvs.tcl:39-78 | a scan from any line adds exactly the revisions it reads; it ends at the end of the text, or without a day, or between its appends with the day and comment of one more |
| CvsLog.CollectedHolds | tools/doctools/cvs.tcl:69-72 | after any revisions the list of days and both arrays hold exactly what the revisions say, and no list in them is empty |
| CvsLog.CollectedComplete | tools/doctools/cvs.tcl:100-118 | after any number of scans every day has comments and every comment files, so that printing reads no missing key |
| CvsLog.ScanSucceedsIff | tools/doctools/cvs.tcl:48-72 | a scan succeeds if and only if its log has no date line, or a file is named before the first one and that line gives date and author |
| CvsLog.ScanCompleteIff | tools/doctools/cvs.tcl:48-72 | from every collected log and every line, what a scan leaves can be printed without a missing key if and only if the scan got to the end, or stopped before its first append, or stopped at a day and comment with a file on record |
| CvsLog.StoppedScan | tools/doctools/cvs.tcl:48-72 | a log of one date line: scanned first it stops and leaves a log that cannot be printed, scanned after a file of that day and comment it leaves one that can |
| CvsLog.ScanTextsCollects | tools/doctools/cvs.tcl:39-78 | any number of scans into the same variables add the revisions of all texts in order |
| CvsLog.KeysInjective | tools/doctools/cvs.tcl:69-72 | without commas in dates and authors, different days and comments have different array keys |
| CvsLog.NamedIsLogged | tools/doctools/cvs.tcl:105-128 | whatever the printed groups name is in the log |
| CvsLog.LoggedIsNamed | tools/doctools/cvs.tcl:105-128 | whatever is in the log is named by the printed groups |
| CvsLog.Conservation | tools/doctools/cvs.tcl:39-131 | where no keys of different days or comments coincide, the printed groups name exactly the tuples of date, author, comment and file that were scanned |
| CvsLog.NothingLost | tools/doctools/cvs.tcl:39-131 | every revision scanned is named, whatever its date and author |
| CvsLog.ConservationIff | tools/doctools/cvs.tcl:69-72 | the printed groups name nothing but the revisions if and only if, wherever array keys coincide, the mixture of the revisions was scanned too |
| CvsLog.NamedIff | tools/doctools/cvs.tcl:105-128 | a tuple is named exactly when its day, its comment and its file come from revisions under the same array keys |
| CvsLog.CommaFreeNoClash | tools/doctools/cvs.tcl:69-72 | without commas in dates and authors no keys coincide |
| CvsLog.CommasInvent | tools/doctools/cvs.tcl:69-72 | two revisions with commas, whose change log names a tuple that neither has |
| CvsLog.GroupsSorted | tools/doctools/cvs.tcl:105-128 | days come once in decreasing order, comments once in increasing order, and files once in increasing order and at least one |
| CvsCollector.Collector.ScanLog | tools/doctools/cvs.tcl:39-78 | terminates; when it succeeds, the caller's variables are what they were with the revisions of the text added |
| CvsCollector.Collector.ReadRevision | tools/doctools/cvs.tcl:54-72 | a date line and its comment add one revision, or stop at the first unset variable |
| CvsCollector.Collector.ReadComment | tools/doctools/cvs.tcl:58-67 | the comment is all lines before the next separator, or before the end of the log, and the index stands there |
| CvsCollector.Collector.Record | tools/doctools/cvs.tcl:69-72 | the three appends, of which the last one fails without a file name |
| CvsCollector.Collector.ToChangeLog | tools/doctools/cvs.tcl:100-131 | succeeds exactly when no key is missing, and then prints the groups of the log |
| CvsCollector.Collector.PrintDay | tools/doctools/cvs.tcl:105-127 | the lines of one day, or a missing key |
| CvsCollector.Collector.PrintSection | tools/doctools/cvs.tcl:116-126 | the lines of one comment with its files, or a missing key |
| CvsFormat.ScanReadsLog | tools/doctools/cvs.tcl:39-78 | for every cvs log, given as files with their check-ins, each with date, time, author and comment lines, with rules of dashes or equal signs between them and other lines anywhere else: scanning its text reads exactly the check-ins, in order, under their files, and gets to the end |
| CvsFormat.FileLineIs | tools/doctools/cvs.tcl:50-54 | a line with `Working file:` anywhere names a file, before it is looked at as a date; the name is all that comes after the first such mark with a blank, and without one the last file stays |
| CvsFormat.SemicolonsOff | tools/doctools/cvs.tcl:56 | semicolons go from both ends of an author |
| CvsFormat.ShortDateLine | tools/doctools/cvs.tcl:55 | a date line that stops after the date, or has no author after its time, leaves the author of the last one; without a date it leaves both |
| PrintedText.PrintedGroups | tools/doctools/cvs.tcl:105-131 | the printed log, group after group with a newline between them |
| PrintedText.PrintedDay | tools/doctools/cvs.tcl:107-110 | a day begins with its date, a blank and its author, and an empty line |
| PrintedText.PrintedSection | tools/doctools/cvs.tcl:116-126 | each comment adds a line for each file, of a tab, a star, a blank, the name and a colon, then the indented comment and an empty line |
| PrintedText.CommentPrinted | tools/textutil/adjust.tcl:683-737 | the lines of a printed comment: a tab and two blanks, and the line without the margin that all lines have, so that they keep their distance; blank lines are empty, and those at the end are gone |
| Sorting.FirstDifference | tools/doctools/cvs.tcl:114-118 | strings are sorted by the first character in which they differ, and a beginning comes before the whole |
| Textutil.IndentUndent | tools/textutil/adjust.tcl:683-737 | indenting undented text gives, line by line, the text without the blank lines at its end: blank lines empty, the others with the prefix and otherwise changed in outer blanks only |
| Textutil.UndentSame | tools/textutil/adjust.tcl:708-737 | undenting changes each line in outer blanks only |
| ChangeLog.Scanner.DoCloseSection | tools/doctools/changelog.tcl:119-131 | turns pending files and comment into a section, if there are any |
| ChangeLog.Scanner.DoCloseEntry | tools/doctools/changelog.tcl:133-146 | reports the entry, unless it is the first call, and clears what was pending |
| ChangeLog.Scanner.StripParens | tools/doctools/changelog.tcl:95-106 | terminates, since each round shortens the name, and leaves no opening parenthesis |
| ChangeLog.Scanner.Line | tools/doctools/changelog.tcl:49-112 | what one line does to the variables of scan, for every way of reading a header line with list characters as a list |
| ChangeLog.Scanner.Scan | tools/doctools/changelog.tcl:39-116 | the entries of a text are those of its lines fed in order |
| ChangeLog.FeedAllClean | tools/doctools/changelog.tcl:84-112 | at every line, no file name gathered so far is empty or holds an opening parenthesis |
| ChangeLog.FileNamesClean | tools/doctools/changelog.tcl:84-112 | whatever the text, no file name that scan reports is empty or holds an opening parenthesis |
| ItemLines.NamedItem | tools/doctools/changelog.tcl:81-112 | an item line of a name, any details in parentheses, a colon and a text: the name joins the files, and the details and the text, trimmed at the right, the comment |
| ItemLines.OpenDetail | tools/doctools/changelog.tcl:93-108 | a parenthesis that is not closed takes the rest of the name into the comment |
| ItemLines.NamelessItem | tools/doctools/changelog.tcl:88-92 | an item without a colon adds its text and no file |
| ItemLines.TextLine | tools/doctools/changelog.tcl:112 | any other line adds its text |
| ItemLines.BlankLine | tools/doctools/changelog.tcl:72-76 | a blank line ends the section, if files or text are pending |
| ItemLines.HeaderLine | tools/doctools/changelog.tcl:51-66 | a header line ends the entry before it and begins one with its first word as date and the others as author |
| ItemLines.ListHeaderLine | tools/doctools/changelog.tcl:58-61 | a header line that Tcl reads as a list gives the trimmed parts |
| ItemLines.OddHeaderLine | tools/doctools/changelog.tcl:61-65 | and one that it does not read so is taken apart at its first blank |
| SectionReading.SectionFed | tools/doctools/changelog.tcl:71-112 | scanning a printed section adds what it is read back as and leaves nothing pending, whatever came before |
| SectionReading.ReadBackExact | tools/doctools/cvs.tcl:116-126 | with plain file names, a printed section is read back as at least one section, and as itself with every comment line trimmed if and only if no line of its comment is blank or starts an item, up to the last line that is not blank |
| SectionReading.ItemsShow | tools/doctools/changelog.tcl:84-109 | comment lines without blank ones come back as they were exactly when none of them is an item |
| SectionReading.BlankSplits | tools/doctools/changelog.tcl:75-79 | a blank line inside a comment splits its section in two or more |
| SectionReading.FileNameIff | tools/doctools/changelog.tcl:84-109 | a printed file line adds exactly the file it names if and only if the name is not empty, has no opening parenthesis, and no blank or tab follows a colon in it |
| TrimmedLines.SameLines | tools/doctools/changelog.tcl:127 | two texts with as many lines, one of them without blank lines, can be equal after trimming only if their lines are |
| RoundTrip.ScanPrinted | tools/doctools/changelog.tcl:39-146 | scanning a printed log gives one entry for each day in order, made of what its sections are read back as |
| RoundTrip.PrintedExact | tools/doctools/changelog.tcl:39-146 | scanning printed groups gives exactly these groups if and only if every comment in them is plain: one section cannot make up for another |
| RoundTrip.ScanOfChangeLog | tools/doctools/cvs.tcl:100-131 | for every collected log with plain dates and authors and with file names that are read back: printing and scanning gives the days in decreasing order with their comments and files, sorted and unique, comments equal up to blanks at line ends, if and only if every comment collected is plain |
| RoundTrip.BlankLineNotRead | tools/doctools/changelog.tcl:39-146 | a log of one revision whose comment has a blank line inside it is not read back |
| RoundTrip.FromCvsTexts | tools/doctools/cvs.tcl:39-131 | from any number of cvs logs, none of which stops the scan, to the entries scanned from their change log: it can be printed, names every revision, names nothing else exactly where the revisions are closed under coinciding array keys, and is read back exactly when all comments are plain |
| ChangeLogMerge.Merge | tools/doctools/changelog.tcl:153-186 | nothing for no logs, a single log unchanged, otherwise all entries pooled by day |
| ChangeLogMerge.MergeFew | tools/doctools/changelog.tcl:155-156 | no logs give none, and a single log stays as it is |
| ChangeLogMerge.MergeUp | tools/doctools/changelog.tcl:161-175 | the array after all entries of all logs, in argument order |
| ChangeLogMerge.MergeEntry | tools/doctools/changelog.tcl:164-174 | one entry: a new array element, or its sections appended to one |
| ChangeLogMerge.ListAll | tools/doctools/changelog.tcl:179-185 | the array elements in the order of the sorted days |
| ChangeLogMerge.CommaFreeNoClash | tools/doctools/changelog.tcl:166 | dates without commas name their days apart |
| ChangeLogMerge.PooledFlattens | tools/doctools/changelog.tcl:161-185 | for any naming of array elements that keeps days apart, pooling lists each day once, in decreasing order, with all its sections in order |
| ChangeLogMerge.FlattensOnce | tools/doctools/changelog.tcl:177-185 | only one list of entries does that |
| ChangeLogMerge.MergeFlattens | tools/doctools/changelog.tcl:153-186 | merging two or more logs gives strictly decreasing days, exactly those mentioned, each with the concatenation of its sections in argument order |
| ChangeLogMerge.DaysKeptIff | tools/doctools/changelog.tcl:161-175 | merging keeps every day if and only if no two different days have the same array name |
| ChangeLogMerge.DayLost | tools/doctools/changelog.tcl:166-170 | two days that have the same name: the second is not in the result, its sections are listed under the first |
| ChangeLogMerge.MergeAssociates | tools/doctools/changelog.tcl:153-186 | merging in two steps, from the left or from the right, equals merging at once |
| ChangeLogDoctools.ToDoctools | tools/doctools/changelog.tcl:202-255 | writes the document line by line; an item whose author leaves its word without an end is a macro without an end in its line, and `Generated` says what the expander makes of the lines after it |
| ChangeLogDoctools.EntryToLines | tools/doctools/changelog.tcl:211-249 | the lines of one entry: its item, after the macros that its author runs, or a macro without an end; then those of its sections |
| ChangeLogDoctools.SectionsToLines | tools/doctools/changelog.tcl:220-248 | the lines of its sections |
| ChangeLogDoctools.SectionToLines | tools/doctools/changelog.tcl:221-247 | the lines of a section, with or without files and text, and also where formatting leaves no text |
| ChangeLogContent.FrontWritten | tools/doctools/changelog.tcl:204-209 | the header lines of the manpage, with the name of the package, its version and the module |
| ChangeLogContent.ItemsWritten | tools/doctools/changelog.tcl:202-255 | for all entries with plain authors: the items of the list are date, two dashes and author of each entry, in order; those of the lists inside it are the files of the sections, in order, and a bullet for a text without files; the markup is the dates and the files; all lists are closed |
| ChangeLogContent.TextsWritten | tools/doctools/changelog.tcl:220-247 | for all entries: the lines of text are the formatted texts of the sections, in order, cut at their brackets, with which put back each is the text again |
| ChangeLogDoctools.DocumentSpells | tools/doctools/changelog.tcl:202-255 | where authors run nothing but markup: without inline macros and blank text, the document spells the page of the entries, that is items, paragraphs and lists of their sections |
| ChangeLogDoctools.GeneratorAccepted | tools/doctools/changelog.tcl:202-255 | for every list of entries without brackets, dollar signs and backslashes in the authors, and every way of formatting text: each item is date, two dashes and author unchanged, the page of the entries is well formed, and the manpage checker accepts the document |
| ChangeLogDoctools.MarkupAccepted | tools/doctools/changelog.tcl:202-255 | the document is accepted also with authors that run inline markup |
| ChangeLogDoctools.FaultRejected | tools/doctools/changelog.tcl:214 | one author that the interpreter cannot evaluate, in any entry, makes the checker reject the document, unless the item of an entry before it goes on into the lines of this one |
| ChangeLogDoctools.UnendedRejected | tools/textutil/expander.tcl:912-943 | so does an author that leaves its word without an end, if no section text from its entry on holds a double quote or a name in braces and all authors from there on can be read without the parameters |
| ChangeLogDoctools.AcceptedIff | tools/doctools/changelog.tcl:214 | where all that authors run is markup or fails, and nothing later ends a word that an author leaves without an end, the document is accepted if and only if every author ends its word and none fails |
| ChangeLogDoctools.BracketedAuthor | tools/doctools/changelog.tcl:214 | the author `Joe [x]` is rejected by every interpreter without a command `x` |
| ChangeLogDoctools.DollarAuthor | tools/doctools/changelog.tcl:214 | the author `A$B` is rejected where the variable `B` is not set |
| ChangeLogDoctools.UnendedAuthor | tools/textutil/expander.tcl:912-943 | for every list of entries: one author that leaves its word without an end among plain ones, and no later text that could end it, and the document is rejected |
| ChangeLogDoctools.BackslashAuthor | tools/doctools/changelog.tcl:214 | such an author is one with a backslash at the end |
| ChangeLogDoctools.OpenBracketAuthor | tools/doctools/changelog.tcl:214 | and one with a bracket that is not closed |
| ChangeLogDoctools.LaterQuoteAccepted | tools/doctools/changelog.tcl:223 | three entries of which the second has such an author and the third a text with a double quote: where Tcl ends the word at that quote, the document is accepted |
| QuotedArgument.PlainAuthorKept | tools/doctools/changelog.tcl:214 | escaping and substitution give a plain author back, double quotes included, and run nothing |
| QuotedArgument.BracketFails | tools/doctools/changelog.tcl:214 | after any plain beginning and before any end, brackets around a script that fails make the author fail |
| QuotedArgument.UnsetFails | tools/doctools/changelog.tcl:214 | so does the name of an unset variable after a dollar sign |
| QuotedArgument.BackslashGoesOn | tools/doctools/changelog.tcl:214 | a backslash at the end after a plain beginning: the word is not closed by its quote and goes on in the lines after it |
| QuotedArgument.BracketGoesOn | tools/doctools/changelog.tcl:214 | neither is it after a bracket that is not closed |
| QuotedArgument.SimpleReading | tools/doctools/changelog.tcl:214 | texts called simple mean the same for every reading of intricate scripts and names, and never end their word before its quote |
| QuotedArgument.BracketRuns | tools/doctools/changelog.tcl:214 | a script in brackets that can be run runs before what follows, and leaves no text |
| QuotedArgument.VariableRead | tools/doctools/changelog.tcl:214 | the name of a variable that is set is read up to the first character other than letters, digits and underscores |
| QuotedArgument.EscapedQuoteKept | tools/doctools/changelog.tcl:214 | a double quote with a backslash before it is kept with its backslash |
| QuotedArgument.EarlyEnd | tools/doctools/changelog.tcl:214 | two backslashes and a double quote end the word: an error, unless white space, a semicolon or a closing bracket follows |
| QuotedArgument.TwoBackslashesFail | tools/doctools/changelog.tcl:214 | two backslashes and a double quote at the end make the author fail: escaping turns them into a quote that ends the word, and another quote follows |
| Registry.StepSound | generic/dtrace.c:188-366 | every command keeps all handles open, all programs pointing at handles in the table and all keys below the counters, and neither panics nor finds a stale program |
| Registry.RunSound | generic/dtrace.c:958-1290 | so does every run shorter than the counters are wide |
| Registry.NoDanglingPrograms | generic/dtrace.c:1254-1264 | in every such run no command meets a duplicate entry, and the handle check after a program was found never fires |
| Registry.CountersGrow | generic/dtrace.c:304-307 | in every such run the counters never go back |
| Registry.IdsFresh | generic/dtrace.c:304-366 | later handles and programs get greater ids than earlier ones |
| Registry.HandleUsableIff | generic/dtrace.c:1062-1087 | a handle that was opened can be used if and only if no close of it succeeded since; it never comes back |
| Registry.ProgramUsableIff | generic/dtrace.c:267-272 | a program that was compiled can be executed or described if and only if since then no handle, its own or another, was closed and none failed to open |
| Registry.RunRecorded | generic/dtrace.c:290-366 | in every run below the counter width the tables hold exactly the handles that were opened and not closed, under the number of their open, and the programs compiled for them since the last close or failed open, under the number of their compilation |
| Registry.Replies | generic/dtrace.c:958-1290 | in every such run every reply is determined by the commands before it |
| Registry.Taken | generic/dtrace.c:304-366 | where an id is taken a new entry panics and the counter goes on, after its largest number with its smallest |
| Registry.Session.GetHd | generic/dtrace.c:188-217 | the object in the table, or none for an unknown id or an argument that is no integer |
| Registry.Session.DelHd | generic/dtrace.c:233-273 | takes out the entry and every program |
| Registry.Session.NewHd | generic/dtrace.c:290-318 | enters a new zeroed object under the next id, unless the entry exists, and counts on |
| Registry.Session.SetHandle | generic/dtrace.c:992 | stores the dtrace handle of one entry and changes no other |
| Registry.Session.OpenHandle | generic/dtrace.c:958-1047 | the tables and the reply that Step prescribes, for each way in which libdtrace may answer |
| Registry.Session.CloseHandle | generic/dtrace.c:1062-1087 | the same for close, with the object's own handle cleared |
| Registry.Session.CompileProgram | generic/dtrace.c:1185-1225 | the same for compile and the registration of the program |
| Registry.Session.RegisterPd | generic/dtrace.c:333-366 | enters the program for its handle under the next id, unless the entry exists, and counts on |
| Registry.Session.ExecOrInfo | generic/dtrace.c:1240-1290 | the same for exec and info, which change nothing |
| Aggregations.Assembler.HandleRecord | generic/dtrace.c:681-726 | one record: ignored, added to the pending tuple, or completing a tuple and its value; a value without a tuple is a panic that changes nothing; a text that cannot be trimmed has no defined result |
| Aggregations.Assembler.Collect | generic/dtrace.c:1544-1565 | a new list, but the pending tuple of before; then all records in order, up to a panic or a text that cannot be trimmed |
| Aggregations.HandleIsExtend | generic/dtrace.c:681-726 | each record does to the pending tuple and the list what it does to the aggregates read so far, and is refused where no aggregates continue with it or its text cannot be trimmed |
| Aggregations.Assembled | generic/dtrace.c:681-726 | without a pending tuple, records have a defined result and leave no tuple pending if and only if, extra white space anywhere aside, they are those of aggregates with at least one key and with texts that can be trimmed; then the list is tuple, value, tuple, value and so on, in order |
| Aggregations.TakenIff | generic/dtrace.c:681-726 | records are taken with a defined result exactly when they are those of complete aggregates and of keys still waiting for a value, all with texts that can be trimmed |
| Aggregations.PanicIff | generic/dtrace.c:693-699 | the handler panics exactly when some value comes right after complete aggregates, or first, with nothing undefined before it |
| Aggregations.BlankKey | generic/dtrace.c:712-713 | a key of blanks: no list is promised |
| Aggregations.PendingHasKey | generic/dtrace.c:707-713 | in every run that starts without an empty tuple pending, a tuple that is pending has a key |
| Aggregations.StaleRuns | generic/dtrace.c:1557-1563 | keys left pending change the first tuple of the next list and nothing else, for all records that have a defined result |
| Aggregations.MixesIffPending | generic/dtrace.c:1557-1563 | the next list is what it should be if and only if no tuple was left pending |
| Aggregations.ListsRightIff | generic/dtrace.c:1544-1565 | over any number of prints of one handle, each of which would go through on its own: all go through, and the list of each is what it should be if and only if that list is empty, or no print before it left keys that wait for a value still |
| HandleBuffers.CutWhiteSpace | generic/dtrace.c:532-558 | for every text: Cut of it exactly where the text can be trimmed; otherwise whether size is read unset or the last write goes behind the buffer |
| HandleBuffers.CopyNoting | generic/dtrace.c:549-554 | the copy loop: size is unset exactly when there is nothing after leading blanks, and else stands at the last character of the buffer that is no blank |
| HandleBuffers.TrimmableIff | generic/dtrace.c:545-555 | there is a character other than a blank, and after leading blanks the text is shorter than the buffer or has a blank in its last place, if and only if something is kept and the NUL has a place |
| HandleBuffers.BlankText | generic/dtrace.c:540-555 | a text of blanks leaves size unset |
| HandleBuffers.WholeText | generic/dtrace.c:532-558 | a text of up to 127 characters without outer blanks is what is kept of it, whatever blanks come before and after |
| HandleBuffers.LongText | generic/dtrace.c:549-555 | after any blanks, a 128th character other than a blank puts the NUL behind the buffer |
| HandleBuffers.CutExact | generic/dtrace.c:532-558 | Cut is the only text without outer blanks from which the characters that fit the buffer, after leading blanks, differ by blanks at their end |
| HandleBuffers.CutIdempotent | generic/dtrace.c:532-558 | cutting twice is cutting once |
| HandleBuffers.AmortisedBound | generic/dtrace.c:1611-1617 | after n processes the capacity is a power of two less one, at least n and at most 2n - 1, and all regrowths together copied fewer than 2n elements |
| HandleBuffers.Processes.Grow | generic/dtrace.c:1611-1615 | a larger vector with the same contents |
| HandleBuffers.Processes.Keep | generic/dtrace.c:1602-1617 | the process is appended and all others stay in place; none is when libdtrace has none |
| HandleBuffers.Processes.ContinueAll | generic/dtrace.c:1398-1403 | every process is continued once, in the order in which they came, if tracing starts |
| Bitmap.OnlyOneBit | darwin/bitmap.h:93-123 | setting or clearing an index decides the test of that index and of no other one, in the same word or another |
| Bitmap.SetAdds | darwin/bitmap.h:118-123 | setting adds and clearing removes one member |
| Bitmap.RefinesSet | darwin/bitmap.h:118-123 | after any operations the map holds what a plain set holds after the same operations |
| Bitmap.BitoulIsLeast | darwin/bitmap.h:114-115 | a number of words holds all indices below n exactly when it is at least BT_BITOUL of n |
| Bitmap.Map.TestBit | darwin/bitmap.h:118-119 | true exactly for members |
| Bitmap.Map.SetBit | darwin/bitmap.h:120-121 | in place: the array holds one member more and is otherwise the same |
| Bitmap.Map.ClearBit | darwin/bitmap.h:122-123 | in place: the array holds one member less and is otherwise the same |

## Left out

- HandleBuffers.CutWhiteSpace: where C has no defined result the model answers which rule is broken, and says nothing of what happens then.
- RoundTrip.ScanOfChangeLog: dates and authors must be single words without characters that mean something in Tcl lists, and file names must be read back on their own line (exactly when, is in `SectionReading.FileNameIff`); the condition over the whole log is exact for comments.
- ChangeLog.Scanner.Line: how Tcl reads a header line with a brace, bracket, quote, backslash, dollar, semicolon or hash as a list, if it does, is a parameter; all results hold for every choice of it.
- CvsFormat.ScanReadsLog: the date, time and author of a check-in are words, separated as cvs writes them; what other date lines do to the variables is in `CvsFormat.ShortDateLine` and `CvsFormat.SemicolonsOff`.
- SectionNumbering.TwoPasses: list quoting and glob matching of section ids are parameters of the model; the results hold for every choice of them.
- ManpageChecker.Checker.Reference: where the code takes the first of several matching array names, in an order that Tcl does not define, the model allows any of them.
- ChangeLogDoctools.GeneratorAccepted: the expander is not modelled; a macro in another one's argument comes before it. What a script in an author runs and which variables are set are parameters of the interpreter, and so is the reading of scripts and variable names with characters that mean something to Tcl. Of the text of such authors the control characters that backslashes stand for are not told apart.
- ChangeLogDoctools.AcceptedIff: what is run from the first author on that leaves its word without an end, or ends it early and goes on with more words or commands, is a parameter where something later may end the word; that nothing can otherwise is read off Tcl's rules for words and is part of the definition of `Generated`.
- CvsCollector.Collector.ToChangeLog: the caller initializes the three variables; the source reads an unset `entries` if the caller does not and no log has a date line (its own initialization is commented out, `tools/doctools/cvs.tcl:44-46`).
- RoundTrip.FromCvsTexts: starts from variables that the caller has initialized, for the same reason.
- Bitmap.RefinesSet: a word is the sequence of its 64 bits and the operators work bit by bit; shift and mask are written as division and remainder. The 32-bit variants, BT_SIZEOFMAP, overflow in BT_BITOUL, and the atomic and kernel functions are left out.
- HandleBuffers.AmortisedBound: counts and capacities are unbounded, where the C code has the width of an int, and allocation does not fail.
- Registry.RunSound: bounds the run by the width of a counter. After a counter came round an id may be taken, and then the code panics.
- Warnings, message texts, tracing of states (`Log`, `Enter`), `vset`, `include` and the deprecation flag: no effect on acceptance.
- Formatter back ends (`fmt_*`), message catalogs and `mpformats`: output only.
- The list contexts of the manpage checker are pairs of kind and flag, where the source keeps kind and flag as neighbours in one list. List kinds, states and message codes are enumerations.
- The title of the current section (`sectct`): used by a warning only.
- Tcl's own commands (`split`, `join`, `string trim`, `string first`, `lsort`, the longest common prefix): modelled by what they return. White space is blank, tab, newline and carriage return. The order in which `lsort` puts lists of date and author is any total order. Regular expressions are predicates on lines.
- `textutil::adjust` and the dictionary of hyphenation: any function on texts.
- libdtrace, libproc and the Tcl library: their answers are parameters of the commands. Memory is not freed.
- Callbacks, reference counts and commands issued from inside a callback; the Tcl errors for wrong numbers of arguments.
- The handle structure is split: tables, aggregation state and processes are modelled apart from each other.
- `configure`, `stop`, `process`, option handling, buffer and drop handlers, and the removal of the extension: single branches or foreign calls.
- `elf.h`, `arch.h`, the build files, Tk and network demos.
