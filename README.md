# BranchCommits divergence search, modelled in Dafny

BranchCommits compares two git branches. It walks the complete history of branch 1
and puts every commit id in a lookup set. It then walks branch 2, newest first, and
stops at the first commit whose id is in that set: the *shared commit*. The walk
also stops, with no shared commit, at the first commit older than
`now - cutoffInSeconds` (default cutoff: 8 weeks). The membership test comes first.
When a shared commit is found, the program reports how many commits each branch
has before it: `countCommits` counts the list entries up to the first one with the
shared id. The command-line version prints the result either as five lines or in
the compact form `<first 7 characters of the id>+<count1>+<count2>`. The version
with built-in refs prints three lines: "Shared commit: " with the display id, then
one "...HEAD for" count line per ref.

The repository holds two versions of the program:

- `org.rjo.gittools.BranchCommits` takes its options from the command line. It
  checks both refs before walking.
- `org.rjo.git.BranchCommits` uses built-in refs and does not check them.

Both run the same search loops.

Layout:

- `divergence.dfy` (module `Divergence`): commits, the branch-2 walk `Scanned`,
  the prefix count `FirstIndex` and the whole search `Plan`, all as functions on
  values.
- `divergence_lemmas.dfy` (module `DivergenceLemmas`): what the search promises.
- `search.dfy` (module `Search`): the loops of `run` and `countCommits`, as methods
  proved equal to those functions.
- `format.dfy` (module `Format`): the display id, the decimal counts, the
  "commit"/"commits" choice, and parsers that read output lines back.
- `gittools.dfy` and `git.dfy`: one class per version. Each has `SetCutoff` and
  `Run`.
- `wrappers.dfy`: an `Option` datatype.

Each branch history is an input sequence: the commits the history walk yields
from the branch tip, with their id and commit time. A repository is a map from
each known ref name to that sequence. The current time is a parameter of `Run`.

Three consequences of the code's order of operations:

- The code appends each branch-2 commit to its list before testing it, so the
  list ends with the commit at which the walk stopped.
- A branch-2 commit that the walk reaches and that is on branch 1 is reported as
  shared even when it is older than the cutoff. Only a shared commit beyond the
  first too-old commit that is not on branch 1 is hidden. `SharedBeforeCutoff` and
  `CutoffHidesLaterShared` state the two cases.
- `count2` equals the collected list's length minus one for every input: no
  earlier collected id is on branch 1, and the shared id is (`SharedFacts`).

## Model

| member | source | states |
|---|---|---|
| Divergence.IdsOf | src/main/java/org/rjo/git/BranchCommits.java:54-67 | branch 1's lookup set holds exactly the ids of the branch-1 list |
| Divergence.FirstIndex | src/main/java/org/rjo/gittools/BranchCommits.java:186-195 | the count lies between 0 and the list length. Below the length, the entry at the count has the id and no earlier entry does. It equals the length exactly when no entry has the id |
| Divergence.Scanned | src/main/java/org/rjo/gittools/BranchCommits.java:128-141 | the branch-2 list is a prefix of branch 2, and every entry but the last passes both tests. It ends with the stop commit: a shared one (id in branch 1's set), or else one older than the threshold. If the walk never stops, the list is all of branch 2 |
| Divergence.Threshold | src/main/java/org/rjo/gittools/BranchCommits.java:136 | names the expression `currentUnixTimeStamp - cutoffInSeconds`: the threshold lies `cutoffInSeconds` before the current time. What the cutoff promises is stated by `WiderCutoffKeepsShared` |
| DivergenceLemmas.WiderCutoffKeepsShared | src/main/java/org/rjo/gittools/BranchCommits.java:34-35 | searching further back never loses a shared commit: if the search at one cutoff finds a shared commit, the search at any wider cutoff gives the same report, with the same counts |
| Divergence.Plan | src/main/java/org/rjo/gittools/BranchCommits.java:144-148 | a shared report's count1 and count2 are positions of the shared id in branch 1 and branch 2; a report without a shared id was not stopped by a match. `SharedIff`, `SharedFacts`, `NoSharedFacts`, `Disjoint` and `CutoffHidesLaterShared` together fix the report, including the kind of stop, for every input |
| DivergenceLemmas.ScanStopsAt | src/main/java/org/rjo/gittools/BranchCommits.java:131-140 | the walk stops at the first commit that fails a test, having collected up to and including it. It stops as Found if that id is on branch 1, otherwise at the cutoff |
| DivergenceLemmas.ScanExhausts | src/main/java/org/rjo/git/BranchCommits.java:78-91 | when every branch-2 commit passes both tests, all of branch 2 is collected and there is no shared id |
| DivergenceLemmas.SharedIff | src/main/java/org/rjo/gittools/BranchCommits.java:128-148 | a shared id is reported if and only if some branch-2 commit is on branch 1 and every earlier branch-2 commit passes both tests |
| DivergenceLemmas.SharedFacts | src/main/java/org/rjo/gittools/BranchCommits.java:131-148 | a reported shared id is in branch 1's set. count1 < len(branch 1) and is the index of the id's first occurrence there. count2 is the index in branch 2 of the first commit in that set, and equals the collected list's length minus one |
| DivergenceLemmas.NoSharedFacts | src/main/java/org/rjo/gittools/BranchCommits.java:136-145 | without a shared id no counts exist. At a cutoff stop, the stop commit is off branch 1 and older than the threshold, and all earlier commits pass. An end-of-walk stop happens only when every branch-2 commit passes both tests, and then the two branches have no id in common |
| DivergenceLemmas.Fork | src/main/java/org/rjo/gittools/BranchCommits.java:104-148 | branches A+S and B+S, where B's commits pass and S's first id is not in A, share S's first commit with count1 = len(A) and count2 = len(B) |
| DivergenceLemmas.SameBranch | src/main/java/org/rjo/git/BranchCommits.java:78-100 | two identical non-empty histories share their tip, with both counts 0 |
| DivergenceLemmas.LinearDescendant | src/main/java/org/rjo/git/BranchCommits.java:54-100 | branch 2 = N passing commits on top of branch 1: the shared commit is branch 1's tip, count1 = 0 and count2 = N |
| DivergenceLemmas.SharedBeforeCutoff | src/main/java/org/rjo/gittools/BranchCommits.java:132-140 | the membership test comes before the cutoff test: a reached commit on branch 1 is shared even when older than the threshold, and count2 is its index |
| DivergenceLemmas.CutoffHidesLaterShared | src/main/java/org/rjo/git/BranchCommits.java:86-90 | a too-old commit off branch 1 ends the walk with no shared id, whatever follows it |
| DivergenceLemmas.Disjoint | src/main/java/org/rjo/gittools/BranchCommits.java:128-145 | when no branch-2 commit is on branch 1 or too old, the report is "no shared commit" with an end-of-walk stop |
| DivergenceLemmas.ExampleFork | src/main/java/org/rjo/gittools/BranchCommits.java:104-148 | [C5,C4,C3,C2,C1] against [D3,D2,C3,C2,C1] shares C3, with counts 2 and 2 |
| Search.CollectBranch | src/main/java/org/rjo/gittools/BranchCommits.java:104-117 | the walk of branch 1 yields the whole history as the list and exactly its ids as the set |
| Search.ScanBranch | src/main/java/org/rjo/gittools/BranchCommits.java:119-142 | the append-then-test loop with its two breaks computes exactly `Scanned` |
| Search.CountCommits | src/main/java/org/rjo/gittools/BranchCommits.java:186-195 | the counter loop returns `FirstIndex`: the number of entries before the first one with the shared id, or the length. The loop is identical at src/main/java/org/rjo/git/BranchCommits.java:118-127 |
| Search.FindShared | src/main/java/org/rjo/gittools/BranchCommits.java:104-148 | collecting, scanning and counting both lists compute exactly `Plan`, and the counts are taken only when a shared id was found |
| Format.Abbrev | src/main/java/org/rjo/gittools/BranchCommits.java:150 | `%.7s` gives the first 7 characters of the id, or the whole id if it is shorter |
| Format.Plural | src/main/java/org/rjo/gittools/BranchCommits.java:176 | the suffix is empty exactly when the count is 1, and "s" exactly when it is not |
| Format.Decimal | src/main/java/org/rjo/gittools/BranchCommits.java:150 | `%d` of a count is non-empty, all digits, and has no leading zero |
| Format.DecimalRoundTrip | src/main/java/org/rjo/gittools/BranchCommits.java:150 | reading a rendered count back gives the count |
| Format.CountPhrase | src/main/java/org/rjo/gittools/BranchCommits.java:176 | `%d commit%s` followed by the rest of the line: it starts with the decimal count, then " commit" and the plural suffix, and ends with the rest. The same phrase is printed at src/main/java/org/rjo/git/BranchCommits.java:108-110 |
| Format.CountPhraseReadsBack | src/main/java/org/rjo/git/BranchCommits.java:106-112 | a count phrase starts with the count, then " commit", then an 's' exactly when the count is not 1 |
| Format.ShortLine | src/main/java/org/rjo/gittools/BranchCommits.java:150 | the compact line starts with the display id followed by '+', and is at most 7 characters plus both counts' digits plus two separators long |
| Format.ShortLineRoundTrip | src/main/java/org/rjo/gittools/BranchCommits.java:150 | for an id without '+', the compact line parses back to the display id, count1 and count2 |
| GitTools.CutoffConstants | src/main/java/org/rjo/gittools/BranchCommits.java:32-35 | the constant is 60 × 60 × 24 × 7 seconds, and the 8-week default is 4838400 seconds |
| GitTools.CountLine | src/main/java/org/rjo/gittools/BranchCommits.java:176 | a long-output count line is a 7-space indent, then the decimal count, and it ends with the ref in parentheses |
| GitTools.Output | src/main/java/org/rjo/gittools/BranchCommits.java:144-154 | with `-s` a shared report is the one compact line; without it, it is the five `ShowCount` lines, whose count lines are for ref1 (count1) and ref2 (count2); no shared commit gives one notice line naming both refs |
| GitTools.ShowCount | src/main/java/org/rjo/gittools/BranchCommits.java:175-181 | the long output has five lines: the count line for ref1, the connector "      /", the display id, the connector "      \\", the count line for ref2 |
| GitTools.CountLineReadsBack | src/main/java/org/rjo/gittools/BranchCommits.java:176 | a long-output count line is a 7-space indent, then the count, then " commit", then an 's' exactly when the count is not 1 |
| GitTools.ShortOutputReadsBack | src/main/java/org/rjo/gittools/BranchCommits.java:149-150 | with `-s`, a shared report is printed as one line that parses back to the display id and both counts |
| GitTools.CheckAndSearch | src/main/java/org/rjo/gittools/BranchCommits.java:95-154 | an unknown ref1 fails first, then an unknown ref2, both before any walk. Otherwise the run prints the `Plan` report, compact or long |
| GitTools.BranchCommits.constructor | src/main/java/org/rjo/gittools/BranchCommits.java:45-64 | the command line is kept for the run. The cutoff and refs start as zero and null |
| GitTools.BranchCommits.SetCutoff | src/main/java/org/rjo/gittools/BranchCommits.java:66-68 | the cutoff in seconds is the cutoff in weeks times 604800 |
| GitTools.BranchCommits.Run | src/main/java/org/rjo/gittools/BranchCommits.java:48-156 | a command line without ref2 is rejected by the parse, before the help test and without writing any field. Help changes nothing. Otherwise the run stores the cutoff (default 8 weeks, 4838400 seconds), ref1 (default refs/heads/master) and ref2. An unknown ref1 or ref2 fails before any walk. Otherwise it prints what `Plan` gives for threshold now - cutoffInSeconds |
| Git.Output | src/main/java/org/rjo/git/BranchCommits.java:94-102 | a shared report prints "Shared commit: " with its display id, then the `ShowCount` line of count1 for ref1, then that of count2 for ref2. No shared commit prints one notice line naming both refs |
| Git.ShowCount | src/main/java/org/rjo/git/BranchCommits.java:106-112 | a count line starts with the decimal count and ends with the display id, "...HEAD for " and the ref |
| Git.ShowCountReadsBack | src/main/java/org/rjo/git/BranchCommits.java:106-112 | a count line starts with the count, then " commit", then an 's' exactly when the count is not 1 |
| Git.OutputCounts | src/main/java/org/rjo/git/BranchCommits.java:97-101 | the second line reads back as count1 and ends with the display id and ref1; the third reads back as count2 and ends with the display id and ref2 |
| Git.BranchCommits.constructor | src/main/java/org/rjo/git/BranchCommits.java:33-44 | the built-in configuration: an 8-week cutoff (4838400 seconds), ref1 refs/heads/testbranch, ref2 refs/heads/master |
| Git.BranchCommits.SetCutoff | src/main/java/org/rjo/git/BranchCommits.java:46-48 | the cutoff in seconds is the cutoff in weeks times 604800 |
| Git.BranchCommits.Run | src/main/java/org/rjo/git/BranchCommits.java:50-104 | the run fails with a null reference exactly when a ref is unknown. Otherwise it prints what `Plan` gives for threshold now - cutoffInSeconds |

## Left out

- The history walk (JGit's `RevWalk`, `parseCommit`, ref resolution) is not modelled. Each ref's history is an input sequence, so walk order, merge traversal and the walk's own deduplication are whatever the input says.
- The current time (`Instant.now()`) is the parameter `now` of `Run`.
- Command-line parsing and help text are not modelled. `GitTools.CommandLine` holds the options as already parsed. A non-numeric `--cutoff` (the `NumberFormatException` of `Integer.parseInt`) is therefore not modelled.
- The hardcoded `parseArgs` of the org.rjo.git version is modelled only as its constructor's fixed values; its git directory is not modelled.
- `findGitDir`, opening and closing the repository, and the `gitDir` field are file-system I/O and are not modelled.
- The "search reached cutoff time, last commit: ..." line is not part of `Output`, because it formats an `Instant`. The report keeps the stop time in `CutoffAt(time)`.
- Printing is modelled as the list of lines printed. The split between standard output and standard error is not modelled: in the command-line version, `main` prints a `Failed` message to standard error.
- GitTools.BranchCommits.Run: the help outcome does not include the help text.
- GitTools.BranchCommits.Run: ref2 is a required option (line 48), so the parse at line 71 rejects a command line without it, with the parser's message "Missing required option: r2". The `ParseException` at line 85 can therefore not be reached, and the model has no branch for it.
- Git.BranchCommits.Run: an unknown ref raises an uncaught `NullPointerException`. This is modelled as the outcome `NullReference`, without the stack trace.
- Lists hold commit values, not `RevCommit` objects, so object identity is not modelled. Matching compares full ids, as the source does.
- Integers are unbounded. This is exact here: weeks come from `Integer.parseInt` (or the constant 8), so weeks × 604800 fits in a Java `long`; `now - cutoffInSeconds` cannot overflow for such values; counts are list indexes.
- Counts are written with the ASCII digits '0'–'9' (`Format.Decimal`). Java's `%d` writes digits of the default format locale, so `Decimal`, `DecimalRoundTrip`, `ShortLineRoundTrip` and the count-line read-back lemmas describe the output only under a locale whose zero digit is '0'.
- A known ref's history is never empty in the program: the walk starts at the resolved tip (`markStart`). `Repository` also allows an empty history; the model's results for it describe no run of the program.
- `Main.java` subcommand dispatch by reflection is not modelled.
