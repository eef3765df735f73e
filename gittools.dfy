/**
 * BranchCommits of org.rjo.gittools: the command-line version. The command line
 * arrives already parsed; the repository is given as the history each known ref
 * name yields; the current time is a parameter.
 */
module GitTools {
  import opened Wrappers
  import opened Divergence
  import opened Format
  import Search

  /** Sixty seconds times sixty minutes times 24 hours times 7 days. */
  const SecondsInWeek: int := 604800
  /** By default the branch-2 walk does not search back further than this many weeks. */
  const DefaultCutoffInWeeks: int := 8
  const DefaultRef1: string := "refs/heads/master"

  /**
   * The error messages of a run. The first is the command-line parser's, for a
   * command line without the required option `-r2`.
   */
  const MissingRef2: string := "Missing required option: r2"
  const UnknownRef1: string := "unknown ref1: "
  const UnknownRef2: string := "unknown ref2: "

  /** The constant is the number of seconds in a week, and the default cutoff is 4838400 seconds. */
  lemma CutoffConstants()
    ensures SecondsInWeek == 60 * 60 * 24 * 7
    ensures DefaultCutoffInWeeks * SecondsInWeek == 4838400
  {
  }

  /** The options `run` reads from its command line (-h, -c, -r1, -r2, -s). */
  datatype CommandLine = CommandLine(
    help: bool,
    cutoffInWeeks: Option<int>,
    ref1: Option<string>,
    ref2: Option<string>,
    short: bool)

  /** Each ref name the repository knows, mapped to the history the walk yields from its tip. */
  type Repository = map<string, seq<Commit>>

  /** What a run ends in: help shown, an error message, or the search report with its printed lines. */
  datatype Outcome = HelpShown | Failed(message: string) | Printed(report: Report, lines: seq<string>)

  /** One count line of the long output, e.g. `       2 commits (refs/heads/master)`. */
  function CountLine(count: nat, ref: string): (line: string)
    ensures |line| > 7 + |Decimal(count)| && line[..7] == "       "
    ensures line[7..7 + |Decimal(count)|] == Decimal(count)
    ensures var tail := " (" + ref + ")";
            |line| > 7 + |Decimal(count)| + |tail| && line[|line| - |tail|..] == tail
  {
    "       " + CountPhrase(count, " (" + ref + ")")
  }

  /** The five lines of the long output: branch 1's count, the display id, branch 2's count. */
  function ShowCount(sharedId: string, count1: nat, ref1: string, count2: nat, ref2: string): (lines: seq<string>)
    ensures |lines| == 5 && lines[2] == Abbrev(sharedId)
    ensures lines[1] == "      /" && lines[3] == "      \\"
    ensures lines[0] == CountLine(count1, ref1) && lines[4] == CountLine(count2, ref2)
  {
    [CountLine(count1, ref1), "      /", Abbrev(sharedId), "      \\", CountLine(count2, ref2)]
  }

  /** The lines printed for a report: compact or long when a commit is shared, a notice otherwise. */
  function Output(report: Report, short: bool, ref1: string, ref2: string): (lines: seq<string>)
    ensures report.Shared? && short ==> lines == [ShortLine(report.id, report.count1, report.count2)]
    ensures report.Shared? && !short ==>
              lines == ShowCount(report.id, report.count1, ref1, report.count2, ref2)
    ensures report.NoShared? ==> lines == ["no shared commit between " + ref1 + " and " + ref2]
  {
    match report
    case NoShared(_) => ["no shared commit between " + ref1 + " and " + ref2]
    case Shared(id, count1, count2) =>
      if short then [ShortLine(id, count1, count2)] else ShowCount(id, count1, ref1, count2, ref2)
  }

  /**
   * A long-output count line reads back: after its indent comes the count, then
   * " commit", then an 's' exactly when the count is not 1.
   */
  lemma {:induction false} CountLineReadsBack(count: nat, ref: string)
    ensures var line, k := CountLine(count, ref), 7 + |Decimal(count)|;
            && |line| > k + 7
            && line[..7] == "       "
            && LeadingCount(line[7..]) == count
            && line[k..k + 7] == " commit"
            && (line[k + 7] == 's' <==> count != 1)
  {
    var indent, phrase := "       ", CountPhrase(count, " (" + ref + ")");
    CountPhraseReadsBack(count, " (" + ref + ")");
    var k := |Decimal(count)|;
    Shifted(indent, phrase, k, k + 7);
    assert (indent + phrase)[..7] == indent && (indent + phrase)[7..] == phrase;
  }

  /** The compact output of a report reads back as the display id and both counts. */
  lemma {:induction false} ShortOutputReadsBack(report: Report, ref1: string, ref2: string)
    requires report.Shared? && '+' !in report.id
    ensures |Output(report, true, ref1, ref2)| == 1
    ensures ParseShort(Output(report, true, ref1, ref2)[0]) ==
              Some(ShortFields(Abbrev(report.id), report.count1, report.count2))
  {
    ShortLineRoundTrip(report.id, report.count1, report.count2);
  }

  /**
   * The part of a run after the options are read: both refs are checked before any
   * walk (ref1 first), then the search runs and its report is rendered.
   */
  method CheckAndSearch(repo: Repository, ref1: string, ref2: string, threshold: int, short: bool)
    returns (outcome: Outcome)
    ensures ref1 !in repo ==> outcome == Failed(UnknownRef1 + ref1)
    ensures ref1 in repo && ref2 !in repo ==> outcome == Failed(UnknownRef2 + ref2)
    ensures ref1 in repo && ref2 in repo ==>
              var report := Plan(repo[ref1], repo[ref2], threshold);
              outcome == Printed(report, Output(report, short, ref1, ref2))
  {
    if ref1 !in repo {
      return Failed(UnknownRef1 + ref1);
    }
    if ref2 !in repo {
      return Failed(UnknownRef2 + ref2);
    }
    var report := Search.FindShared(repo[ref1], repo[ref2], threshold);
    outcome := Printed(report, Output(report, short, ref1, ref2));
  }

  class BranchCommits {
    const args: CommandLine
    var cutoffInSeconds: int
    var ref1: Option<string>
    var ref2: Option<string>

    /** Keeps the command line for `Run`; the fields start out as Java's zero and null. */
    constructor (args: CommandLine)
      ensures this.args == args
      ensures cutoffInSeconds == 0 && ref1 == None && ref2 == None
    {
      this.args := args;
      cutoffInSeconds, ref1, ref2 := 0, None, None;
    }

    /** Stores the cutoff in seconds: the cutoff in weeks times 604800. */
    method SetCutoff(cutoffInWeeks: int)
      modifies this`cutoffInSeconds
      ensures cutoffInSeconds == cutoffInWeeks * 604800
    {
      cutoffInSeconds := cutoffInWeeks * SecondsInWeek;
    }

    /**
     * The program's run. The parser rejects a command line without ref2 before
     * anything else; then help; then the cutoff (default 8 weeks), ref1 (default
     * refs/heads/master) and ref2 are stored, both refs are checked before any walk,
     * and the search runs with threshold `now - cutoffInSeconds`.
     */
    method Run(repo: Repository, now: int) returns (outcome: Outcome)
      modifies this
      ensures args.ref2.None? ==>
                outcome == Failed(MissingRef2) && cutoffInSeconds == old(cutoffInSeconds) &&
                ref1 == old(ref1) && ref2 == old(ref2)
      ensures args.ref2.Some? && args.help ==>
                outcome == HelpShown && cutoffInSeconds == old(cutoffInSeconds) &&
                ref1 == old(ref1) && ref2 == old(ref2)
      ensures args.ref2.Some? && !args.help ==>
                cutoffInSeconds == args.cutoffInWeeks.GetOr(DefaultCutoffInWeeks) * SecondsInWeek &&
                ref1 == Some(args.ref1.GetOr(DefaultRef1)) && ref2 == Some(args.ref2.value)
      ensures args.ref2.Some? && !args.help && args.cutoffInWeeks.None? ==> cutoffInSeconds == 4838400
      ensures args.ref2.Some? && !args.help ==>
                var r1, r2 := args.ref1.GetOr(DefaultRef1), args.ref2.value;
                && (r1 !in repo ==> outcome == Failed(UnknownRef1 + r1))
                && (r1 in repo && r2 !in repo ==> outcome == Failed(UnknownRef2 + r2))
                && (r1 in repo && r2 in repo ==>
                      var report := Plan(repo[r1], repo[r2], Threshold(now, cutoffInSeconds));
                      outcome == Printed(report, Output(report, args.short, r1, r2)))
    {
      if args.ref2.None? {
        return Failed(MissingRef2);
      }
      if args.help {
        return HelpShown;
      }
      SetCutoff(args.cutoffInWeeks.GetOr(DefaultCutoffInWeeks));
      var r1, r2 := args.ref1.GetOr(DefaultRef1), args.ref2.value;
      ref1, ref2 := Some(r1), Some(r2);
      outcome := CheckAndSearch(repo, r1, r2, Threshold(now, cutoffInSeconds), args.short);
    }
  }
}
