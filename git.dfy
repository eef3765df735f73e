/**
 * BranchCommits of org.rjo.git: the earlier version with built-in refs and no
 * ref check. An unknown ref makes the ref lookup yield nothing, and the walk's
 * start then fails with a null reference.
 */
module Git {
  import opened Divergence
  import opened Format
  import Search

  /** Sixty seconds times sixty minutes times 24 hours times 7 days. */
  const SecondsInWeek: int := 604800
  /** By default the branch-2 walk does not search back further than this many weeks. */
  const DefaultCutoffInWeeks: int := 8

  /** Each ref name the repository knows, mapped to the history the walk yields from its tip. */
  type Repository = map<string, seq<Commit>>

  /** What a run ends in: a null-reference failure on an unknown ref, or the report with its printed lines. */
  datatype Outcome = NullReference | Printed(report: Report, lines: seq<string>)

  /** One count line, e.g. `2 commits 3f2a9c1...HEAD for refs/heads/master`. */
  function ShowCount(commitCount: nat, sharedId: string, ref: string): (line: string)
    ensures var d, tail := Decimal(commitCount), " " + Abbrev(sharedId) + "...HEAD for " + ref;
            |line| > |d| + |tail| && line[..|d|] == d && line[|line| - |tail|..] == tail
  {
    CountPhrase(commitCount, " " + Abbrev(sharedId) + "...HEAD for " + ref)
  }

  /** The lines printed for a report: the display id and one count line per ref, or a notice. */
  function Output(report: Report, ref1: string, ref2: string): (lines: seq<string>)
    ensures report.Shared? ==>
              && |lines| == 3 && lines[0] == "Shared commit: " + Abbrev(report.id)
              && lines[1] == ShowCount(report.count1, report.id, ref1)
              && lines[2] == ShowCount(report.count2, report.id, ref2)
    ensures report.NoShared? ==> lines == ["no shared commit between " + ref1 + " and " + ref2]
  {
    match report
    case NoShared(_) => ["no shared commit between " + ref1 + " and " + ref2]
    case Shared(id, count1, count2) =>
      ["Shared commit: " + Abbrev(id), ShowCount(count1, id, ref1), ShowCount(count2, id, ref2)]
  }

  /**
   * A count line reads back: it starts with the count, then " commit", then an 's'
   * exactly when the count is not 1.
   */
  lemma {:induction false} ShowCountReadsBack(commitCount: nat, sharedId: string, ref: string)
    ensures var line, k := ShowCount(commitCount, sharedId, ref), |Decimal(commitCount)|;
            && |line| > k + 7
            && LeadingCount(line) == commitCount
            && line[k..k + 7] == " commit"
            && (line[k + 7] == 's' <==> commitCount != 1)
  {
    CountPhraseReadsBack(commitCount, " " + Abbrev(sharedId) + "...HEAD for " + ref);
  }

  /**
   * The count lines of the report's output read back as count1 and count2, and they
   * end with the display id and ref1 and ref2 respectively.
   */
  lemma {:induction false} OutputCounts(report: Report, ref1: string, ref2: string)
    requires report.Shared?
    ensures var line, tail := Output(report, ref1, ref2)[1], " " + Abbrev(report.id) + "...HEAD for " + ref1;
            LeadingCount(line) == report.count1 && |line| > |tail| && line[|line| - |tail|..] == tail
    ensures var line, tail := Output(report, ref1, ref2)[2], " " + Abbrev(report.id) + "...HEAD for " + ref2;
            LeadingCount(line) == report.count2 && |line| > |tail| && line[|line| - |tail|..] == tail
  {
    ShowCountReadsBack(report.count1, report.id, ref1);
    ShowCountReadsBack(report.count2, report.id, ref2);
  }

  class BranchCommits {
    var cutoffInSeconds: int
    var ref1: string
    var ref2: string

    /** The built-in configuration: an 8-week cutoff and two fixed refs (the Java constructor ignores its `String[] args`, so this one takes none). */
    constructor ()
      ensures cutoffInSeconds == 8 * 604800
      ensures ref1 == "refs/heads/testbranch" && ref2 == "refs/heads/master"
    {
      cutoffInSeconds := 0;
      ref1 := "refs/heads/testbranch";
      ref2 := "refs/heads/master";
      new;
      SetCutoff(DefaultCutoffInWeeks);
    }

    /** Stores the cutoff in seconds: the cutoff in weeks times 604800. */
    method SetCutoff(cutoffInWeeks: int)
      modifies this`cutoffInSeconds
      ensures cutoffInSeconds == cutoffInWeeks * 604800
    {
      cutoffInSeconds := cutoffInWeeks * SecondsInWeek;
    }

    /**
     * The program's run: an unknown ref fails with a null reference; otherwise the
     * search runs with threshold `now - cutoffInSeconds` and its report is printed.
     */
    method Run(repo: Repository, now: int) returns (outcome: Outcome)
      ensures ref1 !in repo || ref2 !in repo <==> outcome == NullReference
      ensures ref1 in repo && ref2 in repo ==>
                var report := Plan(repo[ref1], repo[ref2], Threshold(now, cutoffInSeconds));
                outcome == Printed(report, Output(report, ref1, ref2))
    {
      if ref1 !in repo || ref2 !in repo {
        return NullReference;
      }
      var report := Search.FindShared(repo[ref1], repo[ref2], Threshold(now, cutoffInSeconds));
      outcome := Printed(report, Output(report, ref1, ref2));
    }
  }
}
