/**
 * The loops of BranchCommits.run and countCommits: walking branch 1 into a list
 * and an id set, walking branch 2 with early exit, and counting up to the shared id.
 * Each is proved against the value-level definitions in module Divergence.
 */
module Search {
  import opened Divergence

  /** Walks branch 1 completely, appending each commit to a list and adding its id to a set. */
  method CollectBranch(branch: seq<Commit>) returns (commits: seq<Commit>, ids: set<string>)
    ensures commits == branch
    ensures ids == IdsOf(branch)
  {
    commits, ids := [], {};
    var i := 0;
    while i < |branch|
      invariant 0 <= i <= |branch|
      invariant commits == branch[..i]
      invariant ids == IdsOf(branch[..i])
    {
      var commit := branch[i];
      ids := ids + {commit.id};
      commits := commits + [commit];
      assert branch[..i + 1] == branch[..i] + [commit];
      i := i + 1;
    }
    assert branch[..i] == branch;
  }

  /**
   * Walks branch 2, appending each commit before testing it; stops at the first
   * commit whose id is in `ids` (recording it as the shared id) and otherwise at
   * the first commit older than `threshold`.
   */
  method ScanBranch(branch: seq<Commit>, ids: set<string>, threshold: int)
    returns (commits: seq<Commit>, stop: Stop)
    ensures Scan(commits, stop) == Scanned(branch, ids, threshold)
  {
    commits, stop := [], Exhausted;
    var i := 0;
    while i < |branch|
      invariant 0 <= i <= |branch|
      invariant commits == branch[..i]
      invariant forall j :: 0 <= j < i ==> Passes(branch[j], ids, threshold)
    {
      var commit := branch[i];
      commits := commits + [commit];
      assert commits == branch[..i + 1];
      if commit.id in ids {
        stop := Found(commit.id);
        return;
      }
      if commit.time < threshold {
        stop := CutoffAt(commit.time);
        return;
      }
      i := i + 1;
    }
    assert branch[..i] == branch;
  }

  /**
   * The number of commits in `commits` up to but not including the first one whose
   * id is `sharedId`, or the length of `commits` when none has that id.
   */
  method CountCommits(commits: seq<Commit>, sharedId: string) returns (commitCount: nat)
    ensures commitCount == FirstIndex(commits, sharedId)
    ensures commitCount <= |commits|
    ensures commitCount < |commits| ==> commits[commitCount].id == sharedId
    ensures forall j :: 0 <= j < commitCount ==> commits[j].id != sharedId
  {
    commitCount := 0;
    while commitCount < |commits|
      invariant commitCount <= |commits|
      invariant forall j :: 0 <= j < commitCount ==> commits[j].id != sharedId
    {
      if commits[commitCount].id == sharedId {
        break;
      }
      commitCount := commitCount + 1;
    }
  }

  /**
   * The search as BranchCommits.run performs it once both refs are resolved: collect
   * branch 1, scan branch 2 against branch 1's ids, and count both lists up to the
   * shared id when there is one.
   */
  method FindShared(branch1: seq<Commit>, branch2: seq<Commit>, threshold: int) returns (report: Report)
    ensures report == Plan(branch1, branch2, threshold)
  {
    var commitsOnBranch, commitIdsOnBranch := CollectBranch(branch1);
    var commitsOnBranch2, stop := ScanBranch(branch2, commitIdsOnBranch, threshold);
    if stop.Found? {
      var count1 := CountCommits(commitsOnBranch, stop.id);
      var count2 := CountCommits(commitsOnBranch2, stop.id);
      report := Shared(stop.id, count1, count2);
    } else {
      report := NoShared(stop);
    }
  }
}
