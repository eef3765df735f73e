/** Properties of the divergence search `Divergence.Plan`. */
module DivergenceLemmas {
  import opened Divergence

  /**
   * The walk stops at the first branch-2 commit that it does not walk past, and the
   * collected list runs up to and including that commit.
   */
  lemma ScanStopsAt(b2: seq<Commit>, ids: set<string>, threshold: int, k: nat)
    requires k < |b2| && !Passes(b2[k], ids, threshold)
    requires forall j :: 0 <= j < k ==> Passes(b2[j], ids, threshold)
    ensures Scanned(b2, ids, threshold) ==
              Scan(b2[..k + 1], if b2[k].id in ids then Found(b2[k].id) else CutoffAt(b2[k].time))
  {
  }

  /** A branch 2 all of whose commits are walked past is collected completely, with no shared id. */
  lemma ScanExhausts(b2: seq<Commit>, ids: set<string>, threshold: int)
    requires forall j :: 0 <= j < |b2| ==> Passes(b2[j], ids, threshold)
    ensures Scanned(b2, ids, threshold) == Scan(b2, Exhausted)
  {
  }

  /**
   * A shared id is found exactly when some branch-2 commit is on branch 1 and
   * every branch-2 commit before it is walked past.
   */
  lemma SharedIff(b1: seq<Commit>, b2: seq<Commit>, threshold: int)
    ensures Plan(b1, b2, threshold).Shared? <==>
              exists k :: 0 <= k < |b2| && b2[k].id in IdsOf(b1) &&
                          forall j :: 0 <= j < k ==> Passes(b2[j], IdsOf(b1), threshold)
  {
  }

  /**
   * What a reported shared commit is: an id of branch 1, whose first occurrence
   * on branch 1 is at index count1, and which is the branch-2 commit at index
   * count2, every earlier branch-2 commit being walked past. So count1 < |b1|, and
   * count2 is the collected list's length minus one (whether or not ids repeat).
   */
  lemma SharedFacts(b1: seq<Commit>, b2: seq<Commit>, threshold: int)
    requires Plan(b1, b2, threshold).Shared?
    ensures var r := Plan(b1, b2, threshold);
            && r.id in IdsOf(b1)
            && r.count1 < |b1| && b1[r.count1].id == r.id
            && (forall j :: 0 <= j < r.count1 ==> b1[j].id != r.id)
            && r.count2 < |b2| && b2[r.count2].id == r.id
            && (forall j :: 0 <= j < r.count2 ==> Passes(b2[j], IdsOf(b1), threshold))
            && r.count2 == |Scanned(b2, IdsOf(b1), threshold).collected| - 1
  {
  }

  /**
   * When no shared id is found, no count is reported; the walk ended at a cutoff or at
   * branch 2's end, and it reached the end only if every branch-2 commit passed both tests.
   */
  lemma NoSharedFacts(b1: seq<Commit>, b2: seq<Commit>, threshold: int)
    requires Plan(b1, b2, threshold).NoShared?
    ensures !Plan(b1, b2, threshold).stop.Found?
    ensures Plan(b1, b2, threshold).stop.Exhausted? ==>
              forall j :: 0 <= j < |b2| ==> Passes(b2[j], IdsOf(b1), threshold)
    ensures Plan(b1, b2, threshold).stop.Exhausted? ==> IdsOf(b1) * IdsOf(b2) == {}
    ensures Plan(b1, b2, threshold).stop.CutoffAt? ==>
              exists k :: 0 <= k < |b2| && b2[k].id !in IdsOf(b1) && b2[k].time < threshold &&
                          Plan(b1, b2, threshold).stop.time == b2[k].time &&
                          forall j :: 0 <= j < k ==> Passes(b2[j], IdsOf(b1), threshold)
  {
  }

  /**
   * Two branches that fork: branch 1 is A + S, branch 2 is B + S, the commits of B
   * are walked past and S's first id does not occur in A. The shared commit is S's
   * first commit, with count1 == |A| and count2 == |B|.
   */
  lemma {:induction false} Fork(a: seq<Commit>, b: seq<Commit>, s: seq<Commit>, threshold: int)
    requires s != []
    requires forall j :: 0 <= j < |b| ==> Passes(b[j], IdsOf(a + s), threshold)
    requires forall j :: 0 <= j < |a| ==> a[j].id != s[0].id
    ensures Plan(a + s, b + s, threshold) == Shared(s[0].id, |a|, |b|)
  {
    var b1, b2 := a + s, b + s;
    var ids := IdsOf(b1);
    assert b1[|a|] == s[0];
    assert b2[|b|] == s[0];
    forall j | 0 <= j < |b| ensures Passes(b2[j], ids, threshold) {
      assert b2[j] == b[j];
    }
    ScanStopsAt(b2, ids, threshold, |b|);
    SharedFacts(b1, b2, threshold);
    forall j | 0 <= j < |a| ensures b1[j].id != s[0].id {
      assert b1[j] == a[j];
    }
  }

  /** Identical non-empty branches share their tip, and both counts are 0. */
  lemma SameBranch(b: seq<Commit>, threshold: int)
    requires b != []
    ensures Plan(b, b, threshold) == Shared(b[0].id, 0, 0)
  {
  }

  /**
   * Branch 2 being branch 1 with N newer commits on top that are walked past:
   * the shared commit is branch 1's tip, count1 == 0 and count2 == N.
   */
  lemma {:induction false} LinearDescendant(b1: seq<Commit>, d: seq<Commit>, threshold: int)
    requires b1 != []
    requires forall j :: 0 <= j < |d| ==> Passes(d[j], IdsOf(b1), threshold)
    ensures Plan(b1, d + b1, threshold) == Shared(b1[0].id, 0, |d|)
  {
    assert [] + b1 == b1;
    Fork([], d, b1, threshold);
  }

  /**
   * The membership test precedes the cutoff test: a reached branch-2 commit that
   * is on branch 1 is reported as shared even when it is older than the threshold.
   */
  lemma SharedBeforeCutoff(b1: seq<Commit>, b2: seq<Commit>, k: nat, threshold: int)
    requires k < |b2| && b2[k].id in IdsOf(b1) && b2[k].time < threshold
    requires forall j :: 0 <= j < k ==> Passes(b2[j], IdsOf(b1), threshold)
    ensures Plan(b1, b2, threshold).Shared?
    ensures Plan(b1, b2, threshold).id == b2[k].id && Plan(b1, b2, threshold).count2 == k
  {
  }

  /**
   * A commit older than the threshold that is not on branch 1 ends the walk with no
   * shared id, even when later branch-2 commits are on branch 1.
   */
  lemma CutoffHidesLaterShared(b1: seq<Commit>, b2: seq<Commit>, k: nat, threshold: int)
    requires k < |b2| && b2[k].id !in IdsOf(b1) && b2[k].time < threshold
    requires forall j :: 0 <= j < k ==> Passes(b2[j], IdsOf(b1), threshold)
    ensures Plan(b1, b2, threshold) == NoShared(CutoffAt(b2[k].time))
  {
  }

  /** A branch 2 with no commit older than the threshold and none on branch 1 yields no shared commit. */
  lemma Disjoint(b1: seq<Commit>, b2: seq<Commit>, threshold: int)
    requires forall j :: 0 <= j < |b2| ==> Passes(b2[j], IdsOf(b1), threshold)
    ensures Plan(b1, b2, threshold) == NoShared(Exhausted)
  {
  }

  /**
   * An example: branch A = [C5, C4, C3, C2, C1] and branch B = [D3, D2, C3, C2, C1],
   * all within the cutoff, share C3 with two commits on each side.
   */
  lemma ExampleFork(threshold: int)
    ensures var c1, c2, c3 := Commit("C1", threshold + 1), Commit("C2", threshold + 2), Commit("C3", threshold + 3);
            var c4, c5 := Commit("C4", threshold + 4), Commit("C5", threshold + 5);
            var d2, d3 := Commit("D2", threshold + 6), Commit("D3", threshold + 7);
            Plan([c5, c4, c3, c2, c1], [d3, d2, c3, c2, c1], threshold) == Shared("C3", 2, 2)
  {
    var c1, c2, c3 := Commit("C1", threshold + 1), Commit("C2", threshold + 2), Commit("C3", threshold + 3);
    var c4, c5 := Commit("C4", threshold + 4), Commit("C5", threshold + 5);
    var d2, d3 := Commit("D2", threshold + 6), Commit("D3", threshold + 7);
    var a, b, s := [c5, c4], [d3, d2], [c3, c2, c1];
    assert a + s == [c5, c4, c3, c2, c1];
    assert b + s == [d3, d2, c3, c2, c1];
    forall i | 0 <= i < |a + s| ensures (a + s)[i].id[0] == 'C' {
    }
    assert "D3"[0] == 'D' && "D2"[0] == 'D';
    Fork(a, b, s, threshold);
  }

  /**
   * Searching further back never loses a shared commit: a wider cutoff gives a lower
   * threshold, every commit that passed before still passes, and the walk reaches the
   * same shared commit with the same counts.
   */
  lemma WiderCutoffKeepsShared(b1: seq<Commit>, b2: seq<Commit>, now: int, cutoff: int, wider: int)
    requires cutoff <= wider && Plan(b1, b2, Threshold(now, cutoff)).Shared?
    ensures Plan(b1, b2, Threshold(now, wider)) == Plan(b1, b2, Threshold(now, cutoff))
  {
  }
}
