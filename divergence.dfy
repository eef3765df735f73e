/**
 * The divergence search of BranchCommits, stated on values.
 *
 * A branch history is the sequence of commits the history walk yields from the
 * branch tip, newest first. Branch 1 is walked completely and its ids collected
 * in a set; branch 2 is walked until a commit whose id is in that set (the shared
 * commit), or until a commit older than the cutoff threshold, or to its end.
 * Every branch-2 commit the walk reaches is appended to the branch-2 list BEFORE
 * it is tested, so the list ends with the commit at which the walk stopped.
 */
module Divergence {

  /** A commit as the search sees it: its full id and its commit time in seconds. */
  datatype Commit = Commit(id: string, time: int)

  /** Why the branch-2 walk stopped. `Found` carries the shared id. */
  datatype Stop = Found(id: string) | CutoffAt(time: int) | Exhausted

  /** What the branch-2 walk produces: the collected list and why it stopped. */
  datatype Scan = Scan(collected: seq<Commit>, stop: Stop)

  /** The outcome of the whole search: either a shared id with both counts, or none. */
  datatype Report = Shared(id: string, count1: nat, count2: nat) | NoShared(stop: Stop)

  /** The set of ids of a branch history (the lookup set filled while walking branch 1). */
  function IdsOf(s: seq<Commit>): (ids: set<string>)
    ensures forall i :: 0 <= i < |s| ==> s[i].id in ids
    ensures forall x :: x in ids ==> exists i :: 0 <= i < |s| && s[i].id == x
  {
    set c | c in s :: c.id
  }

  /** A branch-2 commit the walk goes past: its id is not on branch 1 and it is not older than the threshold. */
  predicate Passes(c: Commit, ids: set<string>, threshold: int)
  {
    c.id !in ids && c.time >= threshold
  }

  /**
   * The number of entries of `s` before the first one whose id is `id`;
   * `|s|` when no entry has that id.
   */
  function FirstIndex(s: seq<Commit>, id: string): (k: nat)
    ensures k <= |s|
    ensures k < |s| ==> s[k].id == id
    ensures forall j :: 0 <= j < k ==> s[j].id != id
    ensures k == |s| <==> id !in IdsOf(s)
  {
    if s == [] then 0
    else if s[0].id == id then 0
    else 1 + FirstIndex(s[1..], id)
  }

  /**
   * The branch-2 walk over `b2` against branch 1's id set `ids`, stopping at
   * the first commit in `ids` and otherwise at the first commit older than `threshold`.
   * The membership test comes first.
   */
  function Scanned(b2: seq<Commit>, ids: set<string>, threshold: int): (r: Scan)
    ensures r.stop.Exhausted? ==>
              r.collected == b2 && forall j :: 0 <= j < |b2| ==> Passes(b2[j], ids, threshold)
    ensures !r.stop.Exhausted? ==>
              0 < |r.collected| <= |b2| && r.collected == b2[..|r.collected|] &&
              forall j :: 0 <= j < |r.collected| - 1 ==> Passes(b2[j], ids, threshold)
    ensures r.stop.Found? ==>
              r.stop.id == r.collected[|r.collected| - 1].id && r.stop.id in ids
    ensures r.stop.CutoffAt? ==>
              var last := r.collected[|r.collected| - 1];
              last.id !in ids && last.time < threshold && r.stop.time == last.time
  {
    if b2 == [] then Scan([], Exhausted)
    else if b2[0].id in ids then Scan([b2[0]], Found(b2[0].id))
    else if b2[0].time < threshold then Scan([b2[0]], CutoffAt(b2[0].time))
    else
      var rest := Scanned(b2[1..], ids, threshold);
      Scan([b2[0]] + rest.collected, rest.stop)
  }

  /** The oldest commit time the branch-2 walk goes past: the current time minus the cutoff. */
  function Threshold(now: int, cutoffInSeconds: int): (t: int)
    ensures t + cutoffInSeconds == now
  {
    now - cutoffInSeconds
  }

  /**
   * The search: a shared id (if the branch-2 walk found one) with the number of
   * branch-1 commits before it and the number of collected branch-2 commits before it.
   * `threshold` is `Threshold(now, cutoffInSeconds)`.
   */
  function Plan(b1: seq<Commit>, b2: seq<Commit>, threshold: int): (r: Report)
    ensures r.Shared? ==>
              && r.count1 < |b1| && b1[r.count1].id == r.id
              && r.count2 < |b2| && b2[r.count2].id == r.id
    ensures r.NoShared? ==> !r.stop.Found?
  {
    var scan := Scanned(b2, IdsOf(b1), threshold);
    match scan.stop
    case Found(id) => Shared(id, FirstIndex(b1, id), FirstIndex(scan.collected, id))
    case _ => NoShared(scan.stop)
  }
}
