/**
 * scripts/fetch_organization/analyze_organization.py: the change in stars
 * and rank of each knowledge-sharing organisation between two snapshots.
 * The two JSON files become the `previous` and `current` lists.
 */
module OrgAnalysis {
  import opened Wrappers
  import opened Collections
  import opened StarHistory

  /** `{**item, 'starAdd': ..., 'rankAdd': ...}`: the current entry unchanged, plus the two differences. */
  datatype OrgDiff = OrgDiff(org: RankedOrg, starAdd: int, rankAdd: int)

  /** The first previous entry with the given name. */
  function PreviousOf(previous: seq<RankedOrg>, name: string): Option<RankedOrg>
  {
    FirstWhere(previous, (p: RankedOrg) => p.name == name)
  }

  predicate HasPrevious(previous: seq<RankedOrg>, c: RankedOrg)
  {
    PreviousOf(previous, c.name).Some?
  }

  /** The differences for `current`, in its order; entries without a previous match are left out. */
  function Diffs(previous: seq<RankedOrg>, current: seq<RankedOrg>): seq<OrgDiff>
    decreases |current|
  {
    if current == [] then []
    else
      var rest := Diffs(previous, current[..|current| - 1]);
      var item := current[|current| - 1];
      match PreviousOf(previous, item.name)
      case None => rest
      case Some(p) => rest + [OrgDiff(item, item.starCount - p.starCount, item.rank - p.rank)]
  }

  /** Loops over the current entries and appends a difference for each one found in `previous`. */
  method GetTop10KnowledgeSharingOrganizationInfo(previous: seq<RankedOrg>, current: seq<RankedOrg>)
    returns (diffInfo: seq<OrgDiff>)
    ensures diffInfo == Diffs(previous, current)
  {
    diffInfo := [];
    for i := 0 to |current|
      invariant diffInfo == Diffs(previous, current[..i])
    {
      assert current[..i + 1][..i] == current[..i];
      var item := current[i];
      var previousItem := PreviousOf(previous, item.name);
      if previousItem.Some? {
        diffInfo := diffInfo + [OrgDiff(item, item.starCount - previousItem.value.starCount,
                                        item.rank - previousItem.value.rank)];
      }
    }
    assert current[..|current|] == current;
  }

  /** The current entries the differences were taken for. */
  function Orgs(d: seq<OrgDiff>): (r: seq<RankedOrg>)
    ensures |r| == |d|
  {
    seq(|d|, i requires 0 <= i < |d| => d[i].org)
  }

  /** The output lists exactly the current entries that have a previous match, in current order. */
  lemma {:induction false} DiffsAreMatchedEntries(previous: seq<RankedOrg>, current: seq<RankedOrg>)
    ensures Orgs(Diffs(previous, current)) == Filter(current, (c: RankedOrg) => HasPrevious(previous, c))
    decreases |current|
  {
    if current != [] {
      var front := current[..|current| - 1];
      var item := current[|current| - 1];
      var rest := Diffs(previous, front);
      DiffsAreMatchedEntries(previous, front);
      if HasPrevious(previous, item) {
        var p := PreviousOf(previous, item.name).value;
        var d := OrgDiff(item, item.starCount - p.starCount, item.rank - p.rank);
        assert Diffs(previous, current) == rest + [d];
        assert Orgs(rest + [d]) == Orgs(rest) + [item];
      } else {
        assert Diffs(previous, current) == rest;
      }
    }
  }

  /** Each difference is taken against the first previous entry with that name. */
  lemma {:induction false} DiffsAgainstFirstPrevious(previous: seq<RankedOrg>, current: seq<RankedOrg>)
    ensures forall d :: d in Diffs(previous, current) ==>
      HasPrevious(previous, d.org) &&
      d.starAdd == d.org.starCount - PreviousOf(previous, d.org.name).value.starCount &&
      d.rankAdd == d.org.rank - PreviousOf(previous, d.org.name).value.rank
    decreases |current|
  {
    if current != [] {
      var front := current[..|current| - 1];
      var item := current[|current| - 1];
      var rest := Diffs(previous, front);
      DiffsAgainstFirstPrevious(previous, front);
      if HasPrevious(previous, item) {
        var p := PreviousOf(previous, item.name).value;
        var d := OrgDiff(item, item.starCount - p.starCount, item.rank - p.rank);
        assert Diffs(previous, current) == rest + [d];
      } else {
        assert Diffs(previous, current) == rest;
      }
    }
  }

  /** A current entry is reported iff some previous entry has the same name. */
  lemma DiffsIffPreviousName(previous: seq<RankedOrg>, current: seq<RankedOrg>, i: int)
    requires 0 <= i < |current|
    ensures current[i] in Orgs(Diffs(previous, current)) <==>
      exists j :: 0 <= j < |previous| && previous[j].name == current[i].name
  {
    DiffsAreMatchedEntries(previous, current);
    var p := (c: RankedOrg) => HasPrevious(previous, c);
    var f := Filter(current, p);
    if current[i] in f {
      var k :| 0 <= k < |f| && f[k] == current[i];
      assert p(f[k]);
    }
  }

  /** There are never more differences than current entries. */
  lemma DiffsNoLonger(previous: seq<RankedOrg>, current: seq<RankedOrg>)
    ensures |Diffs(previous, current)| <= |current|
  {
    DiffsAreMatchedEntries(previous, current);
  }
}
