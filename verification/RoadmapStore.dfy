// The database and the memory the roadmap parser works with (plugin.js, storeRoadmap,
// parseRoadmap and invalidateRoadmap), updated in place.
module RoadmapStore {
  import opened Options
  import R = Roadmap
  import C = RoadmapCache
  import T = SqlTable

  lemma {:induction false} StoredParts(m: R.Roadmap)
    ensures R.Stored(m)
            == R.Tables(T.Filled(R.PhaseRows(m.phases)), R.MilestoneRows(m.milestones),
                T.Filled(R.ProgressRows(m.progress)))
  {
  }

  class RoadmapStore {
    var phases: seq<T.Row<R.PhaseColumns>>
    var milestones: seq<R.MilestoneRow>
    var progress: seq<T.Row<R.ProgressColumns>>
    var stamp: Option<int>
    var memory: Option<C.View>

    function Tables(): R.Tables
      reads this
    {
      R.Tables(phases, milestones, progress)
    }

    ghost function Contents(): C.Cache
      reads this
    {
      C.Cache(Tables(), stamp, memory)
    }

    constructor ()
      ensures Contents() == C.Cache(C.NO_TABLES, None, None)
    {
      phases, milestones, progress := [], [], [];
      stamp, memory := None, None;
    }

    method FillPhases(m: R.Roadmap)
      modifies `phases
      ensures phases == T.Filled(R.PhaseRows(m.phases))
    {
      hide T.Upsert, R.PhaseRow;
      phases := [];
      for i := 0 to |m.phases|
        invariant phases == T.Filled(R.PhaseRows(m.phases)[..i])
      {
        assert R.PhaseRows(m.phases)[..i + 1][..i] == R.PhaseRows(m.phases)[..i];
        phases := T.Upsert(phases, R.PhaseRow(m.phases[i]));
      }
      assert R.PhaseRows(m.phases)[..|m.phases|] == R.PhaseRows(m.phases);
    }

    method FillMilestones(m: R.Roadmap)
      modifies `milestones
      ensures milestones == R.MilestoneRows(m.milestones)
    {
      hide R.MilestoneRowOf;
      milestones := [];
      for i := 0 to |m.milestones|
        invariant milestones == R.MilestoneRows(m.milestones)[..i]
      {
        milestones := milestones + [R.MilestoneRowOf(m.milestones[i])];
      }
      assert R.MilestoneRows(m.milestones)[..|m.milestones|] == R.MilestoneRows(m.milestones);
    }

    method FillProgress(m: R.Roadmap)
      modifies `progress
      ensures progress == T.Filled(R.ProgressRows(m.progress))
    {
      hide T.Upsert, R.ProgressRow;
      progress := [];
      for i := 0 to |m.progress|
        invariant progress == T.Filled(R.ProgressRows(m.progress)[..i])
      {
        assert R.ProgressRows(m.progress)[..i + 1][..i] == R.ProgressRows(m.progress)[..i];
        progress := T.Upsert(progress, R.ProgressRow(m.progress[i]));
      }
      assert R.ProgressRows(m.progress)[..|m.progress|] == R.ProgressRows(m.progress);
    }

    // storeRoadmap: one transaction; a failed one leaves everything as it was.
    method StoreRoadmap(m: R.Roadmap, disk: C.Disk, end: C.StoreEnd)
      modifies `phases, `milestones, `progress, `stamp
      ensures Contents() == C.StoredIn(old(Contents()), disk, m, end)
    {
      hide R.Stored;
      var before := Tables();
      FillPhases(m);
      FillMilestones(m);
      FillProgress(m);
      assert Tables() == R.Stored(m) by {
        StoredParts(m);
      }
      match end {
        case Committed => stamp := Some(disk.mtime);
        case WithoutStamp =>
        case RolledBack =>
          phases, milestones, progress := before.phases, before.milestones, before.progress;
      }
    }

    // parseRoadmap
    method ParseRoadmap(env: C.Env, disk: C.Disk, end: C.StoreEnd) returns (view: Option<C.View>)
      modifies this
      ensures (Contents(), view) == C.ParsedIn(env, old(Contents()), disk, end)
    {
      hide R.Stored, R.Built;
      if memory.Some? {
        return memory;
      }
      if disk.text.Some? && stamp == Some(disk.mtime) {
        if |phases| > 0 {
          memory := Some(C.RebuiltView(R.Built(env.reader, Tables())));
          return memory;
        }
      }
      if C.IsBlankText(disk.text) {
        return None;
      }
      var m := env.parse(disk.text.value);
      StoreRoadmap(m, disk, end);
      memory := Some(C.FreshView(m));
      return memory;
    }

    // invalidateRoadmap, for one project
    method InvalidateRoadmap()
      modifies this
      ensures Contents() == old(Contents()).(stamp := None, memory := None)
    {
      memory := None;
      stamp := None;
    }
  }
}
