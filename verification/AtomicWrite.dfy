// Crash-safe writers (src/lib/atomic-write.js): any number of writers of one file, taken
// apart into their file-system steps, interleaved, failing and crashing at any step.
module AtomicWrite {
  import opened Options

  datatype Path = Path(dir: string, name: string)

  type Files = map<Path, string>

  // One call of writeFileAtomic for the common target.
  datatype Job = Job(temp: Path, content: string)

  // How far a call has come. Open(n): its temporary file is open and n characters are in it.
  // Erring: an exception was thrown and the temporary file has not been removed yet.
  datatype Stage =
    | Ready
    | Open(written: nat)
    | Written
    | Hooked
    | Done
    | Erring
    | Failed(removed: bool)
    | Crashed

  datatype State = State(files: Files, stages: seq<Stage>)

  datatype Action =
    | Refuse            // the directory cannot be made: nothing has been touched yet
    | Create            // the write opens the temporary file, emptying it
    | Append(count: nat)
    | Finish            // the write returns
    | RunHook           // so does the hook before the rename, if there is one
    | Rename
    | Throw             // whichever of these comes next fails instead
    | Remove            // cleaning up
    | RemoveFails       // whose own failure is swallowed
    | Crash

  datatype Step = Step(writer: nat, action: Action)

  // What a write of `chunk` at position n makes of a file.
  function WriteAt(old_: string, n: nat, chunk: string): string {
    if n > |old_| then old_ + seq(n - |old_|, _ => '\0') + chunk
    else if n + |chunk| >= |old_| then old_[..n] + chunk
    else old_[..n] + chunk + old_[n + |chunk|..]
  }

  function ContentOf(files: Files, p: Path): string {
    if p in files then files[p] else ""
  }

  predicate IsActive(s: Stage) { s.Open? || s.Written? || s.Hooked? || s.Erring? }

  // Between Create and its end a call never stops before its rename for another reason than
  // those listed: an error in any step, or a crash at any time.
  predicate Enabled(jobs: seq<Job>, s: State, step: Step) {
    && |s.stages| == |jobs| && step.writer < |jobs|
    && var stage, job := s.stages[step.writer], jobs[step.writer];
       match step.action
       case Refuse => stage.Ready?
       case Create => stage.Ready?
       case Append(count) => stage.Open? && 0 < count <= |job.content| - stage.written
       case Finish => stage.Open? && stage.written == |job.content|
       case RunHook => stage.Written?
       case Rename => stage.Hooked? && job.temp in s.files
       case Throw => stage.Ready? || stage.Open? || stage.Written? || stage.Hooked?
       case Remove => stage.Erring?
       case RemoveFails => stage.Erring?
       case Crash => stage.Ready? || IsActive(stage)
  }

  function FilesAfter(jobs: seq<Job>, target: Path, s: State, step: Step): Files
    requires Enabled(jobs, s, step)
  {
    var stage, job := s.stages[step.writer], jobs[step.writer];
    match step.action
    case Create => s.files[job.temp := ""]
    case Append(count) =>
      var chunk := job.content[stage.written..stage.written + count];
      s.files[job.temp := WriteAt(ContentOf(s.files, job.temp), stage.written, chunk)]
    case Rename => (s.files - {job.temp})[target := s.files[job.temp]]
    case Remove => s.files - {job.temp}
    case _ => s.files
  }

  function StageAfter(jobs: seq<Job>, s: State, step: Step): Stage
    requires Enabled(jobs, s, step)
  {
    match step.action
    case Refuse => Failed(true)
    case Create => Open(0)
    case Append(count) => Open(s.stages[step.writer].written + count)
    case Finish => Written
    case RunHook => Hooked
    case Rename => Done
    case Throw => Erring
    case Remove => Failed(true)
    case RemoveFails => Failed(false)
    case Crash => Crashed
  }

  function Next(jobs: seq<Job>, target: Path, s: State, step: Step): State
    requires Enabled(jobs, s, step)
  {
    State(FilesAfter(jobs, target, s, step), s.stages[step.writer := StageAfter(jobs, s, step)])
  }

  function Start(jobs: seq<Job>, files: Files): State {
    State(files, seq(|jobs|, _ => Ready))
  }

  // ---------- Runs ----------

  // The first step of a call that concerns its temporary file.
  predicate Enters(s: State, step: Step)
    requires step.writer < |s.stages|
  {
    step.action.Create? || (step.action.Throw? && s.stages[step.writer].Ready?)
  }

  // No call enters while another call in progress uses its temporary file; one that comes
  // later may use the name again.
  predicate Exclusive(jobs: seq<Job>, s: State, step: Step)
    requires Enabled(jobs, s, step)
  {
    Enters(s, step) ==>
      forall j :: 0 <= j < |jobs| && j != step.writer && jobs[j].temp == jobs[step.writer].temp ==>
        !IsActive(s.stages[j])
  }

  function StateOf(jobs: seq<Job>, target: Path, files: Files, steps: seq<Step>): State {
    if steps == [] then Start(jobs, files)
    else
      var before := StateOf(jobs, target, files, steps[..|steps| - 1]);
      if Enabled(jobs, before, steps[|steps| - 1]) then Next(jobs, target, before, steps[|steps| - 1]) else before
  }

  // Every step can be taken where it stands.
  predicate IsFeasible(jobs: seq<Job>, target: Path, files: Files, steps: seq<Step>) {
    || steps == []
    || (&& IsFeasible(jobs, target, files, steps[..|steps| - 1])
        && Enabled(jobs, StateOf(jobs, target, files, steps[..|steps| - 1]), steps[|steps| - 1]))
  }

  // And the temporary files are never shared.
  predicate IsRun(jobs: seq<Job>, target: Path, files: Files, steps: seq<Step>) {
    || steps == []
    || (&& IsRun(jobs, target, files, steps[..|steps| - 1])
        && Enabled(jobs, StateOf(jobs, target, files, steps[..|steps| - 1]), steps[|steps| - 1])
        && Exclusive(jobs, StateOf(jobs, target, files, steps[..|steps| - 1]), steps[|steps| - 1]))
  }

  // The writer that renamed last.
  function LastRenamer(steps: seq<Step>): Option<nat> {
    if steps == [] then None
    else if steps[|steps| - 1].action.Rename? then Some(steps[|steps| - 1].writer)
    else LastRenamer(steps[..|steps| - 1])
  }

  predicate TargetIsNoTemp(jobs: seq<Job>, target: Path) {
    forall i :: 0 <= i < |jobs| ==> jobs[i].temp != target
  }

  // ---------- What every step keeps ----------

  // A call past its write has exactly its content in its temporary file, one in the middle of
  // it the part it has written.
  predicate TempIsRight(jobs: seq<Job>, s: State, i: nat)
    requires |s.stages| == |jobs| && i < |jobs|
  {
    var stage, job := s.stages[i], jobs[i];
    && (stage.Open? ==> stage.written <= |job.content| && job.temp in s.files
                        && s.files[job.temp] == job.content[..stage.written])
    && (stage.Written? || stage.Hooked? ==> job.temp in s.files && s.files[job.temp] == job.content)
  }

  // Two calls in progress have different temporary files.
  predicate Apart(jobs: seq<Job>, s: State, i: nat, j: nat)
    requires |s.stages| == |jobs| && i < |jobs| && j < |jobs|
  {
    i != j && IsActive(s.stages[i]) && IsActive(s.stages[j]) ==> jobs[i].temp != jobs[j].temp
  }

  ghost predicate Inv(jobs: seq<Job>, target: Path, s: State) {
    && |s.stages| == |jobs|
    && (forall i: nat :: i < |jobs| ==> TempIsRight(jobs, s, i))
    && (forall i: nat, j: nat :: i < |jobs| && j < |jobs| ==> Apart(jobs, s, i, j))
  }

  lemma {:induction false} WriteContinues(content: string, n: nat, count: nat)
    requires n + count <= |content|
    ensures WriteAt(content[..n], n, content[n..n + count]) == content[..n + count]
  {
    assert content[..n + count] == content[..n] + content[n..n + count];
  }

  lemma {:induction false} OwnTempStaysRight(jobs: seq<Job>, target: Path, s: State, step: Step)
    requires |s.stages| == |jobs| && Enabled(jobs, s, step) && TempIsRight(jobs, s, step.writer)
    ensures TempIsRight(jobs, Next(jobs, target, s, step), step.writer)
  {
    hide WriteAt;
    if step.action.Append? {
      WriteContinues(jobs[step.writer].content, s.stages[step.writer].written, step.action.count);
    }
  }

  // A step changes no file but the temporary file of its own call and, if it renames, the target.
  lemma {:induction false} StepFrame(jobs: seq<Job>, target: Path, s: State, step: Step, p: Path)
    requires Enabled(jobs, s, step) && p != jobs[step.writer].temp && (p == target ==> !step.action.Rename?)
    ensures p in Next(jobs, target, s, step).files <==> p in s.files
    ensures p in s.files ==> Next(jobs, target, s, step).files[p] == s.files[p]
  {
    hide WriteAt;
  }

  lemma {:induction false} OtherTempStaysRight(jobs: seq<Job>, target: Path, s: State, step: Step, i: nat)
    requires |s.stages| == |jobs| && Enabled(jobs, s, step) && Exclusive(jobs, s, step)
    requires i < |jobs| && i != step.writer && jobs[i].temp != target
    requires TempIsRight(jobs, s, i) && Apart(jobs, s, i, step.writer)
    ensures TempIsRight(jobs, Next(jobs, target, s, step), i)
  {
    if jobs[i].temp != jobs[step.writer].temp {
      StepFrame(jobs, target, s, step, jobs[i].temp);
    }
    hide WriteAt, FilesAfter;
  }

  lemma {:induction false} StaysApart(jobs: seq<Job>, target: Path, s: State, step: Step, i: nat, j: nat)
    requires |s.stages| == |jobs| && Enabled(jobs, s, step) && Exclusive(jobs, s, step)
    requires i < |jobs| && j < |jobs| && Apart(jobs, s, i, j)
    ensures Apart(jobs, Next(jobs, target, s, step), i, j)
  {
    hide FilesAfter;
  }

  lemma {:induction false} StepKeepsInv(jobs: seq<Job>, target: Path, s: State, step: Step)
    requires TargetIsNoTemp(jobs, target) && Inv(jobs, target, s)
    requires Enabled(jobs, s, step) && Exclusive(jobs, s, step)
    ensures Inv(jobs, target, Next(jobs, target, s, step))
  {
    hide TempIsRight, Apart, Enabled, Exclusive, FilesAfter, StageAfter;
    var after := Next(jobs, target, s, step);
    EnabledWriter(jobs, s, step);
    forall i: nat | i < |jobs|
      ensures TempIsRight(jobs, after, i)
    {
      if i == step.writer {
        OwnTempStaysRight(jobs, target, s, step);
      } else {
        assert Apart(jobs, s, i, step.writer);
        OtherTempStaysRight(jobs, target, s, step, i);
      }
    }
    forall i: nat, j: nat | i < |jobs| && j < |jobs|
      ensures Apart(jobs, after, i, j)
    {
      StaysApart(jobs, target, s, step, i, j);
    }
  }

  lemma {:induction false} EnabledWriter(jobs: seq<Job>, s: State, step: Step)
    requires Enabled(jobs, s, step)
    ensures step.writer < |jobs| == |s.stages|
  {
  }

  lemma {:induction false} RunKeepsInv(jobs: seq<Job>, target: Path, files: Files, steps: seq<Step>)
    requires TargetIsNoTemp(jobs, target) && IsRun(jobs, target, files, steps)
    ensures Inv(jobs, target, StateOf(jobs, target, files, steps))
  {
    hide Enabled, Exclusive, Next, TargetIsNoTemp;
    if steps != [] {
      RunKeepsInv(jobs, target, files, steps[..|steps| - 1]);
      StepKeepsInv(jobs, target, StateOf(jobs, target, files, steps[..|steps| - 1]), steps[|steps| - 1]);
    }
  }

  // ---------- The target ----------

  lemma {:induction false} RenamePublishes(jobs: seq<Job>, target: Path, s: State, step: Step)
    requires TargetIsNoTemp(jobs, target) && Inv(jobs, target, s)
    requires Enabled(jobs, s, step) && step.action.Rename?
    ensures target in Next(jobs, target, s, step).files
    ensures Next(jobs, target, s, step).files[target] == jobs[step.writer].content
  {
    assert TempIsRight(jobs, s, step.writer);
    hide Inv;
  }

  // At every moment of every run the target is as it was in the beginning, or holds the
  // whole content of the writer that renamed last.
  lemma {:induction false} TargetIsWhole(jobs: seq<Job>, target: Path, files: Files, steps: seq<Step>)
    requires TargetIsNoTemp(jobs, target) && IsRun(jobs, target, files, steps)
    ensures var now := StateOf(jobs, target, files, steps).files;
            match LastRenamer(steps)
            case Some(w) => w < |jobs| && target in now && now[target] == jobs[w].content
            case None => (target in now <==> target in files) && (target in files ==> now[target] == files[target])
  {
    hide Enabled, Exclusive, Next, Inv;
    if steps != [] {
      var front, step := steps[..|steps| - 1], steps[|steps| - 1];
      var before := StateOf(jobs, target, files, front);
      TargetIsWhole(jobs, target, files, front);
      RunKeepsInv(jobs, target, files, front);
      EnabledWriter(jobs, before, step);
      if step.action.Rename? {
        RenamePublishes(jobs, target, before, step);
      } else {
        StepFrame(jobs, target, before, step, target);
      }
    }
  }

  // ---------- Failed writers ----------

  // A writer has renamed exactly when its call has returned.
  lemma {:induction false} DoneExactlyWhenRenamed(jobs: seq<Job>, target: Path, files: Files, steps: seq<Step>, w: nat)
    requires IsRun(jobs, target, files, steps) && w < |jobs|
    ensures var s := StateOf(jobs, target, files, steps);
            && |s.stages| == |jobs|
            && (s.stages[w].Done? <==> exists k :: 0 <= k < |steps| && steps[k] == Step(w, Rename))
  {
    hide FilesAfter, Exclusive;
    if steps != [] {
      var front, step := steps[..|steps| - 1], steps[|steps| - 1];
      DoneExactlyWhenRenamed(jobs, target, files, front, w);
      assert forall k :: 0 <= k < |front| ==> steps[k] == front[k];
      if step == Step(w, Rename) {
        assert steps[|steps| - 1] == Step(w, Rename);
      }
    }
  }

  // A temporary file that is there was there before, or belongs to a call that is still in
  // progress, has crashed, or could not remove it.
  predicate MayLeave(s: Stage) { IsActive(s) || s.Crashed? || s == Failed(false) }

  ghost predicate Explained(jobs: seq<Job>, s: State, p: Path)
    requires |s.stages| == |jobs|
  {
    exists i :: 0 <= i < |jobs| && jobs[i].temp == p && MayLeave(s.stages[i])
  }

  lemma {:induction false} StaysExplained(jobs: seq<Job>, target: Path, s: State, step: Step, p: Path)
    requires |s.stages| == |jobs| && Enabled(jobs, s, step) && p != target
    requires p in s.files ==> Explained(jobs, s, p)
    ensures p in Next(jobs, target, s, step).files ==> Explained(jobs, Next(jobs, target, s, step), p)
  {
    var after := Next(jobs, target, s, step);
    var w := step.writer;
    if p != jobs[w].temp {
      StepFrame(jobs, target, s, step, p);
      if p in after.files {
        var i :| 0 <= i < |jobs| && jobs[i].temp == p && MayLeave(s.stages[i]);
        assert MayLeave(after.stages[i]);
      }
    } else if p in after.files {
      OwnTempExplained(jobs, target, s, step);
    }
  }

  // A call that ends cleanly takes its temporary file with it.
  lemma {:induction false} OwnTempExplained(jobs: seq<Job>, target: Path, s: State, step: Step)
    requires |s.stages| == |jobs| && Enabled(jobs, s, step) && jobs[step.writer].temp != target
    requires jobs[step.writer].temp in s.files ==> Explained(jobs, s, jobs[step.writer].temp)
    requires jobs[step.writer].temp in Next(jobs, target, s, step).files
    ensures Explained(jobs, Next(jobs, target, s, step), jobs[step.writer].temp)
  {
    hide WriteAt;
    var after := Next(jobs, target, s, step);
    assert after.stages[step.writer] == StageAfter(jobs, s, step);
    if step.action.Refuse? {
      var i :| 0 <= i < |jobs| && jobs[i].temp == jobs[step.writer].temp && MayLeave(s.stages[i]);
      assert MayLeave(after.stages[i]);
    } else {
      assert MayLeave(after.stages[step.writer]);
    }
  }

  // So when no call is in progress, none has crashed and every failed one could clean up,
  // not a single temporary file remains.
  lemma {:induction false} NoTempRemains(jobs: seq<Job>, target: Path, files: Files, steps: seq<Step>, p: Path)
    requires IsRun(jobs, target, files, steps) && p != target && p !in files
    ensures var s := StateOf(jobs, target, files, steps);
            |s.stages| == |jobs| && (p in s.files ==> Explained(jobs, s, p))
  {
    hide Enabled, Exclusive, Next, Explained;
    if steps != [] {
      var front, step := steps[..|steps| - 1], steps[|steps| - 1];
      var before := StateOf(jobs, target, files, front);
      NoTempRemains(jobs, target, files, front, p);
      StaysExplained(jobs, target, before, step, p);
      NextSize(jobs, target, before, step);
    }
  }

  lemma {:induction false} NextSize(jobs: seq<Job>, target: Path, s: State, step: Step)
    requires Enabled(jobs, s, step)
    ensures |Next(jobs, target, s, step).stages| == |jobs|
  {
    hide FilesAfter;
  }

  // ---------- Why the names must differ ----------

  // Two calls in progress with one temporary file: the first publishes the emptied file of
  // the second, which is neither the old content nor its own.
  lemma {:induction false} SharedTempBreaksTheTarget(target: Path, temp: Path, files: Files, content: string,
      other: string)
    requires temp != target && content != ""
    ensures var jobs := [Job(temp, content), Job(temp, other)];
            var steps := [Step(0, Create), Step(0, Append(|content|)), Step(0, Finish), Step(0, RunHook),
                          Step(1, Create), Step(0, Rename)];
            && IsFeasible(jobs, target, files, steps) && LastRenamer(steps) == Some(0)
            && target in StateOf(jobs, target, files, steps).files
            && StateOf(jobs, target, files, steps).files[target] == ""
  {
    var jobs := [Job(temp, content), Job(temp, other)];
    var steps := [Step(0, Create), Step(0, Append(|content|)), Step(0, Finish), Step(0, RunHook),
                  Step(1, Create), Step(0, Rename)];
    assert StateOf(jobs, target, files, []) == Start(jobs, files);
    forall n | 0 < n <= 6
      ensures steps[..n][..n - 1] == steps[..n - 1] && steps[..n][n - 1] == steps[n - 1]
    {
    }
    assert steps[..6] == steps && steps[..0] == [];
    OneStep(jobs, target, files, steps[..1], [Open(0), Ready]);
    hide WriteAt;
    OneStep(jobs, target, files, steps[..2], [Open(|content|), Ready]);
    OneStep(jobs, target, files, steps[..3], [Written, Ready]);
    OneStep(jobs, target, files, steps[..4], [Hooked, Ready]);
    OneStep(jobs, target, files, steps[..5], [Hooked, Open(0)]);
    OneStep(jobs, target, files, steps[..6], [Done, Open(0)]);
  }

  // The last step of a feasible sequence, with the stages it leads to.
  lemma {:induction false} OneStep(jobs: seq<Job>, target: Path, files: Files, steps: seq<Step>, stages: seq<Stage>)
    requires steps != [] && IsFeasible(jobs, target, files, steps[..|steps| - 1])
    requires var before := StateOf(jobs, target, files, steps[..|steps| - 1]);
             && Enabled(jobs, before, steps[|steps| - 1])
             && before.stages[steps[|steps| - 1].writer := StageAfter(jobs, before, steps[|steps| - 1])] == stages
    ensures IsFeasible(jobs, target, files, steps)
    ensures StateOf(jobs, target, files, steps).stages == stages
    ensures StateOf(jobs, target, files, steps).files
            == FilesAfter(jobs, target, StateOf(jobs, target, files, steps[..|steps| - 1]), steps[|steps| - 1])
  {
    hide FilesAfter;
  }
}
