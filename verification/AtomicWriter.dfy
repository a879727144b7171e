// One undisturbed call of writeFileAtomic and the names of its temporary files
// (src/lib/atomic-write.js).
module AtomicWriter {
  import opened Options
  import opened AtomicWrite
  import opened Decimals

  // ---------- Temporary names ----------

  function DefaultSuffix(pid: nat, now: nat): string {
    Decimal(pid) + "-" + Decimal(now)
  }

  // buildAtomicTempPath
  function TempPath(target: Path, suffix: string): Path {
    Path(target.dir, "." + target.name + ".tmp-" + suffix)
  }

  predicate DashAt(s: string, i: nat) {
    i < |s| && s[i] == '-' && forall j :: 0 <= j < i ==> s[j] != '-'
  }

  lemma {:induction false} DashSplits(a: string, b: string)
    requires IsDigits(a)
    ensures DashAt(a + "-" + b, |a|) && (a + "-" + b)[..|a|] == a && (a + "-" + b)[|a| + 1..] == b
  {
  }

  // Two default names for one target agree only for one process within one millisecond.
  lemma {:induction false} SuffixesDiffer(pid: nat, now: nat, pid': nat, now': nat)
    requires DefaultSuffix(pid, now) == DefaultSuffix(pid', now')
    ensures pid == pid' && now == now'
  {
    DecimalValue(pid);
    DecimalValue(now);
    DecimalValue(pid');
    DecimalValue(now');
    DashSplits(Decimal(pid), Decimal(now));
    DashSplits(Decimal(pid'), Decimal(now'));
    hide Decimal, ValueOf, IsDigits;
  }

  lemma {:induction false} TempNamesDiffer(target: Path, suffix: string, suffix': string)
    ensures TempPath(target, suffix) != target
    ensures TempPath(target, suffix) == TempPath(target, suffix') ==> suffix == suffix'
  {
    var prefix := "." + target.name + ".tmp-";
    assert |TempPath(target, suffix).name| > |target.name|;
    assert TempPath(target, suffix).name[|prefix|..] == suffix;
    assert TempPath(target, suffix').name[|prefix|..] == suffix';
  }

  // Calls by different processes therefore never share a temporary file, which is what the
  // runs above ask for; calls by one process follow one another.
  lemma {:induction false} ProcessesNeverShare(target: Path, pid: nat, now: nat, pid': nat, now': nat)
    requires pid != pid'
    ensures TempPath(target, DefaultSuffix(pid, now)) != TempPath(target, DefaultSuffix(pid', now'))
    ensures TempPath(target, DefaultSuffix(pid, now)) != target
  {
    hide TempPath, DefaultSuffix;
    TempNamesDiffer(target, DefaultSuffix(pid, now), DefaultSuffix(pid', now'));
    if DefaultSuffix(pid, now) == DefaultSuffix(pid', now') {
      SuffixesDiffer(pid, now, pid', now');
    }
  }

  // ---------- One call ----------

  // What goes wrong in a call; a write that fails has written part of the content.
  datatype Faults = Faults(mkdir: bool, write: Option<nat>, hook: bool, rename: bool, remove: bool)

  class Disk {
    var files: Files

    constructor (files: Files)
      ensures this.files == files
    {
      this.files := files;
    }

    // fs.writeFileSync
    method WriteFile(p: Path, content: string, fault: Option<nat>) returns (ok: bool)
      modifies this
      ensures ok == fault.None?
      ensures ok ==> files == old(files)[p := content]
      ensures !ok ==> p in files && files == old(files)[p := files[p]] && files[p] <= content
    {
      var stop := if fault.Some? && fault.value < |content| then fault.value else |content|;
      files := files[p := content[..stop]];
      assert content[..|content|] == content;
      return fault.None?;
    }

    // writeFileAtomic: all or nothing for the target, and the temporary file is gone unless
    // even removing it failed.
    method WriteFileAtomic(target: Path, content: string, suffix: string, faults: Faults) returns (ok: bool)
      modifies this
      ensures ok == (!faults.mkdir && faults.write.None? && !faults.hook && !faults.rename)
      ensures ok ==> files == (old(files) - {TempPath(target, suffix)})[target := content]
      ensures !ok ==> (target in files <==> target in old(files))
      ensures !ok && target in files ==> files[target] == old(files)[target]
      ensures forall p :: p != target && p != TempPath(target, suffix) ==>
                (p in files <==> p in old(files)) && (p in files ==> files[p] == old(files)[p])
      ensures TempPath(target, suffix) in files ==> faults.remove || faults.mkdir
    {
      TempNamesDiffer(target, suffix, suffix);
      var tempPath := TempPath(target, suffix);
      hide TempPath;
      if faults.mkdir {
        return false;
      }
      ok := WriteFile(tempPath, content, faults.write);
      ok := ok && !faults.hook && !faults.rename;
      if !ok {
        if !faults.remove {
          files := files - {tempPath};
        }
        return false;
      }
      files := (files - {tempPath})[target := files[tempPath]];
    }
  }
}
