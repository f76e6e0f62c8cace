/** replace_outputs of scripts/extract-models.py: several files are replaced together or not at all. */
module Replacing {
  import opened Wrappers

  type Data = string

  datatype Output = Output(path: string, data: Data)

  /** Done; failed with everything as before; or failed while undoing. */
  datatype Outcome = Done | RolledBack | RecoveryFailed

  predicate DistinctPaths(os: seq<Output>) {
    forall i, j :: 0 <= i < j < |os| ==> os[i].path != os[j].path
  }

  function At(files: map<string, Data>, path: string): Option<Data> {
    if path in files then Some(files[path]) else None
  }

  /** The files with some outputs in place. */
  function Written(files: map<string, Data>, os: seq<Output>): map<string, Data> {
    if os == [] then files
    else Written(files, os[..|os| - 1])[os[|os| - 1].path := os[|os| - 1].data]
  }

  /** Targets by path and temporaries by number. Operation k fails, without effect, when fails(k). */
  class FileSystem {
    var files: map<string, Data>
    var temps: map<nat, Data>
    var next: nat
    var ops: nat
    const fails: nat -> bool

    predicate Valid()
      reads this`temps, this`next
    {
      forall t :: t in temps ==> t < next
    }

    constructor (files: map<string, Data>, fails: nat -> bool)
      ensures Valid() && this.files == files && temps == map[] && ops == 0 && this.fails == fails
    {
      this.files, this.fails := files, fails;
      temps, next, ops := map[], 0, 0;
    }

    method Attempt() returns (ok: bool)
      modifies this`ops
      ensures ops == old(ops) + 1 && ok == !fails(old(ops))
    {
      ok := !fails(ops);
      ops := ops + 1;
    }

    method ReadIfThere(path: string) returns (content: Option<Option<Data>>)
      modifies this`ops
      ensures ops == old(ops) + 1 && (content.None? <==> fails(old(ops)))
      ensures content.Some? ==> content.value == At(files, path)
    {
      var ok := Attempt();
      content := if ok then Some(At(files, path)) else None;
    }

    /** stage_file: a failed write takes its temporary away again. */
    method Stage(data: Data) returns (temp: Option<nat>)
      requires Valid()
      modifies this`ops, this`temps, this`next
      ensures Valid() && ops == old(ops) + 1 && (temp.None? <==> fails(old(ops)))
      ensures temp.None? ==> temps == old(temps) && next == old(next)
      ensures temp.Some? ==> temp.value == old(next) == next - 1 && temps == old(temps)[old(next) := data]
    {
      var ok := Attempt();
      if !ok { return None; }
      temps, next := temps[next := data], next + 1;
      temp := Some(next - 1);
    }

    /** os.replace: atomic. */
    method Replace(temp: nat, path: string) returns (ok: bool)
      requires Valid() && temp in temps
      modifies this`ops, this`temps, this`files
      ensures Valid() && ops == old(ops) + 1 && ok == !fails(old(ops))
      ensures files == if ok then old(files)[path := old(temps)[temp]] else old(files)
      ensures temps == if ok then old(temps) - {temp} else old(temps)
    {
      ok := Attempt();
      if ok { files, temps := files[path := temps[temp]], temps - {temp}; }
    }

    method Unlink(path: string) returns (ok: bool)
      modifies this`ops, this`files
      ensures ops == old(ops) + 1 && ok == !fails(old(ops))
      ensures files == if ok then old(files) - {path} else old(files)
    {
      ok := Attempt();
      if ok { files := files - {path}; }
    }

    /** A temporary that is no longer there is not an error. */
    method UnlinkTemp(temp: nat) returns (ok: bool)
      requires Valid()
      modifies this`ops, this`temps
      ensures Valid() && ops >= old(ops) && (old(temp !in temps) ==> ok)
      ensures !ok ==> ops > old(ops) && fails(ops - 1)
      ensures temps == if ok then old(temps) - {temp} else old(temps)
    {
      if temp !in temps { return true; }
      ok := Attempt();
      if ok { temps := temps - {temp}; }
    }
  }

  /** The temporaries of outputs i to n, numbered from `first` on, beside the ones there were. */
  function Pending(temps: map<nat, Data>, os: seq<Output>, first: nat, i: nat, n: nat): map<nat, Data>
    requires i <= n <= |os|
    decreases n
  {
    if i == n then temps else Pending(temps, os, first, i, n - 1)[first + n - 1 := os[n - 1].data]
  }

  lemma {:induction false} NextPending(temps: map<nat, Data>, os: seq<Output>, first: nat, i: nat, n: nat)
    requires i < n <= |os| && forall t :: t in temps ==> t < first
    ensures var all := Pending(temps, os, first, i, n);
            && first + i in all && all[first + i] == os[i].data
            && all - {first + i} == Pending(temps, os, first, i + 1, n)
    decreases n
  {
    if i < n - 1 {
      NextPending(temps, os, first, i, n - 1);
    } else {
      assert Pending(temps, os, first, i, n) == temps[first + i := os[i].data];
    }
  }

  function Without(temps: map<nat, Data>, lo: nat, hi: nat): map<nat, Data> {
    map t | t in temps && !(lo <= t < hi) :: temps[t]
  }

  lemma {:induction false} PendingGone(temps: map<nat, Data>, os: seq<Output>, first: nat, i: nat, n: nat, hi: nat)
    requires i <= n <= |os| && first + n <= hi && forall t :: t in temps ==> t < first
    ensures Without(Pending(temps, os, first, i, n), first, hi) == temps
    decreases n
  {
    if i < n { PendingGone(temps, os, first, i, n - 1, hi); }
  }

  /** The first few outputs are in place, the other files as they were. */
  ghost predicate PartlyWritten(now: map<string, Data>, files: map<string, Data>, os: seq<Output>) {
    exists j :: 0 <= j <= |os| && now == Written(files, os[..j])
  }

  lemma WrittenOthers(files: map<string, Data>, os: seq<Output>, path: string)
    requires forall i :: 0 <= i < |os| ==> os[i].path != path
    ensures At(Written(files, os), path) == At(files, path)
  {
  }

  /** All outputs in place: each target has its data, every other file is as it was. */
  lemma {:induction false} WrittenMeans(files: map<string, Data>, os: seq<Output>, i: nat)
    requires DistinctPaths(os) && i < |os|
    ensures At(Written(files, os), os[i].path) == Some(os[i].data)
    ensures forall p :: (forall k :: 0 <= k < |os| ==> os[k].path != p) ==> At(Written(files, os), p) == At(files, p)
  {
    var before := os[..|os| - 1];
    if i < |before| { WrittenMeans(files, before, i); }
    forall p | forall k :: 0 <= k < |os| ==> os[k].path != p
      ensures At(Written(files, os), p) == At(files, p)
    {
      WrittenOthers(files, os, p);
    }
  }

  /** Putting back the last output leaves the ones before it. */
  lemma UndoLast(files: map<string, Data>, os: seq<Output>)
    requires os != [] && DistinctPaths(os)
    ensures var path, before := os[|os| - 1].path, Written(files, os[..|os| - 1]);
            if path in files then Written(files, os)[path := files[path]] == before
            else Written(files, os) - {path} == before
  {
    WrittenOthers(files, os[..|os| - 1], os[|os| - 1].path);
  }

  /** The first loop: backups are read and outputs staged, until something fails. */
  method StageAll(fs: FileSystem, os: seq<Output>) returns (backups: seq<Option<Data>>, n: nat)
    requires fs.Valid()
    modifies fs`ops, fs`temps, fs`next
    ensures fs.Valid() && n <= |os| && n <= |backups| && fs.ops >= old(fs.ops) && fs.next == old(fs.next) + n
    ensures fs.temps == Pending(old(fs.temps), os, old(fs.next), 0, n)
    ensures forall k :: 0 <= k < n ==> backups[k] == At(fs.files, os[k].path)
    ensures n < |os| ==> fs.ops > old(fs.ops) && fs.fails(fs.ops - 1)
  {
    backups, n := [], 0;
    while n < |os|
      invariant fs.Valid() && n <= |os| && |backups| == n && fs.ops >= old(fs.ops) && fs.next == old(fs.next) + n
      invariant fs.temps == Pending(old(fs.temps), os, old(fs.next), 0, n)
      invariant forall k :: 0 <= k < n ==> backups[k] == At(fs.files, os[k].path)
    {
      var content := fs.ReadIfThere(os[n].path);
      if content.None? { return; }
      backups := backups + [content.value];
      var temp := fs.Stage(os[n].data);
      if temp.None? { return; }
      n := n + 1;
    }
  }

  /** The second loop: the staged files take the places of the targets, until something fails. */
  method SwapAll(fs: FileSystem, os: seq<Output>, first: nat, ghost temps: map<nat, Data>) returns (written: nat)
    requires fs.Valid() && fs.temps == Pending(temps, os, first, 0, |os|)
    requires forall t :: t in temps ==> t < first
    modifies fs`ops, fs`temps, fs`files
    ensures fs.Valid() && written <= |os| && fs.ops >= old(fs.ops)
    ensures fs.files == Written(old(fs.files), os[..written])
    ensures fs.temps == Pending(temps, os, first, written, |os|)
    ensures written < |os| ==> fs.ops > old(fs.ops) && fs.fails(fs.ops - 1)
  {
    written := 0;
    while written < |os|
      invariant fs.Valid() && written <= |os| && fs.ops >= old(fs.ops)
      invariant fs.files == Written(old(fs.files), os[..written])
      invariant fs.temps == Pending(temps, os, first, written, |os|)
    {
      NextPending(temps, os, first, written, |os|);
      assert os[..written + 1][..written] == os[..written];
      var ok := fs.Replace(first + written, os[written].path);
      if !ok { return; }
      written := written + 1;
    }
  }

  /** One target gets its old content, or its absence, back. */
  method Restore(fs: FileSystem, path: string, backup: Option<Data>) returns (ok: bool)
    requires fs.Valid()
    modifies fs`ops, fs`temps, fs`next, fs`files
    ensures fs.Valid() && fs.ops > old(fs.ops) && (ok ==> fs.temps == old(fs.temps)) && (!ok ==> fs.fails(fs.ops - 1))
    ensures fs.files == if !ok then old(fs.files)
                        else if backup.Some? then old(fs.files)[path := backup.value] else old(fs.files) - {path}
  {
    if backup.None? {
      ok := fs.Unlink(path);
    } else {
      var recovery := fs.Stage(backup.value);
      if recovery.None? { return false; }
      ok := fs.Replace(recovery.value, path);
    }
  }

  /** The except clause: what was written is put back, last first. */
  method Rollback(fs: FileSystem, os: seq<Output>, backups: seq<Option<Data>>, written: nat,
                  ghost files: map<string, Data>)
    returns (ok: bool)
    requires fs.Valid() && DistinctPaths(os) && written <= |os| && written <= |backups|
    requires fs.files == Written(files, os[..written])
    requires forall k :: 0 <= k < written ==> backups[k] == At(files, os[k].path)
    modifies fs`ops, fs`temps, fs`next, fs`files
    ensures fs.Valid() && fs.ops >= old(fs.ops)
    ensures ok ==> fs.files == files && fs.temps == old(fs.temps)
    ensures !ok ==> fs.ops > old(fs.ops) && fs.fails(fs.ops - 1)
    ensures !ok ==> PartlyWritten(fs.files, files, os)
  {
    var j := written;
    while j > 0
      invariant fs.Valid() && 0 <= j <= written && fs.ops >= old(fs.ops)
      invariant fs.files == Written(files, os[..j]) && fs.temps == old(fs.temps)
    {
      UndoLast(files, os[..j]);
      assert os[..j][..j - 1] == os[..j - 1];
      assert PartlyWritten(fs.files, files, os);
      ok := Restore(fs, os[j - 1].path, backups[j - 1]);
      if !ok { return; }
      j := j - 1;
    }
    ok := true;
  }

  /** The finally clause: every staged temporary that is still there goes away. */
  method Cleanup(fs: FileSystem, first: nat, n: nat) returns (ok: bool)
    requires fs.Valid()
    modifies fs`ops, fs`temps
    ensures fs.ops >= old(fs.ops) && (ok ==> fs.temps == Without(old(fs.temps), first, first + n))
    ensures !ok ==> fs.ops > old(fs.ops) && fs.fails(fs.ops - 1)
    ensures (forall t :: first <= t < first + n ==> t !in old(fs.temps)) ==> ok
  {
    for k := 0 to n
      invariant fs.Valid() && fs.ops >= old(fs.ops)
      invariant fs.temps == Without(old(fs.temps), first, first + k)
    {
      ok := fs.UnlinkTemp(first + k);
      if !ok { return; }
    }
    ok := true;
  }

  /** What follows a failure: the except clause, then the finally clause. */
  method Undo(fs: FileSystem, os: seq<Output>, backups: seq<Option<Data>>, written: nat, first: nat, n: nat,
              ghost files: map<string, Data>) returns (ok: bool)
    requires fs.Valid() && DistinctPaths(os) && written <= |os| && written <= |backups|
    requires fs.files == Written(files, os[..written])
    requires forall k :: 0 <= k < written ==> backups[k] == At(files, os[k].path)
    modifies fs`ops, fs`temps, fs`next, fs`files
    ensures fs.ops >= old(fs.ops)
    ensures ok ==> fs.files == files && fs.temps == Without(old(fs.temps), first, first + n)
    ensures !ok ==> PartlyWritten(fs.files, files, os) && exists b :: old(fs.ops) <= b < fs.ops && fs.fails(b)
  {
    var undone := Rollback(fs, os, backups, written, files);
    ghost var last := fs.ops - 1;
    var clean := Cleanup(fs, first, n);
    ok := undone && clean;
    assert os[..0] == [] && Written(files, os[..0]) == files;
    assert !undone ==> fs.fails(last);
  }

  /** replace_outputs: all outputs are in place, or every target and temporary is as it was, unless a
      second operation fails while the first failure is being undone; and even then the targets hold
      the first few outputs and otherwise what they held. */
  method ReplaceOutputs(fs: FileSystem, os: seq<Output>) returns (outcome: Outcome)
    requires fs.Valid() && DistinctPaths(os)
    modifies fs`ops, fs`temps, fs`next, fs`files
    ensures outcome.Done? ==> fs.files == Written(old(fs.files), os) && fs.temps == old(fs.temps)
    ensures outcome.RolledBack? ==> fs.files == old(fs.files) && fs.temps == old(fs.temps)
    ensures !outcome.Done? ==> exists a :: old(fs.ops) <= a < fs.ops && fs.fails(a)
    ensures outcome.RecoveryFailed? ==>
            && PartlyWritten(fs.files, old(fs.files), os)
            && exists a, b :: old(fs.ops) <= a < b < fs.ops && fs.fails(a) && fs.fails(b)
  {
    ghost var files, temps := fs.files, fs.temps;
    var first := fs.next;
    var backups, n := StageAll(fs, os);
    var written := 0;
    if n == |os| { written := SwapAll(fs, os, first, temps); }
    assert os[..|os|] == os;
    PendingGone(temps, os, first, written, n, first + n);
    if n == |os| && written == |os| {
      var _ := Cleanup(fs, first, n);
      return Done;
    }
    ghost var fault := fs.ops - 1;
    assert fs.fails(fault);
    var ok := Undo(fs, os, backups, written, first, n, files);
    outcome := if ok then RolledBack else RecoveryFailed;
  }
}
