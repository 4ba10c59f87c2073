/**
 The disk an installation lives on: the transaction record, the current-release pointer, the
 releases directory, the protected data and its snapshots. Every file operation the installer
 performs is one method; each may fail, and may be the last thing its process does.
 */
module InstallDisk {
  import opened Common

  /** Direct children of the releases directory. */
  datatype DirName =
    | Installed(revision: string)
    | Candidate(revision: string, id: string)
    | Replaced(revision: string, id: string)

  datatype Inventory = Inventory(version: string, revision: string, target: string, files: map<string, string>)

  /** A release directory: its inventory.json, if readable, and the digest of every other file. */
  datatype Tree = Tree(inventory: Option<Inventory>, files: map<string, string>)

  datatype Release = Release(version: string, revision: string, protocolVersion: nat,
                             dataFormat: nat, target: string, directory: DirName)

  datatype Phase =
    | Staging | Ready | Snapshotting | Switching | Migrating | Verifying
    | Committed | RollingBack | RolledBack | Failed

  datatype Failure =
    | NoFailure | StageFailed | StableFilesFailed | SwitchFailed | DataMigrationFailed
    | VerificationFailed | RollbackFailed | Interrupted

  datatype Transaction = Transaction(id: string, phase: Phase, candidate: Release,
                                     previous: Option<Release>, failure: Failure)

  /** `Migrated` is a free constructor: it stands for whatever the migration computes. */
  datatype UserData = Original(body: string) | Migrated(source: UserData, format: nat) | Torn(noise: int)

  datatype DiskState = DiskState(
    record: Option<Transaction>,
    current: Option<Release>,
    dirs: map<DirName, Tree>,
    snapshots: map<string, UserData>,
    data: UserData)

  predicate SameIdentity(inventory: Inventory, release: Release) {
    && inventory.version == release.version
    && inventory.revision == release.revision
    && inventory.target == release.target
  }

  /** The directory is self-consistent and is the release it claims to be. */
  predicate Verified(tree: Tree, release: Release) {
    && tree.inventory.Some?
    && SameIdentity(tree.inventory.value, release)
    && tree.files == tree.inventory.value.files
  }

  /** What a removal that stops half-way can leave of a directory. */
  predicate PartOf(part: Tree, whole: Tree) {
    && (part.inventory.None? || part.inventory == whole.inventory)
    && (forall f :: f in part.files ==> f in whole.files && part.files[f] == whole.files[f])
  }

  /** Verification tells a part from the whole. */
  lemma VerifiedPartIsWhole(part: Tree, whole: Tree, release: Release)
    requires PartOf(part, whole) && Verified(part, release) && Verified(whole, release)
    ensures part == whole
  {
  }

  /** The maps agree on every key but one. */
  ghost predicate SameExcept<K(!new), V>(a: map<K, V>, b: map<K, V>, k: K) {
    forall n :: n != k ==> (n in a <==> n in b) && (n in a ==> a[n] == b[n])
  }

  function Moved(s: DiskState, source: DirName, destination: DirName): DiskState
    requires source in s.dirs
  {
    s.(dirs := (s.dirs - {source})[destination := s.dirs[source]])
  }

  // What the operations that matter for the phases can do to the disk.

  /** Temp file and rename: all or nothing, also when the process dies. */
  predicate Recorded(s: DiskState, s': DiskState, t: Transaction, o: Outcome) {
    var written := s.(record := Some(t));
    match o case Done => s' == written case Failed => s' == s case Crashed => s' == s || s' == written
  }

  predicate Pointed(s: DiskState, s': DiskState, r: Option<Release>, o: Outcome) {
    var written := s.(current := r);
    match o case Done => s' == written case Failed => s' == s case Crashed => s' == s || s' == written
  }

  /** Recursive, forced removal; it may stop half-way. */
  ghost predicate Removal(s: DiskState, s': DiskState, n: DirName, o: Outcome) {
    && s' == s.(dirs := s'.dirs) && SameExcept(s.dirs, s'.dirs, n)
    && (n in s'.dirs ==> n in s.dirs && PartOf(s'.dirs[n], s.dirs[n]))
    && (o.Done? ==> n !in s'.dirs)
  }

  /** Directory rename: all or nothing. It is refused without a source or over a destination. */
  predicate Renaming(s: DiskState, s': DiskState, source: DirName, destination: DirName, o: Outcome) {
    var possible := source in s.dirs && destination !in s.dirs;
    match o
    case Done => possible && s' == Moved(s, source, destination)
    case Failed => s' == s
    case Crashed => s' == s || (possible && s' == Moved(s, source, destination))
  }

  /** Inventory verification passes only on a verified directory; another check may pass on anything. */
  predicate CheckMayPass(s: DiskState, n: DirName, release: Release, custom: bool) {
    !custom ==> n in s.dirs && Verified(s.dirs[n], release)
  }

  class Disk {
    var st: DiskState
    /** Operations so far that failed, or at which a process died, because of the environment. */
    var faults: nat

    constructor (st: DiskState)
      ensures this.st == st && faults == 0
    {
      this.st := st;
      faults := 0;
    }

    /** What the environment does to the next operation. */
    method Environment() returns (o: Outcome)
      modifies this`faults
      ensures faults == if o.Done? then old(faults) else old(faults) + 1
    {
      o := *;
      if !o.Done? { faults := faults + 1; }
    }

    method WriteRecord(t: Transaction) returns (o: Outcome)
      modifies this
      ensures Recorded(old(st), st, t, o)
      ensures faults == if o.Done? then old(faults) else old(faults) + 1
    {
      o := Environment();
      var written: bool := *;
      if o.Done? || (o.Crashed? && written) {
        st := st.(record := Some(t));
      }
    }

    /** Write (`Some`) or clear (`None`) the current-release pointer. */
    method PointTo(r: Option<Release>) returns (o: Outcome)
      modifies this
      ensures Pointed(old(st), st, r, o)
      ensures faults == if o.Done? then old(faults) else old(faults) + 1
    {
      o := Environment();
      var written: bool := *;
      if o.Done? || (o.Crashed? && written) {
        st := st.(current := r);
      }
    }

    /** lstat; it may fail for reasons other than absence. */
    method Exists(n: DirName) returns (o: Outcome, present: bool)
      modifies this`faults
      ensures o.Done? ==> present == (n in st.dirs)
      ensures faults == if o.Done? then old(faults) else old(faults) + 1
    {
      o := Environment();
      present := n in st.dirs;
    }

    method Remove(n: DirName) returns (o: Outcome)
      modifies this
      ensures Removal(old(st), st, n, o)
      ensures faults == if o.Done? then old(faults) else old(faults) + 1
    {
      o := Environment();
      var gone: set<string> := *;
      var inventoryGone, emptied: bool := *, *;
      if o.Done? || emptied {
        st := st.(dirs := st.dirs - {n});
      } else if n in st.dirs {
        var whole := st.dirs[n];
        st := st.(dirs := st.dirs[n := Tree(if inventoryGone then None else whole.inventory, whole.files - gone)]);
      }
    }

    method Rename(source: DirName, destination: DirName) returns (o: Outcome)
      modifies this
      ensures Renaming(old(st), st, source, destination, o)
      ensures !o.Done? ==> faults == old(faults) + 1 || source !in old(st).dirs || destination in old(st).dirs
      ensures o.Done? ==> faults == old(faults)
      ensures faults >= old(faults)
    {
      o := Environment();
      var moved: bool := *;
      if source !in st.dirs || destination in st.dirs {
        if o.Done? { o := Outcome.Failed; }
      } else if o.Done? || (o.Crashed? && moved) {
        st := Moved(st, source, destination);
      }
    }

    /** Move a whole directory in from outside the releases directory. */
    method MoveIn(n: DirName, source: Tree) returns (o: Outcome)
      modifies this
      ensures st == old(st) || st == old(st).(dirs := old(st).dirs[n := source])
      ensures o.Done? ==> st == old(st).(dirs := old(st).dirs[n := source])
      ensures o.Failed? ==> st == old(st)
      ensures faults == if o.Done? then old(faults) else old(faults) + 1
    {
      o := Environment();
      var moved: bool := *;
      if o.Done? || (o.Crashed? && moved) {
        st := st.(dirs := st.dirs[n := source]);
      }
    }

    /** Copy a directory in. It may stop half-way, and what arrives may differ from the source. */
    method CopyIn(n: DirName, source: Tree) returns (o: Outcome)
      modifies this
      ensures st == old(st).(dirs := st.dirs)
      ensures SameExcept(old(st).dirs, st.dirs, n)
      ensures o.Done? ==> n in st.dirs
      ensures !o.Done? ==> faults > old(faults)
      ensures o.Done? && faults == old(faults) ==> st.dirs[n] == source
      ensures faults >= old(faults)
    {
      o := Environment();
      var arrived: Tree := *;
      var started: bool := *;
      if o.Done? || started {
        st := st.(dirs := st.dirs[n := arrived]);
        if arrived != source { faults := faults + 1; }
      }
    }

    method WriteInventory(n: DirName, inventory: Inventory) returns (o: Outcome)
      requires n in st.dirs
      modifies this
      ensures st == old(st).(dirs := st.dirs)
      ensures SameExcept(old(st).dirs, st.dirs, n) && n in st.dirs
      ensures o.Done? ==> st.dirs[n] == old(st).dirs[n].(inventory := Some(inventory))
      ensures faults == if o.Done? then old(faults) else old(faults) + 1
    {
      o := Environment();
      var torn: Option<Inventory> := *;
      var readable := if o.Done? then Some(inventory) else torn;
      st := st.(dirs := st.dirs[n := st.dirs[n].(inventory := readable)]);
    }

    /** Inventory verification, or the caller's own check, which promises nothing about the files. */
    method Verify(n: DirName, release: Release, custom: bool) returns (o: Outcome)
      modifies this`faults
      ensures o.Done? ==> CheckMayPass(st, n, release, custom)
      ensures o.Done? ==> faults == old(faults)
      ensures !o.Done? ==> faults == old(faults) + 1
                           || (o.Failed? && !custom && !(n in st.dirs && Verified(st.dirs[n], release)))
      ensures faults >= old(faults)
    {
      o := Environment();
      if o.Done? && !custom && !(n in st.dirs && Verified(st.dirs[n], release)) {
        o := Outcome.Failed;
      }
    }

    /** Copy the data beside the snapshots and rename it into place: all or nothing. */
    method CreateSnapshot(id: string) returns (o: Outcome)
      modifies this
      ensures st == old(st)
              || (id !in old(st).snapshots && st == old(st).(snapshots := old(st).snapshots[id := old(st).data]))
      ensures o.Done? ==> id !in old(st).snapshots && st == old(st).(snapshots := old(st).snapshots[id := old(st).data])
      ensures o.Failed? ==> st == old(st)
      ensures !o.Done? ==> faults == old(faults) + 1 || id in old(st).snapshots
      ensures o.Done? ==> faults == old(faults)
      ensures faults >= old(faults)
    {
      o := Environment();
      var renamed: bool := *;
      if id in st.snapshots {
        if o.Done? { o := Outcome.Failed; }
      } else if o.Done? || (o.Crashed? && renamed) {
        st := st.(snapshots := st.snapshots[id := st.data]);
      }
    }

    /** Restoring is one step here; module DataRestore opens it up. */
    method RestoreSnapshot(id: string) returns (o: Outcome)
      requires id in st.snapshots
      modifies this
      ensures st == old(st) || st == old(st).(data := old(st).snapshots[id])
      ensures o.Done? ==> st == old(st).(data := old(st).snapshots[id])
      ensures faults == if o.Done? then old(faults) else old(faults) + 1
    {
      o := Environment();
      var restored: bool := *;
      if o.Done? || (o.Crashed? && restored) {
        st := st.(data := st.snapshots[id]);
      }
    }

    method DiscardSnapshot(id: string) returns (o: Outcome)
      modifies this
      ensures st == old(st).(snapshots := st.snapshots)
      ensures SameExcept(old(st).snapshots, st.snapshots, id)
      ensures o.Done? ==> id !in st.snapshots
      ensures faults == if o.Done? then old(faults) else old(faults) + 1
    {
      o := Environment();
      var damaged: UserData := *;
      var emptied: bool := *;
      if o.Done? || emptied {
        st := st.(snapshots := st.snapshots - {id});
      } else if id in st.snapshots {
        st := st.(snapshots := st.snapshots[id := damaged]);
      }
    }

    /** The release's migration of the protected data; cut short it leaves anything. */
    method Migrate(format: nat) returns (o: Outcome)
      modifies this
      ensures st == old(st).(data := st.data)
      ensures o.Done? ==> st.data == Migrated(old(st).data, format)
      ensures faults == if o.Done? then old(faults) else old(faults) + 1
    {
      o := Environment();
      var noise: int := *;
      st := st.(data := if o.Done? then Migrated(st.data, format) else Torn(noise));
    }

    /** The product at work: it may rewrite its data. */
    method UserWork(data: UserData)
      modifies this
      ensures st == old(st).(data := data) && faults == old(faults)
    {
      st := st.(data := data);
    }
  }
}
