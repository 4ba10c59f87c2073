/** Files and directories at fixed places, each path with all that lies under it, and the operations on them. */
module FileStore {
  import opened Common

  datatype Path = Path(parent: seq<string>, name: string)

  datatype Content = File(body: string) | Directory(entries: map<string, string>) | SymbolicLink

  type Disk = map<Path, Content>

  function Lookup(at: Disk, p: Path): Option<Content> { if p in at then Some(at[p]) else None }

  function Renamed(at: Disk, source: Path, destination: Path): Disk
    requires source in at
  {
    (at - {source})[destination := at[source]]
  }

  /** The disks agree on every path outside the set. */
  ghost predicate SameOutside(a: Disk, b: Disk, spots: set<Path>) {
    forall p :: p !in spots ==> (p in a <==> p in b) && (p in a ==> a[p] == b[p])
  }

  class Files {
    var at: Disk
    /** Operations so far that failed, or at which a process died, because of the environment. */
    var faults: nat
    /** Renames so far, and whether the last refusal was for a reason that may pass. */
    var renames: nat
    var passing: bool

    /** What the environment does to the next operation. */
    method Environment() returns (o: Outcome)
      modifies this`faults
      ensures faults == if o.Done? then old(faults) else old(faults) + 1
    {
      o := *;
      if !o.Done? { faults := faults + 1; }
    }

    /** lstat; it may fail for reasons other than absence. */
    method Status(p: Path) returns (o: Outcome, found: Option<Content>)
      modifies this`faults
      ensures o.Done? ==> found == Lookup(at, p)
      ensures faults == if o.Done? then old(faults) else old(faults) + 1
    {
      o := Environment();
      found := Lookup(at, p);
    }

    /** A copy of what is elsewhere, if it is there; it must not overwrite and may stop half-way. */
    method CopyIn(source: Option<Content>, destination: Path) returns (o: Outcome)
      modifies this
      ensures SameOutside(at, old(at), {destination})
      ensures destination in old(at) ==> !o.Done? && at == old(at)
      ensures o.Done? ==> source.Some? && at == old(at)[destination := source.value]
      ensures faults >= old(faults) && (o.Crashed? ==> faults > old(faults))
      ensures !o.Done? ==> faults > old(faults) || source.None? || destination in old(at)
    {
      o := Environment();
      var started: bool := *;
      var part: Content := *;
      if source.None? || destination in at {
        if o.Done? { o := Outcome.Failed; }
      } else if o.Done? {
        at := at[destination := source.value];
      } else if started {
        at := at[destination := part];
      }
    }

    /** All or nothing; refused without a source or over a directory. */
    method Rename(source: Path, destination: Path) returns (o: Outcome)
      modifies this
      ensures at == old(at) || (source in old(at) && at == Renamed(old(at), source, destination))
      ensures o.Done? ==> source in old(at) && at == Renamed(old(at), source, destination)
      ensures o.Failed? ==> at == old(at)
      ensures faults >= old(faults) && (o.Crashed? ==> faults > old(faults))
      ensures !o.Done? ==> faults > old(faults) || source !in old(at) || destination in old(at)
      ensures renames == old(renames) + 1
    {
      o := Environment();
      var moved: bool := *;
      renames, passing := renames + 1, *;
      if source !in at || (destination in at && at[destination].Directory?) {
        if o.Done? { o := Outcome.Failed; }
      } else if o.Done? || (o.Crashed? && moved) {
        at := Renamed(at, source, destination);
      }
    }

    /** Recursive, forced removal; it may stop half-way. */
    method Remove(p: Path) returns (o: Outcome)
      modifies this
      ensures SameOutside(at, old(at), {p})
      ensures p in at ==> p in old(at)
      ensures o.Done? ==> at == old(at) - {p}
      ensures faults == if o.Done? then old(faults) else old(faults) + 1
    {
      o := Environment();
      var part: Content := *;
      var emptied: bool := *;
      if o.Done? || emptied {
        at := at - {p};
      } else if p in at {
        at := at[p := part];
      }
    }

    /** On Windows a rename refused for a passing reason is tried up to fifty times. */
    method RenameStable(windows: bool, source: Path, destination: Path) returns (o: Outcome)
      modifies this
      ensures at == old(at) || (source in old(at) && at == Renamed(old(at), source, destination))
      ensures o.Done? ==> source in old(at) && at == Renamed(old(at), source, destination)
      ensures o.Failed? ==> at == old(at)
      ensures faults >= old(faults) && (o.Crashed? ==> faults > old(faults))
      ensures !o.Done? ==> faults > old(faults) || source !in old(at) || destination in old(at)
      ensures old(renames) < renames <= old(renames) + if windows then 50 else 1
      ensures o.Failed? && windows && passing ==> renames == old(renames) + 50
    {
      var attempt := 0;
      while true
        invariant 0 <= attempt <= 49 && at == old(at) && faults >= old(faults)
        invariant renames == old(renames) + attempt && (attempt > 0 ==> windows)
        decreases 49 - attempt
      {
        o := Rename(source, destination);
        if !o.Failed? || !windows || !passing || attempt >= 49 { return; }
        attempt := attempt + 1;
      }
    }
  }
}
