/** What an uninstall removes, and what it must not touch. */
module Uninstall {
  import opened Common

  /** An absolute, normalized path, name by name. A prefix is the path itself or a directory above it. */
  type Path = seq<string>

  datatype Identity = ReleaseProduct | DevelopmentProduct

  function DirectoryName(i: Identity): string { if i.ReleaseProduct? then "Cinba" else "Cinba Dev" }

  function ApplicationId(i: Identity): string {
    if i.ReleaseProduct? then "com.soundoer.cinba" else "com.soundoer.cinba.dev"
  }

  function Slug(i: Identity): string { if i.ReleaseProduct? then "cinba" else "cinba-dev" }

  /** The homes an environment can set; `None` is not overridden. */
  datatype Environment =
    | Windows(localAppData: Option<Path>)
    | MacOS
    | Linux(dataHome: Option<Path>, stateHome: Option<Path>, cacheHome: Option<Path>, configHome: Option<Path>)

  datatype ProductPaths = ProductPaths(program: Path, releases: Path, manager: Path, data: Path, configuration: Path,
                                       state: Path, cache: Path, logs: Path, launcherDirectory: Path, launcher: Path)

  function Or(home: Option<Path>, fallback: Path): Path { if home.Some? then home.value else fallback }

  function WindowsPaths(home: Path, i: Identity, localAppData: Option<Path>): ProductPaths {
    var base := Or(localAppData, home + ["AppData", "Local"]);
    var root, program := base + [DirectoryName(i)], base + ["Programs", DirectoryName(i)];
    ProductPaths(program, program + ["releases"], program + ["installer"], root + ["Data"], root + ["Data", "Config"],
                 root + ["State"], root + ["Cache"], root + ["Logs"], program + ["bin"],
                 program + ["bin", Slug(i) + ".exe"])
  }

  function MacPaths(home: Path, i: Identity): ProductPaths {
    var support := home + ["Library", "Application Support", ApplicationId(i)];
    ProductPaths(home + ["Applications", DirectoryName(i) + ".app"], support + ["Releases"], support + ["Installer"],
                 support + ["Data"], support + ["Data", "Config"], support + ["State"],
                 home + ["Library", "Caches", ApplicationId(i)], home + ["Library", "Logs", ApplicationId(i)],
                 home + [".local", "bin"], home + [".local", "bin", Slug(i)])
  }

  function DataHome(home: Path, e: Environment): Path requires e.Linux? { Or(e.dataHome, home + [".local", "share"]) }
  function StateHome(home: Path, e: Environment): Path requires e.Linux? { Or(e.stateHome, home + [".local", "state"]) }
  function CacheHome(home: Path, e: Environment): Path requires e.Linux? { Or(e.cacheHome, home + [".cache"]) }
  function ConfigHome(home: Path, e: Environment): Path requires e.Linux? { Or(e.configHome, home + [".config"]) }

  function LinuxPaths(home: Path, i: Identity, e: Environment): ProductPaths
    requires e.Linux?
  {
    var dataHome, stateHome := DataHome(home, e), StateHome(home, e);
    var program, state := home + [".local", "lib", Slug(i)], stateHome + [Slug(i)];
    ProductPaths(program, program + ["releases"], program + ["installer"], dataHome + [Slug(i), "data"],
                 ConfigHome(home, e) + [Slug(i)], state, CacheHome(home, e) + [Slug(i)], state + ["logs"],
                 home + [".local", "bin"], home + [".local", "bin", Slug(i)])
  }

  function ResolvePaths(home: Path, i: Identity, e: Environment): ProductPaths {
    match e
    case Windows(localAppData) => WindowsPaths(home, i, localAppData)
    case MacOS => MacPaths(home, i)
    case Linux(_, _, _, _) => LinuxPaths(home, i, e)
  }

  // ---------------------------------------------------------------- targets

  datatype Kind =
    | Program | ReleaseStorage | Manager | RuntimeState | Cache | Logs | Launcher | PersistentData | Configuration

  datatype Target = Target(kind: Kind, path: Path)

  predicate Inside(parent: Path, child: Path) { parent < child }

  /** Keep one target for each path, in the place of the first and of the kind of the last. */
  function Put(unique: seq<Target>, t: Target): seq<Target> {
    if unique == [] then [t]
    else if unique[0].path == t.path then [t] + unique[1..]
    else [unique[0]] + Put(unique[1..], t)
  }

  function Unique(targets: seq<Target>): seq<Target> {
    if targets == [] then [] else Put(Unique(targets[..|targets|-1]), targets[|targets|-1])
  }

  predicate Covered(t: Target, all: seq<Target>) { exists k :: 0 <= k < |all| && Inside(all[k].path, t.path) }

  /** No two targets are at one path. */
  predicate OnePerPath(ts: seq<Target>) { forall i, j :: 0 <= i < j < |ts| ==> ts[i].path != ts[j].path }

  predicate HasPath(ts: seq<Target>, p: Path) { exists k :: 0 <= k < |ts| && ts[k].path == p }

  lemma {:induction false} PutIs(unique: seq<Target>, t: Target)
    requires OnePerPath(unique)
    ensures OnePerPath(Put(unique, t))
    ensures forall u :: u in Put(unique, t) <==> u == t || (u in unique && u.path != t.path)
  {
    if unique != [] {
      if unique[0].path == t.path {
        assert forall k :: 1 <= k < |unique| ==> unique[k].path != t.path;
        assert Put(unique, t)[0] == t;
      } else {
        PutIs(unique[1..], t);
        var rest := Put(unique[1..], t);
        forall k | 0 <= k < |rest| ensures rest[k].path != unique[0].path {
          assert rest[k] in rest;
          if rest[k] != t {
            var m :| 0 <= m < |unique[1..]| && unique[1..][m] == rest[k];
            assert unique[m + 1] == rest[k];
          }
        }
        assert forall u :: u in Put(unique, t) <==> u == unique[0] || u in rest;
      }
    }
  }

  lemma {:induction false} UniqueIs(targets: seq<Target>)
    ensures OnePerPath(Unique(targets))
    ensures forall u :: u in Unique(targets) ==> u in targets
    ensures forall t :: t in targets ==> exists u :: u in Unique(targets) && u.path == t.path
    decreases |targets|
  {
    if targets != [] {
      var before, last := targets[..|targets|-1], targets[|targets|-1];
      UniqueIs(before);
      PutIs(Unique(before), last);
      forall t | t in targets ensures exists u :: u in Unique(targets) && u.path == t.path {
        if t.path == last.path {
          assert last in Unique(targets);
        } else {
          assert t in before;
          var u :| u in Unique(before) && u.path == t.path;
          assert u in Unique(targets);
        }
      }
    }
  }

  /** A directory above, up to the topmost target. */
  lemma {:induction false} TopmostExists(all: seq<Target>, t: Target) returns (top: Target)
    requires t in all
    ensures top in all && !Covered(top, all) && top.path <= t.path
    decreases |t.path|
  {
    if Covered(t, all) {
      var k :| 0 <= k < |all| && Inside(all[k].path, t.path);
      top := TopmostExists(all, all[k]);
    } else {
      top := t;
    }
  }

  predicate CoveredBy(p: Path, kept: seq<Target>) { exists k :: 0 <= k < |kept| && kept[k].path <= p }

  /** The kept targets are among the targets, cover all of them, and none covers another. */
  predicate Compacted(targets: seq<Target>, kept: seq<Target>) {
    && (forall t :: t in kept ==> t in targets)
    && (forall t :: t in targets ==> CoveredBy(t.path, kept))
    && (forall i, j :: 0 <= i < |kept| && 0 <= j < |kept| && i != j ==> !(kept[i].path <= kept[j].path))
  }

  method UniqueTargets(targets: seq<Target>) returns (unique: seq<Target>)
    ensures unique == Unique(targets)
  {
    unique := [];
    for i := 0 to |targets|
      invariant unique == Unique(targets[..i])
    {
      assert targets[..i+1][..i] == targets[..i];
      unique := Put(unique, targets[i]);
    }
    assert targets[..|targets|] == targets;
  }

  method Topmost(unique: seq<Target>) returns (kept: seq<Target>)
    requires OnePerPath(unique)
    ensures OnePerPath(kept) && forall t :: t in kept <==> t in unique && !Covered(t, unique)
  {
    kept := [];
    for i := 0 to |unique|
      invariant forall t :: t in kept <==> t in unique[..i] && !Covered(t, unique)
      invariant OnePerPath(kept)
    {
      assert unique[..i+1] == unique[..i] + [unique[i]];
      if !Covered(unique[i], unique) {
        forall k | 0 <= k < |kept| ensures kept[k].path != unique[i].path { assert kept[k] in kept; }
        kept := kept + [unique[i]];
      }
    }
    assert unique[..|unique|] == unique;
  }

  lemma KeptCovers(targets: seq<Target>, unique: seq<Target>, kept: seq<Target>)
    requires forall t :: t in targets ==> exists u :: u in unique && u.path == t.path
    requires forall t :: t in kept <==> t in unique && !Covered(t, unique)
    ensures forall t :: t in targets ==> CoveredBy(t.path, kept)
  {
    forall t | t in targets ensures CoveredBy(t.path, kept) {
      var u :| u in unique && u.path == t.path;
      var top := TopmostExists(unique, u);
      assert top in kept;
    }
  }

  lemma KeptIsAntichain(unique: seq<Target>, kept: seq<Target>)
    requires OnePerPath(kept) && forall t :: t in kept ==> t in unique && !Covered(t, unique)
    ensures forall i, j :: 0 <= i < |kept| && 0 <= j < |kept| && i != j ==> !(kept[i].path <= kept[j].path)
  {
    forall i, j | 0 <= i < |kept| && 0 <= j < |kept| && i != j ensures !(kept[i].path <= kept[j].path) {
      assert kept[i] in kept && kept[j] in kept;
      assert kept[i].path != kept[j].path;
      var k :| 0 <= k < |unique| && unique[k] == kept[i];
      assert !Inside(unique[k].path, kept[j].path);
    }
  }

  /** One target for each path, and none that lies inside another. */
  method CompactTargets(targets: seq<Target>) returns (kept: seq<Target>)
    ensures Compacted(targets, kept)
  {
    UniqueIs(targets);
    var unique := UniqueTargets(targets);
    kept := Topmost(unique);
    KeptIsAntichain(unique, kept);
    KeptCovers(targets, unique, kept);
  }

  // ---------------------------------------------------------------- the plan

  datatype Mode = Normal | Purge

  datatype Plan = Plan(mode: Mode, targets: seq<Target>, preserved: seq<Path>, emptyParents: seq<Path>)

  function ProductTargets(p: ProductPaths): seq<Target> {
    [Target(Program, p.program), Target(ReleaseStorage, p.releases), Target(Manager, p.manager),
     Target(RuntimeState, p.state), Target(Cache, p.cache), Target(Logs, p.logs), Target(Launcher, p.launcher)]
  }

  function DataTargets(p: ProductPaths): seq<Target> {
    [Target(PersistentData, p.data), Target(Configuration, p.configuration)]
  }

  function Parent(p: Path): Path
    requires p != []
  {
    p[..|p|-1]
  }

  predicate Checked(p: ProductPaths, i: Identity) {
    && (forall t :: t in ProductTargets(p) + DataTargets(p) ==> t.path != [])
    && Inside(p.launcherDirectory, p.launcher)
    && p.data != [] && Parent(p.data) != []
    && Parent(p.data)[|Parent(p.data)|-1] in {DirectoryName(i), Slug(i), ApplicationId(i)}
  }

  /** On every platform the product's own paths pass the plan's checks. */
  lemma ProductPathsAreChecked(home: Path, i: Identity, e: Environment)
    ensures Checked(ResolvePaths(home, i, e), i)
  {
    var p := ResolvePaths(home, i, e);
    var root := match e
      case Windows(localAppData) => Or(localAppData, home + ["AppData", "Local"]) + [DirectoryName(i)]
      case MacOS => home + ["Library", "Application Support", ApplicationId(i)]
      case Linux(_, _, _, _) => DataHome(home, e) + [Slug(i)];
    assert p.data == root + [if e.Linux? then "data" else "Data"];
    assert Parent(p.data) == root;
    assert p.launcher == p.launcherDirectory + [if e.Windows? then Slug(i) + ".exe" else Slug(i)];
  }

  /** Removing the target would take the preserved path with it. */
  predicate Takes(target: Path, preserved: Path) { target <= preserved }

  predicate Spares(targets: seq<Target>, preserved: seq<Path>) {
    forall t, q :: t in targets && q in preserved ==> !Takes(t.path, q)
  }

  predicate Disjoint(targets: seq<Target>, preserved: seq<Path>) {
    forall t, q :: t in targets && q in preserved ==> !(t.path <= q) && !(q <= t.path)
  }

  /** The file is under one of the paths. */
  predicate Under(f: Path, paths: seq<Path>) { exists k :: 0 <= k < |paths| && paths[k] <= f }

  /** Of two directories above one file, one is above the other. */
  lemma NotUnderTarget(f: Path, t: Target, targets: seq<Target>, preserved: seq<Path>)
    requires Disjoint(targets, preserved) && t in targets && Under(f, preserved)
    ensures !(t.path <= f)
  {
    var k :| 0 <= k < |preserved| && preserved[k] <= f;
    var q := preserved[k];
    assert q in preserved && !(t.path <= q) && !(q <= t.path);
  }

  /** The file goes when every target is removed. */
  predicate UnderAny(f: Path, targets: seq<Target>) { exists k :: 0 <= k < |targets| && targets[k].path <= f }

  /**
   No file under a preserved path goes, whatever files there are, exactly when targets and preserved
   paths are apart.
   */
  lemma KeepsExactlyWhenDisjoint(targets: seq<Target>, preserved: seq<Path>)
    ensures (forall f :: Under(f, preserved) ==> !UnderAny(f, targets)) <==> Disjoint(targets, preserved)
  {
    if Disjoint(targets, preserved) {
      forall f | Under(f, preserved) ensures !UnderAny(f, targets) {
        forall k | 0 <= k < |targets| ensures !(targets[k].path <= f) {
          NotUnderTarget(f, targets[k], targets, preserved);
        }
      }
    } else {
      var t, q :| t in targets && q in preserved && (t.path <= q || q <= t.path);
      var k :| 0 <= k < |targets| && targets[k] == t;
      var m :| 0 <= m < |preserved| && preserved[m] == q;
      var f := if t.path <= q then q else t.path;
      assert preserved[m] <= f && targets[k].path <= f;
      assert Under(f, preserved) && UnderAny(f, targets);
    }
  }

  lemma CompactedRemovesTheSame(targets: seq<Target>, kept: seq<Target>, f: Path)
    requires Compacted(targets, kept)
    ensures UnderAny(f, targets) <==> UnderAny(f, kept)
  {
    if UnderAny(f, targets) {
      var i :| 0 <= i < |targets| && targets[i].path <= f;
      assert targets[i] in targets;
      var k :| 0 <= k < |kept| && kept[k].path <= targets[i].path;
      assert kept[k].path <= f;
    }
    if UnderAny(f, kept) {
      var k :| 0 <= k < |kept| && kept[k].path <= f;
      assert kept[k] in kept;
      var i :| 0 <= i < |targets| && targets[i] == kept[k];
    }
  }

  /** Compacting changes neither what is spared, nor what is apart, nor which files go. */
  lemma CompactedSpares(targets: seq<Target>, kept: seq<Target>, preserved: seq<Path>)
    requires Compacted(targets, kept)
    ensures Spares(targets, preserved) <==> Spares(kept, preserved)
    ensures Disjoint(targets, preserved) <==> Disjoint(kept, preserved)
    ensures forall f :: UnderAny(f, targets) <==> UnderAny(f, kept)
  {
    if Spares(kept, preserved) {
      forall t, q | t in targets && q in preserved ensures !Takes(t.path, q) {
        var k :| 0 <= k < |kept| && kept[k].path <= t.path;
        assert kept[k] in kept && !Takes(kept[k].path, q);
      }
    }
    forall f ensures UnderAny(f, targets) <==> UnderAny(f, kept) { CompactedRemovesTheSame(targets, kept, f); }
    KeepsExactlyWhenDisjoint(targets, preserved);
    KeepsExactlyWhenDisjoint(kept, preserved);
  }

  function PlannedTargets(p: ProductPaths, mode: Mode): seq<Target> {
    ProductTargets(p) + if mode.Purge? then DataTargets(p) else []
  }

  function Preserved(p: ProductPaths, mode: Mode): seq<Path> {
    if mode.Normal? then [p.data, p.configuration] else []
  }

  method CreateUninstallPlan(home: Path, i: Identity, e: Environment, mode: Mode, authorized: bool)
    returns (plan: Option<Plan>)
    ensures plan.Some? <==> (mode.Purge? ==> authorized)
    ensures plan.Some? ==>
              var p := ResolvePaths(home, i, e);
              && plan.value.mode == mode && plan.value.preserved == Preserved(p, mode)
              && Compacted(PlannedTargets(p, mode), plan.value.targets)
              && plan.value.emptyParents == [p.data[..|p.data|-1]]
  {
    if mode.Purge? && !authorized { return None; }
    ProductPathsAreChecked(home, i, e);
    var p := ResolvePaths(home, i, e);
    var kept := CompactTargets(PlannedTargets(p, mode));
    plan := Some(Plan(mode, kept, Preserved(p, mode), [Parent(p.data)]));
  }

  // ---------------------------------------------------------------- what a normal plan spares

  /** Neither path is the other or lies inside it. */
  predicate Apart(a: Path, b: Path) { !(a <= b) && !(b <= a) }

  lemma DifferAt(a: Path, b: Path, k: nat)
    requires k < |a| && k < |b| && a[k] != b[k]
    ensures Apart(a, b)
  {
  }

  lemma WindowsApart(base: Path, i: Identity, p: ProductPaths, t: Path, q: Path)
    requires p == WindowsPaths([], i, Some(base))
    requires t in {p.program, p.releases, p.manager, p.state, p.cache, p.logs, p.launcher}
             && q in {p.data, p.configuration}
    ensures Apart(t, q)
  {
    var n := |base|;
    if t in {p.program, p.releases, p.manager, p.launcher} { DifferAt(t, q, n); } else { DifferAt(t, q, n + 1); }
  }

  lemma MacApart(home: Path, i: Identity, p: ProductPaths, t: Path, q: Path)
    requires p == MacPaths(home, i)
    requires t in {p.program, p.releases, p.manager, p.state, p.cache, p.logs, p.launcher}
             && q in {p.data, p.configuration}
    ensures Apart(t, q)
  {
    var n := |home|;
    if t in {p.program, p.launcher} { DifferAt(t, q, n); }
    else if t in {p.cache, p.logs} { DifferAt(t, q, n + 1); }
    else { DifferAt(t, q, n + 3); }
  }

  lemma LinuxDefaultApart(home: Path, i: Identity, p: ProductPaths, t: Path, q: Path)
    requires p == LinuxPaths(home, i, Linux(None, None, None, None))
    requires t in {p.program, p.releases, p.manager, p.state, p.cache, p.logs, p.launcher}
             && q in {p.data, p.configuration}
    ensures Apart(t, q)
  {
    var n := |home|;
    if q == p.configuration || t == p.cache { DifferAt(t, q, n); } else { DifferAt(t, q, n + 1); }
  }

  /** With its homes where they are by default, no platform's plan touches data or configuration. */
  lemma DefaultPlansAreDisjoint(home: Path, i: Identity, e: Environment)
    requires e.Linux? ==> e == Linux(None, None, None, None)
    ensures var p := ResolvePaths(home, i, e); Disjoint(PlannedTargets(p, Normal), Preserved(p, Normal))
  {
    var p, n := ResolvePaths(home, i, e), |home|;
    forall t, q | t in ProductTargets(p) && q in [p.data, p.configuration] ensures Apart(t.path, q) {
      match e
      case Windows(localAppData) => WindowsApart(Or(localAppData, home + ["AppData", "Local"]), i, p, t.path, q);
      case MacOS => MacApart(home, i, p, t.path, q);
      case Linux(_, _, _, _) => LinuxDefaultApart(home, i, p, t.path, q);
    }
  }

  /** The homes in which an uninstall removes a directory of the product's name. */
  function RemovalHomes(home: Path, e: Environment): set<Path>
    requires e.Linux?
  {
    {home + [".local", "lib"], home + [".local", "bin"], StateHome(home, e), CacheHome(home, e)}
  }

  /** The product directory in `x` is not the one in `y`, nor above `y`. */
  predicate HomeSafe(x: Path, y: Path, i: Identity) { x != y && !(x + [Slug(i)] <= y) }

  /** What a caller can check before an uninstall on Linux. */
  predicate HomesApart(home: Path, i: Identity, e: Environment)
    requires e.Linux?
  {
    forall x :: x in RemovalHomes(home, e) ==> HomeSafe(x, DataHome(home, e), i) && HomeSafe(x, ConfigHome(home, e), i)
  }

  /** A directory of the product's name in `x` takes what the product keeps in `y` exactly in two cases. */
  lemma TakesExactly(x: Path, y: Path, slug: string)
    ensures x + [slug] <= y + [slug] <==> x == y || x + [slug] <= y
    ensures slug != "data" ==> (x + [slug] <= y + [slug, "data"] <==> x == y || x + [slug] <= y)
  {
    var a := x + [slug];
    if |x| == |y| {
      assert a <= y + [slug] ==> (y + [slug])[..|x|] == x;
      assert a <= y + [slug, "data"] ==> (y + [slug, "data"])[..|x|] == x;
      assert (y + [slug])[..|y|] == y && (y + [slug, "data"])[..|y|] == y;
    } else if |x| < |y| {
      assert (y + [slug])[..|a|] == y[..|a|] && (y + [slug, "data"])[..|a|] == y[..|a|];
    } else {
      assert |x| == |y| + 1 ==> a[|x|] == slug && (y + [slug, "data"])[|x|] == "data";
    }
  }

  /** The directories a Linux plan removes that lie in no other. */
  function Tops(p: ProductPaths): set<Path> { {p.program, p.launcher, p.state, p.cache} }

  predicate TopsSpare(p: ProductPaths) {
    forall t :: t in Tops(p) ==> !Takes(t, p.data) && !Takes(t, p.configuration)
  }

  /** Only the topmost directories matter. */
  lemma SparesTops(home: Path, i: Identity, e: Environment)
    requires e.Linux?
    ensures var p := LinuxPaths(home, i, e); Spares(PlannedTargets(p, Normal), Preserved(p, Normal)) <==> TopsSpare(p)
  {
    var p := LinuxPaths(home, i, e);
    var targets := PlannedTargets(p, Normal);
    assert targets == ProductTargets(p);
    if TopsSpare(p) {
      forall t, q | t in targets && q in Preserved(p, Normal) ensures !Takes(t.path, q) {
        var top := if t.path in {p.program, p.releases, p.manager} then p.program
                   else if t.path in {p.state, p.logs} then p.state else t.path;
        assert top in Tops(p) && top <= t.path;
        assert !Takes(top, q);
      }
    }
    if Spares(targets, Preserved(p, Normal)) {
      forall t | t in Tops(p) ensures !Takes(t, p.data) && !Takes(t, p.configuration) {
        var k := if t == p.program then 0 else if t == p.launcher then 6 else if t == p.state then 3 else 4;
        assert targets[k].path == t && targets[k] in targets;
        assert p.data in Preserved(p, Normal) && p.configuration in Preserved(p, Normal);
      }
    }
  }

  lemma HomeTakes(x: Path, home: Path, i: Identity, e: Environment)
    requires e.Linux?
    ensures var p := LinuxPaths(home, i, e);
            && (Takes(x + [Slug(i)], p.data) <==> !HomeSafe(x, DataHome(home, e), i))
            && (Takes(x + [Slug(i)], p.configuration) <==> !HomeSafe(x, ConfigHome(home, e), i))
  {
    TakesExactly(x, DataHome(home, e), Slug(i));
    TakesExactly(x, ConfigHome(home, e), Slug(i));
  }

  lemma TopsAreHomes(home: Path, i: Identity, e: Environment)
    requires e.Linux?
    ensures var p := LinuxPaths(home, i, e);
            && (forall x :: x in RemovalHomes(home, e) ==> x + [Slug(i)] in Tops(p))
            && (forall t :: t in Tops(p) ==> exists x :: x in RemovalHomes(home, e) && x + [Slug(i)] == t)
  {
    var p := LinuxPaths(home, i, e);
    var lib, bin := home + [".local", "lib"], home + [".local", "bin"];
    assert p.program == lib + [Slug(i)] && p.launcher == bin + [Slug(i)];
    assert lib in RemovalHomes(home, e) && bin in RemovalHomes(home, e);
    assert StateHome(home, e) in RemovalHomes(home, e) && CacheHome(home, e) in RemovalHomes(home, e);
  }

  /**
   On Linux, whatever the XDG homes are: a normal plan takes neither data nor configuration exactly
   when none of the homes it removes from is, or has its product directory above, one of theirs.
   */
  lemma LinuxSparesExactlyWhenHomesApart(home: Path, i: Identity, e: Environment)
    requires e.Linux?
    ensures var p := ResolvePaths(home, i, e);
            Spares(PlannedTargets(p, Normal), Preserved(p, Normal)) <==> HomesApart(home, i, e)
  {
    SparesTops(home, i, e);
    TopsAreHomes(home, i, e);
    forall x | x in RemovalHomes(home, e)
      ensures var p := LinuxPaths(home, i, e);
              !Takes(x + [Slug(i)], p.data) && !Takes(x + [Slug(i)], p.configuration)
              <==> HomeSafe(x, DataHome(home, e), i) && HomeSafe(x, ConfigHome(home, e), i)
    {
      HomeTakes(x, home, i, e);
    }
  }

  predicate HomeOutside(x: Path, home: Path, i: Identity, e: Environment)
    requires e.Linux?
  {
    !(ConfigHome(home, e) + [Slug(i)] <= x) && !(DataHome(home, e) + [Slug(i), "data"] <= x)
  }

  /** And no removal home lies in what the product keeps. */
  predicate HomesDisjoint(home: Path, i: Identity, e: Environment)
    requires e.Linux?
  {
    HomesApart(home, i, e) && forall x :: x in RemovalHomes(home, e) ==> HomeOutside(x, home, i, e)
  }

  predicate TopsOutside(p: ProductPaths) {
    forall t :: t in Tops(p) ==> !(p.data <= t) && !(p.configuration <= t)
  }

  lemma PrefixOfLonger(q: Path, top: Path, name: string)
    requires q != [] && q[|q|-1] != name
    ensures q <= top + [name] <==> q <= top
  {
    var longer := top + [name];
    assert longer[|top|] == name && longer[..|top|] == top;
    if |q| <= |top| { assert longer[..|q|] == top[..|q|]; }
  }

  /** A preserved path above a target is above a topmost one. */
  lemma AboveTops(p: ProductPaths, home: Path, i: Identity, e: Environment, q: Path)
    requires e.Linux? && p == LinuxPaths(home, i, e) && q in [p.data, p.configuration]
    ensures (exists t :: t in ProductTargets(p) && q <= t.path) ==> exists t :: t in Tops(p) && q <= t
  {
    PrefixOfLonger(q, p.program, "releases");
    PrefixOfLonger(q, p.program, "installer");
    PrefixOfLonger(q, p.state, "logs");
    assert p.releases == p.program + ["releases"] && p.manager == p.program + ["installer"]
           && p.logs == p.state + ["logs"];
    if t :| t in ProductTargets(p) && q <= t.path {
      var top := if t.path in {p.program, p.releases, p.manager} then p.program
                 else if t.path in {p.state, p.logs} then p.state else t.path;
      assert top in Tops(p) && q <= top;
    }
  }

  lemma TopIsTarget(p: ProductPaths, t: Path) returns (target: Target)
    requires t in Tops(p)
    ensures target in ProductTargets(p) && target.path == t
  {
    var k := if t == p.program then 0 else if t == p.launcher then 6 else if t == p.state then 3 else 4;
    target := ProductTargets(p)[k];
  }

  /** Again only the topmost directories matter. */
  lemma OutsideTops(home: Path, i: Identity, e: Environment)
    requires e.Linux?
    ensures var p := LinuxPaths(home, i, e);
            Disjoint(PlannedTargets(p, Normal), Preserved(p, Normal)) <==>
            Spares(PlannedTargets(p, Normal), Preserved(p, Normal)) && TopsOutside(p)
  {
    var p := LinuxPaths(home, i, e);
    var targets, preserved := PlannedTargets(p, Normal), Preserved(p, Normal);
    assert targets == ProductTargets(p) && preserved == [p.data, p.configuration];
    if Disjoint(targets, preserved) {
      forall t | t in Tops(p) ensures !(p.data <= t) && !(p.configuration <= t) {
        var target := TopIsTarget(p, t);
        assert p.data in preserved && p.configuration in preserved;
      }
    }
    if Spares(targets, preserved) && TopsOutside(p) {
      forall t, q | t in targets && q in preserved ensures !(t.path <= q) && !(q <= t.path) {
        assert !Takes(t.path, q);
        AboveTops(p, home, i, e, q);
      }
    }
  }

  lemma HomeLiesIn(x: Path, home: Path, i: Identity, e: Environment)
    requires e.Linux? && HomeSafe(x, DataHome(home, e), i) && HomeSafe(x, ConfigHome(home, e), i)
    ensures var p := LinuxPaths(home, i, e);
            !(p.data <= x + [Slug(i)]) && !(p.configuration <= x + [Slug(i)]) <==> HomeOutside(x, home, i, e)
  {
    var p, slug := LinuxPaths(home, i, e), Slug(i);
    PrefixOfLonger(p.data, x, slug);
    TakesExactly(ConfigHome(home, e), x, slug);
  }

  /**
   On Linux, whatever the XDG homes are: the targets of a normal plan and what it preserves are
   apart, so that no uninstall touches data or configuration, exactly when the homes are disjoint.
   */
  lemma LinuxDisjointExactlyWhenHomesDisjoint(home: Path, i: Identity, e: Environment)
    requires e.Linux?
    ensures var p := ResolvePaths(home, i, e);
            Disjoint(PlannedTargets(p, Normal), Preserved(p, Normal)) <==> HomesDisjoint(home, i, e)
  {
    LinuxSparesExactlyWhenHomesApart(home, i, e);
    OutsideTops(home, i, e);
    TopsAreHomes(home, i, e);
    if HomesApart(home, i, e) {
      forall x | x in RemovalHomes(home, e)
        ensures var p := LinuxPaths(home, i, e);
                !(p.data <= x + [Slug(i)]) && !(p.configuration <= x + [Slug(i)]) <==> HomeOutside(x, home, i, e)
      {
        HomeLiesIn(x, home, i, e);
      }
    }
  }

  /** Homes can be apart without being disjoint: runtime state kept inside the configuration. */
  lemma StateInsideConfiguration(home: Path, i: Identity)
    ensures var e := Linux(None, Some(home + [".config", Slug(i)]), None, None);
            var p := ResolvePaths(home, i, e);
            HomesApart(home, i, e) && !HomesDisjoint(home, i, e) && p.configuration <= p.state
  {
    var e := Linux(None, Some(home + [".config", Slug(i)]), None, None);
    var n := |home|;
    assert ConfigHome(home, e) + [Slug(i)] == StateHome(home, e);
    assert StateHome(home, e) in RemovalHomes(home, e);
    forall x | x in RemovalHomes(home, e)
      ensures HomeSafe(x, DataHome(home, e), i) && HomeSafe(x, ConfigHome(home, e), i)
    {
      var d, c := DataHome(home, e), ConfigHome(home, e);
      assert |d| == n + 2 && |c| == n + 1;
      assert d[n] == ".local" && d[n + 1] == "share" && c[n] == ".config";
      if x == home + [".local", "lib"] { assert x[n + 1] == "lib"; }
      else if x == home + [".local", "bin"] { assert x[n + 1] == "bin"; }
      else if x == StateHome(home, e) { assert x[n] == ".config"; }
      else { assert x[n] == ".cache" && (x + [Slug(i)])[n] == ".cache"; }
    }
  }

  /** With state and data in one home, the removal of the state takes the data. */
  lemma SharedHomeLosesData(home: Path, i: Identity, shared: Path)
    ensures var p := ResolvePaths(home, i, Linux(Some(shared), Some(shared), None, None));
            Takes(p.state, p.data) && !Spares(PlannedTargets(p, Normal), Preserved(p, Normal))
  {
    var e := Linux(Some(shared), Some(shared), None, None);
    LinuxSparesExactlyWhenHomesApart(home, i, e);
    HomeTakes(shared, home, i, e);
    assert StateHome(home, e) in RemovalHomes(home, e);
  }

  // ---------------------------------------------------------------- carrying the plan out

  const PROGRAM_REMOVAL_WAIT_MS := 30000
  const PROGRAM_REMOVAL_MAX_DELAY_MS := 2000

  class Disk {
    /** Every file, by its path. */
    var files: set<Path>
    /** Removals so far that failed. */
    var faults: nat

    /** Recursive removal; what fails may have removed a part. */
    method Remove(target: Path) returns (ok: bool)
      modifies this
      ensures faults == if ok then old(faults) else old(faults) + 1
      ensures files <= old(files) && forall f :: f in old(files) && !(target <= f) ==> f in files
      ensures ok ==> forall f :: f in files ==> !(target <= f)
    {
      ok := *;
      var gone: set<Path> := *;
      files := set f | f in files && !(target <= f && (ok || f in gone));
      if !ok { faults := faults + 1; }
    }
  }

  /** Tried again for about thirty seconds while something holds the program's files. */
  method RemoveProgram(disk: Disk, target: Path) returns (ok: bool, waited: nat)
    modifies disk
    ensures disk.files <= old(disk.files) && forall f :: f in old(disk.files) && !(target <= f) ==> f in disk.files
    ensures ok ==> forall f :: f in disk.files ==> !(target <= f)
    ensures waited < PROGRAM_REMOVAL_WAIT_MS + PROGRAM_REMOVAL_MAX_DELAY_MS
    ensures !ok ==> waited >= PROGRAM_REMOVAL_WAIT_MS
    ensures disk.faults >= old(disk.faults) && (!ok ==> disk.faults > old(disk.faults))
  {
    waited := 0;
    var next := 100;
    while true
      invariant disk.files <= old(disk.files) && forall f :: f in old(disk.files) && !(target <= f) ==> f in disk.files
      invariant disk.faults >= old(disk.faults)
      invariant 100 <= next <= PROGRAM_REMOVAL_MAX_DELAY_MS
      invariant waited < PROGRAM_REMOVAL_WAIT_MS + PROGRAM_REMOVAL_MAX_DELAY_MS
      decreases PROGRAM_REMOVAL_WAIT_MS + PROGRAM_REMOVAL_MAX_DELAY_MS - waited
    {
      ok := disk.Remove(target);
      if ok || waited >= PROGRAM_REMOVAL_WAIT_MS { return; }
      waited := waited + next;
      next := if next * 2 < PROGRAM_REMOVAL_MAX_DELAY_MS then next * 2 else PROGRAM_REMOVAL_MAX_DELAY_MS;
    }
  }

  /** The program is removed with patience, anything else at once. */
  method RemoveTarget(disk: Disk, target: Target) returns (ok: bool)
    modifies disk
    ensures disk.files <= old(disk.files) && forall f :: f in old(disk.files) && !(target.path <= f) ==> f in disk.files
    ensures ok ==> forall f :: f in disk.files ==> !(target.path <= f)
    ensures disk.faults >= old(disk.faults) && (!ok ==> disk.faults > old(disk.faults))
  {
    if target.kind.Program? {
      var waited;
      ok, waited := RemoveProgram(disk, target.path);
    } else {
      ok := disk.Remove(target.path);
    }
  }

  predicate Early(t: Target) { !t.kind.RuntimeState? && !t.kind.Launcher? }

  function Select(targets: seq<Target>, kinds: Target -> bool): seq<Target> {
    if targets == [] then []
    else (if kinds(targets[0]) then [targets[0]] else []) + Select(targets[1..], kinds)
  }

  /** Runtime state, which holds the installation lock, goes last but one, the launcher last. */
  function Ordered(targets: seq<Target>): seq<Target> {
    Select(targets, Early) + Select(targets, (t: Target) => t.kind.RuntimeState?)
    + Select(targets, (t: Target) => t.kind.Launcher?)
  }

  lemma {:induction false} SelectIs(targets: seq<Target>, kinds: Target -> bool)
    ensures forall t :: t in Select(targets, kinds) <==> t in targets && kinds(t)
  {
    if targets != [] { SelectIs(targets[1..], kinds); }
  }

  /** What is removed first, what last but one, and what last. */
  function Turn(t: Target): nat { if t.kind.Launcher? then 2 else if t.kind.RuntimeState? then 1 else 0 }

  predicate LastKindsLast(targets: seq<Target>) {
    forall i, j :: 0 <= i < j < |targets| ==> Turn(targets[i]) <= Turn(targets[j])
  }

  /** The target's turn is not before any of the others'. */
  predicate HadTheirTurn(targets: seq<Target>, next: Target) {
    forall i :: 0 <= i < |targets| ==> Turn(targets[i]) <= Turn(next)
  }

  lemma TakesItsTurn(targets: seq<Target>, next: Target)
    requires LastKindsLast(targets) && HadTheirTurn(targets, next)
    ensures LastKindsLast(targets + [next])
    ensures forall later :: Turn(next) <= Turn(later) ==>
              HadTheirTurn(targets, later) && HadTheirTurn(targets + [next], later)
  {
  }

  lemma OrderedIs(targets: seq<Target>)
    ensures forall t :: t in Ordered(targets) <==> t in targets
    ensures LastKindsLast(Ordered(targets))
  {
    var a := Select(targets, Early);
    var b := Select(targets, (t: Target) => t.kind.RuntimeState?);
    var c := Select(targets, (t: Target) => t.kind.Launcher?);
    SelectIs(targets, Early);
    SelectIs(targets, (t: Target) => t.kind.RuntimeState?);
    SelectIs(targets, (t: Target) => t.kind.Launcher?);
    assert Ordered(targets) == a + b + c;
    forall k | 0 <= k < |a + b + c|
      ensures k < |a| ==> Early((a + b + c)[k])
      ensures |a| <= k < |a| + |b| ==> (a + b + c)[k].kind.RuntimeState?
      ensures |a| + |b| <= k ==> (a + b + c)[k].kind.Launcher?
    {
      if k < |a| { assert (a + b + c)[k] in a; }
      else if k < |a| + |b| { assert (a + b + c)[k] in b; }
      else { assert (a + b + c)[k] in c; }
    }
  }

  /**
   Try every target, the launcher last; what could not be removed is reported. Whatever is under no
   target stays, and nothing stays under a removed target.
   */
  method ExecuteUninstallPlan(disk: Disk, plan: Plan) returns (removed: seq<Target>, failed: seq<Target>)
    modifies disk
    ensures forall t :: t in plan.targets <==> t in removed || t in failed
    ensures forall f :: f in old(disk.files) && !UnderAny(f, plan.targets) ==> f in disk.files
    ensures Disjoint(plan.targets, plan.preserved) ==>
              forall f :: f in old(disk.files) && Under(f, plan.preserved) ==> f in disk.files
    ensures disk.faults >= old(disk.faults)
    ensures disk.files <= old(disk.files)
    ensures forall t, f :: t in removed && f in disk.files ==> !(t.path <= f)
    ensures disk.faults == old(disk.faults) ==> failed == []
    ensures LastKindsLast(removed) && LastKindsLast(failed)
  {
    removed, failed := [], [];
    var targets := Ordered(plan.targets);
    OrderedIs(plan.targets);
    for i := 0 to |targets|
      invariant forall t :: t in targets[..i] <==> t in removed || t in failed
      invariant forall f :: f in old(disk.files) && !UnderAny(f, plan.targets) ==> f in disk.files
      invariant disk.files <= old(disk.files)
      invariant forall t, f :: t in removed && f in disk.files ==> !(t.path <= f)
      invariant disk.faults >= old(disk.faults) && (disk.faults == old(disk.faults) ==> failed == [])
      invariant LastKindsLast(removed) && LastKindsLast(failed)
      invariant i < |targets| ==> HadTheirTurn(removed, targets[i]) && HadTheirTurn(failed, targets[i])
    {
      assert targets[i] in targets;
      ghost var was := disk.files;
      var ok := RemoveTarget(disk, targets[i]);
      forall f | f in was && !UnderAny(f, plan.targets) ensures f in disk.files {
        var k :| 0 <= k < |plan.targets| && plan.targets[k] == targets[i];
        assert !(plan.targets[k].path <= f);
      }
      assert targets[..i+1] == targets[..i] + [targets[i]];
      TakesItsTurn(removed, targets[i]);
      TakesItsTurn(failed, targets[i]);
      if ok { removed := removed + [targets[i]]; } else { failed := failed + [targets[i]]; }
    }
    assert targets[..|targets|] == targets;
    KeepsExactlyWhenDisjoint(plan.targets, plan.preserved);
  }

  /** The file is one of the program, its releases, its state, its cache, its logs or its launcher. */
  predicate Goes(f: Path, p: ProductPaths) {
    || p.program <= f || p.releases <= f || p.manager <= f || p.state <= f || p.cache <= f || p.logs <= f
    || p.launcher <= f
  }

  /** The file is data or configuration. */
  predicate IsKept(f: Path, p: ProductPaths) { p.data <= f || p.configuration <= f }

  lemma TargetsAreAll(f: Path, p: ProductPaths)
    ensures UnderAny(f, PlannedTargets(p, Normal)) <==> Goes(f, p)
    ensures UnderAny(f, PlannedTargets(p, Purge)) <==> Goes(f, p) || IsKept(f, p)
    ensures Under(f, Preserved(p, Normal)) <==> IsKept(f, p)
  {
    var normal, purge, kept := PlannedTargets(p, Normal), PlannedTargets(p, Purge), Preserved(p, Normal);
    assert |normal| == 7 && |purge| == 9 && |kept| == 2 && purge[..7] == normal;
    assert normal[0].path == p.program && normal[1].path == p.releases && normal[2].path == p.manager;
    assert normal[3].path == p.state && normal[4].path == p.cache && normal[5].path == p.logs;
    assert normal[6].path == p.launcher && purge[7].path == p.data && purge[8].path == p.configuration;
    assert forall k :: 0 <= k < 7 ==> purge[k] == normal[k];
    assert kept[0] == p.data && kept[1] == p.configuration;
  }

  /** Homes in which nothing the product removes touches what it keeps. */
  predicate SafeHomes(home: Path, i: Identity, e: Environment) { e.Linux? ==> HomesDisjoint(home, i, e) }

  /**
   For every platform and environment: no file of the data or the configuration goes exactly when the
   homes are safe.
   */
  lemma KeepsDataExactlyInSafeHomes(home: Path, i: Identity, e: Environment)
    ensures var p := ResolvePaths(home, i, e); (forall f :: IsKept(f, p) ==> !Goes(f, p)) <==> SafeHomes(home, i, e)
  {
    var p := ResolvePaths(home, i, e);
    KeepsExactlyWhenDisjoint(PlannedTargets(p, Normal), Preserved(p, Normal));
    if e.Linux? { LinuxDisjointExactlyWhenHomesDisjoint(home, i, e); } else { DefaultPlansAreDisjoint(home, i, e); }
    assert Disjoint(PlannedTargets(p, Normal), Preserved(p, Normal)) <==> SafeHomes(home, i, e);
    forall f
      ensures (Goes(f, p) <==> UnderAny(f, PlannedTargets(p, Normal)))
              && (IsKept(f, p) <==> Under(f, Preserved(p, Normal)))
    {
      TargetsAreAll(f, p);
    }
  }

  lemma AllRemoved(targets: seq<Target>, removed: seq<Target>, files: set<Path>)
    requires forall t :: t in targets ==> t in removed
    requires forall t, f :: t in removed && f in files ==> !(t.path <= f)
    ensures forall f :: f in files ==> !UnderAny(f, targets)
  {
    forall f | f in files ensures !UnderAny(f, targets) {
      forall k | 0 <= k < |targets| ensures !(targets[k].path <= f) { assert targets[k] in removed; }
    }
  }

  /** Plan and execution, in terms of the files. */
  method Perform(disk: Disk, home: Path, i: Identity, e: Environment, mode: Mode, authorized: bool)
    returns (failed: Option<seq<Target>>)
    modifies disk
    ensures failed.Some? <==> (mode.Purge? ==> authorized)
    ensures failed.None? ==> disk.files == old(disk.files)
    ensures disk.files <= old(disk.files) && disk.faults >= old(disk.faults)
    ensures var p := ResolvePaths(home, i, e);
            forall f :: f in old(disk.files) && !Goes(f, p) && (mode.Normal? || !IsKept(f, p)) ==> f in disk.files
    ensures disk.faults == old(disk.faults) && failed.Some? ==>
              var p := ResolvePaths(home, i, e);
              failed.value == [] && forall f :: f in disk.files ==> !Goes(f, p) && (mode.Purge? ==> !IsKept(f, p))
  {
    var plan := CreateUninstallPlan(home, i, e, mode, authorized);
    if plan.None? { return None; }
    ghost var p := ResolvePaths(home, i, e);
    var removed, notRemoved := ExecuteUninstallPlan(disk, plan.value);
    failed := Some(notRemoved);
    CompactedSpares(PlannedTargets(p, mode), plan.value.targets, []);
    if notRemoved == [] { AllRemoved(plan.value.targets, removed, disk.files); }
    forall f ensures UnderAny(f, PlannedTargets(p, mode)) <==> Goes(f, p) || (mode.Purge? && IsKept(f, p)) {
      TargetsAreAll(f, p);
    }
  }

  /**
   A normal uninstall from beginning to end, on any platform and in any environment. What is not the
   product's stays, without failures nothing that is stays, and in safe homes every file of the data
   and the configuration stays.
   */
  method UninstallNormally(disk: Disk, home: Path, i: Identity, e: Environment) returns (failed: seq<Target>)
    modifies disk
    ensures forall f :: f in old(disk.files) && !Goes(f, ResolvePaths(home, i, e)) ==> f in disk.files
    ensures disk.files <= old(disk.files) && disk.faults >= old(disk.faults)
    ensures disk.faults == old(disk.faults) ==>
              failed == [] && forall f :: f in disk.files ==> !Goes(f, ResolvePaths(home, i, e))
    ensures SafeHomes(home, i, e) ==>
              forall f :: f in old(disk.files) && IsKept(f, ResolvePaths(home, i, e)) ==> f in disk.files
  {
    var r := Perform(disk, home, i, e, Normal, false);
    failed := r.value;
    KeepsDataExactlyInSafeHomes(home, i, e);
  }

  /** A purge needs the authorization; with it, data and configuration go too, and nothing else. */
  method UninstallEverything(disk: Disk, home: Path, i: Identity, e: Environment, authorized: bool)
    returns (failed: Option<seq<Target>>)
    modifies disk
    ensures !authorized ==> failed.None? && disk.files == old(disk.files)
    ensures authorized ==>
              var p := ResolvePaths(home, i, e);
              && failed.Some?
              && (forall f :: f in old(disk.files) && !Goes(f, p) && !IsKept(f, p) ==> f in disk.files)
              && (disk.faults == old(disk.faults) ==>
                    failed == Some([]) && forall f :: f in disk.files ==> !Goes(f, p) && !IsKept(f, p))
    ensures disk.files <= old(disk.files) && disk.faults >= old(disk.faults)
  {
    failed := Perform(disk, home, i, e, Purge, authorized);
  }
}
