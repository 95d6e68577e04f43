/** `repository.py prepare` and `clean`: copying the shared library, vendored libraries, templates
    and utility files into charm directories, and removing them again. The tree holds files;
    a directory exists when some file is below it. Any exception is None. */
module Repository {
  import opened Text

  type Path = seq<string>
  type Tree = map<Path, string>

  const OPS_SUNBEAM_DIR: Path := ["ops-sunbeam", "ops_sunbeam"]
  const EXTERNAL_LIB_DIR: Path := ["libs", "external", "lib"]
  const UTILITY_FILE: Path := [".jujuignore"]

  datatype Build = Build(path: Path, externals: seq<string>, internals: seq<string>, templates: seq<string>)

  /** The libraries and templates found in the repository, by name. */
  datatype Sources = Sources(externals: map<string, Path>, internals: map<string, Path>, templates: map<string, Path>)

  // ---------------------------------------------------------------- the file system

  predicate IsDir(t: Tree, p: Path) {
    exists q :: q in t && p < q
  }

  predicate Exists(t: Tree, p: Path) {
    p in t || IsDir(t, p)
  }

  /** `mkdir(parents=True)` fails below a file. */
  predicate CanCreate(t: Tree, p: Path) {
    forall q :: q in t ==> !(q < p)
  }

  function RmTree(t: Tree, p: Path): Option<Tree> {
    if p in t then None else Some(map q | q in t && !(p <= q) :: t[q])
  }

  function Unlink(t: Tree, p: Path): Option<Tree> {
    if p in t then Some(t - {p}) else None
  }

  /** `copy`: onto `dest`, or into it if it is a directory. */
  function Copy(t: Tree, src: Path, dest: Path): Option<Tree> {
    if src !in t || src == [] || !CanCreate(t, dest) then None
    else Some(t[(if IsDir(t, dest) then dest + [Last(src)] else dest) := t[src]])
  }

  function Targets(t: Tree, src: Path, dest: Path): set<Path> {
    set q | q in t && src < q :: dest + q[|src|..]
  }

  /** `shutil.copytree`: the source must be a directory, and the destination must not exist. */
  function CopyTree(t: Tree, src: Path, dest: Path): Option<Tree> {
    if Exists(t, dest) || !CanCreate(t, dest) || src in t || !IsDir(t, src) then None
    else
      var targets := Targets(t, src, dest);
      Some(t + map p | p in targets && src + p[|dest|..] in t :: t[src + p[|dest|..]])
  }

  // ---------------------------------------------------------------- prepare and clean

  /** `_library_to_path`: exactly four dot-separated parts, otherwise it raises. */
  function LibraryPath(library: string): (p: Option<Path>)
    ensures p.Some? ==> |p.value| == 4
  {
    var parts := Split(library, '.');
    if |parts| != 4 then None else Some([parts[0], parts[1], parts[2], parts[3] + ".py"])
  }

  function LibDir(b: Build): Path {
    b.path + ["lib"]
  }

  function TemplateDest(b: Build, template: string): Path {
    b.path + ["src", "templates"] + Split(template, '/')
  }

  function CopyUnlessThere(t: Tree, src: Path, dest: Path): Option<Tree> {
    if Exists(t, dest) then Some(t) else Copy(t, src, dest)
  }

  function AddExternal(t: Tree, b: Build, s: Sources, library: string): Option<Tree> {
    if library !in s.externals || !(EXTERNAL_LIB_DIR <= s.externals[library]) then None
    else CopyUnlessThere(t, s.externals[library], LibDir(b) + s.externals[library][|EXTERNAL_LIB_DIR|..])
  }

  function AddInternal(t: Tree, b: Build, s: Sources, library: string): Option<Tree> {
    if library !in s.internals || LibraryPath(library).None? then None
    else CopyUnlessThere(t, s.internals[library], LibDir(b) + LibraryPath(library).value)
  }

  function AddTemplate(t: Tree, b: Build, s: Sources, template: string): Option<Tree> {
    if template !in s.templates then None
    else CopyUnlessThere(t, s.templates[template], TemplateDest(b, template))
  }

  /** A loop over `items`; an exception in one step ends it. */
  function Fold<T>(t: Tree, items: seq<T>, step: (Tree, T) -> Option<Tree>): Option<Tree> {
    if items == [] then Some(t) else
    match Fold(t, Front(items), step) case None => None case Some(u) => step(u, Last(items))
  }

  function ExternalStep(b: Build, s: Sources): (Tree, string) -> Option<Tree> {
    (t, name) => AddExternal(t, b, s, name)
  }

  function InternalStep(b: Build, s: Sources): (Tree, string) -> Option<Tree> {
    (t, name) => AddInternal(t, b, s, name)
  }

  function TemplateStep(b: Build, s: Sources): (Tree, string) -> Option<Tree> {
    (t, name) => AddTemplate(t, b, s, name)
  }

  function AddSunbeam(t: Tree, b: Build): Option<Tree> {
    match CopyTree(t, OPS_SUNBEAM_DIR, LibDir(b) + ["ops_sunbeam"])
    case None => None
    case Some(u) => Copy(u, UTILITY_FILE, b.path + UTILITY_FILE)
  }

  function Prepared(t: Tree, b: Build, s: Sources): Option<Tree> {
    match AddSunbeam(t, b) case None => None case Some(t1) =>
    match Fold(t1, b.externals, ExternalStep(b, s)) case None => None case Some(t2) =>
    match Fold(t2, b.internals, InternalStep(b, s)) case None => None case Some(t3) =>
    Fold(t3, b.templates, TemplateStep(b, s))
  }

  function RmTreeIfThere(t: Tree, p: Path): Option<Tree> {
    if Exists(t, p) then RmTree(t, p) else Some(t)
  }

  function UnlinkIfThere(t: Tree, p: Path): Option<Tree> {
    if Exists(t, p) then Unlink(t, p) else Some(t)
  }

  /** A library is removed with its whole namespace, `lib/<first>/<second>`. */
  function RemoveLibrary(t: Tree, b: Build, library: string): Option<Tree> {
    match LibraryPath(library) case None => None case Some(p) => RmTreeIfThere(t, LibDir(b) + p[..2])
  }

  function RemoveLibraryStep(b: Build): (Tree, string) -> Option<Tree> {
    (t, name) => RemoveLibrary(t, b, name)
  }

  function RemoveTemplateStep(b: Build): (Tree, string) -> Option<Tree> {
    (t, name) => UnlinkIfThere(t, TemplateDest(b, name))
  }

  function RemoveSunbeam(t: Tree, b: Build): Option<Tree> {
    match RmTreeIfThere(t, LibDir(b) + ["ops_sunbeam"])
    case None => None
    case Some(u) => UnlinkIfThere(u, b.path + UTILITY_FILE)
  }

  function Cleaned(t: Tree, b: Build): Option<Tree> {
    match RemoveSunbeam(t, b) case None => None case Some(t1) =>
    match Fold(t1, b.externals + b.internals, RemoveLibraryStep(b)) case None => None case Some(t2) =>
    Fold(t2, b.templates, RemoveTemplateStep(b))
  }

  function PrepareStep(s: Sources, clean: bool): (Tree, Build) -> Option<Tree> {
    (t, b) => match if clean then Cleaned(t, b) else Some(t) case None => None case Some(u) => Prepared(u, b, s)
  }

  function CleanStep(): (Tree, Build) -> Option<Tree> {
    (t, b) => Cleaned(t, b)
  }

  // ---------------------------------------------------------------- the tree an exception leaves

  /** The tree after the steps of a loop that went through. */
  function Stopped<T>(t: Tree, items: seq<T>, step: (Tree, T) -> Option<Tree>): Tree {
    if items == [] then t else
    match Fold(t, Front(items), step)
    case None => Stopped(t, Front(items), step)
    case Some(u) => match step(u, Last(items)) case None => u case Some(v) => v
  }

  function SunbeamTo(t: Tree, b: Build): Tree {
    match CopyTree(t, OPS_SUNBEAM_DIR, LibDir(b) + ["ops_sunbeam"])
    case None => t
    case Some(u) => match Copy(u, UTILITY_FILE, b.path + UTILITY_FILE) case None => u case Some(v) => v
  }

  function PreparedTo(t: Tree, b: Build, s: Sources): Tree {
    var external, internal := ExternalStep(b, s), InternalStep(b, s);
    match AddSunbeam(t, b) case None => SunbeamTo(t, b) case Some(t1) =>
    match Fold(t1, b.externals, external) case None => Stopped(t1, b.externals, external) case Some(t2) =>
    match Fold(t2, b.internals, internal) case None => Stopped(t2, b.internals, internal) case Some(t3) =>
    Stopped(t3, b.templates, TemplateStep(b, s))
  }

  function SunbeamRemovedTo(t: Tree, b: Build): Tree {
    match RmTreeIfThere(t, LibDir(b) + ["ops_sunbeam"])
    case None => t
    case Some(u) => match UnlinkIfThere(u, b.path + UTILITY_FILE) case None => u case Some(v) => v
  }

  function CleanedTo(t: Tree, b: Build): Tree {
    var names := b.externals + b.internals;
    match RemoveSunbeam(t, b) case None => SunbeamRemovedTo(t, b) case Some(t1) =>
    match Fold(t1, names, RemoveLibraryStep(b)) case None => Stopped(t1, names, RemoveLibraryStep(b)) case Some(t2) =>
    Stopped(t2, b.templates, RemoveTemplateStep(b))
  }

  function PrepareStepTo(t: Tree, b: Build, s: Sources, clean: bool): Tree {
    match if clean then Cleaned(t, b) else Some(t) case None => CleanedTo(t, b) case Some(u) => PreparedTo(u, b, s)
  }

  function PreparedAllTo(t: Tree, bs: seq<Build>, s: Sources, clean: bool): Tree {
    if bs == [] then t else
    match Fold(t, Front(bs), PrepareStep(s, clean))
    case None => PreparedAllTo(t, Front(bs), s, clean)
    case Some(u) => PrepareStepTo(u, Last(bs), s, clean)
  }

  function CleanedAllTo(t: Tree, bs: seq<Build>): Tree {
    if bs == [] then t else
    match Fold(t, Front(bs), CleanStep())
    case None => CleanedAllTo(t, Front(bs))
    case Some(u) => CleanedTo(u, Last(bs))
  }

  /** The checks that raise even in a dry run. */
  predicate NamesKnown(b: Build, s: Sources) {
    && (forall name :: name in b.externals ==> name in s.externals && EXTERNAL_LIB_DIR <= s.externals[name])
    && (forall name :: name in b.internals ==> name in s.internals && LibraryPath(name).Some?)
    && (forall name :: name in b.templates ==> name in s.templates)
  }

  /** All the checks of one charm. */
  predicate ChecksPass(b: Build, s: Sources, clean: bool) {
    NamesKnown(b, s) && (clean ==> FourPartNames(b))
  }

  /** The script, working on the tree in place. `ok` is false when an exception stopped it. */
  class Repository {
    var tree: Tree

    constructor (tree: Tree)
      ensures this.tree == tree
    {
      this.tree := tree;
    }

    method Apply(next: Option<Tree>) returns (ok: bool)
      modifies this
      ensures ok <==> next.Some?
      ensures tree == if ok then next.value else old(tree)
    {
      ok := next.Some?;
      if ok {
        tree := next.value;
      }
    }

    method ForEach<T>(items: seq<T>, step: (Tree, T) -> Option<Tree>) returns (ok: bool)
      modifies this
      ensures Fold(old(tree), items, step) == if ok then Some(tree) else None
      ensures tree == Stopped(old(tree), items, step)
    {
      for i := 0 to |items|
        invariant Fold(old(tree), items[..i], step) == Some(tree)
        invariant Stopped(old(tree), items[..i], step) == tree
      {
        assert Front(items[..i + 1]) == items[..i];
        ok := Apply(step(tree, items[i]));
        if !ok {
          FoldFails(old(tree), items, step, i + 1);
          StoppedThere(old(tree), items, step, i + 1);
          return;
        }
      }
      assert items[..|items|] == items;
      ok := true;
    }

    method AddPackage(b: Build) returns (ok: bool)
      modifies this
      ensures AddSunbeam(old(tree), b) == if ok then Some(tree) else None
      ensures tree == SunbeamTo(old(tree), b)
    {
      ok := Apply(CopyTree(tree, OPS_SUNBEAM_DIR, LibDir(b) + ["ops_sunbeam"]));
      if !ok { return; }
      ok := Apply(Copy(tree, UTILITY_FILE, b.path + UTILITY_FILE));
    }

    method RemovePackage(b: Build) returns (ok: bool)
      modifies this
      ensures RemoveSunbeam(old(tree), b) == if ok then Some(tree) else None
      ensures tree == SunbeamRemovedTo(old(tree), b)
    {
      ok := Apply(RmTreeIfThere(tree, LibDir(b) + ["ops_sunbeam"]));
      if !ok { return; }
      ok := Apply(UnlinkIfThere(tree, b.path + UTILITY_FILE));
    }

    method PrepareCharm(b: Build, s: Sources, dryRun: bool) returns (ok: bool)
      modifies this
      ensures dryRun ==> tree == old(tree) && (ok <==> NamesKnown(b, s))
      ensures !dryRun ==> Prepared(old(tree), b, s) == if ok then Some(tree) else None
      ensures !dryRun ==> tree == PreparedTo(old(tree), b, s)
    {
      if dryRun {
        return NamesKnown(b, s);
      }
      ok := AddPackage(b);
      if !ok { return; }
      ok := ForEach(b.externals, ExternalStep(b, s));
      if !ok { return; }
      ok := ForEach(b.internals, InternalStep(b, s));
      if !ok { return; }
      ok := ForEach(b.templates, TemplateStep(b, s));
    }

    method CleanCharm(b: Build, dryRun: bool) returns (ok: bool)
      modifies this
      ensures dryRun ==> tree == old(tree) && (ok <==> FourPartNames(b))
      ensures !dryRun ==> Cleaned(old(tree), b) == if ok then Some(tree) else None
      ensures !dryRun ==> tree == CleanedTo(old(tree), b)
    {
      if dryRun {
        return FourPartNames(b);
      }
      ok := RemovePackage(b);
      if !ok { return; }
      ok := ForEach(b.externals + b.internals, RemoveLibraryStep(b));
      if !ok { return; }
      ok := ForEach(b.templates, RemoveTemplateStep(b));
    }

    /** One charm of `prepare`. */
    method PrepareOne(b: Build, s: Sources, clean: bool, dryRun: bool) returns (ok: bool)
      modifies this
      ensures dryRun ==> tree == old(tree) && (ok <==> ChecksPass(b, s, clean))
      ensures !dryRun ==> PrepareStep(s, clean)(old(tree), b) == if ok then Some(tree) else None
      ensures !dryRun ==> tree == PrepareStepTo(old(tree), b, s, clean)
    {
      if clean {
        ok := CleanCharm(b, dryRun);
        if !ok { return; }
      }
      ok := PrepareCharm(b, s, dryRun);
    }

    method PrepareCli(bs: seq<Build>, s: Sources, clean: bool, dryRun: bool) returns (ok: bool)
      modifies this
      ensures dryRun ==> tree == old(tree)
      ensures dryRun ==> (ok <==> forall b :: b in bs ==> ChecksPass(b, s, clean))
      ensures !dryRun ==> Fold(old(tree), bs, PrepareStep(s, clean)) == if ok then Some(tree) else None
      ensures !dryRun ==> tree == PreparedAllTo(old(tree), bs, s, clean)
    {
      if dryRun {
        ok := CheckAll(bs, s, clean);
        return;
      }
      for i := 0 to |bs|
        invariant PreparedSoFar(old(tree), tree, bs[..i], s, clean)
      {
        ghost var before := tree;
        ok := PrepareOne(bs[i], s, clean, false);
        assert bs[..i + 1] == bs[..i] + [bs[i]];
        if !ok {
          StoppedAtCharm(old(tree), before, bs, i, s, clean);
          return;
        }
        OneCharmMore(old(tree), before, bs[..i], bs[i], s, clean);
      }
      assert bs[..|bs|] == bs;
      ok := true;
    }

    /** The same loop as a dry run. */
    method CheckAll(bs: seq<Build>, s: Sources, clean: bool) returns (ok: bool)
      modifies this
      ensures tree == old(tree) && (ok <==> forall b :: b in bs ==> ChecksPass(b, s, clean))
    {
      for i := 0 to |bs|
        invariant tree == old(tree) && forall b :: b in bs[..i] ==> ChecksPass(b, s, clean)
      {
        ok := PrepareOne(bs[i], s, clean, true);
        if !ok { return; }
        assert bs[..i + 1] == bs[..i] + [bs[i]];
      }
      assert bs[..|bs|] == bs;
      ok := true;
    }

    method CleanCli(bs: seq<Build>, dryRun: bool) returns (ok: bool)
      modifies this
      ensures dryRun ==> tree == old(tree) && (ok <==> forall b :: b in bs ==> FourPartNames(b))
      ensures !dryRun ==> Fold(old(tree), bs, CleanStep()) == if ok then Some(tree) else None
      ensures !dryRun ==> tree == CleanedAllTo(old(tree), bs)
    {
      for i := 0 to |bs|
        invariant dryRun ==> tree == old(tree) && forall b :: b in bs[..i] ==> FourPartNames(b)
        invariant !dryRun ==> Fold(old(tree), bs[..i], CleanStep()) == Some(tree)
        invariant !dryRun ==> CleanedAllTo(old(tree), bs[..i]) == tree
      {
        assert Front(bs[..i + 1]) == bs[..i] && Last(bs[..i + 1]) == bs[i];
        ok := CleanCharm(bs[i], dryRun);
        if !ok {
          if !dryRun {
            FoldFails(old(tree), bs, CleanStep(), i + 1);
            CleanedAllStops(old(tree), bs, i + 1);
          }
          return;
        }
      }
      assert bs[..|bs|] == bs;
      ok := true;
    }
  }

  ghost predicate PreparedSoFar(t: Tree, u: Tree, bs: seq<Build>, s: Sources, clean: bool) {
    Fold(t, bs, PrepareStep(s, clean)) == Some(u) && PreparedAllTo(t, bs, s, clean) == u
  }

  lemma OneCharmMore(t: Tree, u: Tree, bs: seq<Build>, b: Build, s: Sources, clean: bool)
    requires PreparedSoFar(t, u, bs, s, clean) && PrepareStep(s, clean)(u, b).Some?
    requires PrepareStepTo(u, b, s, clean) == PrepareStep(s, clean)(u, b).value
    ensures PreparedSoFar(t, PrepareStep(s, clean)(u, b).value, bs + [b], s, clean)
  {
    assert Front(bs + [b]) == bs;
  }

  lemma StoppedAtCharm(t: Tree, u: Tree, bs: seq<Build>, i: nat, s: Sources, clean: bool)
    requires i < |bs| && PreparedSoFar(t, u, bs[..i], s, clean) && PrepareStep(s, clean)(u, bs[i]).None?
    ensures Fold(t, bs, PrepareStep(s, clean)).None?
    ensures PreparedAllTo(t, bs, s, clean) == PrepareStepTo(u, bs[i], s, clean)
  {
    assert Front(bs[..i + 1]) == bs[..i];
    FoldFails(t, bs, PrepareStep(s, clean), i + 1);
    PreparedAllStops(t, bs, s, clean, i + 1);
  }

  lemma {:induction false} PreparedAllStops(t: Tree, bs: seq<Build>, s: Sources, clean: bool, k: nat)
    requires k <= |bs| && Fold(t, bs[..k], PrepareStep(s, clean)).None?
    ensures PreparedAllTo(t, bs, s, clean) == PreparedAllTo(t, bs[..k], s, clean)
    decreases |bs|
  {
    if k < |bs| {
      assert Front(bs)[..k] == bs[..k];
      FoldFails(t, Front(bs), PrepareStep(s, clean), k);
      PreparedAllStops(t, Front(bs), s, clean, k);
    } else {
      assert bs[..k] == bs;
    }
  }

  lemma {:induction false} CleanedAllStops(t: Tree, bs: seq<Build>, k: nat)
    requires k <= |bs| && Fold(t, bs[..k], CleanStep()).None?
    ensures CleanedAllTo(t, bs) == CleanedAllTo(t, bs[..k])
    decreases |bs|
  {
    if k < |bs| {
      assert Front(bs)[..k] == bs[..k];
      FoldFails(t, Front(bs), CleanStep(), k);
      CleanedAllStops(t, Front(bs), k);
    } else {
      assert bs[..k] == bs;
    }
  }

  lemma {:induction false} StoppedThere<T>(t: Tree, items: seq<T>, step: (Tree, T) -> Option<Tree>, k: nat)
    requires k <= |items| && Fold(t, items[..k], step).None?
    ensures Stopped(t, items, step) == Stopped(t, items[..k], step)
    decreases |items|
  {
    if k < |items| {
      assert Front(items)[..k] == items[..k];
      FoldFails(t, Front(items), step, k);
      StoppedThere(t, Front(items), step, k);
    } else {
      assert items[..k] == items;
    }
  }

  lemma {:induction false} FoldFails<T>(t: Tree, items: seq<T>, step: (Tree, T) -> Option<Tree>, k: nat)
    requires k <= |items| && Fold(t, items[..k], step).None?
    ensures Fold(t, items, step).None?
    decreases |items|
  {
    if k < |items| {
      assert Front(items)[..k] == items[..k];
      FoldFails(t, Front(items), step, k);
    } else {
      assert items[..k] == items;
    }
  }

  /** What every step keeps, a loop that ends normally keeps. */
  lemma {:induction false} FoldKeeps<T>(t: Tree, items: seq<T>, step: (Tree, T) -> Option<Tree>,
                                        keeps: (Tree, Tree) -> bool)
    requires keeps(t, t)
    requires forall u, x :: x in items && keeps(t, u) && step(u, x).Some? ==> keeps(t, step(u, x).value)
    ensures Fold(t, items, step).Some? ==> keeps(t, Fold(t, items, step).value)
  {
    if items != [] {
      FoldKeeps(t, Front(items), step, keeps);
    }
  }

  // ---------------------------------------------------------------- what is managed

  predicate FourPartNames(b: Build) {
    forall name :: name in b.externals + b.internals ==> LibraryPath(name).Some?
  }

  /** Paths relative to the charm. */
  const SUNBEAM: Path := ["lib", "ops_sunbeam"]

  function LibraryRoot(name: string): Path
    requires LibraryPath(name).Some?
  {
    ["lib"] + LibraryPath(name).value[..2]
  }

  function TemplateRoot(name: string): Path {
    ["src", "templates"] + Split(name, '/')
  }

  predicate IsLibrary(b: Build, name: string) {
    name in b.externals + b.internals && LibraryPath(name).Some?
  }

  /** At or below something `clean` removes. */
  predicate ManagedRel(b: Build, q: Path) {
    || SUNBEAM <= q || UTILITY_FILE <= q
    || (exists name :: name in b.externals + b.internals && IsLibrary(b, name) && LibraryRoot(name) <= q)
    || (exists name :: name in b.templates && TemplateRoot(name) <= q)
  }

  predicate Managed(b: Build, p: Path) {
    b.path <= p && ManagedRel(b, p[|b.path|..])
  }

  function Unmanaged(t: Tree, b: Build): Tree {
    map p | p in t && !Managed(b, p) :: t[p]
  }

  /** Not itself a directory to remove, and not below a file to remove. */
  predicate RightKind(b: Build, q: Path) {
    && q != SUNBEAM && !(UTILITY_FILE < q)
    && (forall name :: name in b.externals + b.internals && IsLibrary(b, name) ==> q != LibraryRoot(name))
    && (forall name :: name in b.templates ==> !(TemplateRoot(name) < q))
  }

  ghost predicate KindsMatch(t: Tree, b: Build) {
    forall p :: p in t && Managed(b, p) ==> RightKind(b, p[|b.path|..])
  }

  /** A tree as a file system has it: nothing below a file. */
  predicate WellFormed(t: Tree) {
    forall p, q :: p in t && q in t ==> !(p < q)
  }

  predicate IsFileRoot(b: Build, q: Path) {
    q == UTILITY_FILE || exists name :: name in b.templates && q == TemplateRoot(name)
  }

  /** Nothing is below a file that `clean` unlinks; so of well-formed trees, and of their parts. */
  ghost predicate Clear(t: Tree, b: Build) {
    forall r, p :: r in t && p in t && b.path <= r && IsFileRoot(b, r[|b.path|..]) ==> !(r < p)
  }

  // ---------------------------------------------------------------- clean

  predicate Submap(u: Tree, t: Tree) {
    forall p :: p in u ==> p in t && u[p] == t[p]
  }

  function Pruned(t: Tree, r: Path): Tree {
    map p | p in t && !(r <= p) :: t[p]
  }

  lemma RemovalPrunes(t: Tree, r: Path)
    ensures RmTreeIfThere(t, r).Some? ==> RmTreeIfThere(t, r).value == Pruned(t, r)
    ensures r !in t ==> RmTreeIfThere(t, r).Some?
    ensures UnlinkIfThere(t, r).Some? && (forall p :: p in t ==> !(r in t && r < p)) ==>
              UnlinkIfThere(t, r).value == Pruned(t, r)
    ensures (forall p :: p in t ==> !(r < p)) ==> UnlinkIfThere(t, r).Some?
  {
    if UnlinkIfThere(t, r).Some? && (forall p :: p in t ==> !(r in t && r < p)) {
      forall p | p in t ensures p in UnlinkIfThere(t, r).value <==> !(r <= p) {
        assert r <= p ==> r == p || r < p;
      }
    }
  }

  lemma PrefixesCompare(x: Path, y: Path, p: Path)
    requires x <= p && y <= p
    ensures x <= y || y <= x
  {
    assert |x| <= |y| ==> x == y[..|x|];
  }

  lemma Extends(a: Path, x: Path, p: Path)
    ensures a + x <= p <==> a <= p && x <= p[|a|..]
    ensures a + x == p <==> a <= p && x == p[|a|..]
    ensures a + x < p <==> a <= p && x < p[|a|..]
  {
    if a + x <= p {
      assert p[..|a| + |x|] == a + x;
      assert p[..|a|] == a;
      assert x == p[|a|..|a| + |x|];
    }
    if a <= p && x <= p[|a|..] {
      assert p == a + p[|a|..];
      assert p[|a|..] == x + p[|a|..][|x|..];
      assert p == a + x + p[|a|..][|x|..];
    }
  }

  /** The files of `t` outside all roots. */
  function PrunedAll(t: Tree, items: seq<string>, root: string -> Path): Tree {
    map p | p in t && forall x :: x in items ==> !(root(x) <= p) :: t[p]
  }

  lemma {:induction false} FoldPrunes(t: Tree, items: seq<string>, step: (Tree, string) -> Option<Tree>,
                                      root: string -> Path)
    requires forall u, x :: x in items && Submap(u, t) && step(u, x).Some? ==> step(u, x).value == Pruned(u, root(x))
    ensures Fold(t, items, step).Some? ==> Fold(t, items, step).value == PrunedAll(t, items, root)
    ensures (forall u, x :: x in items && Submap(u, t) ==> step(u, x).Some?) ==> Fold(t, items, step).Some?
  {
    if items != [] {
      FoldPrunes(t, Front(items), step, root);
      assert Last(items) in items && forall x :: x in items <==> x in Front(items) || x == Last(items);
    }
  }

  function RootOf(b: Build): string -> Path {
    name => if LibraryPath(name).Some? then LibDir(b) + LibraryPath(name).value[..2] else []
  }

  function DestOf(b: Build): string -> Path {
    name => TemplateDest(b, name)
  }

  lemma RootsAreManaged(b: Build, name: string, p: Path)
    ensures IsLibrary(b, name) && RootOf(b)(name) <= p ==> Managed(b, p) && LibraryRoot(name) <= p[|b.path|..]
    ensures IsLibrary(b, name) ==> (RootOf(b)(name) <= p <==> b.path <= p && LibraryRoot(name) <= p[|b.path|..])
    ensures IsLibrary(b, name) ==> (RootOf(b)(name) == p <==> b.path <= p && LibraryRoot(name) == p[|b.path|..])
    ensures name in b.templates && TemplateDest(b, name) <= p ==> Managed(b, p)
    ensures TemplateDest(b, name) <= p <==> b.path <= p && TemplateRoot(name) <= p[|b.path|..]
    ensures TemplateDest(b, name) < p <==> b.path <= p && TemplateRoot(name) < p[|b.path|..]
  {
    if IsLibrary(b, name) {
      assert RootOf(b)(name) == b.path + LibraryRoot(name);
      Extends(b.path, LibraryRoot(name), p);
    }
    assert TemplateDest(b, name) == b.path + TemplateRoot(name);
    Extends(b.path, TemplateRoot(name), p);
  }

  lemma FixedRoots(b: Build, p: Path)
    ensures LibDir(b) + ["ops_sunbeam"] <= p <==> b.path <= p && SUNBEAM <= p[|b.path|..]
    ensures LibDir(b) + ["ops_sunbeam"] == p <==> b.path <= p && SUNBEAM == p[|b.path|..]
    ensures LibDir(b) + ["ops_sunbeam"] < p <==> b.path <= p && SUNBEAM < p[|b.path|..]
    ensures b.path + UTILITY_FILE <= p <==> b.path <= p && UTILITY_FILE <= p[|b.path|..]
    ensures b.path + UTILITY_FILE < p <==> b.path <= p && UTILITY_FILE < p[|b.path|..]
    ensures b.path + UTILITY_FILE == p <==> b.path <= p && UTILITY_FILE == p[|b.path|..]
  {
    assert LibDir(b) + ["ops_sunbeam"] == b.path + SUNBEAM;
    Extends(b.path, SUNBEAM, p);
    Extends(b.path, UTILITY_FILE, p);
  }

  /** A library step removes exactly its namespace. */
  lemma LibraryStepPrunes(t: Tree, b: Build, name: string)
    requires name in b.externals + b.internals
    ensures RemoveLibrary(t, b, name).Some? ==> RemoveLibrary(t, b, name).value == Pruned(t, RootOf(b)(name))
    ensures KindsMatch(t, b) && LibraryPath(name).Some? ==> RemoveLibrary(t, b, name).Some?
  {
    if LibraryPath(name).Some? {
      RemovalPrunes(t, RootOf(b)(name));
      RootsAreManaged(b, name, RootOf(b)(name));
    }
  }

  lemma TemplateStepPrunes(t: Tree, b: Build, name: string)
    requires name in b.templates && Clear(t, b)
    ensures UnlinkIfThere(t, TemplateDest(b, name)).Some? ==>
              UnlinkIfThere(t, TemplateDest(b, name)).value == Pruned(t, TemplateDest(b, name))
    ensures KindsMatch(t, b) ==> UnlinkIfThere(t, TemplateDest(b, name)).Some?
  {
    var r := TemplateDest(b, name);
    RootsAreManaged(b, name, r);
    RemovalPrunes(t, r);
    if KindsMatch(t, b) {
      forall p | p in t ensures !(r < p) {
        RootsAreManaged(b, name, p);
      }
    }
  }

  lemma SunbeamStepPrunes(t: Tree, b: Build)
    requires Clear(t, b)
    ensures RemoveSunbeam(t, b).Some? ==>
              RemoveSunbeam(t, b).value == Pruned(Pruned(t, LibDir(b) + ["ops_sunbeam"]), b.path + UTILITY_FILE)
    ensures KindsMatch(t, b) ==> RemoveSunbeam(t, b).Some?
  {
    var r1, r2 := LibDir(b) + ["ops_sunbeam"], b.path + UTILITY_FILE;
    FixedRoots(b, r1);
    FixedRoots(b, r2);
    RemovalPrunes(t, r1);
    RemovalPrunes(Pruned(t, r1), r2);
    if KindsMatch(t, b) {
      forall p | p in t ensures !(r2 < p) && p != r1 {
        FixedRoots(b, p);
      }
    }
  }

  lemma SubmapKeeps(u: Tree, t: Tree, b: Build)
    requires Submap(u, t)
    ensures Clear(t, b) ==> Clear(u, b)
    ensures KindsMatch(t, b) ==> KindsMatch(u, b)
  {
  }

  lemma LibraryLoopPrunes(t: Tree, b: Build)
    ensures var names := b.externals + b.internals; var r := Fold(t, names, RemoveLibraryStep(b));
            && (r.Some? ==> r.value == PrunedAll(t, names, RootOf(b)))
            && (KindsMatch(t, b) && FourPartNames(b) ==> r.Some?)
  {
    var names, step := b.externals + b.internals, RemoveLibraryStep(b);
    forall u, x | x in names && Submap(u, t)
      ensures step(u, x).Some? ==> step(u, x).value == Pruned(u, RootOf(b)(x))
      ensures KindsMatch(t, b) && FourPartNames(b) ==> step(u, x).Some?
    {
      SubmapKeeps(u, t, b);
      LibraryStepPrunes(u, b, x);
    }
    FoldPrunes(t, names, step, RootOf(b));
  }

  lemma TemplateLoopPrunes(t: Tree, b: Build)
    requires Clear(t, b)
    ensures var r := Fold(t, b.templates, RemoveTemplateStep(b));
            && (r.Some? ==> r.value == PrunedAll(t, b.templates, DestOf(b)))
            && (KindsMatch(t, b) ==> r.Some?)
  {
    var step := RemoveTemplateStep(b);
    forall u, x | x in b.templates && Submap(u, t)
      ensures step(u, x).Some? ==> step(u, x).value == Pruned(u, DestOf(b)(x))
      ensures KindsMatch(t, b) ==> step(u, x).Some?
    {
      SubmapKeeps(u, t, b);
      TemplateStepPrunes(u, b, x);
    }
    FoldPrunes(t, b.templates, step, DestOf(b));
  }

  /** A name without four parts always stops `clean`. */
  lemma {:induction false} BadNameStopsClean(t: Tree, b: Build, names: seq<string>, name: string)
    requires name in names && LibraryPath(name).None?
    ensures Fold(t, names, RemoveLibraryStep(b)).None?
  {
    if name != Last(names) {
      assert name in Front(names);
      BadNameStopsClean(t, b, Front(names), name);
    }
  }

  predicate BelowARoot(b: Build, p: Path) {
    || LibDir(b) + ["ops_sunbeam"] <= p || b.path + UTILITY_FILE <= p
    || (exists x :: x in b.externals + b.internals && RootOf(b)(x) <= p)
    || (exists x :: x in b.templates && DestOf(b)(x) <= p)
  }

  lemma ManagedIff(b: Build, p: Path)
    requires FourPartNames(b)
    ensures Managed(b, p) <==> BelowARoot(b, p)
  {
    FixedRoots(b, p);
    forall x { RootsAreManaged(b, x, p); }
  }

  lemma PrunedEverywhere(t: Tree, b: Build)
    requires FourPartNames(b)
    ensures PrunedAll(PrunedAll(Pruned(Pruned(t, LibDir(b) + ["ops_sunbeam"]), b.path + UTILITY_FILE),
                                b.externals + b.internals, RootOf(b)),
                      b.templates, DestOf(b)) == Unmanaged(t, b)
  {
    forall p | p in t ensures Managed(b, p) <==> BelowARoot(b, p) {
      ManagedIff(b, p);
    }
  }

  /** `clean` removes exactly the managed files of any tree it gets through, and it gets through
      a tree of matching kinds exactly when every library name has four parts. */
  lemma CleanRemovesTheManaged(t: Tree, b: Build)
    requires Clear(t, b)
    ensures Cleaned(t, b).Some? ==> FourPartNames(b) && Cleaned(t, b).value == Unmanaged(t, b)
    ensures KindsMatch(t, b) ==> (Cleaned(t, b).Some? <==> FourPartNames(b))
  {
    var names := b.externals + b.internals;
    SunbeamStepPrunes(t, b);
    if RemoveSunbeam(t, b).Some? {
      var t1 := RemoveSunbeam(t, b).value;
      SubmapKeeps(t1, t, b);
      if FourPartNames(b) {
        LibraryLoopPrunes(t1, b);
        var r2 := Fold(t1, names, RemoveLibraryStep(b));
        if r2.Some? {
          SubmapKeeps(r2.value, t, b);
          TemplateLoopPrunes(r2.value, b);
          PrunedEverywhere(t, b);
        }
      } else {
        var name :| name in names && LibraryPath(name).None?;
        BadNameStopsClean(t1, b, names, name);
      }
    }
  }

  // ---------------------------------------------------------------- prepare

  predicate IsExternal(s: Sources, name: string, q: Path, src: Path) {
    && name in s.externals && src == s.externals[name]
    && EXTERNAL_LIB_DIR <= src && q == ["lib"] + src[|EXTERNAL_LIB_DIR|..]
  }

  predicate IsInternal(s: Sources, name: string, q: Path, src: Path) {
    name in s.internals && src == s.internals[name] && LibraryPath(name).Some? && q == ["lib"] + LibraryPath(name).value
  }

  predicate IsTemplate(s: Sources, name: string, q: Path, src: Path) {
    name in s.templates && src == s.templates[name] && q == TemplateRoot(name)
  }

  /** The build asks for a copy of `src` at the charm-relative path `q`. */
  ghost predicate Wants(b: Build, s: Sources, q: Path, src: Path) {
    || (exists name :: name in b.externals && IsExternal(s, name, q, src))
    || (exists name :: name in b.internals && IsInternal(s, name, q, src))
    || (exists name :: name in b.templates && IsTemplate(s, name, q, src))
  }

  /** Where the file at `q` comes from, if `prepare` puts one there. */
  ghost function SourceOf(b: Build, s: Sources, q: Path): Option<Path> {
    if q == UTILITY_FILE then Some(UTILITY_FILE)
    else if SUNBEAM < q then Some(OPS_SUNBEAM_DIR + q[|SUNBEAM|..])
    else if exists src :: Wants(b, s, q, src) then (var src :| Wants(b, s, q, src); Some(src))
    else None
  }

  /** What the repository's own files guarantee of a build: no destination has two sources, no
      template is below another, an external library lies at the path its name says, nobody
      vendors into the `ops_sunbeam` package, and no source is inside the charm's managed files. */
  ghost predicate Sound(b: Build, s: Sources) {
    && (forall q, src1, src2 :: Wants(b, s, q, src1) && Wants(b, s, q, src2) ==> src1 == src2)
    && (forall x, y :: x in b.templates && y in b.templates ==> !(TemplateRoot(x) < TemplateRoot(y)))
    && (forall name :: name in b.externals && name in s.externals && LibraryPath(name).Some? ==>
          s.externals[name] == EXTERNAL_LIB_DIR + LibraryPath(name).value)
    && (forall name :: IsLibrary(b, name) ==> LibraryPath(name).value[0] != "ops_sunbeam")
    && (forall q, src :: Wants(b, s, q, src) ==> !Managed(b, src))
    && (forall p :: OPS_SUNBEAM_DIR <= p || p == UTILITY_FILE ==> !Managed(b, p))
  }

  ghost predicate NothingManaged(t: Tree, b: Build) {
    forall p :: p in t ==> !Managed(b, p)
  }

  /** Outside the managed paths `u` is `t`; inside, every file is a copy of its source. */
  ghost predicate CopiesOnly(t: Tree, u: Tree, b: Build, s: Sources) {
    && (forall p :: !Managed(b, p) ==> (p in u <==> p in t) && (p in t ==> u[p] == t[p]))
    && (forall p :: p in u && Managed(b, p) ==>
          var src := SourceOf(b, s, p[|b.path|..]); src.Some? && src.value in t && u[p] == t[src.value])
  }

  /** ... and nothing the build asks for is missing. */
  ghost predicate PreparedIs(t: Tree, v: Tree, b: Build, s: Sources) {
    && CopiesOnly(t, v, b, s)
    && forall p :: Managed(b, p) ==>
         var src := SourceOf(b, s, p[|b.path|..]); src.Some? && src.value in t ==> p in v
  }

  predicate IsLibraryAt(b: Build, name: string, q: Path) {
    name in b.externals + b.internals && IsLibrary(b, name) && q == ["lib"] + LibraryPath(name).value
  }

  /** What is wanted is a library at the path its name says, or a template. */
  lemma WantedKind(b: Build, s: Sources, q: Path, src: Path)
    requires Sound(b, s) && FourPartNames(b) && Wants(b, s, q, src)
    ensures (exists name :: IsLibraryAt(b, name, q)) || (exists name :: name in b.templates && q == TemplateRoot(name))
  {
    if name :| name in b.externals && IsExternal(s, name, q, src) {
      assert src[|EXTERNAL_LIB_DIR|..] == LibraryPath(name).value;
      assert IsLibraryAt(b, name, q);
    } else if name :| name in b.internals && IsInternal(s, name, q, src) {
      assert IsLibraryAt(b, name, q);
    }
  }

  lemma TemplateShape(b: Build, name: string, q: Path)
    requires name in b.templates && q == TemplateRoot(name)
    requires forall x :: x in b.templates ==> !(TemplateRoot(x) < q)
    ensures |q| >= 3 && q[0] == "src" && ManagedRel(b, q) && RightKind(b, q)
  {
  }

  lemma SourceOfWanted(b: Build, s: Sources, q: Path, src: Path)
    requires Wants(b, s, q, src) && (forall x :: Wants(b, s, q, x) ==> x == src)
    requires q != UTILITY_FILE && !(SUNBEAM < q)
    ensures SourceOf(b, s, q) == Some(src)
  {
  }

  predicate TargetIs(b: Build, q: Path) {
    && ManagedRel(b, q) && RightKind(b, q)
    && |q| >= 3 && (q[0] == "src" || (q[0] == "lib" && |q| == 5 && q[1] != "ops_sunbeam"))
    && (q[0] == "src" ==> exists name :: name in b.templates && q == TemplateRoot(name))
  }

  lemma WantedTarget(b: Build, s: Sources, q: Path, src: Path)
    requires Sound(b, s) && FourPartNames(b) && Wants(b, s, q, src)
    ensures TargetIs(b, q)
  {
    WantedKind(b, s, q, src);
    if name :| IsLibraryAt(b, name, q) {
      LibraryShape(b, name, q);
    } else {
      var name :| name in b.templates && q == TemplateRoot(name);
      TemplateShape(b, name, q);
    }
  }

  lemma WantedShape(b: Build, s: Sources, q: Path, src: Path)
    requires Sound(b, s) && FourPartNames(b) && Wants(b, s, q, src)
    ensures TargetIs(b, q) && SourceOf(b, s, q) == Some(src)
  {
    WantedTarget(b, s, q, src);
    SourceOfWanted(b, s, q, src);
  }

  lemma LibraryShape(b: Build, name: string, q: Path)
    requires name in b.externals + b.internals && IsLibrary(b, name) && q == ["lib"] + LibraryPath(name).value
    requires LibraryPath(name).value[0] != "ops_sunbeam"
    ensures |q| == 5 && q[0] == "lib" && q[1] != "ops_sunbeam" && ManagedRel(b, q) && RightKind(b, q)
  {
    assert LibraryRoot(name) <= q;
    forall x | x in b.templates ensures !(TemplateRoot(x) < q) {
      assert TemplateRoot(x)[0] == "src";
    }
  }

  /** Every file `prepare` may put anywhere has the right kind, and none is below another. */
  lemma TargetShape(b: Build, s: Sources, q: Path)
    requires Sound(b, s) && FourPartNames(b) && SourceOf(b, s, q).Some?
    ensures RightKind(b, q) && ManagedRel(b, q)
    ensures !Managed(b, SourceOf(b, s, q).value)
    ensures forall q', src :: Wants(b, s, q', src) ==> !(q' < q)
  {
    if q == UTILITY_FILE {
      forall x | x in b.templates ensures !(TemplateRoot(x) < q) { assert TemplateRoot(x)[0] == "src"; }
    } else if SUNBEAM < q {
      assert q[0] == "lib";
      forall x | x in b.templates ensures !(TemplateRoot(x) < q) { assert TemplateRoot(x)[0] == "src"; }
      forall x | x in b.externals + b.internals && IsLibrary(b, x) ensures q != LibraryRoot(x) {
        assert LibraryRoot(x)[1] == LibraryPath(x).value[0];
      }
    } else {
      var src :| Wants(b, s, q, src);
      WantedShape(b, s, q, src);
    }
    forall q', src | Wants(b, s, q', src) ensures !(q' < q) {
      WantedShape(b, s, q', src);
    }
  }

  /** The files of the package are all there under the charm's `lib`. */
  ghost predicate PackageCopied(t: Tree, u: Tree, b: Build) {
    forall q :: SUNBEAM < q && OPS_SUNBEAM_DIR + q[|SUNBEAM|..] in t ==> b.path + q in u
  }

  lemma PackageFile(t: Tree, u: Tree, b: Build, q: Path)
    requires NothingManaged(t, b) && SUNBEAM < q && OPS_SUNBEAM_DIR + q[|SUNBEAM|..] in t
    requires CopyTree(t, OPS_SUNBEAM_DIR, LibDir(b) + ["ops_sunbeam"]) == Some(u)
    ensures b.path + q in u
  {
    var p := b.path + q;
    assert p[|b.path|..] == q;
    FixedRoots(b, p);
    assert p[|LibDir(b) + ["ops_sunbeam"]|..] == q[|SUNBEAM|..];
    SunbeamTargets(t, b, p);
  }

  lemma PackageFileSource(b: Build, s: Sources, p: Path)
    requires LibDir(b) + ["ops_sunbeam"] < p
    ensures Managed(b, p)
    ensures SourceOf(b, s, p[|b.path|..]) == Some(OPS_SUNBEAM_DIR + p[|LibDir(b) + ["ops_sunbeam"]|..])
  {
    FixedRoots(b, p);
    assert p[|LibDir(b) + ["ops_sunbeam"]|..] == p[|b.path|..][|SUNBEAM|..];
  }

  lemma PackagePathIsCopied(t: Tree, u: Tree, b: Build, s: Sources, p: Path)
    requires NothingManaged(t, b) && CopyTree(t, OPS_SUNBEAM_DIR, LibDir(b) + ["ops_sunbeam"]) == Some(u)
    ensures !Managed(b, p) ==> (p in u <==> p in t) && (p in t ==> u[p] == t[p])
    ensures p in u && Managed(b, p) ==>
              var src := SourceOf(b, s, p[|b.path|..]); src.Some? && src.value in t && u[p] == t[src.value]
  {
    SunbeamTargets(t, b, p);
    if LibDir(b) + ["ops_sunbeam"] < p {
      PackageFileSource(b, s, p);
    }
  }

  lemma UtilityIsNotInPackage(q: Path)
    requires UTILITY_FILE <= q
    ensures !(SUNBEAM <= q)
  {
    assert q[0] == UTILITY_FILE[0] && |UTILITY_FILE[0]| != |SUNBEAM[0]|;
  }

  lemma BelowUtility(t: Tree, u: Tree, b: Build, p: Path)
    requires b.path + UTILITY_FILE < p
    requires NothingManaged(t, b) && CopyTree(t, OPS_SUNBEAM_DIR, LibDir(b) + ["ops_sunbeam"]) == Some(u)
    ensures p !in u
  {
    FixedRoots(b, p);
    UtilityIsNotInPackage(p[|b.path|..]);
    SunbeamTargets(t, b, p);
    assert Managed(b, p);
  }

  lemma NothingBelowUtility(t: Tree, u: Tree, b: Build)
    requires NothingManaged(t, b) && CopyTree(t, OPS_SUNBEAM_DIR, LibDir(b) + ["ops_sunbeam"]) == Some(u)
    ensures !IsDir(u, b.path + UTILITY_FILE)
  {
    forall p | b.path + UTILITY_FILE < p ensures p !in u {
      BelowUtility(t, u, b, p);
    }
  }

  lemma PackageIsCopied(t: Tree, u: Tree, b: Build, s: Sources)
    requires NothingManaged(t, b) && CopyTree(t, OPS_SUNBEAM_DIR, LibDir(b) + ["ops_sunbeam"]) == Some(u)
    ensures CopiesOnly(t, u, b, s) && PackageCopied(t, u, b)
  {
    forall p {
      PackagePathIsCopied(t, u, b, s, p);
    }
    forall q | SUNBEAM < q && OPS_SUNBEAM_DIR + q[|SUNBEAM|..] in t ensures b.path + q in u {
      PackageFile(t, u, b, q);
    }
  }

  lemma UtilityPath(b: Build, s: Sources)
    ensures Managed(b, b.path + UTILITY_FILE)
    ensures SourceOf(b, s, (b.path + UTILITY_FILE)[|b.path|..]) == Some(UTILITY_FILE)
  {
    assert (b.path + UTILITY_FILE)[|b.path|..] == UTILITY_FILE;
  }

  lemma UtilityIsCopied(t: Tree, u: Tree, v: Tree, b: Build, s: Sources)
    requires !Managed(b, UTILITY_FILE) && CopiesOnly(t, u, b, s) && !IsDir(u, b.path + UTILITY_FILE)
    requires Copy(u, UTILITY_FILE, b.path + UTILITY_FILE) == Some(v)
    ensures CopiesOnly(t, v, b, s) && b.path + UTILITY_FILE in v && Submap(u, v)
  {
    UtilityPath(b, s);
    assert v == u[b.path + UTILITY_FILE := t[UTILITY_FILE]];
  }

  lemma SunbeamIsCopied(t: Tree, b: Build, s: Sources)
    requires NothingManaged(t, b) && Sound(b, s) && AddSunbeam(t, b).Some?
    ensures var u := AddSunbeam(t, b).value;
            CopiesOnly(t, u, b, s) && b.path + UTILITY_FILE in u && PackageCopied(t, u, b)
  {
    var u := CopyTree(t, OPS_SUNBEAM_DIR, LibDir(b) + ["ops_sunbeam"]).value;
    PackageIsCopied(t, u, b, s);
    NothingBelowUtility(t, u, b);
    UtilityIsCopied(t, u, AddSunbeam(t, b).value, b, s);
  }

  lemma SunbeamTargets(t: Tree, b: Build, p: Path)
    requires NothingManaged(t, b) && CopyTree(t, OPS_SUNBEAM_DIR, LibDir(b) + ["ops_sunbeam"]).Some?
    ensures var dest := LibDir(b) + ["ops_sunbeam"]; var u := CopyTree(t, OPS_SUNBEAM_DIR, dest).value;
            && (p in u <==> p in t || (dest < p && OPS_SUNBEAM_DIR + p[|dest|..] in t))
            && (p in u && p !in t ==> u[p] == t[OPS_SUNBEAM_DIR + p[|dest|..]])
            && (p in t ==> u[p] == t[p])
  {
    FixedRoots(b, p);
    TargetIff(t, OPS_SUNBEAM_DIR, LibDir(b) + ["ops_sunbeam"], p);
  }

  lemma TargetIff(t: Tree, src: Path, dest: Path, p: Path)
    ensures p in Targets(t, src, dest) <==> dest < p && src + p[|dest|..] in t
  {
    if dest < p && src + p[|dest|..] in t {
      var q := src + p[|dest|..];
      assert q[|src|..] == p[|dest|..] && p == dest + q[|src|..];
    }
    if p in Targets(t, src, dest) {
      var q :| q in t && src < q && p == dest + q[|src|..];
      assert p[|dest|..] == q[|src|..] && src + q[|src|..] == q;
    }
  }

  lemma NothingBelowWanted(t: Tree, u: Tree, b: Build, s: Sources, q: Path, src: Path)
    requires Sound(b, s) && FourPartNames(b) && Wants(b, s, q, src) && CopiesOnly(t, u, b, s) && ManagedRel(b, q)
    ensures !IsDir(u, b.path + q)
  {
    forall p | p in u ensures !(b.path + q < p) {
      if b.path + q < p {
        Extends(b.path, q, p);
        ManagedBelow(b, q, p[|b.path|..]);
        TargetShape(b, s, p[|b.path|..]);
      }
    }
  }

  lemma OneCopy(t: Tree, u: Tree, b: Build, s: Sources, dest: Path, src: Path)
    requires CopiesOnly(t, u, b, s) && Managed(b, dest) && SourceOf(b, s, dest[|b.path|..]) == Some(src)
    requires src in u && !Managed(b, src)
    ensures CopiesOnly(t, u[dest := u[src]], b, s)
  {
  }

  /** One "copy unless there" step of a build. */
  lemma WantedIsCopied(t: Tree, u: Tree, b: Build, s: Sources, q: Path, src: Path)
    requires Sound(b, s) && FourPartNames(b) && Wants(b, s, q, src) && CopiesOnly(t, u, b, s)
    requires CopyUnlessThere(u, src, b.path + q).Some?
    ensures var v := CopyUnlessThere(u, src, b.path + q).value;
            CopiesOnly(t, v, b, s) && Submap(u, v) && b.path + q in v
  {
    WantedShape(b, s, q, src);
    var dest := b.path + q;
    assert dest[|b.path|..] == q;
    NothingBelowWanted(t, u, b, s, q, src);
    if dest !in u {
      OneCopy(t, u, b, s, dest, src);
      assert CopyUnlessThere(u, src, dest).value == u[dest := u[src]];
    }
  }

  lemma ManagedBelow(b: Build, q: Path, q': Path)
    requires ManagedRel(b, q) && q <= q'
    ensures ManagedRel(b, q')
  {
  }

  ghost predicate CopiedOne(t: Tree, w: Tree, v: Tree, b: Build, s: Sources, dest: Path) {
    CopiesOnly(t, v, b, s) && Submap(w, v) && dest in v
  }

  ghost predicate StepCopies(t: Tree, b: Build, s: Sources, step: (Tree, string) -> Option<Tree>, x: string,
                             dest: Path)
  {
    forall w :: CopiesOnly(t, w, b, s) && step(w, x).Some? ==> CopiedOne(t, w, step(w, x).value, b, s, dest)
  }

  ghost predicate AllCopied(t: Tree, u: Tree, v: Tree, b: Build, s: Sources, items: seq<string>, dest: string -> Path) {
    CopiesOnly(t, v, b, s) && Submap(u, v) && forall x :: x in items ==> dest(x) in v
  }

  lemma OneMoreCopied(t: Tree, u: Tree, w: Tree, v: Tree, b: Build, s: Sources, items: seq<string>,
                      dest: string -> Path)
    requires items != [] && AllCopied(t, u, w, b, s, Front(items), dest) && CopiedOne(t, w, v, b, s, dest(Last(items)))
    ensures AllCopied(t, u, v, b, s, items, dest)
  {
    assert forall x :: x in items ==> x in Front(items) || x == Last(items);
  }

  /** A loop of "copy unless there" steps. */
  lemma {:induction false} CopyLoop(t: Tree, u: Tree, b: Build, s: Sources, items: seq<string>,
                                    step: (Tree, string) -> Option<Tree>, dest: string -> Path)
    requires CopiesOnly(t, u, b, s)
    requires forall x :: x in items ==> StepCopies(t, b, s, step, x, dest(x))
    ensures Fold(u, items, step).Some? ==> AllCopied(t, u, Fold(u, items, step).value, b, s, items, dest)
  {
    if items != [] {
      assert forall x :: x in Front(items) ==> x in items;
      CopyLoop(t, u, b, s, Front(items), step, dest);
      var w := Fold(u, Front(items), step);
      if w.Some? && step(w.value, Last(items)).Some? {
        assert StepCopies(t, b, s, step, Last(items), dest(Last(items)));
        OneMoreCopied(t, u, w.value, step(w.value, Last(items)).value, b, s, items, dest);
      }
    }
  }

  /** Also where an exception ends the loop. */
  lemma {:induction false} StoppedCopies(t: Tree, u: Tree, b: Build, s: Sources, items: seq<string>,
                                         step: (Tree, string) -> Option<Tree>, dest: string -> Path)
    requires CopiesOnly(t, u, b, s)
    requires forall x :: x in items ==> StepCopies(t, b, s, step, x, dest(x))
    ensures CopiesOnly(t, Stopped(u, items, step), b, s)
  {
    if items != [] {
      var front := Front(items);
      assert Last(items) in items && forall x :: x in front ==> x in items;
      StoppedCopies(t, u, b, s, front, step, dest);
      CopyLoop(t, u, b, s, front, step, dest);
      assert StepCopies(t, b, s, step, Last(items), dest(Last(items)));
    }
  }

  function ExternalDest(b: Build, s: Sources): string -> Path {
    name => if name in s.externals && EXTERNAL_LIB_DIR <= s.externals[name]
            then LibDir(b) + s.externals[name][|EXTERNAL_LIB_DIR|..] else []
  }

  function InternalDest(b: Build): string -> Path {
    name => if LibraryPath(name).Some? then LibDir(b) + LibraryPath(name).value else []
  }

  lemma ExternalIsCopied(t: Tree, w: Tree, b: Build, s: Sources, x: string)
    requires Sound(b, s) && FourPartNames(b) && CopiesOnly(t, w, b, s) && x in b.externals
    requires AddExternal(w, b, s, x).Some?
    ensures CopiedOne(t, w, AddExternal(w, b, s, x).value, b, s, ExternalDest(b, s)(x))
  {
    var src := s.externals[x];
    var q := ["lib"] + src[|EXTERNAL_LIB_DIR|..];
    Assoc(b.path, ["lib"], src[|EXTERNAL_LIB_DIR|..]);
    WantedIsCopied(t, w, b, s, q, src);
  }

  lemma ExternalStepsCopy(t: Tree, b: Build, s: Sources)
    requires Sound(b, s) && FourPartNames(b)
    ensures forall x :: x in b.externals ==> StepCopies(t, b, s, ExternalStep(b, s), x, ExternalDest(b, s)(x))
  {
    var step, dest := ExternalStep(b, s), ExternalDest(b, s);
    forall x | x in b.externals ensures StepCopies(t, b, s, step, x, dest(x)) {
      forall w | CopiesOnly(t, w, b, s) && step(w, x).Some? ensures CopiedOne(t, w, step(w, x).value, b, s, dest(x)) {
        ExternalIsCopied(t, w, b, s, x);
      }
    }
  }

  lemma ExternalsAreCopied(t: Tree, u: Tree, b: Build, s: Sources)
    requires Sound(b, s) && FourPartNames(b) && CopiesOnly(t, u, b, s)
    ensures var r := Fold(u, b.externals, ExternalStep(b, s));
            r.Some? ==> AllCopied(t, u, r.value, b, s, b.externals, ExternalDest(b, s))
    ensures CopiesOnly(t, Stopped(u, b.externals, ExternalStep(b, s)), b, s)
  {
    ExternalStepsCopy(t, b, s);
    CopyLoop(t, u, b, s, b.externals, ExternalStep(b, s), ExternalDest(b, s));
    StoppedCopies(t, u, b, s, b.externals, ExternalStep(b, s), ExternalDest(b, s));
  }

  lemma InternalIsCopied(t: Tree, w: Tree, b: Build, s: Sources, x: string)
    requires Sound(b, s) && FourPartNames(b) && CopiesOnly(t, w, b, s) && x in b.internals
    requires AddInternal(w, b, s, x).Some?
    ensures CopiedOne(t, w, AddInternal(w, b, s, x).value, b, s, InternalDest(b)(x))
  {
    var q := ["lib"] + LibraryPath(x).value;
    Assoc(b.path, ["lib"], LibraryPath(x).value);
    WantedIsCopied(t, w, b, s, q, s.internals[x]);
  }

  lemma InternalStepsCopy(t: Tree, b: Build, s: Sources)
    requires Sound(b, s) && FourPartNames(b)
    ensures forall x :: x in b.internals ==> StepCopies(t, b, s, InternalStep(b, s), x, InternalDest(b)(x))
  {
    var step, dest := InternalStep(b, s), InternalDest(b);
    forall x | x in b.internals ensures StepCopies(t, b, s, step, x, dest(x)) {
      forall w | CopiesOnly(t, w, b, s) && step(w, x).Some? ensures CopiedOne(t, w, step(w, x).value, b, s, dest(x)) {
        InternalIsCopied(t, w, b, s, x);
      }
    }
  }

  lemma InternalsAreCopied(t: Tree, u: Tree, b: Build, s: Sources)
    requires Sound(b, s) && FourPartNames(b) && CopiesOnly(t, u, b, s)
    ensures var r := Fold(u, b.internals, InternalStep(b, s));
            r.Some? ==> AllCopied(t, u, r.value, b, s, b.internals, InternalDest(b))
    ensures CopiesOnly(t, Stopped(u, b.internals, InternalStep(b, s)), b, s)
  {
    InternalStepsCopy(t, b, s);
    CopyLoop(t, u, b, s, b.internals, InternalStep(b, s), InternalDest(b));
    StoppedCopies(t, u, b, s, b.internals, InternalStep(b, s), InternalDest(b));
  }

  lemma TemplateIsCopied(t: Tree, w: Tree, b: Build, s: Sources, x: string)
    requires Sound(b, s) && FourPartNames(b) && CopiesOnly(t, w, b, s) && x in b.templates
    requires AddTemplate(w, b, s, x).Some?
    ensures CopiedOne(t, w, AddTemplate(w, b, s, x).value, b, s, TemplateDest(b, x))
  {
    assert b.path + TemplateRoot(x) == TemplateDest(b, x);
    WantedIsCopied(t, w, b, s, TemplateRoot(x), s.templates[x]);
  }

  lemma TemplateStepsCopy(t: Tree, b: Build, s: Sources)
    requires Sound(b, s) && FourPartNames(b)
    ensures forall x :: x in b.templates ==> StepCopies(t, b, s, TemplateStep(b, s), x, DestOf(b)(x))
  {
    var step, dest := TemplateStep(b, s), DestOf(b);
    forall x | x in b.templates ensures StepCopies(t, b, s, step, x, dest(x)) {
      forall w | CopiesOnly(t, w, b, s) && step(w, x).Some? ensures CopiedOne(t, w, step(w, x).value, b, s, dest(x)) {
        TemplateIsCopied(t, w, b, s, x);
      }
    }
  }

  lemma TemplatesAreCopied(t: Tree, u: Tree, b: Build, s: Sources)
    requires Sound(b, s) && FourPartNames(b) && CopiesOnly(t, u, b, s)
    ensures var r := Fold(u, b.templates, TemplateStep(b, s));
            r.Some? ==> AllCopied(t, u, r.value, b, s, b.templates, DestOf(b))
    ensures CopiesOnly(t, Stopped(u, b.templates, TemplateStep(b, s)), b, s)
  {
    TemplateStepsCopy(t, b, s);
    CopyLoop(t, u, b, s, b.templates, TemplateStep(b, s), DestOf(b));
    StoppedCopies(t, u, b, s, b.templates, TemplateStep(b, s), DestOf(b));
  }

  ghost predicate Arrived(b: Build, s: Sources, v: Tree) {
    && b.path + UTILITY_FILE in v
    && (forall x :: x in b.externals ==> ExternalDest(b, s)(x) in v)
    && (forall x :: x in b.internals ==> InternalDest(b)(x) in v)
    && (forall x :: x in b.templates ==> DestOf(b)(x) in v)
  }

  lemma AllArrive(t: Tree, b: Build, s: Sources)
    requires NothingManaged(t, b) && Sound(b, s) && FourPartNames(b) && Prepared(t, b, s).Some?
    ensures var v := Prepared(t, b, s).value; CopiesOnly(t, v, b, s) && PackageCopied(t, v, b) && Arrived(b, s, v)
  {
    var t1 := AddSunbeam(t, b).value;
    SunbeamIsCopied(t, b, s);
    ExternalsAreCopied(t, t1, b, s);
    var t2 := Fold(t1, b.externals, ExternalStep(b, s)).value;
    InternalsAreCopied(t, t2, b, s);
    var t3 := Fold(t2, b.internals, InternalStep(b, s)).value;
    TemplatesAreCopied(t, t3, b, s);
  }

  lemma WantedIsThere(b: Build, s: Sources, q: Path, src: Path, v: Tree)
    requires Wants(b, s, q, src) && Arrived(b, s, v)
    ensures b.path + q in v
  {
    if name :| name in b.externals && IsExternal(s, name, q, src) {
      Assoc(b.path, ["lib"], src[|EXTERNAL_LIB_DIR|..]);
      assert ExternalDest(b, s)(name) in v;
    } else if name :| name in b.internals && IsInternal(s, name, q, src) {
      Assoc(b.path, ["lib"], LibraryPath(name).value);
      assert InternalDest(b)(name) in v;
    } else {
      var name :| name in b.templates && IsTemplate(s, name, q, src);
      Assoc(b.path, ["src", "templates"], Split(name, '/'));
      assert DestOf(b)(name) in v;
    }
  }

  lemma NoneIsMissing(t: Tree, v: Tree, b: Build, s: Sources, p: Path)
    requires PackageCopied(t, v, b) && Arrived(b, s, v) && Managed(b, p)
    requires var src := SourceOf(b, s, p[|b.path|..]); src.Some? && src.value in t
    ensures p in v
  {
    var q := p[|b.path|..];
    assert p == b.path + q;
    if q != UTILITY_FILE && !(SUNBEAM < q) {
      var src :| Wants(b, s, q, src);
      WantedIsThere(b, s, q, src, v);
    }
  }

  lemma CopiesAreOfTheRightKind(t: Tree, v: Tree, b: Build, s: Sources)
    requires Sound(b, s) && FourPartNames(b) && CopiesOnly(t, v, b, s)
    ensures KindsMatch(v, b)
  {
    forall p | p in v && Managed(b, p) ensures RightKind(b, p[|b.path|..]) {
      TargetShape(b, s, p[|b.path|..]);
    }
  }

  /** `prepare` on a charm with nothing at its managed paths: every managed file equals its
      source, none is missing, none is extra, and nothing else in the tree changes. */
  lemma PrepareCopiesTheSources(t: Tree, b: Build, s: Sources)
    requires NothingManaged(t, b) && Sound(b, s) && FourPartNames(b) && Prepared(t, b, s).Some?
    ensures PreparedIs(t, Prepared(t, b, s).value, b, s)
    ensures KindsMatch(Prepared(t, b, s).value, b)
  {
    var v := Prepared(t, b, s).value;
    AllArrive(t, b, s);
    forall p | Managed(b, p) && SourceOf(b, s, p[|b.path|..]).Some? && SourceOf(b, s, p[|b.path|..]).value in t
      ensures p in v
    {
      NoneIsMissing(t, v, b, s, p);
    }
    CopiesAreOfTheRightKind(t, v, b, s);
  }

  /** Whatever exception stops `prepare`: the managed files that are there are copies of their
      sources, and nothing else in the tree has changed. */
  lemma FailedPrepareCopiesOnly(t: Tree, b: Build, s: Sources)
    requires NothingManaged(t, b) && Sound(b, s) && FourPartNames(b)
    ensures CopiesOnly(t, PreparedTo(t, b, s), b, s)
  {
    var t1 := AddSunbeam(t, b);
    if t1.None? {
      var u := CopyTree(t, OPS_SUNBEAM_DIR, LibDir(b) + ["ops_sunbeam"]);
      if u.Some? {
        PackageIsCopied(t, u.value, b, s);
      }
    } else {
      SunbeamIsCopied(t, b, s);
      ExternalsAreCopied(t, t1.value, b, s);
      var t2 := Fold(t1.value, b.externals, ExternalStep(b, s));
      if t2.Some? {
        InternalsAreCopied(t, t2.value, b, s);
        var t3 := Fold(t2.value, b.internals, InternalStep(b, s));
        if t3.Some? {
          TemplatesAreCopied(t, t3.value, b, s);
        }
      }
    }
  }

  /** Some managed files may be gone, and nothing else has changed. */
  ghost predicate LeavesTheRest(t: Tree, u: Tree, b: Build) {
    Submap(u, t) && forall p :: p in t && !Managed(b, p) ==> p in u
  }

  ghost predicate ManagedRoot(b: Build, r: Path) {
    forall p :: r <= p ==> Managed(b, p)
  }

  lemma RemovalLeaves(t: Tree, u: Tree, b: Build, r: Path)
    requires LeavesTheRest(t, u, b) && ManagedRoot(b, r)
    ensures RmTreeIfThere(u, r).Some? ==> LeavesTheRest(t, RmTreeIfThere(u, r).value, b)
    ensures UnlinkIfThere(u, r).Some? ==> LeavesTheRest(t, UnlinkIfThere(u, r).value, b)
  {
    assert r <= r;
  }

  ghost predicate StepLeaves(t: Tree, b: Build, step: (Tree, string) -> Option<Tree>, x: string) {
    forall u :: LeavesTheRest(t, u, b) && step(u, x).Some? ==> LeavesTheRest(t, step(u, x).value, b)
  }

  lemma {:induction false} StoppedLeaves(t: Tree, u: Tree, b: Build, items: seq<string>,
                                         step: (Tree, string) -> Option<Tree>)
    requires LeavesTheRest(t, u, b) && forall x :: x in items ==> StepLeaves(t, b, step, x)
    ensures LeavesTheRest(t, Stopped(u, items, step), b)
    ensures Fold(u, items, step).Some? ==> LeavesTheRest(t, Fold(u, items, step).value, b)
  {
    if items != [] {
      assert Last(items) in items && forall x :: x in Front(items) ==> x in items;
      StoppedLeaves(t, u, b, Front(items), step);
      assert StepLeaves(t, b, step, Last(items));
    }
  }

  lemma FixedRootsAreManaged(b: Build)
    ensures ManagedRoot(b, LibDir(b) + ["ops_sunbeam"]) && ManagedRoot(b, b.path + UTILITY_FILE)
  {
    forall p {
      FixedRoots(b, p);
    }
  }

  lemma LibraryStepLeaves(t: Tree, b: Build, name: string)
    requires name in b.externals + b.internals
    ensures StepLeaves(t, b, RemoveLibraryStep(b), name)
  {
    if LibraryPath(name).Some? {
      var r := LibDir(b) + LibraryPath(name).value[..2];
      assert r == RootOf(b)(name);
      forall p {
        RootsAreManaged(b, name, p);
      }
      assert ManagedRoot(b, r);
      forall u | LeavesTheRest(t, u, b) {
        RemovalLeaves(t, u, b, r);
      }
    }
  }

  lemma TemplateStepLeaves(t: Tree, b: Build, name: string)
    requires name in b.templates
    ensures StepLeaves(t, b, RemoveTemplateStep(b), name)
  {
    forall p {
      RootsAreManaged(b, name, p);
    }
    assert ManagedRoot(b, TemplateDest(b, name));
    forall u | LeavesTheRest(t, u, b) {
      RemovalLeaves(t, u, b, TemplateDest(b, name));
    }
  }

  /** Whatever exception stops `clean`, of whatever tree: only managed files are gone. */
  lemma FailedCleanLeavesTheRest(t: Tree, b: Build)
    ensures LeavesTheRest(t, CleanedTo(t, b), b)
  {
    FixedRootsAreManaged(b);
    var r := LibDir(b) + ["ops_sunbeam"];
    RemovalLeaves(t, t, b, r);
    if RmTreeIfThere(t, r).Some? {
      RemovalLeaves(t, RmTreeIfThere(t, r).value, b, b.path + UTILITY_FILE);
    }
    var t1 := RemoveSunbeam(t, b);
    if t1.Some? {
      var names := b.externals + b.internals;
      forall x | x in names { LibraryStepLeaves(t, b, x); }
      StoppedLeaves(t, t1.value, b, names, RemoveLibraryStep(b));
      var t2 := Fold(t1.value, names, RemoveLibraryStep(b));
      if t2.Some? {
        forall x | x in b.templates { TemplateStepLeaves(t, b, x); }
        StoppedLeaves(t, t2.value, b, b.templates, RemoveTemplateStep(b));
      }
    }
  }

  // ---------------------------------------------------------------- main results

  lemma KindsAreClear(t: Tree, b: Build)
    requires KindsMatch(t, b)
    ensures Clear(t, b)
  {
    forall r, p | r in t && p in t && b.path <= r && IsFileRoot(b, r[|b.path|..]) ensures !(r < p) {
      if r < p {
        assert b.path <= p && r[|b.path|..] < p[|b.path|..];
        assert ManagedRel(b, p[|b.path|..]);
      }
    }
  }

  lemma BadNamesStopClean(t: Tree, b: Build)
    requires !FourPartNames(b)
    ensures Cleaned(t, b).None?
  {
    var t1 := RemoveSunbeam(t, b);
    if t1.Some? {
      var names := b.externals + b.internals;
      var name :| name in names && LibraryPath(name).None?;
      BadNameStopsClean(t1.value, b, names, name);
    }
  }

  lemma UnmanagedOfPrepared(t: Tree, v: Tree, b: Build, s: Sources)
    requires NothingManaged(t, b) && CopiesOnly(t, v, b, s)
    ensures Unmanaged(v, b) == t
  {
  }

  /** Clean undoes prepare, exactly when every library name has four parts; otherwise it raises. */
  lemma CleanUndoesPrepare(t: Tree, b: Build, s: Sources)
    requires NothingManaged(t, b) && Sound(b, s) && Prepared(t, b, s).Some?
    ensures Cleaned(Prepared(t, b, s).value, b) == if FourPartNames(b) then Some(t) else None
  {
    var v := Prepared(t, b, s).value;
    if FourPartNames(b) {
      PrepareCopiesTheSources(t, b, s);
      KindsAreClear(v, b);
      CleanRemovesTheManaged(v, b);
      UnmanagedOfPrepared(t, v, b, s);
    } else {
      BadNamesStopClean(v, b);
    }
  }

  /** `prepare --clean` from any tree: every managed file equals its source, the rest is as it
      was, and doing it again gives the same tree. */
  lemma PrepareCleanIsCanonical(t: Tree, b: Build, s: Sources)
    requires Clear(t, b) && Sound(b, s) && PrepareStep(s, true)(t, b).Some?
    ensures var v := PrepareStep(s, true)(t, b).value;
            && PreparedIs(Unmanaged(t, b), v, b, s)
            && PrepareStep(s, true)(v, b) == Some(v)
  {
    CleanRemovesTheManaged(t, b);
    var u := Unmanaged(t, b);
    assert Cleaned(t, b) == Some(u);
    PrepareCopiesTheSources(u, b, s);
    CleanUndoesPrepare(u, b, s);
  }
}
