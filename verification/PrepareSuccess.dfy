/** When `repository.py prepare` goes through: the exact condition on a tree with nothing at the charm's
    managed paths. */
module PrepareSuccess {
  import opened Text
  import opened Repository

  /** A wanted file is there already, or its source is there and nothing is in the way. */
  predicate WantOk(t: Tree, b: Build, q: Path, src: Path) {
    Exists(t, b.path + q) || (src in t && src != [] && CanCreate(t, b.path + q))
  }

  predicate ExternalOk(t: Tree, b: Build, s: Sources, name: string) {
    && name in s.externals && EXTERNAL_LIB_DIR <= s.externals[name]
    && WantOk(t, b, ["lib"] + s.externals[name][|EXTERNAL_LIB_DIR|..], s.externals[name])
  }

  predicate InternalOk(t: Tree, b: Build, s: Sources, name: string) {
    && name in s.internals && LibraryPath(name).Some?
    && WantOk(t, b, ["lib"] + LibraryPath(name).value, s.internals[name])
  }

  predicate TemplateOk(t: Tree, b: Build, s: Sources, name: string) {
    name in s.templates && WantOk(t, b, TemplateRoot(name), s.templates[name])
  }

  /** The shared package and the utility file are there, and no file is where the package goes in. */
  predicate PackageOk(t: Tree, b: Build) {
    && OPS_SUNBEAM_DIR !in t && IsDir(t, OPS_SUNBEAM_DIR) && UTILITY_FILE in t
    && CanCreate(t, b.path + SUNBEAM)
  }

  predicate PrepareOk(t: Tree, b: Build, s: Sources) {
    && PackageOk(t, b)
    && (forall name :: name in b.externals ==> ExternalOk(t, b, s, name))
    && (forall name :: name in b.internals ==> InternalOk(t, b, s, name))
    && (forall name :: name in b.templates ==> TemplateOk(t, b, s, name))
  }

  /** `prepare` copies a single file to `q`. */
  ghost predicate CopiedTo(b: Build, s: Sources, q: Path) {
    q == UTILITY_FILE || exists src :: Wants(b, s, q, src)
  }

  /** What `prepare` puts somewhere does not get in its own way: no destination has two sources or is
      above another, none is in or above the shared package, and none is a source. */
  ghost predicate Apart(b: Build, s: Sources) {
    && (forall q, x, y :: Wants(b, s, q, x) && Wants(b, s, q, y) ==> x == y)
    && (forall p, q :: SourceOf(b, s, p).Some? && CopiedTo(b, s, q) ==> !(p < q))
    && (forall q, src :: Wants(b, s, q, src) ==> q != UTILITY_FILE && !(SUNBEAM <= q) && !(q <= SUNBEAM))
    && (forall p, q, src :: SourceOf(b, s, p).Some? && Wants(b, s, q, src) ==> src != b.path + p)
    && (forall p :: SourceOf(b, s, p).Some? ==> UTILITY_FILE != b.path + p)
  }

  /** A file at `p` that `prepare` put there. */
  ghost predicate PlacedAt(t: Tree, b: Build, s: Sources, p: Path) {
    p == UTILITY_FILE || SUNBEAM < p || exists src :: Wants(b, s, p, src) && WantOk(t, b, p, src)
  }

  /** `u` is `t` with files where `prepare` puts them. */
  ghost predicate Placed(t: Tree, u: Tree, b: Build, s: Sources) {
    Submap(t, u) && forall x :: x in u ==> x in t || (b.path <= x && PlacedAt(t, b, s, x[|b.path|..]))
  }

  lemma ProperPrefix(a: Path, q: Path, x: Path)
    ensures a <= x && x < a + q ==> x[|a|..] < q
    ensures a <= x && a + q <= x ==> q <= x[|a|..]
    ensures a <= x ==> x == a + x[|a|..]
  {
    if a <= x && x < a + q {
      assert x == (a + q)[..|x|] && x[|a|..] == q[..|x| - |a|];
    }
    if a <= x && a + q <= x {
      assert q == x[|a|..|a| + |q|];
    }
  }

  lemma PlacedHasSource(t: Tree, b: Build, s: Sources, p: Path)
    requires PlacedAt(t, b, s, p)
    ensures SourceOf(b, s, p).Some?
  {
  }

  /** What was put into the tree is not above a copied file. */
  lemma CanCreateIff(t: Tree, u: Tree, b: Build, s: Sources, q: Path)
    requires Apart(b, s) && Placed(t, u, b, s) && CopiedTo(b, s, q)
    ensures CanCreate(u, b.path + q) <==> CanCreate(t, b.path + q)
  {
    forall x | x in u && x !in t ensures !(x < b.path + q) {
      PlacedHasSource(t, b, s, x[|b.path|..]);
      ProperPrefix(b.path, q, x);
    }
  }

  /** A file that is no destination was not put there. */
  lemma NotPlaced(t: Tree, u: Tree, b: Build, s: Sources, x: Path)
    requires Placed(t, u, b, s) && x in u && forall p :: SourceOf(b, s, p).Some? ==> x != b.path + p
    ensures x in t
  {
    if x !in t {
      PlacedHasSource(t, b, s, x[|b.path|..]);
      ProperPrefix(b.path, [], x);
    }
  }

  lemma SourceThereIff(t: Tree, u: Tree, b: Build, s: Sources, q: Path, src: Path)
    requires Apart(b, s) && Placed(t, u, b, s) && Wants(b, s, q, src)
    ensures src in u <==> src in t
  {
    if src in u {
      NotPlaced(t, u, b, s, src);
    }
  }

  lemma ExistsIff(t: Tree, d: Path)
    ensures Exists(t, d) <==> exists x :: x in t && d <= x
  {
    if x :| x in t && d <= x {
      assert x == d || d < x;
    }
    if x :| x in t && d < x {
      assert d <= x;
    }
  }

  /** A wanted file that is there, was there or was put there as wanted. */
  lemma ExistsMeansOk(t: Tree, u: Tree, b: Build, s: Sources, q: Path, src: Path)
    requires Apart(b, s) && Placed(t, u, b, s) && Wants(b, s, q, src) && Exists(u, b.path + q)
    ensures WantOk(t, b, q, src)
  {
    var dest := b.path + q;
    ExistsIff(u, dest);
    ExistsIff(t, dest);
    var x :| x in u && dest <= x;
    if x !in t {
      ProperPrefix(b.path, q, x);
      PlacedIsTheWanted(t, b, s, x[|b.path|..], q, src);
    }
  }

  lemma PlacedIsTheWanted(t: Tree, b: Build, s: Sources, p: Path, q: Path, src: Path)
    requires Apart(b, s) && PlacedAt(t, b, s, p) && Wants(b, s, q, src) && q <= p
    ensures WantOk(t, b, q, src)
  {
    PlacedHasSource(t, b, s, p);
    assert CopiedTo(b, s, q) && SourceOf(b, s, q).Some?;
    if p == UTILITY_FILE || SUNBEAM < p {
      AboveThePackage(b, s, p, q, src);
    } else {
      var y :| Wants(b, s, p, y) && WantOk(t, b, p, y);
      assert CopiedTo(b, s, p);
      assert q == p;
    }
  }

  lemma AboveThePackage(b: Build, s: Sources, p: Path, q: Path, src: Path)
    requires Apart(b, s) && Wants(b, s, q, src) && (p == UTILITY_FILE || SUNBEAM < p)
    ensures !(q <= p)
  {
    assert CopiedTo(b, s, UTILITY_FILE) && SourceOf(b, s, q).Some?;
    if SUNBEAM < p && q <= p {
      PrefixesCompare(q, SUNBEAM, p);
    }
  }

  /** One "copy unless there" step goes through exactly if the wanted file is in order. */
  lemma WantedGoesIff(t: Tree, u: Tree, b: Build, s: Sources, q: Path, src: Path)
    requires Apart(b, s) && Placed(t, u, b, s) && Wants(b, s, q, src)
    ensures var v := CopyUnlessThere(u, src, b.path + q);
            (v.Some? <==> WantOk(t, b, q, src)) && (v.Some? ==> Placed(t, v.value, b, s))
  {
    var dest := b.path + q;
    assert CopiedTo(b, s, q) && dest[|b.path|..] == q;
    CanCreateIff(t, u, b, s, q);
    SourceThereIff(t, u, b, s, q, src);
    if Exists(u, dest) {
      ExistsMeansOk(t, u, b, s, q, src);
    } else {
      assert !Exists(t, dest);
    }
  }

  ghost predicate StepGoesIff(t: Tree, b: Build, s: Sources, step: (Tree, string) -> Option<Tree>, x: string,
                              ok: bool)
  {
    forall u :: Placed(t, u, b, s) ==> (step(u, x).Some? <==> ok) && (ok ==> Placed(t, step(u, x).value, b, s))
  }

  lemma {:induction false} LoopGoesIff(t: Tree, u: Tree, b: Build, s: Sources, items: seq<string>,
                                       step: (Tree, string) -> Option<Tree>, ok: string -> bool)
    requires Placed(t, u, b, s) && forall x :: x in items ==> StepGoesIff(t, b, s, step, x, ok(x))
    ensures var r := Fold(u, items, step);
            (r.Some? <==> forall x :: x in items ==> ok(x)) && (r.Some? ==> Placed(t, r.value, b, s))
  {
    if items != [] {
      assert forall x :: x in items <==> x in Front(items) || x == Last(items);
      LoopGoesIff(t, u, b, s, Front(items), step, ok);
      assert StepGoesIff(t, b, s, step, Last(items), ok(Last(items)));
    }
  }

  lemma ExternalsGoIff(t: Tree, u: Tree, b: Build, s: Sources)
    requires Apart(b, s) && Placed(t, u, b, s)
    ensures var r := Fold(u, b.externals, ExternalStep(b, s));
            && (r.Some? <==> forall x :: x in b.externals ==> ExternalOk(t, b, s, x))
            && (r.Some? ==> Placed(t, r.value, b, s))
  {
    var step, ok := ExternalStep(b, s), (x: string) => ExternalOk(t, b, s, x);
    forall x | x in b.externals ensures StepGoesIff(t, b, s, step, x, ok(x)) {
      if x in s.externals && EXTERNAL_LIB_DIR <= s.externals[x] {
        var src := s.externals[x];
        var q := ["lib"] + src[|EXTERNAL_LIB_DIR|..];
        Assoc(b.path, ["lib"], src[|EXTERNAL_LIB_DIR|..]);
        assert IsExternal(s, x, q, src) && Wants(b, s, q, src);
        forall v | Placed(t, v, b, s) {
          WantedGoesIff(t, v, b, s, q, src);
        }
      }
    }
    LoopGoesIff(t, u, b, s, b.externals, step, ok);
  }

  lemma InternalsGoIff(t: Tree, u: Tree, b: Build, s: Sources)
    requires Apart(b, s) && Placed(t, u, b, s)
    ensures var r := Fold(u, b.internals, InternalStep(b, s));
            && (r.Some? <==> forall x :: x in b.internals ==> InternalOk(t, b, s, x))
            && (r.Some? ==> Placed(t, r.value, b, s))
  {
    var step, ok := InternalStep(b, s), (x: string) => InternalOk(t, b, s, x);
    forall x | x in b.internals ensures StepGoesIff(t, b, s, step, x, ok(x)) {
      if x in s.internals && LibraryPath(x).Some? {
        var q := ["lib"] + LibraryPath(x).value;
        Assoc(b.path, ["lib"], LibraryPath(x).value);
        assert IsInternal(s, x, q, s.internals[x]) && Wants(b, s, q, s.internals[x]);
        forall v | Placed(t, v, b, s) {
          WantedGoesIff(t, v, b, s, q, s.internals[x]);
        }
      }
    }
    LoopGoesIff(t, u, b, s, b.internals, step, ok);
  }

  lemma TemplatesGoIff(t: Tree, u: Tree, b: Build, s: Sources)
    requires Apart(b, s) && Placed(t, u, b, s)
    ensures var r := Fold(u, b.templates, TemplateStep(b, s));
            && (r.Some? <==> forall x :: x in b.templates ==> TemplateOk(t, b, s, x))
            && (r.Some? ==> Placed(t, r.value, b, s))
  {
    var step, ok := TemplateStep(b, s), (x: string) => TemplateOk(t, b, s, x);
    forall x | x in b.templates ensures StepGoesIff(t, b, s, step, x, ok(x)) {
      if x in s.templates {
        Assoc(b.path, ["src", "templates"], Split(x, '/'));
        assert IsTemplate(s, x, TemplateRoot(x), s.templates[x]) && Wants(b, s, TemplateRoot(x), s.templates[x]);
        forall v | Placed(t, v, b, s) {
          WantedGoesIff(t, v, b, s, TemplateRoot(x), s.templates[x]);
        }
      }
    }
    LoopGoesIff(t, u, b, s, b.templates, step, ok);
  }

  lemma PackageIsPlaced(t: Tree, u: Tree, b: Build, s: Sources)
    requires NothingManaged(t, b) && CopyTree(t, OPS_SUNBEAM_DIR, LibDir(b) + ["ops_sunbeam"]) == Some(u)
    ensures Placed(t, u, b, s)
  {
    forall x ensures x in t ==> x in u && u[x] == t[x]
             ensures x in u && x !in t ==> b.path <= x && PlacedAt(t, b, s, x[|b.path|..])
    {
      SunbeamTargets(t, b, x);
      FixedRoots(b, x);
    }
  }

  lemma PackageCopyIff(t: Tree, b: Build)
    requires NothingManaged(t, b)
    ensures CopyTree(t, OPS_SUNBEAM_DIR, LibDir(b) + ["ops_sunbeam"]).Some? <==>
              OPS_SUNBEAM_DIR !in t && IsDir(t, OPS_SUNBEAM_DIR) && CanCreate(t, b.path + SUNBEAM)
  {
    assert LibDir(b) + ["ops_sunbeam"] == b.path + SUNBEAM;
    forall x | x in t ensures !(b.path + SUNBEAM <= x) {
      FixedRoots(b, x);
    }
  }

  lemma PrefixOfOne(a: Path, c: string, v: Path, x: Path)
    requires v != []
    ensures x < a + [c] ==> x < a + v
  {
    if x < a + [c] {
      assert x == (a + [c])[..|x|] == a[..|x|];
      assert (a + v)[..|x|] == a[..|x|];
    }
  }

  /** Room for the package is room for the utility file. */
  lemma UtilityRoom(t: Tree, b: Build)
    requires CanCreate(t, b.path + SUNBEAM)
    ensures CanCreate(t, b.path + UTILITY_FILE)
  {
    forall x | x in t ensures !(x < b.path + UTILITY_FILE) {
      PrefixOfOne(b.path, UTILITY_FILE[0], SUNBEAM, x);
    }
  }

  lemma UtilityGoesIff(t: Tree, u: Tree, b: Build, s: Sources)
    requires Apart(b, s) && NothingManaged(t, b) && Placed(t, u, b, s) && !IsDir(u, b.path + UTILITY_FILE)
    requires CanCreate(t, b.path + SUNBEAM)
    ensures var v := Copy(u, UTILITY_FILE, b.path + UTILITY_FILE);
            (v.Some? <==> UTILITY_FILE in t) && (v.Some? ==> Placed(t, v.value, b, s))
  {
    UtilityRoom(t, b);
    CanCreateIff(t, u, b, s, UTILITY_FILE);
    UtilityPath(b, s);
    if UTILITY_FILE in u {
      NotPlaced(t, u, b, s, UTILITY_FILE);
    }
    assert b.path + UTILITY_FILE !in t;
    assert (b.path + UTILITY_FILE)[|b.path|..] == UTILITY_FILE;
  }

  lemma PackageGoesIff(t: Tree, b: Build, s: Sources)
    requires Apart(b, s) && NothingManaged(t, b)
    ensures AddSunbeam(t, b).Some? <==> PackageOk(t, b)
    ensures AddSunbeam(t, b).Some? ==> Placed(t, AddSunbeam(t, b).value, b, s)
  {
    PackageCopyIff(t, b);
    var u := CopyTree(t, OPS_SUNBEAM_DIR, LibDir(b) + ["ops_sunbeam"]);
    if u.Some? {
      PackageIsPlaced(t, u.value, b, s);
      NothingBelowUtility(t, u.value, b);
      UtilityGoesIff(t, u.value, b, s);
    }
  }

  /** `prepare` of a charm with nothing at its managed paths goes through exactly if the package, the
      utility file and the source of every named file are there and no file of the tree is in the way. */
  lemma PrepareSucceedsIff(t: Tree, b: Build, s: Sources)
    requires NothingManaged(t, b) && Apart(b, s)
    ensures Prepared(t, b, s).Some? <==> PrepareOk(t, b, s)
  {
    PackageGoesIff(t, b, s);
    var t1 := AddSunbeam(t, b);
    if t1.Some? {
      ExternalsGoIff(t, t1.value, b, s);
      var t2 := Fold(t1.value, b.externals, ExternalStep(b, s));
      if t2.Some? {
        InternalsGoIff(t, t2.value, b, s);
        var t3 := Fold(t2.value, b.internals, InternalStep(b, s));
        if t3.Some? {
          TemplatesGoIff(t, t3.value, b, s);
        }
      }
    }
  }

  /** A library or template path of a charm. */
  predicate IsTarget(q: Path) {
    |q| >= 2 && (q[0] == "src" || (q[0] == SUNBEAM[0] && q[1] != SUNBEAM[1]))
  }

  lemma TargetIsClear(q: Path)
    requires IsTarget(q)
    ensures !(UTILITY_FILE <= q) && !(SUNBEAM <= q) && !(q <= SUNBEAM) && q != UTILITY_FILE
  {
    assert |q[0]| != |UTILITY_FILE[0]| && "src"[0] != SUNBEAM[0][0];
  }

  lemma NotBelowPackage(p: Path, q: Path)
    requires SUNBEAM < p && !(SUNBEAM <= q)
    ensures !(p < q)
  {
  }

  /** Wanted files that are targets, with one source each, none above another, and sources elsewhere. */
  lemma ApartIf(b: Build, s: Sources)
    requires forall q, x :: Wants(b, s, q, x) ==> IsTarget(q)
    requires forall q, x, y :: Wants(b, s, q, x) && Wants(b, s, q, y) ==> x == y
    requires forall p, x, q, y :: Wants(b, s, p, x) && Wants(b, s, q, y) ==> !(p < q)
    requires forall p, q, x :: SourceOf(b, s, p).Some? && Wants(b, s, q, x) ==> x != b.path + p
    requires forall p :: SourceOf(b, s, p).Some? ==> UTILITY_FILE != b.path + p
    ensures Apart(b, s)
  {
    forall q, x | Wants(b, s, q, x) ensures q != UTILITY_FILE && !(SUNBEAM <= q) && !(q <= SUNBEAM) {
      TargetIsClear(q);
    }
    forall p, q | SourceOf(b, s, p).Some? && CopiedTo(b, s, q) ensures !(p < q) {
      NotAbove(b, s, p, q);
    }
  }

  lemma NotAbove(b: Build, s: Sources, p: Path, q: Path)
    requires forall q, x :: Wants(b, s, q, x) ==> IsTarget(q)
    requires forall p, x, q, y :: Wants(b, s, p, x) && Wants(b, s, q, y) ==> !(p < q)
    requires SourceOf(b, s, p).Some? && CopiedTo(b, s, q)
    ensures !(p < q)
  {
    if q == UTILITY_FILE {
      assert p < q ==> p == [];
    } else {
      var y :| Wants(b, s, q, y);
      TargetIsClear(q);
      if SUNBEAM < p {
        NotBelowPackage(p, q);
      }
    }
  }

  /** A sound build whose libraries have four-part names is apart. */
  lemma SoundIsApart(b: Build, s: Sources)
    requires Sound(b, s) && FourPartNames(b)
    ensures Apart(b, s)
  {
    forall q, x | Wants(b, s, q, x) ensures IsTarget(q) {
      WantedTarget(b, s, q, x);
    }
    forall p, x, q, y | Wants(b, s, p, x) && Wants(b, s, q, y) ensures !(p < q) {
      WantedShape(b, s, q, y);
      TargetShape(b, s, q);
    }
    forall p | SourceOf(b, s, p).Some? ensures Managed(b, b.path + p) {
      TargetShape(b, s, p);
      assert (b.path + p)[|b.path|..] == p;
    }
    ApartIf(b, s);
  }
}
