/** Two repositories that the command line accepts: one whose charm `clean` cannot restore after
    `prepare`, and one whose charm comes back whole. */
module PrepareExamples {
  import opened Text
  import opened Repository
  import opened PrepareSuccess

  const BUILD_FILE := ".sunbeam-build.yaml"

  /** What `validate_charm` asks of a charm before anything is done with it. */
  predicate Validated(t: Tree, b: Build, s: Sources) {
    && b.path + [BUILD_FILE] in t
    && (forall name :: name in b.externals ==> name in s.externals)
    && (forall name :: name in b.internals ==> name in s.internals)
    && (forall name :: name in b.templates ==> name in s.templates)
  }

  const CHARM: Path := ["charms", "x"]
  const PACKAGE_FILE: Path := OPS_SUNBEAM_DIR + ["core.py"]
  const OTHER_LIB: Path := ["charms", "keystone-k8s", "lib"]
  const INTERNAL_FILE: Path := ["charms", "keystone_k8s", "v0", "identity_service" + ".py"]
  const LIBRARY_FILE: Path := ["charms", "data_platform", "v0", "db" + ".py"]
  const TEMPLATE_FILE: Path := ["templates", "api.conf"]

  /** A repository with the shared package, one external library, one library of another charm, one
      template, and a charm that has only its build file. */
  function ExampleTree(rel: Path): Tree {
    map[PACKAGE_FILE := "core", UTILITY_FILE := "ignore", CHARM + [BUILD_FILE] := "build",
        EXTERNAL_LIB_DIR + rel := "external", OTHER_LIB + INTERNAL_FILE := "internal", TEMPLATE_FILE := "template"]
  }

  function ExampleSources(name: string, rel: Path, other: string, template: string): Sources {
    Sources(map[name := EXTERNAL_LIB_DIR + rel], map[other := OTHER_LIB + INTERNAL_FILE],
            map[template := TEMPLATE_FILE])
  }

  function ExampleBuild(name: string, other: string, template: string): Build {
    Build(CHARM, [name], [other], [template])
  }

  predicate ExampleWants(rel: Path, template: string, q: Path, x: Path) {
    || (x == EXTERNAL_LIB_DIR + rel && q == ["lib"] + rel)
    || (x == OTHER_LIB + INTERNAL_FILE && q == ["lib"] + INTERNAL_FILE)
    || (x == TEMPLATE_FILE && q == ["src", "templates", template])
  }

  lemma ExampleWantsIff(name: string, rel: Path, other: string, template: string, q: Path, x: Path)
    requires LibraryPath(other) == Some(INTERNAL_FILE) && '/' !in template
    ensures Wants(ExampleBuild(name, other, template), ExampleSources(name, rel, other, template), q, x)
            <==> ExampleWants(rel, template, q, x)
  {
    var b, s := ExampleBuild(name, other, template), ExampleSources(name, rel, other, template);
    assert Split(template, '/') == [template];
    assert (EXTERNAL_LIB_DIR + rel)[|EXTERNAL_LIB_DIR|..] == rel;
    assert name in b.externals && other in b.internals && template in b.templates;
    assert TemplateRoot(template) == ["src", "templates", template];
    if x == EXTERNAL_LIB_DIR + rel && q == ["lib"] + rel {
      assert IsExternal(s, name, q, x);
    }
    if x == OTHER_LIB + INTERNAL_FILE && q == ["lib"] + INTERNAL_FILE {
      assert IsInternal(s, other, q, x);
    }
    if x == TEMPLATE_FILE && q == ["src", "templates", template] {
      assert IsTemplate(s, template, q, x);
    }
  }

  /** The files of the tree as seen from the charm: none at or above it, and only the build file in it. */
  predicate OnlyBuildFile(x: Path) {
    !(x <= CHARM) && (CHARM <= x ==> x == CHARM + [BUILD_FILE])
  }

  lemma OutsideTheCharm(x: Path)
    requires x != [] && (|x[0]| != |CHARM[0]| || (|x| >= 2 && |x[1]| != |CHARM[1]|))
    ensures !(x <= CHARM) && !(CHARM <= x)
  {
  }

  lemma ExampleFiles(rel: Path)
    ensures forall x :: x in ExampleTree(rel) ==> OnlyBuildFile(x)
    ensures !(CHARM <= UTILITY_FILE) && !(CHARM <= EXTERNAL_LIB_DIR + rel) && !(CHARM <= TEMPLATE_FILE)
    ensures !(CHARM <= OTHER_LIB + INTERNAL_FILE)
  {
    OutsideTheCharm(PACKAGE_FILE);
    OutsideTheCharm(UTILITY_FILE);
    OutsideTheCharm(TEMPLATE_FILE);
    assert (EXTERNAL_LIB_DIR + rel)[0] == EXTERNAL_LIB_DIR[0];
    OutsideTheCharm(EXTERNAL_LIB_DIR + rel);
    assert (OTHER_LIB + INTERNAL_FILE)[1] == OTHER_LIB[1];
    OutsideTheCharm(OTHER_LIB + INTERNAL_FILE);
  }

  lemma ExampleRoom(t: Tree, q: Path)
    requires (forall x :: x in t ==> OnlyBuildFile(x)) && q != [] && q[0] != BUILD_FILE
    ensures CanCreate(t, CHARM + q)
  {
    forall x | x in t ensures !(x < CHARM + q) {
      if CHARM <= x {
        assert x[|CHARM|] == BUILD_FILE && (CHARM + q)[|CHARM|] == q[0];
      } else {
        NotAboveEither(CHARM, q, x);
      }
    }
  }

  lemma NotAboveEither(a: Path, q: Path, x: Path)
    requires !(x <= a) && !(a <= x)
    ensures !(x < a + q)
  {
    if x <= a + q {
      PrefixesCompare(x, a, a + q);
    }
  }

  /** The external library goes into the charm's `lib`, apart from the package and the other library. */
  predicate LibraryFits(name: string, rel: Path) {
    && rel != [] && rel[0] != SUNBEAM[1] && !(rel <= INTERNAL_FILE) && !(INTERNAL_FILE <= rel)
    && (LibraryPath(name).Some? ==> rel == LibraryPath(name).value)
  }

  lemma ExampleTargets(name: string, rel: Path, template: string)
    requires LibraryFits(name, rel)
    ensures forall q, x :: ExampleWants(rel, template, q, x) ==> IsTarget(q) && !(CHARM <= x)
    ensures forall q, x, y :: ExampleWants(rel, template, q, x) && ExampleWants(rel, template, q, y) ==> x == y
    ensures forall p, x, q, y :: ExampleWants(rel, template, p, x) && ExampleWants(rel, template, q, y) ==> !(p < q)
  {
    ExampleFiles(rel);
    var q1, q2, q3 := ["lib"] + rel, ["lib"] + INTERNAL_FILE, ["src", "templates", template];
    assert |INTERNAL_FILE[0]| != |SUNBEAM[1]|;
    assert q1[0] == SUNBEAM[0] && q1[1] == rel[0] && q2[0] == SUNBEAM[0] && q2[1] == INTERNAL_FILE[0];
    assert IsTarget(q1) && IsTarget(q2) && IsTarget(q3);
    assert q1[1..] == rel && q2[1..] == INTERNAL_FILE;
    BothTails(q1, q2);
    BothTails(q2, q1);
    assert "lib"[0] != q3[0][0];
    assert !(q1 <= q3) && !(q3 <= q1) && !(q2 <= q3) && !(q3 <= q2);
  }

  lemma BothTails(p: Path, q: Path)
    requires p != [] && q != []
    ensures p <= q ==> p[1..] <= q[1..]
  {
  }

  lemma ExampleIsSound(name: string, rel: Path, other: string, template: string)
    requires LibraryFits(name, rel) && LibraryPath(other) == Some(INTERNAL_FILE) && '/' !in template
    ensures var b, s := ExampleBuild(name, other, template), ExampleSources(name, rel, other, template);
            Sound(b, s) && Apart(b, s)
  {
    var b, s := ExampleBuild(name, other, template), ExampleSources(name, rel, other, template);
    forall q, x ensures Wants(b, s, q, x) <==> ExampleWants(rel, template, q, x) {
      ExampleWantsIff(name, rel, other, template, q, x);
    }
    ExampleTargets(name, rel, template);
    ExampleFiles(rel);
    ExamplePackage(b);
    assert forall p :: CHARM <= CHARM + p;
    ApartIf(b, s);
    assert |INTERNAL_FILE[0]| != |SUNBEAM[1]|;
  }

  lemma ExamplePackage(b: Build)
    requires b.path == CHARM
    ensures forall p :: OPS_SUNBEAM_DIR <= p || p == UTILITY_FILE ==> !Managed(b, p)
  {
    forall p | OPS_SUNBEAM_DIR <= p ensures !Managed(b, p) {
      assert p[0] == OPS_SUNBEAM_DIR[0] && |p[0]| != |CHARM[0]|;
    }
    OutsideTheCharm(UTILITY_FILE);
  }

  lemma ExampleExternalOk(name: string, rel: Path, other: string, template: string)
    requires LibraryFits(name, rel)
    ensures ExternalOk(ExampleTree(rel), ExampleBuild(name, other, template),
                       ExampleSources(name, rel, other, template), name)
  {
    ExampleHasRoom(rel);
    assert (EXTERNAL_LIB_DIR + rel)[|EXTERNAL_LIB_DIR|..] == rel && (["lib"] + rel)[0] == "lib";
  }

  lemma ExampleInternalOk(name: string, rel: Path, other: string, template: string)
    requires LibraryPath(other) == Some(INTERNAL_FILE)
    ensures InternalOk(ExampleTree(rel), ExampleBuild(name, other, template),
                       ExampleSources(name, rel, other, template), other)
  {
    ExampleHasRoom(rel);
    assert (["lib"] + INTERNAL_FILE)[0] == "lib";
  }

  lemma ExampleHasRoom(rel: Path)
    ensures forall q :: q != [] && q[0] in {"lib", "src"} ==> CanCreate(ExampleTree(rel), CHARM + q)
  {
    ExampleFiles(rel);
    assert |"lib"| != |BUILD_FILE| && |"src"| != |BUILD_FILE|;
    forall q | q != [] && q[0] in {"lib", "src"} ensures CanCreate(ExampleTree(rel), CHARM + q) {
      ExampleRoom(ExampleTree(rel), q);
    }
  }

  lemma ExampleIsFresh(rel: Path, b: Build)
    requires b.path == CHARM
    ensures NothingManaged(ExampleTree(rel), b)
  {
    ExampleFiles(rel);
    BuildFileIsNotManaged(b);
  }

  lemma ExampleIsOk(name: string, rel: Path, other: string, template: string)
    requires LibraryFits(name, rel) && LibraryPath(other) == Some(INTERNAL_FILE) && '/' !in template
    ensures var t, b, s :=
              ExampleTree(rel), ExampleBuild(name, other, template), ExampleSources(name, rel, other, template);
            Validated(t, b, s) && NothingManaged(t, b) && PrepareOk(t, b, s)
  {
    var t, b, s := ExampleTree(rel), ExampleBuild(name, other, template), ExampleSources(name, rel, other, template);
    ExampleIsFresh(rel, b);
    ExampleExternalOk(name, rel, other, template);
    ExampleInternalOk(name, rel, other, template);
    ExampleTemplateOk(name, rel, other, template);
    ExamplePackageOk(name, rel, other, template);
  }

  lemma ExampleTemplateOk(name: string, rel: Path, other: string, template: string)
    ensures TemplateOk(ExampleTree(rel), ExampleBuild(name, other, template),
                       ExampleSources(name, rel, other, template), template)
  {
    ExampleHasRoom(rel);
    assert TemplateRoot(template)[0] == "src";
  }

  lemma ExamplePackageOk(name: string, rel: Path, other: string, template: string)
    ensures PackageOk(ExampleTree(rel), ExampleBuild(name, other, template))
  {
    ExampleHasRoom(rel);
    ExamplePackageDir(rel);
    assert SUNBEAM[0] == "lib";
  }

  lemma ExamplePackageDir(rel: Path)
    ensures OPS_SUNBEAM_DIR !in ExampleTree(rel) && IsDir(ExampleTree(rel), OPS_SUNBEAM_DIR)
  {
    assert PACKAGE_FILE in ExampleTree(rel) && OPS_SUNBEAM_DIR < PACKAGE_FILE;
    assert |OTHER_LIB + INTERNAL_FILE| != |OPS_SUNBEAM_DIR| && |EXTERNAL_LIB_DIR + rel| != |OPS_SUNBEAM_DIR|;
    assert |TEMPLATE_FILE[0]| != |OPS_SUNBEAM_DIR[0]|;
  }

  lemma BuildFileIsNotManaged(b: Build)
    requires b.path == CHARM
    ensures !Managed(b, CHARM + [BUILD_FILE])
  {
    assert (CHARM + [BUILD_FILE])[|CHARM|..] == [BUILD_FILE];
    assert |BUILD_FILE| != |UTILITY_FILE[0]|;
  }

  lemma FourParts(a: string, b: string, c: string, d: string)
    requires '.' !in a && '.' !in b && '.' !in c && '.' !in d
    ensures LibraryPath(Join([a, b, c, d], ['.'])) == Some([a, b, c, d + ".py"])
  {
    SplitOfJoin([a, b, c, d], '.');
  }

  lemma InternalName() returns (name: string)
    ensures LibraryPath(name) == Some(INTERNAL_FILE)
  {
    name := Join(["charms", "keystone_k8s", "v0", "identity_service"], ['.']);
    FourParts("charms", "keystone_k8s", "v0", "identity_service");
  }

  lemma ExternalName() returns (name: string)
    ensures LibraryPath(name) == Some(LIBRARY_FILE) && LibraryFits(name, LIBRARY_FILE)
  {
    name := Join(["charms", "data_platform", "v0", "db"], ['.']);
    FourParts("charms", "data_platform", "v0", "db");
    assert |LIBRARY_FILE[1]| != |INTERNAL_FILE[1]| && |LIBRARY_FILE[0]| != |SUNBEAM[1]|;
  }

  /** A charm that passes the validation, with an external library whose name lacks four parts: `prepare`
      accepts it, and `clean` then raises. */
  lemma CleanMayFail(template: string) returns (t: Tree, b: Build, s: Sources)
    requires '/' !in template
    ensures Validated(t, b, s) && b.externals != [] && b.internals != [] && b.templates != []
    ensures NothingManaged(t, b) && Sound(b, s) && !FourPartNames(b) && Prepared(t, b, s).Some?
    ensures Cleaned(Prepared(t, b, s).value, b).None?
  {
    var other := InternalName();
    assert Split("m", '.') == ["m"];
    assert |"m.py"| != |SUNBEAM[1]| && |"m.py"| != |INTERNAL_FILE[0]|;
    t, b := ExampleTree(["m.py"]), ExampleBuild("m", other, template);
    s := ExampleSources("m", ["m.py"], other, template);
    ExampleIsSound("m", ["m.py"], other, template);
    ExampleIsOk("m", ["m.py"], other, template);
    PrepareSucceedsIff(t, b, s);
    assert "m" in b.externals + b.internals;
    CleanUndoesPrepare(t, b, s);
  }

  /** The same charm with a library that has a four-part name: `clean` undoes `prepare`. */
  lemma CleanMayUndo(template: string) returns (t: Tree, b: Build, s: Sources)
    requires '/' !in template
    ensures Validated(t, b, s) && b.externals != [] && b.internals != [] && b.templates != []
    ensures NothingManaged(t, b) && Sound(b, s) && FourPartNames(b) && Prepared(t, b, s).Some?
    ensures Cleaned(Prepared(t, b, s).value, b) == Some(t)
  {
    var other := InternalName();
    var name := ExternalName();
    t, b := ExampleTree(LIBRARY_FILE), ExampleBuild(name, other, template);
    s := ExampleSources(name, LIBRARY_FILE, other, template);
    ExampleIsSound(name, LIBRARY_FILE, other, template);
    ExampleIsOk(name, LIBRARY_FILE, other, template);
    PrepareSucceedsIff(t, b, s);
    CleanUndoesPrepare(t, b, s);
  }
}
