/** `repository.py` over a list of charms: preparing and cleaning one does not disturb the others. */
module CharmLists {
  import opened Text
  import opened Repository

  /** Charm directories are not inside each other, and no charm's managed files are a source. */
  ghost predicate Separate(bs: seq<Build>, s: Sources) {
    && (forall b :: b in bs ==> Sound(b, s) && FourPartNames(b))
    && (forall i, j :: 0 <= i < |bs| && 0 <= j < |bs| && i != j ==> !(bs[i].path <= bs[j].path))
    && (forall a, b, q :: a in bs && b in bs && SourceOf(b, s, q).Some? ==> !Managed(a, SourceOf(b, s, q).value))
  }

  lemma ManagedApart(a: Build, b: Build, p: Path)
    requires !(a.path <= b.path) && !(b.path <= a.path)
    ensures !(Managed(a, p) && Managed(b, p))
  {
    if a.path <= p && b.path <= p {
      PrefixesCompare(a.path, b.path, p);
    }
  }

  /** Managed by none of the charms. */
  predicate Foreign(bs: seq<Build>, p: Path) {
    forall b :: b in bs ==> !Managed(b, p)
  }

  /** The result of preparing the charms: each one's managed files are its sources' contents in
      `t`, and no other file differs from `t`. */
  ghost predicate AllPreparedIs(t: Tree, v: Tree, bs: seq<Build>, s: Sources) {
    && (forall p :: Foreign(bs, p) ==> (p in v <==> p in t) && (p in t ==> v[p] == t[p]))
    && (forall b :: b in bs ==> ManagedAre(t, v, b, s))
  }

  ghost predicate ManagedAre(t: Tree, v: Tree, b: Build, s: Sources) {
    forall p :: Managed(b, p) ==>
      var src := SourceOf(b, s, p[|b.path|..]);
      && (p in v <==> src.Some? && src.value in t)
      && (p in v ==> v[p] == t[src.value])
  }

  /** What one charm's preparation adds to that of the others. */
  lemma OneMoreCharm(t: Tree, u: Tree, v: Tree, bs: seq<Build>, b: Build, s: Sources)
    requires Separate(bs + [b], s) && AllPreparedIs(t, u, bs, s)
    requires PreparedIs(Unmanaged(u, b), v, b, s)
    ensures AllPreparedIs(t, v, bs + [b], s)
  {
    var all := bs + [b];
    assert all[|bs|] == b && forall x :: x in all <==> x in bs || x == b;
    forall a | a in all ensures ManagedAre(t, v, a, s) {
      forall p | Managed(a, p)
        ensures var src := SourceOf(a, s, p[|a.path|..]);
                (p in v <==> src.Some? && src.value in t) && (p in v ==> v[p] == t[src.value])
      {
        var src := SourceOf(a, s, p[|a.path|..]);
        if src.Some? {
          assert Foreign(all, src.value);
          assert Foreign(bs, src.value);
        }
        if a in bs {
          var i :| 0 <= i < |bs| && bs[i] == a;
          assert all[i] == a;
          ManagedApart(a, b, p);
          assert ManagedAre(t, u, a, s);
          assert p in v <==> p in Unmanaged(u, b);
        } else {
          assert a == b;
          assert src.Some? ==> (src.value in Unmanaged(u, b) <==> src.value in t);
        }
      }
    }
    forall p | Foreign(all, p) ensures (p in v <==> p in t) && (p in t ==> v[p] == t[p]) {
      assert Foreign(bs, p) && !Managed(b, p);
    }
  }

  lemma SeparatePrefix(bs: seq<Build>, s: Sources)
    requires bs != [] && Separate(bs, s)
    ensures Separate(Front(bs), s) && Front(bs) + [Last(bs)] == bs && Last(bs) in bs
  {
    assert forall i :: 0 <= i < |bs| - 1 ==> Front(bs)[i] == bs[i];
    assert forall b :: b in Front(bs) ==> b in bs;
  }

  lemma NothingManagedYet(t: Tree, u: Tree, bs: seq<Build>, s: Sources)
    requires bs != [] && Separate(bs, s) && NothingManaged(t, Last(bs)) && AllPreparedIs(t, u, Front(bs), s)
    ensures NothingManaged(u, Last(bs)) && Unmanaged(u, Last(bs)) == u
  {
    var b := Last(bs);
    forall p | p in u ensures !Managed(b, p) {
      if Managed(b, p) {
        ForeignToOthers(bs, s, p);
      }
    }
  }

  lemma ForeignToOthers(bs: seq<Build>, s: Sources, p: Path)
    requires bs != [] && Separate(bs, s) && Managed(Last(bs), p)
    ensures Foreign(Front(bs), p)
  {
    forall a | a in Front(bs) ensures !Managed(a, p) {
      var i :| 0 <= i < |bs| - 1 && Front(bs)[i] == a;
      assert bs[i] == a && bs[|bs| - 1] == Last(bs);
      ManagedApart(a, Last(bs), p);
    }
  }

  /** `prepare` over a list of charms with nothing at any managed path. */
  lemma {:induction false} PrepareAllCharms(t: Tree, bs: seq<Build>, s: Sources)
    requires Separate(bs, s) && (forall b :: b in bs ==> NothingManaged(t, b))
    requires Fold(t, bs, PrepareStep(s, false)).Some?
    ensures AllPreparedIs(t, Fold(t, bs, PrepareStep(s, false)).value, bs, s)
  {
    if bs != [] {
      var front, b := Front(bs), Last(bs);
      SeparatePrefix(bs, s);
      assert forall a :: a in front ==> a in bs;
      PrepareAllCharms(t, front, s);
      var u := Fold(t, front, PrepareStep(s, false)).value;
      NothingManagedYet(t, u, bs, s);
      PrepareCopiesTheSources(u, b, s);
      OneMoreCharm(t, u, Prepared(u, b, s).value, front, b, s);
    }
  }

  /** `prepare --clean` over a list of charms, from any tree: whatever was at the managed paths
      is replaced by the sources, nothing else changes. */
  lemma {:induction false} PrepareCleanAllCharms(t: Tree, bs: seq<Build>, s: Sources)
    requires Separate(bs, s) && (forall b :: b in bs ==> Clear(t, b))
    requires Fold(t, bs, PrepareStep(s, true)).Some?
    ensures AllPreparedIs(t, Fold(t, bs, PrepareStep(s, true)).value, bs, s)
    ensures forall b :: b in bs ==> KindsMatch(Fold(t, bs, PrepareStep(s, true)).value, b)
  {
    if bs != [] {
      var front, b := Front(bs), Last(bs);
      SeparatePrefix(bs, s);
      assert forall a :: a in front ==> a in bs;
      PrepareCleanAllCharms(t, front, s);
      var u := Fold(t, front, PrepareStep(s, true)).value;
      ClearThroughOthers(t, u, bs, s);
      CleanRemovesTheManaged(u, b);
      PrepareCopiesTheSources(Unmanaged(u, b), b, s);
      OneMoreCharm(t, u, Prepared(Unmanaged(u, b), b, s).value, front, b, s);
      AllKindsMatch(t, Prepared(Unmanaged(u, b), b, s).value, bs, s);
    }
  }

  lemma AllKindsMatch(t: Tree, v: Tree, bs: seq<Build>, s: Sources)
    requires Separate(bs, s) && AllPreparedIs(t, v, bs, s)
    ensures forall b :: b in bs ==> KindsMatch(v, b)
  {
    forall b, p | b in bs && p in v && Managed(b, p) ensures RightKind(b, p[|b.path|..]) {
      assert ManagedAre(t, v, b, s);
      TargetShape(b, s, p[|b.path|..]);
    }
  }

  lemma ClearThroughOthers(t: Tree, u: Tree, bs: seq<Build>, s: Sources)
    requires bs != [] && Separate(bs, s) && Clear(t, Last(bs)) && AllPreparedIs(t, u, Front(bs), s)
    ensures Clear(u, Last(bs))
  {
    var b := Last(bs);
    forall r, p | r in u && p in u && b.path <= r && IsFileRoot(b, r[|b.path|..]) ensures !(r < p) {
      if r < p {
        assert b.path <= p && r[|b.path|..] < p[|b.path|..];
        assert Managed(b, r) && Managed(b, p);
        ForeignToOthers(bs, s, r);
        ForeignToOthers(bs, s, p);
      }
    }
  }

  // ---------------------------------------------------------------- what a charm's steps look at

  /** A path that preparing or cleaning the charm can depend on. */
  ghost predicate Touches(b: Build, s: Sources, p: Path) {
    || p <= b.path || b.path <= p || OPS_SUNBEAM_DIR <= p || p == UTILITY_FILE
    || exists q :: Wants(b, s, q, p)
  }

  predicate SameAt(t: Tree, u: Tree, p: Path) {
    (p in t <==> p in u) && (p in t ==> t[p] == u[p])
  }

  ghost predicate Agree(t: Tree, u: Tree, b: Build, s: Sources) {
    forall p :: Touches(b, s, p) ==> SameAt(t, u, p)
  }

  ghost predicate BothAgree(x: Option<Tree>, y: Option<Tree>, b: Build, s: Sources) {
    (x.Some? <==> y.Some?) && (x.Some? ==> Agree(x.value, y.value, b, s))
  }

  lemma ChecksAgree(t: Tree, u: Tree, b: Build, s: Sources, dest: Path)
    requires Agree(t, u, b, s) && b.path <= dest
    ensures Exists(t, dest) <==> Exists(u, dest)
    ensures IsDir(t, dest) <==> IsDir(u, dest)
    ensures CanCreate(t, dest) <==> CanCreate(u, dest)
  {
    forall q | q < dest ensures q in t <==> q in u {
      PrefixesCompare(q, b.path, dest);
      assert SameAt(t, u, q);
    }
    forall q | dest <= q ensures q in t <==> q in u {
      assert b.path <= q && SameAt(t, u, q);
    }
  }

  lemma CopyAgrees(t: Tree, u: Tree, b: Build, s: Sources, src: Path, dest: Path)
    requires Agree(t, u, b, s) && b.path <= dest && Touches(b, s, src)
    ensures BothAgree(Copy(t, src, dest), Copy(u, src, dest), b, s)
    ensures BothAgree(CopyUnlessThere(t, src, dest), CopyUnlessThere(u, src, dest), b, s)
  {
    ChecksAgree(t, u, b, s, dest);
    assert SameAt(t, u, src);
  }

  lemma TargetsAgree(t: Tree, u: Tree, src: Path, dest: Path)
    requires forall q :: src <= q ==> (q in t <==> q in u)
    ensures Targets(t, src, dest) == Targets(u, src, dest)
  {
  }

  lemma CopyTreeAgrees(t: Tree, u: Tree, b: Build, s: Sources, dest: Path)
    requires Agree(t, u, b, s) && b.path <= dest
    ensures BothAgree(CopyTree(t, OPS_SUNBEAM_DIR, dest), CopyTree(u, OPS_SUNBEAM_DIR, dest), b, s)
  {
    var src := OPS_SUNBEAM_DIR;
    ChecksAgree(t, u, b, s, dest);
    forall q | src <= q ensures (q in t <==> q in u) && (q in t ==> t[q] == u[q]) {
      assert SameAt(t, u, q);
    }
    TargetsAgree(t, u, src, dest);
    var x, y := CopyTree(t, src, dest), CopyTree(u, src, dest);
    if x.Some? {
      forall p | Touches(b, s, p) ensures SameAt(x.value, y.value, p) {
        assert SameAt(t, u, p);
        assert src <= src + p[if |dest| <= |p| then |dest| else |p|..];
      }
    }
  }

  lemma RemoveAgrees(t: Tree, u: Tree, b: Build, s: Sources, dest: Path)
    requires Agree(t, u, b, s) && b.path <= dest
    ensures BothAgree(RmTreeIfThere(t, dest), RmTreeIfThere(u, dest), b, s)
    ensures BothAgree(UnlinkIfThere(t, dest), UnlinkIfThere(u, dest), b, s)
  {
    ChecksAgree(t, u, b, s, dest);
    assert SameAt(t, u, dest);
  }

  ghost predicate StepAgrees(b: Build, s: Sources, step: (Tree, string) -> Option<Tree>, x: string) {
    forall t, u :: Agree(t, u, b, s) ==> BothAgree(step(t, x), step(u, x), b, s)
  }

  lemma {:induction false} FoldAgrees(t: Tree, u: Tree, b: Build, s: Sources, items: seq<string>,
                                      step: (Tree, string) -> Option<Tree>)
    requires Agree(t, u, b, s) && forall x :: x in items ==> StepAgrees(b, s, step, x)
    ensures BothAgree(Fold(t, items, step), Fold(u, items, step), b, s)
  {
    if items != [] {
      assert forall x :: x in Front(items) ==> x in items;
      FoldAgrees(t, u, b, s, Front(items), step);
      assert StepAgrees(b, s, step, Last(items));
    }
  }

  lemma CleanedAgrees(t: Tree, u: Tree, b: Build, s: Sources)
    requires Agree(t, u, b, s)
    ensures BothAgree(Cleaned(t, b), Cleaned(u, b), b, s)
  {
    RemoveAgrees(t, u, b, s, LibDir(b) + ["ops_sunbeam"]);
    var x, y := RmTreeIfThere(t, LibDir(b) + ["ops_sunbeam"]), RmTreeIfThere(u, LibDir(b) + ["ops_sunbeam"]);
    if x.Some? {
      RemoveAgrees(x.value, y.value, b, s, b.path + UTILITY_FILE);
    }
    var x1, y1 := RemoveSunbeam(t, b), RemoveSunbeam(u, b);
    if x1.Some? {
      LibrariesRemovedAgree(x1.value, y1.value, b, s);
      var names := b.externals + b.internals;
      var x2, y2 := Fold(x1.value, names, RemoveLibraryStep(b)), Fold(y1.value, names, RemoveLibraryStep(b));
      if x2.Some? {
        TemplatesRemovedAgree(x2.value, y2.value, b, s);
      }
    }
  }

  lemma LibrariesRemovedAgree(t: Tree, u: Tree, b: Build, s: Sources)
    requires Agree(t, u, b, s)
    ensures var names := b.externals + b.internals;
            BothAgree(Fold(t, names, RemoveLibraryStep(b)), Fold(u, names, RemoveLibraryStep(b)), b, s)
  {
    var step := RemoveLibraryStep(b);
    forall name | name in b.externals + b.internals ensures StepAgrees(b, s, step, name) {
      forall v, w | Agree(v, w, b, s) ensures BothAgree(step(v, name), step(w, name), b, s) {
        if LibraryPath(name).Some? {
          RemoveAgrees(v, w, b, s, LibDir(b) + LibraryPath(name).value[..2]);
        }
      }
    }
    FoldAgrees(t, u, b, s, b.externals + b.internals, step);
  }

  lemma TemplatesRemovedAgree(t: Tree, u: Tree, b: Build, s: Sources)
    requires Agree(t, u, b, s)
    ensures BothAgree(Fold(t, b.templates, RemoveTemplateStep(b)), Fold(u, b.templates, RemoveTemplateStep(b)), b, s)
  {
    var step := RemoveTemplateStep(b);
    forall name | name in b.templates ensures StepAgrees(b, s, step, name) {
      forall v, w | Agree(v, w, b, s) ensures BothAgree(step(v, name), step(w, name), b, s) {
        RemoveAgrees(v, w, b, s, TemplateDest(b, name));
      }
    }
    FoldAgrees(t, u, b, s, b.templates, step);
  }

  lemma ExternalsAgree(t: Tree, u: Tree, b: Build, s: Sources)
    requires Agree(t, u, b, s)
    ensures BothAgree(Fold(t, b.externals, ExternalStep(b, s)), Fold(u, b.externals, ExternalStep(b, s)), b, s)
  {
    var step := ExternalStep(b, s);
    forall name | name in b.externals ensures StepAgrees(b, s, step, name) {
      forall v, w | Agree(v, w, b, s) ensures BothAgree(step(v, name), step(w, name), b, s) {
        if name in s.externals && EXTERNAL_LIB_DIR <= s.externals[name] {
          var src := s.externals[name];
          assert Wants(b, s, ["lib"] + src[|EXTERNAL_LIB_DIR|..], src);
          CopyAgrees(v, w, b, s, src, LibDir(b) + src[|EXTERNAL_LIB_DIR|..]);
        }
      }
    }
    FoldAgrees(t, u, b, s, b.externals, step);
  }

  lemma InternalsAgree(t: Tree, u: Tree, b: Build, s: Sources)
    requires Agree(t, u, b, s)
    ensures BothAgree(Fold(t, b.internals, InternalStep(b, s)), Fold(u, b.internals, InternalStep(b, s)), b, s)
  {
    var step := InternalStep(b, s);
    forall name | name in b.internals ensures StepAgrees(b, s, step, name) {
      forall v, w | Agree(v, w, b, s) ensures BothAgree(step(v, name), step(w, name), b, s) {
        if name in s.internals && LibraryPath(name).Some? {
          assert Wants(b, s, ["lib"] + LibraryPath(name).value, s.internals[name]);
          CopyAgrees(v, w, b, s, s.internals[name], LibDir(b) + LibraryPath(name).value);
        }
      }
    }
    FoldAgrees(t, u, b, s, b.internals, step);
  }

  lemma TemplatesAgree(t: Tree, u: Tree, b: Build, s: Sources)
    requires Agree(t, u, b, s)
    ensures BothAgree(Fold(t, b.templates, TemplateStep(b, s)), Fold(u, b.templates, TemplateStep(b, s)), b, s)
  {
    var step := TemplateStep(b, s);
    forall name | name in b.templates ensures StepAgrees(b, s, step, name) {
      forall v, w | Agree(v, w, b, s) ensures BothAgree(step(v, name), step(w, name), b, s) {
        if name in s.templates {
          assert Wants(b, s, TemplateRoot(name), s.templates[name]);
          CopyAgrees(v, w, b, s, s.templates[name], TemplateDest(b, name));
        }
      }
    }
    FoldAgrees(t, u, b, s, b.templates, step);
  }

  lemma PreparedAgrees(t: Tree, u: Tree, b: Build, s: Sources)
    requires Agree(t, u, b, s)
    ensures BothAgree(Prepared(t, b, s), Prepared(u, b, s), b, s)
  {
    var dest := LibDir(b) + ["ops_sunbeam"];
    CopyTreeAgrees(t, u, b, s, dest);
    var x, y := CopyTree(t, OPS_SUNBEAM_DIR, dest), CopyTree(u, OPS_SUNBEAM_DIR, dest);
    if x.Some? {
      CopyAgrees(x.value, y.value, b, s, UTILITY_FILE, b.path + UTILITY_FILE);
    }
    var x1, y1 := AddSunbeam(t, b), AddSunbeam(u, b);
    if x1.Some? {
      ExternalsAgree(x1.value, y1.value, b, s);
      var x2, y2 := Fold(x1.value, b.externals, ExternalStep(b, s)), Fold(y1.value, b.externals, ExternalStep(b, s));
      if x2.Some? {
        InternalsAgree(x2.value, y2.value, b, s);
        var x3, y3 := Fold(x2.value, b.internals, InternalStep(b, s)), Fold(y2.value, b.internals, InternalStep(b, s));
        if x3.Some? {
          TemplatesAgree(x3.value, y3.value, b, s);
        }
      }
    }
  }

  /** `prepare --clean` of the charm leaves the tree as it is. */
  ghost predicate Fixed(v: Tree, b: Build, s: Sources) {
    PrepareStep(s, true)(v, b) == Some(v)
  }

  /** `prepare --clean` changes managed files only. */
  lemma OnlyManagedChange(v: Tree, b: Build, s: Sources, p: Path)
    requires Sound(b, s) && FourPartNames(b) && Clear(v, b) && PrepareStep(s, true)(v, b).Some? && !Managed(b, p)
    ensures SameAt(PrepareStep(s, true)(v, b).value, v, p)
  {
    CleanRemovesTheManaged(v, b);
    PrepareCopiesTheSources(Unmanaged(v, b), b, s);
    assert p in Unmanaged(v, b) <==> p in v;
  }

  lemma StepsAgree(u: Tree, v: Tree, b: Build, s: Sources)
    requires Agree(u, v, b, s)
    ensures BothAgree(PrepareStep(s, true)(u, b), PrepareStep(s, true)(v, b), b, s)
  {
    CleanedAgrees(u, v, b, s);
    if Cleaned(u, b).Some? {
      PreparedAgrees(Cleaned(u, b).value, Cleaned(v, b).value, b, s);
    }
  }

  /** A tree that differs only where the charm does not look is left as it is too. */
  lemma FixedMoves(u: Tree, v: Tree, b: Build, s: Sources)
    requires Sound(b, s) && FourPartNames(b) && Clear(v, b) && Fixed(u, b, s) && Agree(u, v, b, s)
    ensures Fixed(v, b, s)
  {
    StepsAgree(u, v, b, s);
    var w := PrepareStep(s, true)(v, b).value;
    forall p ensures (p in w <==> p in v) && (p in v ==> w[p] == v[p]) {
      if Managed(b, p) {
        assert Touches(b, s, p) && SameAt(u, w, p) && SameAt(u, v, p);
      } else {
        OnlyManagedChange(v, b, s, p);
      }
    }
    assert w == v;
  }

  /** Preparing charm `b` touches nothing that charm `a` looks at. */
  lemma OthersDoNotTouch(u: Tree, v: Tree, a: Build, b: Build, bs: seq<Build>, s: Sources)
    requires Separate(bs, s) && a in bs && b in bs && !(a.path <= b.path) && !(b.path <= a.path)
    requires forall p :: !Managed(b, p) ==> SameAt(u, v, p)
    ensures Agree(u, v, a, s)
  {
    forall p | Touches(a, s, p) ensures !Managed(b, p) {
      if Managed(b, p) {
        if a.path <= p {
          PrefixesCompare(a.path, b.path, p);
        } else if q :| Wants(a, s, q, p) {
          WantedShape(a, s, q, p);
        }
      }
    }
  }

  /** After `prepare --clean` of all charms, it leaves the tree as it is for each of them. */
  lemma {:induction false} AllFixed(t: Tree, bs: seq<Build>, s: Sources)
    requires Separate(bs, s) && (forall b :: b in bs ==> Clear(t, b))
    requires Fold(t, bs, PrepareStep(s, true)).Some?
    ensures forall b :: b in bs ==> Fixed(Fold(t, bs, PrepareStep(s, true)).value, b, s)
  {
    if bs != [] {
      var front, b := Front(bs), Last(bs);
      var u, v := Fold(t, front, PrepareStep(s, true)).value, Fold(t, bs, PrepareStep(s, true)).value;
      SeparatePrefix(bs, s);
      assert forall a :: a in bs <==> a in front || a == b;
      AllFixed(t, front, s);
      PrepareCleanAllCharms(t, front, s);
      PrepareCleanAllCharms(t, bs, s);
      ClearThroughOthers(t, u, bs, s);
      PrepareCleanIsCanonical(u, b, s);
      forall a | a in front ensures Fixed(v, a, s) {
        var i :| 0 <= i < |front| && front[i] == a;
        assert bs[i] == a && bs[|bs| - 1] == b;
        OthersDoNotTouch(u, v, a, b, bs, s);
        KindsAreClear(v, a);
        FixedMoves(u, v, a, s);
      }
    }
  }

  lemma {:induction false} FoldFixed(v: Tree, bs: seq<Build>, s: Sources)
    requires forall b :: b in bs ==> Fixed(v, b, s)
    ensures Fold(v, bs, PrepareStep(s, true)) == Some(v)
  {
    if bs != [] {
      assert Last(bs) in bs && forall b :: b in Front(bs) ==> b in bs;
      FoldFixed(v, Front(bs), s);
    }
  }

  /** `prepare --clean` of the same charms on its own result succeeds and changes nothing. */
  lemma PrepareCleanAgain(t: Tree, bs: seq<Build>, s: Sources)
    requires Separate(bs, s) && WellFormed(t) && Fold(t, bs, PrepareStep(s, true)).Some?
    ensures var v := Fold(t, bs, PrepareStep(s, true)).value;
            AllPreparedIs(t, v, bs, s) && Fold(v, bs, PrepareStep(s, true)) == Some(v)
  {
    PrepareCleanAllCharms(t, bs, s);
    AllFixed(t, bs, s);
    FoldFixed(Fold(t, bs, PrepareStep(s, true)).value, bs, s);
  }

  ghost predicate Remaining(v: Tree, u: Tree, bs: seq<Build>) {
    forall p :: (p in u <==> p in v && Foreign(bs, p)) && (p in u ==> u[p] == v[p])
  }

  lemma {:induction false} CleanAllCharms(v: Tree, bs: seq<Build>)
    requires forall b :: b in bs ==> KindsMatch(v, b) && FourPartNames(b)
    ensures Fold(v, bs, CleanStep()).Some? && Remaining(v, Fold(v, bs, CleanStep()).value, bs)
  {
    if bs != [] {
      var front, b := Front(bs), Last(bs);
      assert b in bs && forall a :: a in bs <==> a in front || a == b;
      CleanAllCharms(v, front);
      var u := Fold(v, front, CleanStep()).value;
      SubmapKeeps(u, v, b);
      KindsAreClear(u, b);
      CleanRemovesTheManaged(u, b);
    }
  }

  /** Clean undoes prepare over a list of charms: the same tree comes back, whole. */
  lemma CleanUndoesPrepareForAll(t: Tree, bs: seq<Build>, s: Sources)
    requires Separate(bs, s) && (forall b :: b in bs ==> NothingManaged(t, b))
    requires Fold(t, bs, PrepareStep(s, false)).Some?
    ensures Fold(Fold(t, bs, PrepareStep(s, false)).value, bs, CleanStep()) == Some(t)
  {
    var v := Fold(t, bs, PrepareStep(s, false)).value;
    PrepareAllCharms(t, bs, s);
    AllKindsMatch(t, v, bs, s);
    CleanAllCharms(v, bs);
    var u := Fold(v, bs, CleanStep()).value;
    forall p ensures (p in u <==> p in t) && (p in u ==> u[p] == t[p]) {
    }
    assert u == t;
  }
}
