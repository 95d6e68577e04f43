/** Keystone's LDAP domain files: one configuration file per related domain, and optionally a CA
    file, are kept in step with the relations; the service is restarted when something changed. */
module Domains {
  import opened Text

  /** A domain relation: `domain-name`, `config-contents`, and the CA ("" if there is none). */
  datatype DomainConfig = DomainConfig(name: string, contents: string, ca: string)

  type Directory = map<string, string>

  datatype Files = Files(configs: Directory, cas: Directory)

  function ConfigFile(name: string): string {
    "keystone." + name + ".conf"
  }

  function CaFile(name: string): string {
    "keystone." + name + ".crt"
  }

  const CA_EXCLUDES: set<string> := {"ca-bundle.crt", "keystone-combined.crt"}

  predicate HasDot(file: string) {
    |Split(file, '.')| >= 2
  }

  /** `domain_file.name.split(".")[1]`. */
  function DomainOnDisk(file: string): string
    requires HasDot(file)
  {
    Split(file, '.')[1]
  }

  predicate IsActive(configs: seq<DomainConfig>, name: string) {
    exists c :: c in configs && c.name == name
  }

  predicate Keeps(configs: seq<DomainConfig>, excludes: set<string>, file: string) {
    HasDot(file) && (IsActive(configs, DomainOnDisk(file)) || file in excludes)
  }

  function KeptIn(configs: seq<DomainConfig>, excludes: set<string>, dir: Directory): Directory {
    map file | file in dir && Keeps(configs, excludes, file) :: dir[file]
  }

  function Kept(configs: seq<DomainConfig>, f: Files): Files {
    Files(KeptIn(configs, {}, f.configs), KeptIn(configs, CA_EXCLUDES, f.cas))
  }

  /** What a removal leaves that may have stopped half-way: only files that have to go are gone. */
  predicate PartlyKept(configs: seq<DomainConfig>, excludes: set<string>, dir: Directory, left: Directory) {
    && (forall file :: file in left ==> file in dir && left[file] == dir[file])
    && (forall file :: file in dir && file !in left ==> HasDot(file) && !Keeps(configs, excludes, file))
  }

  /** A file without a dot in its name makes the removal raise. */
  predicate NamesHaveDots(f: Files) {
    (forall file :: file in f.configs ==> HasDot(file)) && (forall file :: file in f.cas ==> HasDot(file))
  }

  function UpdatedOne(f: Files, c: DomainConfig): Files {
    Files(f.configs[ConfigFile(c.name) := c.contents],
          if c.ca == "" then f.cas else f.cas[CaFile(c.name) := c.ca])
  }

  function Updated(f: Files, configs: seq<DomainConfig>): Files {
    if configs == [] then f else UpdatedOne(Updated(f, Front(configs)), Last(configs))
  }

  /** The files already say what this domain asks for. */
  predicate InStep(f: Files, c: DomainConfig) {
    && ConfigFile(c.name) in f.configs && f.configs[ConfigFile(c.name)] == c.contents
    && (c.ca != "" ==> CaFile(c.name) in f.cas && f.cas[CaFile(c.name)] == c.ca)
  }

  class DomainConfigurator {
    var configDir: Directory
    var caDir: Directory
    var restarts: nat

    constructor (f: Files)
      ensures OnDisk() == f && restarts == 0
    {
      configDir, caDir, restarts := f.configs, f.cas, 0;
    }

    ghost function OnDisk(): Files
      reads this
    {
      Files(configDir, caDir)
    }

    /** `remove_old_domains`: None when a file name has no dot, which can be after some files are gone.
        Only configuration files are reported as removed domains. */
    method RemoveOldDomains(configs: seq<DomainConfig>) returns (removed: Option<seq<string>>)
      modifies this`configDir, this`caDir
      ensures removed.None? <==> !NamesHaveDots(old(OnDisk()))
      ensures removed.Some? ==> OnDisk() == Kept(configs, old(OnDisk()))
      ensures removed.Some? ==> (removed.value == [] <==> configDir == old(configDir))
      ensures PartlyKept(configs, {}, old(configDir), configDir) && PartlyKept(configs, CA_EXCLUDES, old(caDir), caDir)
      ensures caDir != old(caDir) ==> configDir == KeptIn(configs, {}, old(configDir))
    {
      var ok, domains;
      ok, configDir, domains := RemoveFrom(configDir, configs, {});
      if !ok {
        return None;
      }
      var unreported;
      ok, caDir, unreported := RemoveFrom(caDir, configs, CA_EXCLUDES);
      if !ok {
        return None;
      }
      removed := Some(domains);
    }

    /** One of the two removal loops; it stops at a file name without a dot. */
    static method RemoveFrom(dir: Directory, configs: seq<DomainConfig>, excludes: set<string>)
        returns (ok: bool, left: Directory, domains: seq<string>)
      ensures ok <==> forall file :: file in dir ==> HasDot(file)
      ensures ok ==> left == KeptIn(configs, excludes, dir) && (domains == [] <==> left == dir)
      ensures PartlyKept(configs, excludes, dir, left)
    {
      domains := [];
      var todo, removed := dir.Keys, {};
      while todo != {}
        invariant todo <= dir.Keys && removed <= dir.Keys - todo
        invariant forall file :: file in dir && file !in todo ==>
                    HasDot(file) && (file in removed <==> !Keeps(configs, excludes, file))
        invariant domains == [] <==> removed == {}
      {
        var file :| file in todo;
        if !HasDot(file) {
          return false, dir - removed, domains;
        }
        todo := todo - {file};
        if !(IsActive(configs, DomainOnDisk(file)) || file in excludes) {
          removed := removed + {file};
          domains := domains + [DomainOnDisk(file)];
        }
      }
      assert dir - removed == KeptIn(configs, excludes, dir);
      assert removed != {} ==> exists file :: file in removed && file in dir && file !in dir - removed;
      ok, left := true, dir - removed;
    }

    method WriteIfDifferent(isCa: bool, file: string, contents: string) returns (written: bool)
      modifies this`configDir, this`caDir
      ensures written <==> var dir := if isCa then old(caDir) else old(configDir); file !in dir || dir[file] != contents
      ensures configDir == if isCa then old(configDir) else old(configDir)[file := contents]
      ensures caDir == if isCa then old(caDir)[file := contents] else old(caDir)
    {
      var dir := if isCa then caDir else configDir;
      written := file !in dir || dir[file] != contents;
      if written {
        if isCa {
          caDir := caDir[file := contents];
        } else {
          configDir := configDir[file := contents];
        }
      } else {
        assert dir == dir[file := contents];
      }
    }

    /** `update_domain_config`: the domains whose files had to be written. */
    method UpdateDomainConfig(configs: seq<DomainConfig>) returns (updated: seq<string>)
      modifies this`configDir, this`caDir
      ensures OnDisk() == Updated(old(OnDisk()), configs)
      ensures updated == [] <==> forall c :: c in configs ==> InStep(old(OnDisk()), c)
      ensures updated == [] ==> OnDisk() == old(OnDisk())
    {
      updated := [];
      for i := 0 to |configs|
        invariant OnDisk() == Updated(old(OnDisk()), configs[..i])
        invariant updated == [] ==> OnDisk() == old(OnDisk())
        invariant updated == [] <==> forall c :: c in configs[..i] ==> InStep(old(OnDisk()), c)
      {
        var c := configs[i];
        assert configs[..i + 1] == configs[..i] + [c];
        assert Front(configs[..i + 1]) == configs[..i];
        ghost var before, wasEmpty := OnDisk(), updated == [];
        var written := WriteIfDifferent(false, ConfigFile(c.name), c.contents);
        if written {
          updated := updated + [c.name];
        }
        if c.ca != "" {
          written := WriteIfDifferent(true, CaFile(c.name), c.ca);
          if written {
            updated := updated + [c.name];
          }
        }
        assert OnDisk() == UpdatedOne(before, c);
        assert updated == [] <==> wasEmpty && InStep(before, c);
      }
      assert configs[..|configs|] == configs;
    }

    /** `configure_domains`: false when it raised. */
    method ConfigureDomains(configs: seq<DomainConfig>) returns (ok: bool)
      modifies this
      ensures ok <==> NamesHaveDots(old(OnDisk()))
      ensures ok ==> OnDisk() == Configured(old(OnDisk()), configs)
      ensures ok ==> restarts == old(restarts) + if Restarts(old(OnDisk()), configs) then 1 else 0
      ensures !ok ==> restarts == old(restarts)
      ensures !ok ==> PartlyKept(configs, {}, old(configDir), configDir)
      ensures !ok ==> PartlyKept(configs, CA_EXCLUDES, old(caDir), caDir)
    {
      var removed := RemoveOldDomains(configs);
      if removed.None? {
        return false;
      }
      var updated := UpdateDomainConfig(configs);
      if removed.value != [] || updated != [] {
        restarts := restarts + 1;
      }
      ok := true;
    }
  }

  function Configured(f: Files, configs: seq<DomainConfig>): Files {
    Updated(Kept(configs, f), configs)
  }

  /** A configuration file was removed, or some file of an active domain was written. */
  predicate Restarts(f: Files, configs: seq<DomainConfig>) {
    Kept(configs, f).configs != f.configs || exists c :: c in configs && !InStep(Kept(configs, f), c)
  }

  // ---------------------------------------------------------------- names

  predicate DotFree(name: string) {
    '.' !in name
  }

  function FirstSegment(name: string): string {
    Split(name, '.')[0]
  }

  /** The domain read back from a file name is the name up to its first dot. */
  lemma ReadBack(name: string, suffix: string)
    ensures var file := "keystone." + name + "." + suffix;
            HasDot(file) && DomainOnDisk(file) == FirstSegment(name)
  {
    var rest := name + ['.'] + suffix;
    assert "keystone." + name + "." + suffix == "keystone" + ['.'] + rest;
    SplitFirst("keystone", rest, '.');
    FirstPart(name, suffix, '.');
  }

  lemma FileReadBack(name: string)
    ensures HasDot(ConfigFile(name)) && DomainOnDisk(ConfigFile(name)) == FirstSegment(name)
    ensures HasDot(CaFile(name)) && DomainOnDisk(CaFile(name)) == FirstSegment(name)
    ensures DotFree(name) ==> FirstSegment(name) == name
  {
    ReadBack(name, "conf");
    ReadBack(name, "crt");
    assert ConfigFile(name) == "keystone." + name + "." + "conf";
    assert CaFile(name) == "keystone." + name + "." + "crt";
  }

  lemma FileNamesInjective(a: string, b: string)
    ensures ConfigFile(a) == ConfigFile(b) ==> a == b
    ensures CaFile(a) == CaFile(b) ==> a == b
  {
    assert a == ConfigFile(a)[9..9 + |a|] && b == ConfigFile(b)[9..9 + |b|];
    assert a == CaFile(a)[9..9 + |a|] && b == CaFile(b)[9..9 + |b|];
  }

  // ---------------------------------------------------------------- what a run leaves behind

  function ConfigFilesOf(configs: seq<DomainConfig>): (files: set<string>)
    ensures forall file :: file in files <==> exists c :: c in configs && file == ConfigFile(c.name)
  {
    if configs == [] then {}
    else
      assert forall c :: c in configs <==> c in Front(configs) || c == Last(configs);
      ConfigFilesOf(Front(configs)) + {ConfigFile(Last(configs).name)}
  }

  function CaFilesOf(configs: seq<DomainConfig>): (files: set<string>)
    ensures forall file :: file in files ==> exists c :: c in configs && file == CaFile(c.name)
  {
    if configs == [] then {}
    else
      assert forall c :: c in configs <==> c in Front(configs) || c == Last(configs);
      CaFilesOf(Front(configs)) + (if Last(configs).ca == "" then {} else {CaFile(Last(configs).name)})
  }

  lemma {:induction false} UpdatedFiles(f: Files, configs: seq<DomainConfig>)
    ensures Updated(f, configs).configs.Keys == f.configs.Keys + ConfigFilesOf(configs)
    ensures Updated(f, configs).cas.Keys == f.cas.Keys + CaFilesOf(configs)
  {
    if configs != [] {
      UpdatedFiles(f, Front(configs));
    }
  }

  predicate Distinct(configs: seq<DomainConfig>) {
    forall i, j :: 0 <= i < j < |configs| ==> configs[i].name != configs[j].name
  }

  lemma DistinctFront(configs: seq<DomainConfig>)
    requires configs != [] && Distinct(configs)
    ensures Distinct(Front(configs)) && ConfigFile(Last(configs).name) !in ConfigFilesOf(Front(configs))
  {
    var front, last := Front(configs), Last(configs);
    forall c | c in front ensures ConfigFile(c.name) != ConfigFile(last.name) {
      var i :| 0 <= i < |front| && front[i] == c;
      assert configs[i].name != configs[|configs| - 1].name;
      FileNamesInjective(c.name, last.name);
    }
  }

  lemma {:induction false} CountFiles(configs: seq<DomainConfig>)
    requires Distinct(configs)
    ensures |ConfigFilesOf(configs)| == |configs|
  {
    if configs != [] {
      DistinctFront(configs);
      CountFiles(Front(configs));
    }
  }

  /** In a directory the charm owns, with dot-free distinct names: exactly one configuration file
      per active domain, holding the requested contents. */
  lemma OneFilePerDomain(f: Files, configs: seq<DomainConfig>)
    requires forall file :: file in f.configs ==> exists name :: DotFree(name) && file == ConfigFile(name)
    requires (forall c :: c in configs ==> DotFree(c.name)) && Distinct(configs)
    ensures var g := Configured(f, configs).configs;
            && g.Keys == ConfigFilesOf(configs) && |g.Keys| == |configs|
            && (forall c :: c in configs ==> "keystone." + c.name + ".conf" in g
                                             && g["keystone." + c.name + ".conf"] == c.contents)
    ensures var g := Configured(f, configs).cas;
            forall c :: c in configs && c.ca != "" ==> "keystone." + c.name + ".crt" in g
                                                       && g["keystone." + c.name + ".crt"] == c.ca
  {
    OwnedKeys(f, configs);
    CountFiles(configs);
    DistinctIsConsistent(configs);
    RequestedContents(Kept(configs, f), configs);
  }

  /** The two bundles that belong to no domain stay as they are. */
  lemma BundlesStay(f: Files, configs: seq<DomainConfig>, bundle: string)
    requires bundle == "ca-bundle.crt" || bundle == "keystone-combined.crt"
    requires bundle in f.cas
    ensures var g := Configured(f, configs).cas; bundle in g && g[bundle] == f.cas[bundle]
  {
    BundleHasDot(bundle);
    BundlesAreNoDomainFiles(Kept(configs, f), configs, bundle);
  }

  lemma DotIsThere(file: string, i: nat)
    requires i < |file| && file[i] == '.'
    ensures HasDot(file)
  {
  }

  lemma BundleHasDot(bundle: string)
    requires bundle == "ca-bundle.crt" || bundle == "keystone-combined.crt"
    ensures HasDot(bundle)
  {
    DotIsThere(bundle, if |bundle| == 13 then 9 else 17);
  }

  lemma BundlesAreNoDomainFiles(f: Files, configs: seq<DomainConfig>, bundle: string)
    requires bundle == "ca-bundle.crt" || bundle == "keystone-combined.crt"
    requires bundle in f.cas
    ensures var g := Updated(f, configs).cas; bundle in g && g[bundle] == f.cas[bundle]
  {
    forall c | c in configs ensures CaFile(c.name) != bundle {
      assert "keystone-combined.crt"[8] == '-' && CaFile(c.name)[8] == '.';
      assert "ca-bundle.crt"[0] != CaFile(c.name)[0];
    }
    CaUntouched(f, configs, bundle);
  }

  /** The CA file of an active domain: as requested, or, if none is requested, as it was: one that is no
      longer asked for stays. */
  lemma ActiveCaIs(f: Files, configs: seq<DomainConfig>, c: DomainConfig)
    requires c in configs && DotFree(c.name) && Distinct(configs)
    ensures var file, g := "keystone." + c.name + ".crt", Configured(f, configs).cas;
            && (file in g <==> c.ca != "" || file in f.cas)
            && (file in g ==> g[file] == if c.ca != "" then c.ca else f.cas[file])
  {
    if c.ca != "" {
      DistinctIsConsistent(configs);
      RequestedContents(Kept(configs, f), configs);
    } else {
      forall d | d in configs && d.ca != "" ensures CaFile(d.name) != CaFile(c.name) {
        DistinctIsConsistent(configs);
        FileNamesInjective(c.name, d.name);
      }
      CaUntouched(Kept(configs, f), configs, CaFile(c.name));
      FileReadBack(c.name);
    }
  }

  lemma {:induction false} CaUntouched(f: Files, configs: seq<DomainConfig>, file: string)
    requires forall c :: c in configs && c.ca != "" ==> CaFile(c.name) != file
    ensures var g := Updated(f, configs).cas; (file in g <==> file in f.cas) && (file in g ==> g[file] == f.cas[file])
  {
    if configs != [] {
      CaUntouched(f, Front(configs), file);
      assert Last(configs) in configs;
    }
  }

  lemma OwnedKeys(f: Files, configs: seq<DomainConfig>)
    requires forall file :: file in f.configs ==> exists name :: DotFree(name) && file == ConfigFile(name)
    ensures Configured(f, configs).configs.Keys == ConfigFilesOf(configs)
  {
    UpdatedFiles(Kept(configs, f), configs);
    OwnedAreActive(f.configs, configs);
  }

  lemma RequestedContents(f: Files, configs: seq<DomainConfig>)
    requires Consistent(configs)
    ensures var g := Updated(f, configs).configs;
            forall c :: c in configs ==> ConfigFile(c.name) in g && g[ConfigFile(c.name)] == c.contents
    ensures var g := Updated(f, configs).cas;
            forall c :: c in configs && c.ca != "" ==> CaFile(c.name) in g && g[CaFile(c.name)] == c.ca
  {
    UpdatedInStep(f, configs, configs);
  }

  lemma OwnedAreActive(dir: Directory, configs: seq<DomainConfig>)
    requires forall file :: file in dir ==> exists name :: DotFree(name) && file == ConfigFile(name)
    ensures KeptIn(configs, {}, dir).Keys <= ConfigFilesOf(configs)
  {
    forall file | file in KeptIn(configs, {}, dir) ensures file in ConfigFilesOf(configs) {
      var name :| DotFree(name) && file == ConfigFile(name);
      FileReadBack(name);
      var c :| c in configs && c.name == name;
      assert file == ConfigFile(c.name);
    }
  }

  lemma DistinctIsConsistent(configs: seq<DomainConfig>)
    requires Distinct(configs)
    ensures Consistent(configs)
  {
    forall c, d | c in configs && d in configs && c.name == d.name ensures c == d {
      var i :| 0 <= i < |configs| && configs[i] == c;
      var j :| 0 <= j < |configs| && configs[j] == d;
      assert !(i < j) && !(j < i);
    }
  }

  // ---------------------------------------------------------------- the second run

  /** No two relations ask for different files of the same domain. */
  predicate Consistent(configs: seq<DomainConfig>) {
    forall c, d :: c in configs && d in configs && c.name == d.name ==>
      c.contents == d.contents && (c.ca != "" && d.ca != "" ==> c.ca == d.ca)
  }

  /** Every active domain's file is read back as an active domain. */
  predicate Recognised(configs: seq<DomainConfig>) {
    forall c :: c in configs ==> IsActive(configs, FirstSegment(c.name))
  }

  lemma {:induction false} UpdatedInStep(f: Files, configs: seq<DomainConfig>, all: seq<DomainConfig>)
    requires Consistent(all) && forall c :: c in configs ==> c in all
    ensures forall c :: c in configs ==> InStep(Updated(f, configs), c)
  {
    if configs != [] {
      var front, last := Front(configs), Last(configs);
      UpdatedInStep(f, front, all);
      forall c | c in configs ensures InStep(Updated(f, configs), c) {
        FileNamesInjective(c.name, last.name);
        assert c in all && last in all;
        assert c in front || c == last;
        OneUpdateInStep(Updated(f, front), last, c);
      }
    }
  }

  lemma OneUpdateInStep(f: Files, c: DomainConfig, d: DomainConfig)
    requires InStep(f, d) || d == c
    requires c.name == d.name ==> c.contents == d.contents && (c.ca != "" && d.ca != "" ==> c.ca == d.ca)
    ensures InStep(UpdatedOne(f, c), d)
  {
    FileNamesInjective(c.name, d.name);
  }

  lemma {:induction false} InStepIsFixed(f: Files, configs: seq<DomainConfig>)
    requires forall c :: c in configs ==> InStep(f, c)
    ensures Updated(f, configs) == f
  {
    if configs != [] {
      var c := Last(configs);
      assert c in configs && forall d :: d in Front(configs) ==> d in configs;
      InStepIsFixed(f, Front(configs));
      assert f.configs[ConfigFile(c.name) := c.contents] == f.configs;
      assert c.ca != "" ==> f.cas[CaFile(c.name) := c.ca] == f.cas;
    }
  }

  lemma OwnFilesAreKept(configs: seq<DomainConfig>, c: DomainConfig, excludes: set<string>)
    requires Recognised(configs) && c in configs
    ensures Keeps(configs, excludes, ConfigFile(c.name)) && Keeps(configs, excludes, CaFile(c.name))
  {
    FileReadBack(c.name);
  }

  lemma AllKept(configs: seq<DomainConfig>, excludes: set<string>, dir: Directory)
    requires forall file :: file in dir ==> Keeps(configs, excludes, file)
    ensures KeptIn(configs, excludes, dir) == dir
  {
  }

  lemma KeptTwice(f: Files, configs: seq<DomainConfig>)
    requires Recognised(configs)
    ensures Kept(configs, Configured(f, configs)) == Configured(f, configs)
  {
    var k, g := Kept(configs, f), Configured(f, configs);
    UpdatedFiles(k, configs);
    forall file | file in g.configs ensures Keeps(configs, {}, file) {
      if file !in k.configs {
        var c :| c in configs && file == ConfigFile(c.name);
        OwnFilesAreKept(configs, c, {});
      }
    }
    AllKept(configs, {}, g.configs);
    forall file | file in g.cas ensures Keeps(configs, CA_EXCLUDES, file) {
      if file !in k.cas {
        var c :| c in configs && file == CaFile(c.name);
        OwnFilesAreKept(configs, c, CA_EXCLUDES);
      }
    }
    AllKept(configs, CA_EXCLUDES, g.cas);
  }

  /** No restart means that nothing was removed and nothing written. */
  lemma QuietMeansInStep(f: Files, configs: seq<DomainConfig>)
    requires !Restarts(f, configs)
    ensures (forall file :: file in f.configs ==> Keeps(configs, {}, file))
    ensures (forall c :: c in configs ==> InStep(f, c))
  {
    assert Kept(configs, f).configs == f.configs;
    forall file | file in f.configs ensures Keeps(configs, {}, file) {
      assert file in KeptIn(configs, {}, f.configs);
    }
    forall c | c in configs ensures InStep(f, c) {
      assert InStep(Kept(configs, f), c);
    }
  }

  lemma InStepIsConsistent(f: Files, configs: seq<DomainConfig>)
    requires forall c :: c in configs ==> InStep(f, c)
    ensures Consistent(configs)
  {
  }

  lemma QuietMeansRecognised(f: Files, configs: seq<DomainConfig>)
    requires !Restarts(Configured(f, configs), configs)
    ensures Recognised(configs) && Consistent(configs)
  {
    var g := Configured(f, configs);
    QuietMeansInStep(g, configs);
    InStepIsConsistent(g, configs);
    forall c | c in configs ensures IsActive(configs, FirstSegment(c.name)) {
      FileReadBack(c.name);
      assert Keeps(configs, {}, ConfigFile(c.name));
    }
  }

  /** A second run neither changes nor restarts anything, exactly when every domain name is
      recognised on disk and relations naming the same domain agree. Otherwise every run of
      the hook rewrites files and restarts keystone. */
  lemma SecondRunIsQuietIff(f: Files, configs: seq<DomainConfig>)
    ensures !Restarts(Configured(f, configs), configs) <==> Recognised(configs) && Consistent(configs)
    ensures Recognised(configs) && Consistent(configs) ==>
              Configured(Configured(f, configs), configs) == Configured(f, configs)
  {
    var g := Configured(f, configs);
    if Recognised(configs) && Consistent(configs) {
      KeptTwice(f, configs);
      UpdatedInStep(Kept(configs, f), configs, configs);
      InStepIsFixed(g, configs);
    } else if !Restarts(g, configs) {
      QuietMeansRecognised(f, configs);
    }
  }

  /** Dot-free names are always recognised; a lone dotted name never is. */
  lemma DotFreeIsRecognised(configs: seq<DomainConfig>)
    ensures (forall c :: c in configs ==> DotFree(c.name)) ==> Recognised(configs)
    ensures |configs| == 1 && Recognised(configs) ==> DotFree(configs[0].name)
  {
    forall c | c in configs && DotFree(c.name) ensures IsActive(configs, FirstSegment(c.name)) {
      FileReadBack(c.name);
    }
    if |configs| == 1 && Recognised(configs) {
      var c := configs[0];
      assert c in configs;
      SplitPartsFree(c.name, '.');
      assert FirstSegment(c.name) == c.name;
    }
  }

  /** No configuration file has to go and every active domain is in step, but a CA file has to go. */
  predicate OnlyCasGo(f: Files, configs: seq<DomainConfig>) {
    && (forall file :: file in f.configs ==> Keeps(configs, {}, file))
    && (forall c :: c in configs ==> InStep(f, c) && (c.ca != "" ==> Keeps(configs, CA_EXCLUDES, CaFile(c.name))))
    && (exists file :: file in f.cas && !Keeps(configs, CA_EXCLUDES, file))
  }

  lemma InStepAfterRemoval(f: Files, configs: seq<DomainConfig>, c: DomainConfig)
    requires forall file :: file in f.configs ==> Keeps(configs, {}, file)
    ensures InStep(Kept(configs, f), c) <==>
              InStep(f, c) && (c.ca != "" ==> Keeps(configs, CA_EXCLUDES, CaFile(c.name)))
  {
  }

  /** A run changes files without restarting keystone exactly if CA files are all that has to go. */
  lemma ChangesWithoutRestartIff(f: Files, configs: seq<DomainConfig>)
    ensures Configured(f, configs) != f && !Restarts(f, configs) <==> OnlyCasGo(f, configs)
  {
    if !Restarts(f, configs) || OnlyCasGo(f, configs) {
      if !Restarts(f, configs) {
        QuietMeansInStep(f, configs);
      }
      AllKept(configs, {}, f.configs);
      forall c | c in configs {
        InStepAfterRemoval(f, configs, c);
      }
      InStepIsFixed(Kept(configs, f), configs);
      CasChangeIff(f, configs);
    }
  }

  lemma CasChangeIff(f: Files, configs: seq<DomainConfig>)
    requires Kept(configs, f).configs == f.configs
    ensures Kept(configs, f) != f <==> exists file :: file in f.cas && !Keeps(configs, CA_EXCLUDES, file)
  {
    if file :| file in f.cas && !Keeps(configs, CA_EXCLUDES, file) {
      assert file !in Kept(configs, f).cas;
    } else {
      AllKept(configs, CA_EXCLUDES, f.cas);
    }
  }

  /** For example the CA of a domain that is no longer related. */
  lemma OldCaGoesWithoutRestart(name: string, ca: string)
    ensures var f := Files(map[], map[CaFile(name) := ca]);
            Configured(f, []) == Files(map[], map[]) && !Restarts(f, [])
  {
    var f := Files(map[], map[CaFile(name) := ca]);
    assert "keystone-combined.crt"[8] == '-' && CaFile(name)[8] == '.';
    assert "ca-bundle.crt"[0] != CaFile(name)[0];
    assert CaFile(name) !in CA_EXCLUDES;
    assert Kept([], f) == Files(map[], map[]);
  }
}
