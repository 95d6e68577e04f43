/** Configuration files and service restarts of Pebble containers: files are written twice per
    hook, changes are remembered in `_files_changed`, services load the files when they start. */
module Restart {
  import opened Text

  /** `loaded` is the container's disk as it was when the service last (re)started. */
  datatype Service = Service(running: bool, loaded: map<string, string>, starts: nat, restarts: nat)

  datatype Content = Content(
    disk: map<string, string>, services: map<string, Service>, filesChanged: seq<string>)

  type Render = string -> string

  /** Some configuration file of the handler is missing or has other contents than rendered. */
  predicate Differs(paths: seq<string>, disk: map<string, string>, render: Render) {
    exists p :: p in paths && (p !in disk || disk[p] != render(p))
  }

  predicate Renders(paths: seq<string>, disk: map<string, string>, render: Render) {
    forall p :: p in paths ==> p in disk && disk[p] == render(p)
  }

  function Written(paths: seq<string>, disk: map<string, string>, render: Render): map<string, string> {
    disk + map p | p in paths :: render(p)
  }

  /** The files a write finds different, in order; one listed twice is found different once. */
  function Changed(paths: seq<string>, disk: map<string, string>, render: Render): seq<string> {
    if paths == [] then []
    else
      var before, p := Written(Front(paths), disk, render), Last(paths);
      Changed(Front(paths), disk, render) + if p !in before || before[p] != render(p) then [p] else []
  }

  function StartedService(s: Service, disk: map<string, string>, restart: bool): Service {
    if !s.running then Service(true, disk, s.starts + 1, s.restarts)
    else if restart then Service(true, disk, s.starts, s.restarts + 1)
    else s
  }

  function StartedAll(services: map<string, Service>, disk: map<string, string>, restart: bool): map<string, Service> {
    map name | name in services :: StartedService(services[name], disk, restart)
  }

  function StoppedAll(services: map<string, Service>): map<string, Service> {
    map name | name in services :: services[name].(running := false)
  }

  /** Some service is started or restarted. */
  predicate Starts(services: map<string, Service>, restart: bool) {
    exists name :: name in services && (!services[name].running || restart)
  }

  /** Adding the handler's layer makes its services known, not running. */
  function WithLayer(services: map<string, Service>, serviceName: string, layer: set<string>): map<string, Service> {
    if serviceName in services then services
    else services + map name | name in layer - services.Keys :: Service(false, map[], 0, 0)
  }

  /** What starting a container's services leaves: every service known before is known and running; if the
      handler's own was unknown, those of its layer are known and running too, the added ones with what
      is on the disk; and there are no others. */
  ghost predicate AllStarted(serviceName: string, layer: set<string>, before: map<string, Service>,
                             after: map<string, Service>, disk: map<string, string>)
  {
    && (forall name :: name in before ==> name in after && after[name].running)
    && (serviceName !in before ==> forall name :: name in layer ==>
          name in after && after[name].running && (name !in before ==> after[name].loaded == disk))
    && (forall name :: name in after ==> name in before || (serviceName !in before && name in layer))
  }

  lemma StartingStartsAll(serviceName: string, layer: set<string>, before: map<string, Service>,
                          disk: map<string, string>, restart: bool)
    ensures var after := StartedAll(WithLayer(before, serviceName, layer), disk, restart);
            AllStarted(serviceName, layer, before, after, disk)
  {
  }

  /** A handler of one container; a new object exists for every hook, with nothing remembered. */
  class ServicePebbleHandler {
    const serviceName: string
    const layer: set<string>
    const paths: seq<string>          // container_configs
    var canConnect: bool
    var disk: map<string, string>
    var services: map<string, Service>
    var filesChanged: seq<string>     // _files_changed

    constructor (serviceName: string, layer: set<string>, paths: seq<string>, canConnect: bool, c: Content)
      ensures this.serviceName == serviceName && this.layer == layer && this.paths == paths
      ensures this.canConnect == canConnect && State() == c.(filesChanged := [])
    {
      this.serviceName, this.layer, this.paths := serviceName, layer, paths;
      this.canConnect := canConnect;
      disk, services, filesChanged := c.disk, c.services, [];
    }

    ghost function State(): Content
      reads this
    {
      Content(disk, services, filesChanged)
    }

    /** `sidecar_config_write`: compare, then push. */
    method WriteFile(path: string, contents: string) returns (changed: bool)
      modifies this`disk
      ensures disk == old(disk)[path := contents]
      ensures changed <==> path !in old(disk) || old(disk)[path] != contents
    {
      if path in disk && disk[path] == contents {
        assert disk == disk[path := contents];
        return false;
      }
      disk := disk[path := contents];
      changed := true;
    }

    method WriteConfig(render: Render) returns (files: seq<string>)
      modifies this`disk
      ensures disk == Written(paths, old(disk), render) && files == Changed(paths, old(disk), render)
    {
      files := [];
      for i := 0 to |paths|
        invariant disk == Written(paths[..i], old(disk), render)
        invariant files == Changed(paths[..i], old(disk), render)
      {
        ChangedStep(paths, i, old(disk), render);
        var changed := WriteFile(paths[i], render(paths[i]));
        if changed {
          files := files + [paths[i]];
        }
      }
      assert paths[..|paths|] == paths;
    }

    method ConfigureContainer(render: Render)
      modifies this`disk, this`filesChanged
      ensures disk == Written(paths, old(disk), render) && services == old(services)
      ensures filesChanged == old(filesChanged) + Changed(paths, old(disk), render)
    {
      var files := WriteConfig(render);
      filesChanged := filesChanged + files;
    }

    /** One service: started if stopped, otherwise restarted if asked. */
    method StartOne(name: string, restart: bool)
      requires name in services
      modifies this`services, this`filesChanged
      ensures services == old(services)[name := StartedService(old(services)[name], disk, restart)]
      ensures filesChanged == if !old(services)[name].running || restart then [] else old(filesChanged)
    {
      var service := services[name];
      if !service.running {
        services := services[name := service.(running := true, loaded := disk, starts := service.starts + 1)];
        filesChanged := [];
        return;
      }
      if restart {
        services := services[name := service.(loaded := disk, restarts := service.restarts + 1)];
        filesChanged := [];
      } else {
        assert services == services[name := service];
      }
    }

    /** Starts what is stopped; restarts what runs if asked. The memory of changed files is
        reset inside the loop, by the first service handled. */
    method StartAll(restart: bool)
      modifies this`services, this`filesChanged
      ensures !canConnect ==> unchanged(this)
      ensures canConnect ==> services == StartedAll(old(services), disk, restart)
      ensures canConnect ==> filesChanged == if Starts(old(services), restart) then [] else old(filesChanged)
    {
      if !canConnect {
        return;
      }
      var names := services.Keys;
      var left := names;
      while left != {}
        invariant left <= names == services.Keys == old(services).Keys
        invariant forall name :: name in names ==>
                    services[name] == if name in left then old(services)[name]
                                      else StartedService(old(services)[name], disk, restart)
        invariant filesChanged == if exists name :: name in names - left && (!old(services)[name].running || restart)
                                  then [] else old(filesChanged)
      {
        var name :| name in left;
        StartOne(name, restart);
        left := left - {name};
      }
    }

    /** `stop_all`. */
    method StopAll()
      modifies this`services
      ensures services == if canConnect then StoppedAll(old(services)) else old(services)
      ensures services.Keys == old(services).Keys && (canConnect ==> forall name :: name in services ==>
                !services[name].running && services[name].loaded == old(services)[name].loaded)
    {
      if canConnect {
        services := StoppedAll(services);
      }
    }

    method StartService(restart: bool)
      requires canConnect
      modifies this`services, this`filesChanged
      ensures services == StartedAll(WithLayer(old(services), serviceName, layer), disk, restart)
      ensures filesChanged ==
              if Starts(WithLayer(old(services), serviceName, layer), restart) then [] else old(filesChanged)
      ensures AllStarted(serviceName, layer, old(services), services, disk)
    {
      StartingStartsAll(serviceName, layer, services, disk, restart);
      if serviceName !in services {
        services := WithLayer(services, serviceName, layer);
      }
      StartAll(restart);
    }

    method InitService(render: Render)
      requires canConnect
      modifies this`disk, this`services, this`filesChanged
      ensures disk == Written(paths, old(disk), render)
      ensures services == StartedAll(WithLayer(old(services), serviceName, layer), disk,
                                     old(filesChanged) != [] || Differs(paths, old(disk), render))
      ensures AllStarted(serviceName, layer, old(services), services, disk)
    {
      ConfigureContainer(render);
      ChangedIff(paths, old(disk), render);
      if filesChanged != [] {
        StartService(true);
      } else {
        StartService(false);
      }
    }
  }

  // ---------------------------------------------------------------- one hook over all containers

  /** What a completed hook makes of one container. */
  function Completed(h: ServicePebbleHandler, c: Content, render: Render): (map<string, string>, map<string, Service>) {
    var disk := Written(h.paths, c.disk, render);
    (disk, StartedAll(WithLayer(c.services, h.serviceName, h.layer), disk,
                      c.filesChanged != [] || Differs(h.paths, c.disk, render)))
  }

  /** The handlers that a hook's first loop reaches: up to the first container that is not ready. */
  ghost predicate Reached(handlers: seq<ServicePebbleHandler>, i: nat)
    requires i < |handlers|
    reads handlers
  {
    forall j :: 0 <= j <= i ==> handlers[j].canConnect
  }

  /** What the first loop leaves of a container it reached. */
  twostate predicate Configured(h: ServicePebbleHandler, render: Render)
    reads h
  {
    && h.disk == Written(h.paths, old(h.disk), render) && h.services == old(h.services)
    && h.filesChanged == old(h.filesChanged) + Changed(h.paths, old(h.disk), render)
  }

  /** `configure_containers`: a container that is not ready ends the hook. */
  method ConfigureContainers(handlers: seq<ServicePebbleHandler>, render: Render) returns (ok: bool)
    requires forall i, j :: 0 <= i < j < |handlers| ==> handlers[i] != handlers[j]
    modifies set h | h in handlers
    ensures ok <==> forall h :: h in handlers ==> h.canConnect
    ensures forall h :: h in handlers ==> h.canConnect == old(h.canConnect)
    ensures forall i :: 0 <= i < |handlers| ==>
              if Reached(handlers, i) then Configured(handlers[i], render) else unchanged(handlers[i])
  {
    for i := 0 to |handlers|
      invariant forall h :: h in handlers ==> h.canConnect == old(h.canConnect)
      invariant forall j :: 0 <= j < i ==> handlers[j].canConnect && Configured(handlers[j], render)
      invariant forall j :: i <= j < |handlers| ==> unchanged(handlers[j])
    {
      if !handlers[i].canConnect {
        return false;
      }
      handlers[i].ConfigureContainer(render);
    }
    ok := true;
  }

  /** `init_container_services`, with every container ready. */
  method InitContainerServices(handlers: seq<ServicePebbleHandler>, render: Render)
    requires forall i, j :: 0 <= i < j < |handlers| ==> handlers[i] != handlers[j]
    requires forall h :: h in handlers ==> h.canConnect
    modifies set h | h in handlers
    ensures forall h :: h in handlers ==> h.canConnect && (h.disk, h.services) == Completed(h, old(h.State()), render)
  {
    for i := 0 to |handlers|
      invariant forall h :: h in handlers ==> h.canConnect
      invariant forall j :: 0 <= j < i ==>
                  (handlers[j].disk, handlers[j].services) == Completed(handlers[j], old(handlers[j].State()), render)
      invariant forall j :: i <= j < |handlers| ==> unchanged(handlers[j])
    {
      handlers[i].InitService(render);
    }
  }

  /** Writing first changes nothing about what a completed hook makes of a container. */
  lemma CompletedAfterWriting(h: ServicePebbleHandler, c: Content, d: Content, render: Render)
    requires d.disk == Written(h.paths, c.disk, render) && d.services == c.services
    requires d.filesChanged == c.filesChanged + Changed(h.paths, c.disk, render)
    ensures Completed(h, d, render) == Completed(h, c, render)
  {
    ChangedIff(h.paths, c.disk, render);
    WritingTwice(h.paths, c.disk, render);
  }

  lemma CompletedStartsAll(h: ServicePebbleHandler, c: Content, render: Render)
    ensures var (disk, services) := Completed(h, c, render);
            AllStarted(h.serviceName, h.layer, c.services, services, disk) && Renders(h.paths, disk, render)
  {
    var disk := Written(h.paths, c.disk, render);
    StartingStartsAll(h.serviceName, h.layer, c.services, disk,
                      c.filesChanged != [] || Differs(h.paths, c.disk, render));
  }

  /** `configure_containers`, `run_db_sync`, `init_container_services`. A container that is not
      ready, or a failed sync, ends the hook; what was written until then stays written. */
  method ConfigureUnit(handlers: seq<ServicePebbleHandler>, render: Render, syncOk: bool) returns (ok: bool)
    requires forall i, j :: 0 <= i < j < |handlers| ==> handlers[i] != handlers[j]
    modifies set h | h in handlers
    ensures ok <==> syncOk && forall h :: h in handlers ==> h.canConnect
    ensures forall h :: h in handlers ==> h.canConnect == old(h.canConnect)
    ensures ok ==> forall h :: h in handlers ==> (h.disk, h.services) == Completed(h, old(h.State()), render)
    ensures ok ==> forall h :: h in handlers ==>
              AllStarted(h.serviceName, h.layer, old(h.services), h.services, h.disk)
    ensures ok ==> forall h :: h in handlers ==> Renders(h.paths, h.disk, render)
    ensures !ok ==> forall i :: 0 <= i < |handlers| ==>
              if Reached(handlers, i) then Configured(handlers[i], render) else unchanged(handlers[i])
  {
    ok := ConfigureContainers(handlers, render);
    if !ok || !syncOk {
      return false;
    }
    forall i | 0 <= i < |handlers| ensures Configured(handlers[i], render) {
      assert Reached(handlers, i);
    }
    forall h | h in handlers ensures Completed(h, h.State(), render) == Completed(h, old(h.State()), render) {
      CompletedAfterWriting(h, old(h.State()), h.State(), render);
    }
    InitContainerServices(handlers, render);
    forall h | h in handlers ensures AllStarted(h.serviceName, h.layer, old(h.services), h.services, h.disk) {
      CompletedStartsAll(h, old(h.State()), render);
    }
    ok := true;
  }

  /** `stop_services`, run when a mandatory relation is not ready; the hook then ends. */
  method StopServices(handlers: seq<ServicePebbleHandler>)
    requires forall i, j :: 0 <= i < j < |handlers| ==> handlers[i] != handlers[j]
    modifies set h | h in handlers
    ensures forall h :: h in handlers ==> h.disk == old(h.disk) && h.filesChanged == old(h.filesChanged)
    ensures forall h :: h in handlers ==> h.canConnect == old(h.canConnect)
    ensures forall h :: h in handlers ==>
              h.services == if h.canConnect then StoppedAll(old(h.services)) else old(h.services)
  {
    for i := 0 to |handlers|
      invariant forall h :: h in handlers ==> h.disk == old(h.disk) && h.filesChanged == old(h.filesChanged)
      invariant forall h :: h in handlers ==> h.canConnect == old(h.canConnect)
      invariant forall j :: 0 <= j < i ==>
                  handlers[j].services
                  == if handlers[j].canConnect then StoppedAll(old(handlers[j].services)) else old(handlers[j].services)
      invariant forall j :: i <= j < |handlers| ==> unchanged(handlers[j])
    {
      handlers[i].StopAll();
    }
  }

  /** One more path written. */
  lemma ChangedStep(paths: seq<string>, i: nat, disk: map<string, string>, render: Render)
    requires i < |paths|
    ensures var before, p := Written(paths[..i], disk, render), paths[i];
            && Written(paths[..i + 1], disk, render) == before[p := render(p)]
            && Changed(paths[..i + 1], disk, render)
               == Changed(paths[..i], disk, render) + if p !in before || before[p] != render(p) then [p] else []
  {
    assert paths[..i + 1] == paths[..i] + [paths[i]] && Front(paths[..i + 1]) == paths[..i];
    WrittenSnoc(paths[..i], paths[i], disk, render);
  }

  lemma {:induction false} ChangedIff(paths: seq<string>, disk: map<string, string>, render: Render)
    ensures Changed(paths, disk, render) != [] <==> Differs(paths, disk, render)
  {
    if paths != [] {
      ChangedIff(Front(paths), disk, render);
      assert Front(paths) + [Last(paths)] == paths;
      WrittenSnoc(Front(paths), Last(paths), disk, render);
    } else {
      assert !Differs(paths, disk, render);
    }
  }

  /** A path listed twice is only found changed once. */
  lemma WrittenSnoc(paths: seq<string>, p: string, disk: map<string, string>, render: Render)
    ensures var before := Written(paths, disk, render);
            && Written(paths + [p], disk, render) == before[p := render(p)]
            && (Differs(paths + [p], disk, render) <==>
                  Differs(paths, disk, render) || p !in before || before[p] != render(p))
  {
    assert p in paths + [p] && forall q :: q in paths + [p] <==> q in paths || q == p;
    if p in paths {
      assert Differs(paths + [p], disk, render) <==> Differs(paths, disk, render);
    }
  }

  /** The second write of a hook finds nothing to do. */
  lemma WritingTwice(paths: seq<string>, disk: map<string, string>, render: Render)
    ensures var once := Written(paths, disk, render);
            Renders(paths, once, render) && !Differs(paths, once, render) && Written(paths, once, render) == once
  {
  }

  // ---------------------------------------------------------------- exactness

  /** Nothing is remembered at hook start, and `loaded` is what the hook's services loaded. */
  lemma CompletedHookIsExact(h: ServicePebbleHandler, c: Content, render: Render, name: string)
    requires c.filesChanged == [] && name in Completed(h, c, render).1
    ensures var (disk, services) := Completed(h, c, render);
            && services[name].running
            && (name in c.services && c.services[name].running ==>
                  services[name].restarts == c.services[name].restarts
                                             + (if Differs(h.paths, c.disk, render) then 1 else 0))
            && (Renders(h.paths, services[name].loaded, render) <==>
                  name !in c.services || !c.services[name].running || Differs(h.paths, c.disk, render)
                  || Renders(h.paths, c.services[name].loaded, render))
  {
    WritingTwice(h.paths, c.disk, render);
  }

  /** Every running service has loaded what is on the disk now. */
  predicate UpToDate(c: Content) {
    forall name :: name in c.services && c.services[name].running ==> c.services[name].loaded == c.disk
  }

  /** From an up-to-date container every service ends up running with the rendered files, and
      one that was running is restarted exactly when some file differed. */
  lemma RestartExactness(h: ServicePebbleHandler, c: Content, render: Render, name: string)
    requires c.filesChanged == [] && UpToDate(c) && name in Completed(h, c, render).1
    ensures var (disk, services) := Completed(h, c, render);
            && services[name].running && Renders(h.paths, services[name].loaded, render)
            && (name in c.services && c.services[name].running ==>
                  (services[name].restarts == c.services[name].restarts + 1 <==> Differs(h.paths, c.disk, render)))
            && UpToDate(Content(disk, services, []))
  {
    CompletedHookIsExact(h, c, render, name);
    WritingTwice(h.paths, c.disk, render);
    if !Differs(h.paths, c.disk, render) {
      assert Written(h.paths, c.disk, render) == c.disk;
    }
  }

  // ---------------------------------------------------------------- aborted hooks

  /** A hook that reached the container and then ended early, as the next hook's new handler finds
      it: the files are written, the services are as they were, and nothing is remembered. */
  function Aborted(h: ServicePebbleHandler, c: Content, render: Render): Content {
    Content(Written(h.paths, c.disk, render), c.services, [])
  }

  /** A hook that found a mandatory relation missing, as the next hook's new handler finds it. */
  function Stopped(c: Content): Content {
    Content(c.disk, StoppedAll(c.services), [])
  }

  /** That is what stopping the services leaves. */
  method RelationsNotReady(h: ServicePebbleHandler) returns (next: ServicePebbleHandler)
    requires h.canConnect
    modifies h
    ensures fresh(next) && next.State() == Stopped(old(h.State()))
    ensures next.canConnect && next.serviceName == h.serviceName && next.layer == h.layer && next.paths == h.paths
  {
    StopServices([h]);
    assert h in [h];
    var left := Content(h.disk, h.services, h.filesChanged);
    next := new ServicePebbleHandler(h.serviceName, h.layer, h.paths, true, left);
  }

  /** And `Aborted` is what a hook leaves whose sync fails. */
  method FailedSync(h: ServicePebbleHandler, render: Render) returns (next: ServicePebbleHandler)
    requires h.canConnect
    modifies h
    ensures fresh(next) && next.State() == Aborted(h, old(h.State()), render)
    ensures next.canConnect && next.serviceName == h.serviceName && next.layer == h.layer && next.paths == h.paths
  {
    var ok := ConfigureUnit([h], render, false);
    assert Reached([h], 0) && [h][0] == h;
    var left := Content(h.disk, h.services, h.filesChanged);
    next := new ServicePebbleHandler(h.serviceName, h.layer, h.paths, true, left);
  }

  /** A hook that aborts between writing and restarting costs the restart: after the next, complete
      hook a running service has the rendered files exactly if nothing had differed. */
  lemma AbortLosesTheRestart(h: ServicePebbleHandler, c: Content, render: Render, name: string)
    requires UpToDate(c) && name in c.services && c.services[name].running
    ensures var (disk, services) := Completed(h, Aborted(h, c, render), render);
            && name in services && services[name] == c.services[name]
            && (Renders(h.paths, services[name].loaded, render) <==> !Differs(h.paths, c.disk, render))
  {
    WritingTwice(h.paths, c.disk, render);
  }

  /** For example: a configuration changes, the sync of that hook fails, the next hook completes, and
      the service still runs with the old file. */
  method ServiceKeepsTheOldFile() returns (h: ServicePebbleHandler)
    ensures "api" in h.services && h.services["api"].running
    ensures "api.conf" in h.disk && h.disk["api.conf"] == "new"
    ensures "api.conf" in h.services["api"].loaded && h.services["api"].loaded["api.conf"] == "old"
  {
    var before := map["api.conf" := "old"];
    var content := Content(before, map["api" := Service(true, before, 1, 0)], []);
    var render := (path: string) => "new";
    h := new ServicePebbleHandler("api", {"api"}, ["api.conf"], true, content);
    h := FailedSync(h, render);
    ghost var paths := h.paths;
    assert paths == ["api.conf"] && "api.conf" in paths;
    WritingTwice(paths, before, render);
    var ok := ConfigureUnit([h], render, true);
    assert h in [h];
  }

  // ---------------------------------------------------------------- any sequence of hooks

  /** A hook that reaches the container, with its own rendering, and completes or not; or one that stops
      the services because a mandatory relation is not ready. */
  datatype Hook = Hook(render: Render, completes: bool) | Stop

  function AfterHook(h: ServicePebbleHandler, c: Content, e: Hook): Content {
    if e.Stop? then Stopped(c)
    else if e.completes then
      var (disk, services) := Completed(h, c, e.render);
      Content(disk, services, [])
    else Aborted(h, c, e.render)
  }

  function AfterHooks(h: ServicePebbleHandler, c: Content, hooks: seq<Hook>): (r: Content)
    ensures hooks != [] ==> r.filesChanged == []
  {
    if hooks == [] then c else AfterHook(h, AfterHooks(h, c, Front(hooks)), Last(hooks))
  }

  /** The hook starts or restarts the service. */
  predicate StartsIn(h: ServicePebbleHandler, c: Content, e: Hook, name: string) {
    && e.Hook? && e.completes && name in WithLayer(c.services, h.serviceName, h.layer)
    && (name !in c.services || !c.services[name].running || Differs(h.paths, c.disk, e.render))
  }

  /** How many hooks had run when the service last (re)started; 0 if none of them started it. */
  function LastStart(h: ServicePebbleHandler, c: Content, hooks: seq<Hook>, name: string): (k: nat)
    ensures k <= |hooks|
  {
    if hooks == [] then 0
    else if StartsIn(h, AfterHooks(h, c, Front(hooks)), Last(hooks), name) then |hooks|
    else LastStart(h, c, Front(hooks), name)
  }

  predicate IsRunning(c: Content, name: string) {
    name in c.services && c.services[name].running
  }

  lemma WrittenOver(paths: seq<string>, disk: map<string, string>, first: Render, second: Render)
    ensures Written(paths, Written(paths, disk, first), second) == Written(paths, disk, second)
  {
  }

  lemma WrittenIsSame(paths: seq<string>, disk: map<string, string>, render: Render)
    ensures Written(paths, disk, render) == disk <==> Renders(paths, disk, render)
    ensures Renders(paths, disk, render) <==> !Differs(paths, disk, render)
  {
    if Renders(paths, disk, render) {
      assert Written(paths, disk, render) == disk;
    }
    if Written(paths, disk, render) == disk {
      forall p | p in paths ensures p in disk && disk[p] == render(p) {
        assert Written(paths, disk, render)[p] == render(p);
      }
    }
  }

  /** No hook since the `k`-th stopped the services. */
  predicate NoStopSince(hooks: seq<Hook>, k: nat) {
    forall i :: k <= i < |hooks| ==> hooks[i].Hook?
  }

  /** A running service was not stopped since it last started. */
  lemma {:induction false} RunningWasNotStopped(h: ServicePebbleHandler, c: Content, hooks: seq<Hook>, name: string)
    requires IsRunning(AfterHooks(h, c, hooks), name)
    ensures NoStopSince(hooks, LastStart(h, c, hooks, name))
  {
    if hooks != [] {
      var front, before := Front(hooks), AfterHooks(h, c, Front(hooks));
      assert Last(hooks).Hook?;
      if !StartsIn(h, before, Last(hooks), name) {
        RunningWasNotStopped(h, c, front, name);
        assert forall i :: 0 <= i < |front| ==> front[i] == hooks[i];
      }
    }
  }

  /** Every other hook, completed or not, writes all the files: only the last rendering counts. */
  lemma {:induction false} DiskIsTheLastRendering(h: ServicePebbleHandler, c: Content, hooks: seq<Hook>, k: nat)
    requires k < |hooks| && NoStopSince(hooks, k)
    ensures AfterHooks(h, c, hooks).disk == Written(h.paths, AfterHooks(h, c, hooks[..k]).disk, Last(hooks).render)
    decreases |hooks|
  {
    var front := Front(hooks);
    if k == |front| {
      assert hooks[..k] == front;
    } else {
      assert forall i :: 0 <= i < |front| ==> front[i] == hooks[i];
      DiskIsTheLastRendering(h, c, front, k);
      assert front[..k] == hooks[..k];
      WrittenOver(h.paths, AfterHooks(h, c, hooks[..k]).disk, Last(front).render, Last(hooks).render);
    }
  }

  /** What one hook does to a service that runs after it. */
  lemma ServiceAfterHook(h: ServicePebbleHandler, c: Content, e: Hook, name: string)
    requires c.filesChanged == [] && IsRunning(AfterHook(h, c, e), name)
    ensures StartsIn(h, c, e, name) ==> AfterHook(h, c, e).services[name].loaded == AfterHook(h, c, e).disk
    ensures !StartsIn(h, c, e, name) ==> IsRunning(c, name) && AfterHook(h, c, e).services[name] == c.services[name]
  {
  }

  /** A running service has loaded the disk as it was when it last (re)started. */
  lemma {:induction false} LoadedAtLastStart(h: ServicePebbleHandler, c: Content, hooks: seq<Hook>, name: string)
    requires c.filesChanged == [] && UpToDate(c) && IsRunning(AfterHooks(h, c, hooks), name)
    ensures var k := LastStart(h, c, hooks, name);
            AfterHooks(h, c, hooks).services[name].loaded == AfterHooks(h, c, hooks[..k]).disk
  {
    if hooks == [] {
      assert hooks[..0] == [];
    } else {
      var front := Front(hooks);
      var before := AfterHooks(h, c, front);
      ServiceAfterHook(h, before, Last(hooks), name);
      if StartsIn(h, before, Last(hooks), name) {
        assert hooks[..|hooks|] == hooks;
      } else {
        LoadedAtLastStart(h, c, front, name);
        var k := LastStart(h, c, front, name);
        assert front[..k] == hooks[..k];
      }
    }
  }

  /** Some hook since the `k`-th ended early after finding a difference. */
  predicate AbortedWithADifference(h: ServicePebbleHandler, c: Content, hooks: seq<Hook>, k: nat) {
    exists i :: k <= i < |hooks| && hooks[i].Hook? && !hooks[i].completes
                && Differs(h.paths, AfterHooks(h, c, hooks[..i]).disk, hooks[i].render)
  }

  lemma AbortedEarlierOrNow(h: ServicePebbleHandler, c: Content, hooks: seq<Hook>, k: nat)
    requires k < |hooks|
    ensures AbortedWithADifference(h, c, Front(hooks), k) ==> AbortedWithADifference(h, c, hooks, k)
    ensures var e := Last(hooks);
            e.Hook? && !e.completes && Differs(h.paths, AfterHooks(h, c, Front(hooks)).disk, e.render) ==>
              AbortedWithADifference(h, c, hooks, k)
  {
    var front := Front(hooks);
    assert hooks[..|front|] == front && hooks[|front|] == Last(hooks);
    if i :| k <= i < |front| && front[i].Hook? && !front[i].completes
            && Differs(h.paths, AfterHooks(h, c, front[..i]).disk, front[i].render) {
      assert front[..i] == hooks[..i] && front[i] == hooks[i];
    }
  }

  /** Without one the disk is still the one the service loaded. */
  lemma {:induction false} UndisturbedDisk(h: ServicePebbleHandler, c: Content, hooks: seq<Hook>, name: string)
    requires c.filesChanged == [] && IsRunning(AfterHooks(h, c, hooks), name)
    requires !AbortedWithADifference(h, c, hooks, LastStart(h, c, hooks, name))
    ensures AfterHooks(h, c, hooks).disk == AfterHooks(h, c, hooks[..LastStart(h, c, hooks, name)]).disk
  {
    var k := LastStart(h, c, hooks, name);
    if k == |hooks| {
      assert hooks[..k] == hooks;
    } else {
      var front, e := Front(hooks), Last(hooks);
      var before := AfterHooks(h, c, front);
      ServiceAfterHook(h, before, e, name);
      assert front[..k] == hooks[..k];
      AbortedEarlierOrNow(h, c, hooks, k);
      UndisturbedDisk(h, c, front, name);
      WrittenIsSame(h.paths, before.disk, e.render);
    }
  }

  /** Over any sequence of completed, aborted and stopping hooks, each with its own rendering: a running
      service has loaded what is on the disk exactly if no hook since its last (re)start ended early after
      finding a difference, or the last rendering is again the one it loaded. */
  lemma UpToDateIff(h: ServicePebbleHandler, c: Content, hooks: seq<Hook>, name: string)
    requires c.filesChanged == [] && UpToDate(c) && IsRunning(AfterHooks(h, c, hooks), name)
    ensures var k, after := LastStart(h, c, hooks, name), AfterHooks(h, c, hooks);
            after.services[name].loaded == after.disk <==>
              || !AbortedWithADifference(h, c, hooks, k)
              || (k < |hooks| && Last(hooks).Hook? && Renders(h.paths, after.services[name].loaded, Last(hooks).render))
  {
    var k, after := LastStart(h, c, hooks, name), AfterHooks(h, c, hooks);
    RunningWasNotStopped(h, c, hooks, name);
    LoadedAtLastStart(h, c, hooks, name);
    if !AbortedWithADifference(h, c, hooks, k) {
      UndisturbedDisk(h, c, hooks, name);
    } else {
      DiskIsTheLastRendering(h, c, hooks, k);
      WrittenIsSame(h.paths, after.services[name].loaded, Last(hooks).render);
    }
  }

  /** The second case is real: a change that aborts, and is taken back by a hook that aborts too. */
  lemma TakenBack(h: ServicePebbleHandler, c: Content, name: string, loaded: Render, changed: Render)
    requires c.filesChanged == [] && UpToDate(c) && IsRunning(c, name)
    requires Renders(h.paths, c.disk, loaded) && Differs(h.paths, c.disk, changed)
    ensures var hooks := [Hook(changed, false), Hook(loaded, false)];
            && AbortedWithADifference(h, c, hooks, LastStart(h, c, hooks, name))
            && AfterHooks(h, c, hooks).services[name].loaded == AfterHooks(h, c, hooks).disk
  {
    var hooks := [Hook(changed, false), Hook(loaded, false)];
    assert Front(hooks) == [hooks[0]] && Front([hooks[0]]) == [] && hooks[..0] == [];
    assert LastStart(h, c, hooks, name) == 0;
    DiskIsTheLastRendering(h, c, hooks, 0);
    WrittenIsSame(h.paths, c.disk, loaded);
  }
}
