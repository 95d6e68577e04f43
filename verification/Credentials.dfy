/** The credential rotation protocol of `UserIdentityResourceRequiresHandler`: a shared secret
    offered to keystone, a config secret the service uses, the `old_users` list, the one
    request slot of the relation, and keystone as the provider that answers it. */
module Credentials {
  import opened Text
  import opened RetiredUsers

  datatype Credential = Credential(user: string, password: string)

  /** The `request` entry of the requirer's databag. */
  datatype Request = NoRequest | Create(user: string) | Delete(users: seq<string>)

  /** A response of the provider: which user it was for and whether every op returned 0, or
      the names of the delete ops that returned 0. */
  datatype Reply = CreateReply(forUser: string, ok: bool) | DeleteReply(deleted: seq<string>)

  /** What the requirer stores: two secrets, `old_users` and the request slot. */
  datatype Requirer = Requirer(
    shared: Option<Credential>, config: Option<Credential>, oldUsers: seq<string>, slot: Request)

  function Ensure(r: Requirer, refresh: bool, novel: Credential): Requirer {
    if r.shared.Some? && !refresh then r else r.(shared := Some(novel))
  }

  /** `request_ops` may hold a request back (provider not ready, or its id already processed). */
  function Send(r: Requirer, request: Request, sends: bool): Requirer {
    if sends then r.(slot := request) else r
  }

  function CreateRequested(r: Requirer, refresh: bool, novel: Credential, sends: bool): Requirer {
    var r' := Ensure(r, refresh, novel);
    Send(r', Create(r'.shared.value.user), sends)
  }

  function DeleteRequested(r: Requirer, sends: bool): Requirer {
    if r.oldUsers == [] then r else Send(r, Delete(r.oldUsers), sends)
  }

  function CreateAnswered(r: Requirer, ok: bool, novel: Credential): Requirer {
    if !ok then r else
    var r' := Ensure(r, false, novel);
    if r'.config == r'.shared then r'
    else r'.(config := r'.shared,
             oldUsers := if r'.config.Some? then Retire(r'.oldUsers, r'.config.value.user) else r'.oldUsers)
  }

  /** The handler as it runs on a unit; each method is the matching function above. */
  class UserIdentityHandler {
    const username: string
    var shared: Option<Credential>
    var config: Option<Credential>
    var oldUsers: seq<string>
    var slot: Request

    constructor (username: string)
      ensures Stored() == Requirer(None, None, [], NoRequest) && this.username == username
    {
      this.username := username;
      shared, config, oldUsers, slot := None, None, [], NoRequest;
    }

    ghost function Stored(): Requirer
      reads this
    {
      Requirer(shared, config, oldUsers, slot)
    }

    function Label(): string {
      "user-identity-resource-" + username
    }

    function ConfigLabel(): string {
      "configure-credential-" + username
    }

    method EnsureCredentials(refreshUser: bool, novel: Credential) returns (current: Credential)
      modifies this`shared
      ensures Stored() == Ensure(old(Stored()), refreshUser, novel)
      ensures Stored().shared == Some(current)
    {
      if shared.Some? {
        if refreshUser {
          shared := Some(novel);
        }
      } else {
        shared := Some(novel);
      }
      current := shared.value;
    }

    method RequestOps(request: Request, sends: bool)
      modifies this`slot
      ensures Stored() == Send(old(Stored()), request, sends)
    {
      if sends {
        slot := request;
      }
    }

    method UpdateConfigCredentials(novel: Credential) returns (updated: bool)
      modifies this`shared, this`config
      ensures updated == (old(config) != Some(Ensure(old(Stored()), false, novel).shared.value))
      ensures Stored() == Ensure(old(Stored()), false, novel).(config := shared)
    {
      var content := EnsureCredentials(false, novel);
      updated := false;
      if config.None? || config.value != content {
        config := Some(content);
        updated := true;
      }
    }

    method AddUserToDeleteList(user: string)
      modifies this`oldUsers
      ensures Stored() == old(Stored()).(oldUsers := Retire(old(oldUsers), user))
    {
      if user !in oldUsers {
        oldUsers := oldUsers + [user];
      }
    }

    method OnProviderReady(isLeader: bool, novel: Credential, sends: bool)
      modifies this
      ensures Stored() == if isLeader then CreateRequested(old(Stored()), false, novel, sends) else old(Stored())
      ensures isLeader ==> shared == if old(shared).Some? then old(shared) else Some(novel)
      ensures isLeader ==> slot == if sends then Create(shared.value.user) else old(slot)
      ensures config == old(config) && oldUsers == old(oldUsers)
    {
      if isLeader {
        var current := EnsureCredentials(false, novel);
        RequestOps(Create(current.user), sends);
      }
    }

    method OnSecretRotate(isLeader: bool, secretLabel: string, novel: Credential, sends: bool)
      modifies this
      ensures Stored() == if isLeader && secretLabel == Label()
                          then CreateRequested(old(Stored()), true, novel, sends) else old(Stored())
      ensures isLeader && secretLabel == Label() ==>
                shared == Some(novel) && slot == if sends then Create(novel.user) else old(slot)
      ensures config == old(config) && oldUsers == old(oldUsers)
      ensures !isLeader || secretLabel != Label() ==> shared == old(shared) && slot == old(slot)
    {
      if isLeader && secretLabel == Label() {
        var current := EnsureCredentials(true, novel);
        RequestOps(Create(current.user), sends);
      }
    }

    method OnSecretRemove(isLeader: bool, secretLabel: string, sends: bool)
      modifies this
      ensures Stored() == if isLeader && secretLabel == ConfigLabel()
                          then DeleteRequested(old(Stored()), sends) else old(Stored())
      ensures shared == old(shared) && config == old(config) && oldUsers == old(oldUsers)
      ensures slot == if isLeader && secretLabel == ConfigLabel() && sends && oldUsers != [] then Delete(oldUsers)
                      else old(slot)
    {
      if isLeader && secretLabel == ConfigLabel() && oldUsers != [] {
        RequestOps(Delete(oldUsers), sends);
      }
    }

    method OnResponseAvailable(isLeader: bool, reply: Reply, novel: Credential)
      modifies this
      ensures Stored() == if isLeader then Answered(old(Stored()), reply, novel) else old(Stored())
      ensures slot == old(slot)
      ensures !isLeader || (reply.CreateReply? && !reply.ok) ==>
                shared == old(shared) && config == old(config) && oldUsers == old(oldUsers)
      ensures isLeader && reply.CreateReply? && reply.ok ==>
                && shared == (if old(shared).Some? then old(shared) else Some(novel)) && config == shared
                && oldUsers == old(oldUsers) + if old(config).Some? && old(config) != config
                                                  && old(config).value.user !in old(oldUsers)
                                               then [old(config).value.user] else []
      ensures isLeader && reply.DeleteReply? ==>
                && shared == old(shared) && config == old(config)
                && forall u :: u in oldUsers <==> u in old(oldUsers) && u !in reply.deleted
    {
      if !isLeader {
        return;
      }
      match reply {
        case CreateReply(_, ok) =>
          if ok {
            var before := config;
            var updated := UpdateConfigCredentials(novel);
            if before.Some? && updated {
              AddUserToDeleteList(before.value.user);
            }
          }
        case DeleteReply(deleted) =>
          var kept := [];
          for i := 0 to |oldUsers|
            invariant kept == Without(oldUsers[..i], deleted)
          {
            assert Front(oldUsers[..i + 1]) == oldUsers[..i];
            if oldUsers[i] !in deleted {
              kept := kept + [oldUsers[i]];
            }
          }
          assert oldUsers[..|oldUsers|] == oldUsers;
          oldUsers := kept;
      }
    }
  }

  function Answered(r: Requirer, reply: Reply, novel: Credential): Requirer {
    match reply
    case CreateReply(_, ok) => CreateAnswered(r, ok, novel)
    case DeleteReply(deleted) => r.(oldUsers := Without(r.oldUsers, deleted))
  }

  // ---------------------------------------------------------------- requirer and provider together

  /** `accounts` are this handler's users on keystone. `used`, `deleteSent` and `replies` are
      history: every username generated, every user named in a delete request that was sent,
      every response published (any of which may be handled again later). */
  datatype World = World(
    r: Requirer, accounts: set<string>, used: set<string>, deleteSent: set<string>, replies: set<Reply>)

  const START := World(Requirer(None, None, [], NoRequest), {}, {}, {}, {})

  datatype Event =
    | ProviderReady(novel: Credential, sends: bool)
    | Rotate(novel: Credential, sends: bool)
    | SecretRemove(sends: bool)
    | Handle(reply: Reply, novel: Credential)
    | ProcessCreate(created: bool, ok: bool)          // keystone runs the create request in the slot
    | ProcessDelete(removed: set<string>, okUsers: seq<string>) // keystone runs the delete request

  /** The users a delete request names. */
  function Named(slot: Request): set<string> {
    if slot.Delete? then set u | u in slot.users else {}
  }

  function Next(w: World, e: Event): World {
    match e
    case ProviderReady(novel, sends) =>
      w.(r := CreateRequested(w.r, false, novel, sends), used := w.used + {novel.user})
    case Rotate(novel, sends) => w.(r := CreateRequested(w.r, true, novel, sends), used := w.used + {novel.user})
    case SecretRemove(sends) =>
      var r := DeleteRequested(w.r, sends);
      w.(r := r, deleteSent := if sends && w.r.oldUsers != [] then w.deleteSent + Named(r.slot) else w.deleteSent)
    case Handle(reply, novel) =>
      if reply in w.replies then w.(r := Answered(w.r, reply, novel), used := w.used + {novel.user}) else w
    case ProcessCreate(created, ok) =>
      if w.r.slot.Create? then
        var user := w.r.slot.user;
        var accounts := if created || ok then w.accounts + {user} else w.accounts;
        w.(accounts := accounts, replies := w.replies + {CreateReply(user, ok)})
      else w
    case ProcessDelete(removed, okUsers) =>
      if && w.r.slot.Delete? && (forall u :: u in removed ==> u in w.r.slot.users)
         && (forall u :: u in okUsers ==> u in removed)
      then w.(accounts := w.accounts - removed, replies := w.replies + {DeleteReply(okUsers)})
      else w
  }

  function Exec(es: seq<Event>): World {
    if es == [] then START else Next(Exec(Front(es)), Last(es))
  }

  /** `add_suffix` appends a random suffix, taken to be unused so far; without it every
      generated username is the same. */
  predicate NamesOk(addSuffix: bool, base: string, w: World, e: Event) {
    e.ProviderReady? || e.Rotate? || e.Handle? ==>
      if addSuffix then e.novel.user !in w.used else e.novel.user == base
  }

  predicate NamedRun(addSuffix: bool, base: string, es: seq<Event>) {
    es == [] || (NamedRun(addSuffix, base, Front(es)) && NamesOk(addSuffix, base, Exec(Front(es)), Last(es)))
  }

  function Users(c: Option<Credential>): set<string> {
    if c.Some? then {c.value.user} else {}
  }

  /** The accounts in use are not, and never were, marked for deletion. */
  predicate Safe(w: World) {
    && NoDuplicates(w.r.oldUsers)
    && forall u :: u in Users(w.r.shared) + Users(w.r.config) ==> u !in w.r.oldUsers && u !in w.deleteSent
  }

  predicate SafeInv(w: World) {
    && Safe(w)
    && Users(w.r.shared) + Users(w.r.config) <= w.used && w.deleteSent <= w.used
    && (forall u :: u in w.r.oldUsers ==> u in w.used)
    && (w.r.config.Some? ==> w.r.shared.Some?)
    && (w.r.config.Some? && w.r.config.value.user == w.r.shared.value.user ==> w.r.config == w.r.shared)
  }

  lemma NextKeepsSafe(base: string, w: World, e: Event)
    requires SafeInv(w) && NamesOk(true, base, w, e)
    ensures SafeInv(Next(w, e))
  {
    if e.Handle? && e.reply.DeleteReply? {
      WithoutKeepsDistinct(w.r.oldUsers, e.reply.deleted);
    }
  }

  lemma {:induction false} RunIsSafe(base: string, es: seq<Event>)
    requires NamedRun(true, base, es)
    ensures SafeInv(Exec(es))
  {
    if es != [] {
      RunIsSafe(base, Front(es));
      NextKeepsSafe(base, Exec(Front(es)), Last(es));
    }
  }

  lemma Then(es: seq<Event>, e: Event) returns (run: seq<Event>)
    ensures run == es + [e] && Exec(run) == Next(Exec(es), e) && Front(run) == es && Last(run) == e
  {
    run := es + [e];
    assert Front(run) == es;
  }

  lemma NamedThen(addSuffix: bool, base: string, es: seq<Event>, e: Event) returns (run: seq<Event>)
    requires NamedRun(addSuffix, base, es) && NamesOk(addSuffix, base, Exec(es), e)
    ensures NamedRun(addSuffix, base, run) && Exec(run) == Next(Exec(es), e)
  {
    run := Then(es, e);
  }

  /** Rotation safety over every interleaving, stale replies included, is exactly `add_suffix`:
      without it a password rotation puts the live account on the delete list. */
  lemma SafeOnEveryRunIffSuffix(addSuffix: bool, base: string)
    ensures (forall es :: NamedRun(addSuffix, base, es) ==> Safe(Exec(es))) <==> addSuffix
  {
    if addSuffix {
      forall es | NamedRun(true, base, es) ensures Safe(Exec(es)) {
        RunIsSafe(base, es);
      }
    } else {
      var c1, c2 := Credential(base, "first"), Credential(base, "second");
      var es := NamedThen(false, base, [], ProviderReady(c1, true));
      es := NamedThen(false, base, es, ProcessCreate(true, true));
      es := NamedThen(false, base, es, Handle(CreateReply(base, true), c1));
      es := NamedThen(false, base, es, Rotate(c2, true));
      es := NamedThen(false, base, es, Handle(CreateReply(base, true), c2));
      assert base in Exec(es).r.oldUsers && base in Users(Exec(es).r.config);
    }
  }

  // ---------------------------------------------------------------- accounting

  function Known(r: Requirer): set<string> {
    Users(r.shared) + Users(r.config) + (set u | u in r.oldUsers)
  }

  function Requested(r: Requirer): set<string> {
    if r.slot.Create? then {r.slot.user} else {}
  }

  /** Every account that exists, or that the pending request may create, is the shared user,
      the config user, or listed for deletion. */
  predicate Accounted(w: World) {
    w.accounts + Requested(w.r) <= Known(w.r)
  }

  predicate RepliesOk(w: World) {
    && (w.r.slot.Create? ==> w.r.slot.user !in w.deleteSent)
    && (w.r.slot.Delete? ==> forall u :: u in w.r.slot.users ==> u in w.deleteSent)
    && (forall reply :: reply in w.replies && reply.DeleteReply? ==>
          forall u :: u in reply.deleted ==> u in w.deleteSent && u !in w.accounts)
    && (forall reply :: reply in w.replies && reply.CreateReply? && reply.ok ==>
          reply.forUser in w.accounts || reply.forUser in w.deleteSent)
  }

  /** The config credentials have caught up with the shared ones. */
  predicate CaughtUp(w: World) {
    w.r.config == w.r.shared
  }

  /** The guard under which a rotation leaks nothing: caught up, or the user being replaced does not
      exist and is not in a pending request, unless the rotation's own request replaces that one. */
  predicate RotatesCleanly(w: World, e: Event) {
    e.Rotate? ==>
      CaughtUp(w) || Users(w.r.shared) !! (w.accounts + if e.sends then {} else Requested(w.r))
  }

  predicate CleanRun(es: seq<Event>) {
    es == [] || (CleanRun(Front(es)) && RotatesCleanly(Exec(Front(es)), Last(es)))
  }

  lemma NextKeepsReplies(base: string, w: World, e: Event)
    requires SafeInv(w) && RepliesOk(w) && NamesOk(true, base, w, e)
    ensures RepliesOk(Next(w, e))
  {
    var w' := Next(w, e);
    NextKeepsSafe(base, w, e);
    forall reply | reply in w'.replies && reply.DeleteReply?
      ensures forall u :: u in reply.deleted ==> u in w'.deleteSent && u !in w'.accounts
    {
      assert reply in w.replies || (e.ProcessDelete? && reply.deleted == e.okUsers);
    }
  }

  lemma OtherStepsKeepAccounting(base: string, w: World, e: Event)
    requires SafeInv(w) && RepliesOk(w) && Accounted(w) && NamesOk(true, base, w, e)
    requires !e.Rotate?
    ensures Accounted(Next(w, e))
  {
    if e.Handle? && e.reply.CreateReply? && e.reply in w.replies {
      assert Known(w.r) <= Known(Next(w, e).r) by {
        forall u | u in Known(w.r) ensures u in Known(Next(w, e).r) {
        }
      }
    }
  }

  /** A rotation keeps the books exactly when it is clean. */
  lemma RotationAccountingIff(base: string, w: World, e: Event)
    requires SafeInv(w) && Accounted(w) && NamesOk(true, base, w, e) && e.Rotate?
    ensures Accounted(Next(w, e)) <==> RotatesCleanly(w, e)
  {
    var w' := Next(w, e);
    assert Known(w'.r) == {e.novel.user} + Users(w.r.config) + (set u | u in w.r.oldUsers);
    if CaughtUp(w) {
      assert Known(w.r) <= Known(w'.r);
    }
  }

  /** A rotation before the config caught up: the first account exists and nothing names it. */
  lemma RotationMayLeak(base: string, c1: Credential, c2: Credential) returns (es: seq<Event>)
    requires c1.user != c2.user
    ensures NamedRun(true, base, es) && !Accounted(Exec(es)) && c1.user in Exec(es).accounts
  {
    es := NamedThen(true, base, [], ProviderReady(c1, true));
    es := NamedThen(true, base, es, ProcessCreate(true, true));
    es := NamedThen(true, base, es, Rotate(c2, true));
  }

  /** Accounting over every run whose rotations are clean. */
  lemma {:induction false} RunIsAccounted(base: string, es: seq<Event>)
    requires NamedRun(true, base, es) && CleanRun(es)
    ensures SafeInv(Exec(es)) && RepliesOk(Exec(es)) && Accounted(Exec(es))
  {
    RunIsSafe(base, es);
    if es != [] {
      var w, e := Exec(Front(es)), Last(es);
      RunIsAccounted(base, Front(es));
      NextKeepsReplies(base, w, e);
      if e.Rotate? {
        RotationAccountingIff(base, w, e);
      } else {
        OtherStepsKeepAccounting(base, w, e);
      }
    }
  }

  // ---------------------------------------------------------------- undisturbed exchanges

  /** A removed revision, answered in full: no user that was listed is still listed or has an account, and
      nothing else changes. */
  lemma RemovalCompletes(w: World, novel: Credential)
    ensures var w1 := Next(w, SecretRemove(true));
            w.r.oldUsers != [] ==>
              && w1.r.slot.Delete?
              && var users := w1.r.slot.users;
                 var w2 := Next(w1, ProcessDelete((set u | u in users), users));
                 var w3 := Next(w2, Handle(DeleteReply(users), novel));
                 && w3.r.oldUsers == [] && w3.r.shared == w.r.shared && w3.r.config == w.r.config
                 && (forall u :: u in w.r.oldUsers ==> u !in w3.accounts)
                 && (forall u :: u in w.accounts && u !in w.r.oldUsers ==> u in w3.accounts)
  {
    if w.r.oldUsers != [] {
      var w1 := Next(w, SecretRemove(true));
      var users := w1.r.slot.users;
      assert forall u :: u in w.r.oldUsers ==> u in users;
      NothingLeft(w.r.oldUsers, users);
    }
  }

  lemma NothingLeft(users: seq<string>, gone: seq<string>)
    requires forall u :: u in users ==> u in gone
    ensures Without(users, gone) == []
  {
    if Without(users, gone) != [] {
      assert Without(users, gone)[0] in Without(users, gone);
    }
  }

  /** A rotation, answered at once: the new user exists and is in service, and the old one is listed. */
  lemma RotationCompletes(w: World, novel: Credential, other: Credential)
    requires w.r.config.Some? && CaughtUp(w) && novel.user != w.r.config.value.user
    ensures var w1 := Next(w, Rotate(novel, true));
            var w2 := Next(w1, ProcessCreate(true, true));
            var w3 := Next(w2, Handle(CreateReply(novel.user, true), other));
            && w3.r.shared == Some(novel) && w3.r.config == Some(novel) && novel.user in w3.accounts
            && w.r.config.value.user in w3.r.oldUsers && forall u :: u in w.r.oldUsers ==> u in w3.r.oldUsers
  {
  }

  // ---------------------------------------------------------------- stale replies

  /** The service's own credentials name an account that exists. */
  predicate ConfigExists(w: World) {
    Users(w.r.config) <= w.accounts
  }

  /** The event does not move the config to a shared user that has no account. */
  predicate Grounded(w: World, e: Event) {
    e.Handle? && e.reply.CreateReply? && e.reply.ok && e.reply in w.replies && !CaughtUp(w) ==>
      w.r.shared.Some? && w.r.shared.value.user in w.accounts
  }

  predicate GroundedRun(es: seq<Event>) {
    es == [] || (GroundedRun(Front(es)) && Grounded(Exec(Front(es)), Last(es)))
  }

  /** Nothing was answered, requested or listed before there was a shared secret. */
  predicate Begun(w: World) {
    w.r.shared == None ==> w.replies == {} && w.r.slot == NoRequest && w.r.oldUsers == []
  }

  /** One step keeps the config user on keystone exactly if it is grounded. */
  lemma ConfigStaysIff(base: string, w: World, e: Event)
    requires SafeInv(w) && RepliesOk(w) && Begun(w) && NamesOk(true, base, w, e) && ConfigExists(w)
    ensures ConfigExists(Next(w, e)) <==> Grounded(w, e)
  {
  }

  lemma {:induction false} RunKeepsReplies(base: string, es: seq<Event>)
    requires NamedRun(true, base, es)
    ensures SafeInv(Exec(es)) && RepliesOk(Exec(es)) && Begun(Exec(es))
  {
    RunIsSafe(base, es);
    if es != [] {
      RunKeepsReplies(base, Front(es));
      NextKeepsReplies(base, Exec(Front(es)), Last(es));
    }
  }

  /** Over a run the config user exists at every moment exactly if every create reply that is handled
      finds the shared user's account on keystone, or nothing to catch up with. */
  lemma {:induction false} ConfigAlwaysExistsIff(base: string, es: seq<Event>)
    requires NamedRun(true, base, es)
    ensures (forall k :: 0 <= k <= |es| ==> ConfigExists(Exec(es[..k]))) <==> GroundedRun(es)
  {
    if es == [] {
      assert es[..0] == [];
    } else {
      ConfigAlwaysExistsIff(base, Front(es));
      RunKeepsReplies(base, Front(es));
      OneMoreMoment(es);
      if ConfigExists(Exec(Front(es))) {
        ConfigStaysIff(base, Exec(Front(es)), Last(es));
      }
    }
  }

  lemma OneMoreMoment(es: seq<Event>)
    requires es != []
    ensures (forall k :: 0 <= k <= |es| ==> ConfigExists(Exec(es[..k]))) <==>
              ConfigExists(Exec(es)) && forall k :: 0 <= k < |es| ==> ConfigExists(Exec(Front(es)[..k]))
    ensures (forall k :: 0 <= k < |es| ==> ConfigExists(Exec(Front(es)[..k]))) ==> ConfigExists(Exec(Front(es)))
  {
    var front := Front(es);
    assert es[..|es|] == es && front[..|front|] == front;
    forall k | 0 <= k < |es| ensures es[..k] == front[..k] {}
  }

  /** What the requirer itself could check: the create reply answers the request for the current
      shared user. */
  predicate AnswersShared(w: World, e: Event) {
    e.Handle? && e.reply.CreateReply? && e.reply.ok && e.reply in w.replies && !CaughtUp(w) ==>
      w.r.shared == None || e.reply.forUser == w.r.shared.value.user
  }

  predicate MatchedRun(es: seq<Event>) {
    es == [] || (MatchedRun(Front(es)) && AnswersShared(Exec(Front(es)), Last(es)))
  }

  lemma {:induction false} MatchedIsGrounded(base: string, es: seq<Event>)
    requires NamedRun(true, base, es) && MatchedRun(es)
    ensures GroundedRun(es)
  {
    if es != [] {
      MatchedIsGrounded(base, Front(es));
      RunKeepsReplies(base, Front(es));
    }
  }

  /** That check would do. */
  lemma MatchedRunConfigExists(base: string, es: seq<Event>)
    requires NamedRun(true, base, es) && MatchedRun(es)
    ensures forall k :: 0 <= k <= |es| ==> ConfigExists(Exec(es[..k]))
  {
    MatchedIsGrounded(base, es);
    ConfigAlwaysExistsIff(base, es);
  }

  /** A first user in service, and the reply that put it there still around. */
  lemma InService(base: string, c1: Credential, c3: Credential) returns (es: seq<Event>)
    requires c1.user != c3.user
    ensures NamedRun(true, base, es) && CleanRun(es)
    ensures Exec(es) == World(Requirer(Some(c1), Some(c1), [], Create(c1.user)), {c1.user}, {c1.user, c3.user}, {},
                              {CreateReply(c1.user, true)})
  {
    es := CleanThen(base, [], ProviderReady(c1, true));
    es := CleanThen(base, es, ProcessCreate(true, true));
    es := CleanThen(base, es, Handle(CreateReply(c1.user, true), c3));
  }

  /** After a caught-up rotation the same reply is handled again. */
  lemma HandledAgain(base: string, c1: Credential, c2: Credential, c3: Credential, c4: Credential)
      returns (es: seq<Event>)
    requires c1.user != c3.user && c2.user !in {c1.user, c3.user} && c4.user !in {c1.user, c2.user, c3.user}
    ensures NamedRun(true, base, es) && CleanRun(es)
    ensures Exec(es).r == Requirer(Some(c2), Some(c2), [c1.user], Create(c2.user)) && Exec(es).accounts == {c1.user}
  {
    es := InService(base, c1, c3);
    es := CleanThen(base, es, Rotate(c2, true));
    es := CleanThen(base, es, Handle(CreateReply(c1.user, true), c4));
  }

  /** The code does not compare the reply with the request: after a caught-up rotation, the
      previous reply handled again moves the config to a user that was never created, and the
      delete request then overwrites the request that would create it. */
  lemma StaleReplyStrandsTheService(base: string) returns (es: seq<Event>)
    ensures NamedRun(true, base, es) && CleanRun(es)
    ensures var w := Exec(es);
            w.r.config.Some? && w.accounts == {} && w.r.slot.Delete? && !ConfigExists(w)
  {
    var c1, c2, c3, c4 := Credential(base + "1", "p"), Credential(base + "2", "p"),
        Credential(base + "3", "p"), Credential(base + "4", "p");
    assert Last(c1.user) == '1' && Last(c2.user) == '2' && Last(c3.user) == '3' && Last(c4.user) == '4';
    es := HandledAgain(base, c1, c2, c3, c4);
    es := CleanThen(base, es, SecretRemove(true));
    es := CleanThen(base, es, ProcessDelete({c1.user}, [c1.user]));
  }

  lemma CleanThen(base: string, es: seq<Event>, e: Event) returns (run: seq<Event>)
    requires NamedRun(true, base, es) && CleanRun(es)
    requires NamesOk(true, base, Exec(es), e) && RotatesCleanly(Exec(es), e)
    ensures NamedRun(true, base, run) && CleanRun(run) && Exec(run) == Next(Exec(es), e)
  {
    run := Then(es, e);
  }
}
