/** Keystone's own rotation of the service accounts it hands out over `identity-service`: one
    secret per remote application, a list of retired users, and deletion when an old secret
    revision is no longer used. */
module ServiceAccounts {
  import opened Text
  import opened RetiredUsers

  const CREDENTIALS_SECRET_PREFIX := "credentials_"

  /** The label under which an application's secret is created. */
  function CreatedLabel(app: string): string {
    CREDENTIALS_SECRET_PREFIX + "svc_" + Replace(app, '-', '_')
  }

  /** The label under which the rotate and remove handlers look for it. */
  function ExpectedLabel(app: string): string {
    CREDENTIALS_SECRET_PREFIX + "svc_" + app
  }

  predicate IsIdentityLabel(apps: set<string>, secretLabel: string) {
    exists app :: app in apps && secretLabel == ExpectedLabel(app)
  }

  /** The secret contents by label, `old_service_users`, and the accounts on keystone. `used` and
      `deleted` are history. */
  datatype Accounts = Accounts(
    secrets: map<string, string>, retired: seq<string>, accounts: set<string>, used: set<string>, deleted: set<string>)

  /** The label without its prefix (whole when it lacks it), with the random suffix. */
  function NewUser(secretLabel: string, suffix: string): string {
    (if StartsWith(secretLabel, CREDENTIALS_SECRET_PREFIX) then secretLabel[|CREDENTIALS_SECRET_PREFIX|..]
     else secretLabel)
    + "-" + suffix
  }

  /** The user behind a label, spelled out. */
  lemma NewUserIs(name: string, suffix: string)
    ensures NewUser("credentials_" + name, suffix) == name + "-" + suffix
  {
    assert ("credentials_" + name)[|CREDENTIALS_SECRET_PREFIX|..] == name;
  }

  lemma CreatedUser(app: string, suffix: string)
    ensures CreatedLabel(app) == "credentials_svc_" + Replace(app, '-', '_')
    ensures NewUser(CreatedLabel(app), suffix) == "svc_" + Replace(app, '-', '_') + "-" + suffix
  {
    NewUserIs("svc_" + Replace(app, '-', '_'), suffix);
    assert CreatedLabel(app) == "credentials_" + ("svc_" + Replace(app, '-', '_'));
  }

  lemma ExpectedUser(app: string, suffix: string)
    ensures ExpectedLabel(app) == "credentials_svc_" + app
    ensures NewUser(ExpectedLabel(app), suffix) == "svc_" + app + "-" + suffix
  {
    NewUserIs("svc_" + app, suffix);
    assert ExpectedLabel(app) == "credentials_" + ("svc_" + app);
  }

  lemma ExpectedUsers(apps: set<string>, secretLabel: string, suffix: string)
    ensures IsIdentityLabel(apps, secretLabel) <==>
            exists app :: app in apps && secretLabel == "credentials_svc_" + app
    ensures forall app :: secretLabel == "credentials_svc_" + app ==>
              NewUser(secretLabel, suffix) == "svc_" + app + "-" + suffix
  {
    forall app ensures ExpectedLabel(app) == "credentials_svc_" + app
      ensures NewUser(ExpectedLabel(app), suffix) == "svc_" + app + "-" + suffix
    {
      ExpectedUser(app, suffix);
    }
  }

  /** Dash-free suffixes tell users apart: two users are the same exactly if they come from one label
      and one suffix. */
  lemma UsersDifferIff(l: string, m: string, x: string, y: string)
    requires "credentials_" <= l && "credentials_" <= m && '-' !in x && '-' !in y
    ensures NewUser(l, x) == NewUser(m, y) <==> l == m && x == y
  {
    var head := "credentials_";
    var a, b := l[|head|..], m[|head|..];
    assert l == head + a && m == head + b;
    NewUserIs(a, x);
    NewUserIs(b, y);
    if a + "-" + x == b + "-" + y {
      LastDash(a, x, b, y);
    }
  }

  /** Text before and after the last dash is determined. */
  lemma LastDash(a: string, x: string, b: string, y: string)
    requires a + "-" + x == b + "-" + y && '-' !in x && '-' !in y
    ensures a == b && x == y
  {
    var s, t := a + "-" + x, b + "-" + y;
    assert s[|a|] == '-' && t[|b|] == '-';
    assert s[..|a|] == a && t[..|b|] == b && s[|a| + 1..] == x && t[|b| + 1..] == y;
  }

  predicate Matches(secretLabel: string, user: string) {
    StartsWith(CREDENTIALS_SECRET_PREFIX + user, secretLabel)
  }

  function Matching(retired: seq<string>, secretLabel: string): (r: seq<string>)
    ensures forall u :: u in r <==> u in retired && Matches(secretLabel, u)
  {
    if retired == [] then []
    else if Matches(secretLabel, Last(retired)) then Matching(Front(retired), secretLabel) + [Last(retired)]
    else Matching(Front(retired), secretLabel)
  }

  /** A new application: its secret is stored, with a fresh user, unless it has one; then the account
      of that secret is created. `created` is whether the account is there after the call, `ok`
      whether the call returned. */
  function Added(a: Accounts, app: string, user: string, created: bool, ok: bool): Accounts {
    var known := CreatedLabel(app) in a.secrets;
    var account := if known then a.secrets[CreatedLabel(app)] else user;
    a.(secrets := a.secrets[CreatedLabel(app) := account],
       accounts := if created || ok then a.accounts + {account} else a.accounts,
       used := if known then a.used else a.used + {user})
  }

  /** A rotation: the account is created first; if that raises the hook fails with nothing stored. */
  function Rotated(a: Accounts, secretLabel: string, user: string, created: bool, ok: bool): Accounts
    requires secretLabel in a.secrets
  {
    var accounts := if created || ok then a.accounts + {user} else a.accounts;
    if !ok then a.(accounts := accounts, used := a.used + {user})
    else a.(secrets := a.secrets[secretLabel := user], retired := Retire(a.retired, a.secrets[secretLabel]),
            accounts := accounts, used := a.used + {user})
  }

  function Users(users: seq<string>): set<string> { set u | u in users }

  /** The accounts after the users were deleted. */
  predicate Gone(accounts0: set<string>, deleted0: set<string>, users: seq<string>,
                 accounts: set<string>, deleted: set<string>)
  {
    accounts == accounts0 - Users(users) && deleted == deleted0 + Users(users)
  }

  lemma OneMoreGone(accounts0: set<string>, deleted0: set<string>, users: seq<string>, user: string)
    ensures Gone(accounts0, deleted0, users + [user],
                 accounts0 - Users(users) - {user}, deleted0 + Users(users) + {user})
  {
    assert Users(users + [user]) == Users(users) + {user};
  }

  /** Deletions happen one by one; if the next one raises, the list stays as it was. */
  function Removed(a: Accounts, secretLabel: string, failsAt: Option<nat>): Accounts {
    var gone := Matching(a.retired, secretLabel);
    var stops := failsAt.Some? && failsAt.value < |gone|;
    var done := if stops then gone[..failsAt.value] else gone;
    a.(accounts := a.accounts - Users(done), deleted := a.deleted + Users(done),
       retired := if stops then a.retired else Without(a.retired, gone))
  }

  class KeystoneAccounts {
    var secrets: map<string, string>
    var oldServiceUsers: seq<string>
    var accounts: set<string>
    ghost var used: set<string>
    ghost var deleted: set<string>

    constructor ()
      ensures Stored() == Accounts(map[], [], {}, {}, {})
    {
      secrets, oldServiceUsers, accounts, used, deleted := map[], [], {}, {}, {};
    }

    ghost function Stored(): Accounts
      reads this
    {
      Accounts(secrets, oldServiceUsers, accounts, used, deleted)
    }

    /** The account part of a service registration: `_retrieve_or_set_secret`, then the creation. */
    method AddService(app: string, suffix: string, created: bool, ok: bool)
      modifies this
      ensures Stored() == Added(old(Stored()), app, NewUser(CreatedLabel(app), suffix), created, ok)
      ensures var l := "credentials_svc_" + Replace(app, '-', '_');
              var user := "svc_" + Replace(app, '-', '_') + "-" + suffix;
              && secrets == (if l in old(secrets) then old(secrets) else old(secrets)[l := user])
              && accounts == old(accounts) + (if created || ok then {secrets[l]} else {})
              && oldServiceUsers == old(oldServiceUsers)
    {
      CreatedUser(app, suffix);
      var secretLabel := CreatedLabel(app);
      if secretLabel !in secrets {
        var username := NewUser(secretLabel, suffix);
        used := used + {username};
        secrets := secrets[secretLabel := username];
      } else {
        assert secrets == secrets[secretLabel := secrets[secretLabel]];
      }
      if created || ok {
        accounts := accounts + {secrets[secretLabel]};
      }
    }

    /** `_on_secret_rotate` for service secrets; `suffix` is random, `ok` whether the account was
        created in the end. */
    method OnSecretRotate(isLeader: bool, apps: set<string>, secretLabel: string, suffix: string,
                          created: bool, ok: bool)
        returns (raised: bool)
      requires secretLabel in secrets
      modifies this
      ensures Stored() == if isLeader && IsIdentityLabel(apps, secretLabel)
                          then Rotated(old(Stored()), secretLabel, NewUser(secretLabel, suffix), created, ok)
                          else old(Stored())
      ensures raised <==> isLeader && IsIdentityLabel(apps, secretLabel) && !ok
      ensures forall app :: isLeader && app in apps && secretLabel == "credentials_svc_" + app && ok ==>
                secrets == old(secrets)[secretLabel := "svc_" + app + "-" + suffix]
                && accounts == old(accounts) + {secrets[secretLabel]} && old(oldServiceUsers) <= oldServiceUsers
                && forall u :: u in oldServiceUsers <==> u in old(oldServiceUsers) + [old(secrets)[secretLabel]]
      ensures !isLeader || (forall app :: app in apps ==> secretLabel != "credentials_svc_" + app) || !ok ==>
                secrets == old(secrets) && oldServiceUsers == old(oldServiceUsers)
                && ((!created && !ok) || !raised ==> accounts == old(accounts))
    {
      ExpectedUsers(apps, secretLabel, suffix);
      if !isLeader || !IsIdentityLabel(apps, secretLabel) {
        return false;
      }
      var username := NewUser(secretLabel, suffix);
      used := used + {username};
      if created || ok {
        accounts := accounts + {username};
      }
      if !ok {
        return true;
      }
      var oldUser := secrets[secretLabel];
      secrets := secrets[secretLabel := username];
      if oldUser !in oldServiceUsers {
        oldServiceUsers := oldServiceUsers + [oldUser];
      }
      raised := false;
    }

    /** The loop that deletes; `raised` when the delete call `failsAt` does. */
    method DeleteMatching(secretLabel: string, failsAt: Option<nat>) returns (deletedUsers: seq<string>, raised: bool)
      modifies this`accounts, this`deleted
      ensures raised <==> failsAt.Some? && failsAt.value < |Matching(oldServiceUsers, secretLabel)|
      ensures var gone := Matching(oldServiceUsers, secretLabel);
              deletedUsers == if raised then gone[..failsAt.value] else gone
      ensures accounts == old(accounts) - Users(deletedUsers) && deleted == old(deleted) + Users(deletedUsers)
    {
      deletedUsers := [];
      for i := 0 to |oldServiceUsers|
        invariant deletedUsers == Matching(oldServiceUsers[..i], secretLabel)
        invariant failsAt.Some? ==> |deletedUsers| <= failsAt.value
        invariant Gone(old(accounts), old(deleted), deletedUsers, accounts, deleted)
      {
        MatchingStep(oldServiceUsers, secretLabel, i);
        if Matches(secretLabel, oldServiceUsers[i]) {
          if failsAt == Some(|deletedUsers|) {
            NextMatching(oldServiceUsers, secretLabel, i);
            return deletedUsers, true;
          }
          DeleteUser(oldServiceUsers[i]);
          OneMoreGone(old(accounts), old(deleted), deletedUsers, oldServiceUsers[i]);
          deletedUsers := deletedUsers + [oldServiceUsers[i]];
        }
      }
      assert oldServiceUsers[..|oldServiceUsers|] == oldServiceUsers;
      raised := false;
    }

    method DeleteUser(user: string)
      modifies this`accounts, this`deleted
      ensures accounts == old(accounts) - {user} && deleted == old(deleted) + {user}
    {
      accounts := accounts - {user};
      deleted := deleted + {user};
    }

    /** The list comprehension. */
    method Unlist(deletedUsers: seq<string>)
      modifies this`oldServiceUsers
      ensures oldServiceUsers == Without(old(oldServiceUsers), deletedUsers)
    {
      var kept := [];
      for i := 0 to |oldServiceUsers|
        invariant oldServiceUsers == old(oldServiceUsers)
        invariant kept == Without(oldServiceUsers[..i], deletedUsers)
      {
        assert Front(oldServiceUsers[..i + 1]) == oldServiceUsers[..i];
        if oldServiceUsers[i] !in deletedUsers {
          kept := kept + [oldServiceUsers[i]];
        }
      }
      assert oldServiceUsers[..|oldServiceUsers|] == oldServiceUsers;
      oldServiceUsers := kept;
    }

    /** `_on_secret_remove` for service secrets. */
    method OnSecretRemove(apps: set<string>, secretLabel: string, failsAt: Option<nat>) returns (raised: bool)
      modifies this
      ensures Stored() == if IsIdentityLabel(apps, secretLabel)
                          then Removed(old(Stored()), secretLabel, failsAt) else old(Stored())
      ensures raised <==> IsIdentityLabel(apps, secretLabel) && failsAt.Some?
                          && failsAt.value < |Matching(old(oldServiceUsers), secretLabel)|
      ensures secrets == old(secrets)
      ensures forall u :: u in accounts ==> u in old(accounts)
      ensures forall u :: u in old(accounts) && u !in accounts ==>
                u in old(oldServiceUsers) && StartsWith("credentials_" + u, secretLabel)
      ensures !raised && IsIdentityLabel(apps, secretLabel) ==>
                (forall u :: u in oldServiceUsers <==>
                   u in old(oldServiceUsers) && !StartsWith("credentials_" + u, secretLabel))
                && forall u :: u in old(oldServiceUsers) && StartsWith("credentials_" + u, secretLabel) ==>
                     u !in accounts
      ensures raised ==> oldServiceUsers == old(oldServiceUsers)
    {
      if !IsIdentityLabel(apps, secretLabel) {
        return false;
      }
      var deletedUsers;
      deletedUsers, raised := DeleteMatching(secretLabel, failsAt);
      if !raised {
        Unlist(deletedUsers);
      }
    }
  }

  /** What was deleted before a matching user is a proper prefix of what there is to delete. */
  lemma NextMatching(retired: seq<string>, secretLabel: string, i: nat)
    requires i < |retired| && Matches(secretLabel, retired[i])
    ensures var before, all := Matching(retired[..i], secretLabel), Matching(retired, secretLabel);
            |before| < |all| && all[..|before|] == before
  {
    MatchingStep(retired, secretLabel, i);
    MatchingPrefix(retired, secretLabel, i + 1);
  }

  lemma MatchingStep(retired: seq<string>, secretLabel: string, i: nat)
    requires i < |retired|
    ensures Matching(retired[..i + 1], secretLabel)
            == Matching(retired[..i], secretLabel) + if Matches(secretLabel, retired[i]) then [retired[i]] else []
  {
    assert Front(retired[..i + 1]) == retired[..i];
  }

  lemma {:induction false} MatchingPrefix(retired: seq<string>, secretLabel: string, k: nat)
    requires k <= |retired|
    ensures Matching(retired[..k], secretLabel) <= Matching(retired, secretLabel)
    decreases |retired|
  {
    if k == |retired| {
      assert retired[..k] == retired;
    } else {
      assert Front(retired)[..k] == retired[..k];
      MatchingPrefix(Front(retired), secretLabel, k);
    }
  }

  // ---------------------------------------------------------------- every run is safe

  datatype Event =
    | Add(app: string, user: string, created: bool, ok: bool)
    | Rotate(secretLabel: string, user: string, created: bool, ok: bool)
    | Remove(secretLabel: string, failsAt: Option<nat>)

  const START := Accounts(map[], [], {}, {}, {})

  function Next(a: Accounts, e: Event): Accounts {
    match e
    case Add(app, user, created, ok) => Added(a, app, user, created, ok)
    case Rotate(secretLabel, user, created, ok) =>
      if secretLabel in a.secrets then Rotated(a, secretLabel, user, created, ok) else a
    case Remove(secretLabel, failsAt) => Removed(a, secretLabel, failsAt)
  }

  function Exec(es: seq<Event>): Accounts {
    if es == [] then START else Next(Exec(Front(es)), Last(es))
  }

  /** Random suffixes are taken never to repeat a username. */
  predicate FreshNames(es: seq<Event>) {
    es == [] || (FreshNames(Front(es)) && (!Last(es).Remove? ==> Last(es).user !in Exec(Front(es)).used))
  }

  /** The account in any current secret is neither listed for deletion nor ever deleted. */
  predicate Safe(a: Accounts) {
    && NoDuplicates(a.retired)
    && forall l :: l in a.secrets ==> a.secrets[l] !in a.retired && a.secrets[l] !in a.deleted
  }

  predicate Inv(a: Accounts) {
    && Safe(a) && a.accounts <= a.used
    && (forall l :: l in a.secrets ==> a.secrets[l] in a.used)
    && (forall u :: u in a.retired ==> u in a.used) && a.deleted <= a.used
    && (forall l, m :: l in a.secrets && m in a.secrets && l != m ==> a.secrets[l] != a.secrets[m])
  }

  lemma AddKeepsInv(a: Accounts, app: string, user: string, created: bool, ok: bool)
    requires Inv(a) && user !in a.used
    ensures Inv(Added(a, app, user, created, ok))
  {
  }

  lemma RotateKeepsInv(a: Accounts, secretLabel: string, user: string, created: bool, ok: bool)
    requires Inv(a) && user !in a.used && secretLabel in a.secrets
    ensures Inv(Rotated(a, secretLabel, user, created, ok))
  {
  }

  lemma RemoveKeepsInv(a: Accounts, secretLabel: string, failsAt: Option<nat>)
    requires Inv(a)
    ensures Inv(Removed(a, secretLabel, failsAt))
  {
    var gone := Matching(a.retired, secretLabel);
    WithoutKeepsDistinct(a.retired, gone);
    if failsAt.Some? && failsAt.value < |gone| {
      assert forall u :: u in gone[..failsAt.value] ==> u in gone;
    }
  }

  /** Over every sequence of additions, rotations (failed ones included) and removals. */
  lemma {:induction false} EveryRunIsSafe(es: seq<Event>)
    requires FreshNames(es)
    ensures Inv(Exec(es))
  {
    if es != [] {
      EveryRunIsSafe(Front(es));
      var a, e := Exec(Front(es)), Last(es);
      match e
      case Add(app, user, created, ok) => AddKeepsInv(a, app, user, created, ok);
      case Rotate(secretLabel, user, created, ok) =>
        if secretLabel in a.secrets {
          RotateKeepsInv(a, secretLabel, user, created, ok);
        }
      case Remove(secretLabel, failsAt) => RemoveKeepsInv(a, secretLabel, failsAt);
    }
  }

  /** The event creates the account that the secret `l` then names. */
  predicate Provides(a: Accounts, e: Event, l: string) {
    match e
    case Add(app, _, created, ok) => CreatedLabel(app) == l && (created || ok)
    case Rotate(secretLabel, _, _, ok) => secretLabel == l && l in a.secrets && ok
    case Remove(_, _) => false
  }

  predicate Provided(es: seq<Event>, l: string) {
    es != [] && (Provided(Front(es), l) || Provides(Exec(Front(es)), Last(es), l))
  }

  /** The account a current secret names exists on keystone exactly if some creation for that secret
      went through: nothing takes it away again, and a first creation that fails leaves a secret
      without an account until an addition or rotation succeeds. */
  lemma {:induction false} AccountExistsIff(es: seq<Event>, l: string)
    requires FreshNames(es)
    ensures Provided(es, l) ==> l in Exec(es).secrets
    ensures l in Exec(es).secrets ==> (Exec(es).secrets[l] in Exec(es).accounts <==> Provided(es, l))
  {
    if es != [] {
      var front, a, e := Front(es), Exec(Front(es)), Last(es);
      AccountExistsIff(front, l);
      EveryRunIsSafe(front);
      if e.Remove? {
        var gone := Matching(a.retired, e.secretLabel);
        assert forall k :: 0 <= k <= |gone| ==> forall u :: u in gone[..k] ==> u in gone;
      }
    }
  }

  /** A secret without an account: its first creation failed. */
  lemma FirstCreationMayFail(app: string, user: string)
    ensures var a := Exec([Add(app, user, false, false)]);
            CreatedLabel(app) in a.secrets && a.secrets[CreatedLabel(app)] !in a.accounts
  {
    assert Front([Add(app, user, false, false)]) == [];
  }

  // ---------------------------------------------------------------- labels

  /** Creation replaces dashes and the handlers do not: the rotation of an application's secret is
      handled exactly if its name has no dash (Juju application names have no underscore). */
  lemma RotationReachesIff(apps: set<string>, app: string)
    requires app in apps && forall a :: a in apps ==> '_' !in a
    ensures IsIdentityLabel(apps, CreatedLabel(app)) <==> '-' !in app
  {
    if '-' !in app {
      assert Replace(app, '-', '_') == app;
      assert CreatedLabel(app) == ExpectedLabel(app);
    }
    if IsIdentityLabel(apps, CreatedLabel(app)) {
      var a :| a in apps && CreatedLabel(app) == ExpectedLabel(a);
      var n := |CREDENTIALS_SECRET_PREFIX + "svc_"|;
      assert Replace(app, '-', '_') == CreatedLabel(app)[n..] == ExpectedLabel(a)[n..] == a;
      forall i | 0 <= i < |app| ensures app[i] != '-' {
        assert a[i] == Replace(app, '-', '_')[i];
      }
    }
  }

  /** A retired user of application `b` is deleted with the secret of application `a` exactly if
      `a` is a prefix of `b`: "nova" also takes the retired users of "nova2". */
  lemma RemovalReachesIff(a: string, b: string, suffix: string)
    requires '-' !in a
    ensures Matches(ExpectedLabel(a), "svc_" + b + "-" + suffix) <==> a <= b
  {
    var head := CREDENTIALS_SECRET_PREFIX + "svc_";
    var tail := b + "-" + suffix;
    assert CREDENTIALS_SECRET_PREFIX + ("svc_" + b + "-" + suffix) == head + tail;
    assert ExpectedLabel(a) == head + a;
    if head + a <= head + tail {
      assert a == (head + tail)[|head|..|head| + |a|] == tail[..|a|];
      assert forall i :: 0 <= i < |a| ==> tail[i] != '-';
      assert tail[|b|] == '-';
      assert a == b[..|a|];
    }
    if a <= b {
      assert b == a + b[|a|..];
      assert head + tail == head + a + (b[|a|..] + "-" + suffix);
    }
  }

  /** An application is added and its secret rotated once. */
  function AddedAndRotated(app: string, x: string, y: string): seq<Event> {
    [Add(app, "svc_" + app + "-" + x, true, true), Rotate(CreatedLabel(app), "svc_" + app + "-" + y, true, true)]
  }

  lemma AfterOneRotation(app: string, x: string, y: string)
    requires x != y
    ensures var first, second := "svc_" + app + "-" + x, "svc_" + app + "-" + y;
            && FreshNames(AddedAndRotated(app, x, y))
            && Exec(AddedAndRotated(app, x, y))
               == Accounts(map[CreatedLabel(app) := second], [first], {first, second}, {first, second}, {})
  {
    var es := AddedAndRotated(app, x, y);
    var first, second := "svc_" + app + "-" + x, "svc_" + app + "-" + y;
    assert first[|"svc_" + app + "-"|..] == x && second[|"svc_" + app + "-"|..] == y;
    assert Front(es) == [es[0]] && Front([es[0]]) == [];
    assert Exec([es[0]]) == Accounts(map[CreatedLabel(app) := first], [], {first}, {first}, {});
  }

  /** After that the removal of a revision of application `a`'s secret deletes the account that `b`
      used before exactly if `a` is a prefix of `b`. */
  lemma RemovalTakesIff(a: string, b: string, x: string, y: string)
    requires '-' !in a && x != y
    ensures var before := Exec(AddedAndRotated(b, x, y));
            var after := Removed(before, ExpectedLabel(a), None);
            var user := "svc_" + b + "-" + x;
            && user in before.accounts && user in before.retired
            && (user !in after.accounts <==> a <= b) && (user !in after.retired <==> a <= b)
  {
    AfterOneRotation(b, x, y);
    RemovalReachesIff(a, b, x);
    var before := Exec(AddedAndRotated(b, x, y));
    assert Front(before.retired) == [];
  }

  /** So a revision of nova's secret takes nova2's retired account with it. */
  lemma NovaTakesNova2(x: string, y: string)
    requires x != y
    ensures var before := Exec(AddedAndRotated("nova2", x, y));
            var after := Removed(before, ExpectedLabel("nova"), None);
            var user := "svc_" + "nova2" + "-" + x;
            user in before.accounts && user in before.retired && user !in after.accounts && user !in after.retired
  {
    assert "nova2"[..4] == "nova";
    RemovalTakesIff("nova", "nova2", x, y);
  }
}
