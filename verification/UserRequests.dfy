/** What the requirer sends to have users deleted and what it reads from keystone's replies: the
    interpreter of `OpRequests` between the two ends of the protocol of `Credentials`. */
module UserRequests {
  import opened Text
  import opened RetiredUsers
  import opened OpRequests
  import Credentials

  /** The arguments that keystone's client is to be given; a domain that is not set is left out. */
  function DeleteArgs(user: string, domain: string): map<string, Arg> {
    if domain == "" then map["name" := Text(user)] else map["name" := Text(user), "domain" := Text(domain)]
  }

  predicate IsDeleteOp(op: Op, user: string, domain: string) {
    && op.name == "delete_user"
    && op.params == if domain == "" then map["name" := Plain(user)]
                    else map["name" := Plain(user), "domain" := Plain(domain)]
  }

  /** One op per user, in order. */
  predicate AreDeleteOps(ops: seq<Op>, users: seq<string>, domain: string) {
    |ops| == |users| && forall i :: 0 <= i < |users| ==> IsDeleteOp(ops[i], users[i], domain)
  }

  /** `_delete_user_request`. */
  method DeleteUserRequest(users: seq<string>, domain: string) returns (requests: seq<Op>)
    ensures AreDeleteOps(requests, users, domain)
  {
    requests := [];
    for i := 0 to |users|
      invariant AreDeleteOps(requests, users[..i], domain)
    {
      var params := map["name" := Plain(users[i])];
      if domain != "" {
        params := params["domain" := Plain(domain)];
      }
      requests := requests + [Op("delete_user", params)];
    }
  }

  // ---------------------------------------------------------------- reading the replies

  /** `{return codes} == {0}`. */
  predicate AllZero(replies: seq<OpReply>) {
    (set r | r in replies :: r.code) == {0}
  }

  /** `value.get("name")` raises on anything but a record. */
  predicate Readable(reply: OpReply) {
    reply.code == 0 ==> reply.value.Some? && reply.value.value.Record?
  }

  function NameIn(v: Value): Option<string> {
    if v.Record? && "name" in v.fields then Some(v.fields["name"]) else None
  }

  predicate IsNamed(replies: seq<OpReply>, i: nat, name: Option<string>) {
    i < |replies| && replies[i].code == 0 && replies[i].value.Some? && NameIn(replies[i].value.value) == name
  }

  /** `_process_delete_user_response`, up to the list it takes out of `old_users`. */
  method DeletedUsers(replies: seq<OpReply>) returns (deleted: Option<seq<Option<string>>>)
    ensures deleted.None? <==> exists i :: 0 <= i < |replies| && !Readable(replies[i])
    ensures deleted.Some? ==> forall name :: name in deleted.value <==> exists i: nat :: IsNamed(replies, i, name)
  {
    var names := [];
    for i := 0 to |replies|
      invariant forall k :: 0 <= k < i ==> Readable(replies[k])
      invariant forall name :: name in names <==> exists k: nat :: k < i && IsNamed(replies, k, name)
    {
      if replies[i].code == 0 {
        if !Readable(replies[i]) {
          return None;
        }
        assert IsNamed(replies, i, NameIn(replies[i].value.value));
        names := names + [NameIn(replies[i].value.value)];
      }
    }
    deleted := Some(names);
  }

  function Somes(names: seq<Option<string>>): (r: seq<string>)
    ensures forall u :: u in r <==> Some(u) in names
  {
    if names == [] then [] else Somes(Front(names)) + if Last(names).Some? then [Last(names).value] else []
  }

  /** `_process_delete_user_response`: what is left of `old_users`, or an exception. */
  method ProcessDeleteUserResponse(oldUsers: seq<string>, replies: seq<OpReply>)
      returns (left: Option<seq<string>>, ghost gone: seq<string>)
    ensures left.None? <==> exists i :: 0 <= i < |replies| && !Readable(replies[i])
    ensures left.Some? ==> left.value == Without(oldUsers, gone)
    ensures left.Some? ==> forall u :: u in gone <==> exists i: nat :: IsNamed(replies, i, Some(u))
  {
    var deleted := DeletedUsers(replies);
    if deleted.None? {
      return None, [];
    }
    gone := Somes(deleted.value);
    var kept := [];
    for i := 0 to |oldUsers|
      invariant kept == Without(oldUsers[..i], gone)
    {
      assert Front(oldUsers[..i + 1]) == oldUsers[..i];
      if Some(oldUsers[i]) !in deleted.value {
        kept := kept + [oldUsers[i]];
      }
    }
    assert oldUsers[..|oldUsers|] == oldUsers;
    left := Some(kept);
  }

  // ---------------------------------------------------------------- requests and replies together

  /** Op `i` was called and the call returned. */
  ghost predicate Returned(client: Client, p: Progress, i: nat) {
    exists j: nat :: CallAt(p, i, j) && client.run(CallsOf(p.calls[..j]), p.calls[j].1).Done?
  }

  /** The requirer takes a reply for a success exactly if there was something to do, every op was called
      and every call returned. */
  lemma SucceedsIff(client: Client, ops: seq<Op>)
    ensures AllZero(Run(client, ops).replies) <==>
            ops != [] && forall i: nat :: i < |ops| ==> Returned(client, Run(client, ops), i)
  {
    var p := Run(client, ops);
    var codes := set r | r in p.replies :: r.code;
    forall i: nat | i < |ops|
      ensures p.replies[i].code in codes && (p.replies[i].code == 0 <==> Returned(client, p, i))
    {
      CodesAreExact(client, ops, i);
      assert p.replies[i] in p.replies;
    }
    if ops != [] && forall i: nat :: i < |ops| ==> Returned(client, p, i) {
      forall c | c in codes ensures c == 0 {
        var r :| r in p.replies && r.code == c;
        var i: nat :| i < |p.replies| && p.replies[i] == r;
      }
      assert p.replies[0].code in codes;
    }
  }

  /** So a request that counts as a success has created the user whose credentials the service is about
      to move to, with the password it will use. */
  lemma SuccessCreatesTheUser(client: Client, secrets: map<string, map<string, string>>, s: Settings, username: string,
                              secretId: string, password: string, extra: seq<Op>)
    requires IsPlainText(username) && StartsWith(secretId, "secret://") && secretId in secrets
    requires "password" in secrets[secretId] && secrets[secretId]["password"] == password
    requires forall key :: key in s.identifiers ==> key !in {"name", "password"} && IsSetting(s.identifiers[key])
    requires AllZero(Run(client, SanitizedAll(secrets, OwnOps(s, username, secretId) + extra)).replies)
    ensures var p := Run(client, SanitizedAll(secrets, OwnOps(s, username, secretId) + extra));
            var k: nat := if s.role == "" then 1 else 2;
            Returned(client, p, k)
            && CalledWith(p, k, "create_user", map["name" := Text(username), "password" := Text(password)]
                                               + map key | key in s.identifiers :: AsArg(s.identifiers[key]))
  {
    var ops := OwnOps(s, username, secretId) + extra;
    var clean := SanitizedAll(secrets, ops);
    var k: nat := if s.role == "" then 1 else 2;
    OwnOpsAt(s, username, secretId, extra);
    SucceedsIff(client, clean);
    assert Returned(client, Run(client, clean), k);
    assert clean[k] == Sanitized(secrets, CreateUserOp(s, username, secretId));
    CalledExactly(client, clean, k);
    UserIsCreated(client, secrets, s, username, secretId, password, extra);
  }

  /** Keystone's `delete_user` returns the name it was given. */
  ghost predicate DeletesByName(client: Client) {
    && "delete_user" in client.methods
    && forall before, user, domain ::
         var r := client.run(before, Call("delete_user", DeleteArgs(user, domain)));
         r.Done? ==> r.v == Record(map["name" := user])
  }

  lemma DeleteOpPassed(op: Op, user: string, domain: string)
    requires IsDeleteOp(op, user, domain) && IsPlainText(user) && IsPlainText(domain)
    ensures NoSecrets(op) && NoReferences(op) && AsPassed(op) == DeleteArgs(user, domain)
  {
  }

  /** Every user of a delete request is deleted by one call, with its domain; the reply names it exactly
      if that call returned. */
  lemma DeleteIsCalled(client: Client, secrets: map<string, map<string, string>>, ops: seq<Op>, users: seq<string>,
                       domain: string, i: nat)
    requires DeletesByName(client) && AreDeleteOps(ops, users, domain) && i < |users|
    requires IsPlainText(users[i]) && IsPlainText(domain)
    ensures var p := Run(client, SanitizedAll(secrets, ops));
            && CalledWith(p, i, "delete_user", DeleteArgs(users[i], domain))
            && Readable(p.replies[i])
            && (Returned(client, p, i) <==> IsNamed(p.replies, i, Some(users[i])))
            && forall name :: IsNamed(p.replies, i, name) ==> name == Some(users[i])
  {
    var clean := SanitizedAll(secrets, ops);
    DeleteOpPassed(ops[i], users[i], domain);
    SanitizedPlain(secrets, ops[i]);
    SanitizedCall(client, secrets, ops, i, ops[i]);
    CodesAreExact(client, clean, i);
    var p := Run(client, clean);
    var j: nat :| CallAt(p, i, j) && p.calls[j].1 == Call("delete_user", DeleteArgs(users[i], domain));
  }

  /** Who was deleted, as the calls tell. */
  ghost predicate Deletes(client: Client, p: Progress, users: seq<string>, user: string) {
    exists i: nat :: i < |users| && users[i] == user && Returned(client, p, i)
  }

  /** The names read from the reply to a delete request are those whose deletion returned. */
  lemma NamedIffDeleted(client: Client, secrets: map<string, map<string, string>>, ops: seq<Op>, users: seq<string>,
                        domain: string)
    requires DeletesByName(client) && AreDeleteOps(ops, users, domain)
    requires IsPlainText(domain) && forall u :: u in users ==> IsPlainText(u)
    ensures var p := Run(client, SanitizedAll(secrets, ops));
            && (forall i :: 0 <= i < |users| ==> Readable(p.replies[i]))
            && (forall i: nat :: i < |users| ==> CalledWith(p, i, "delete_user", DeleteArgs(users[i], domain)))
            && forall user :: (exists i: nat :: IsNamed(p.replies, i, Some(user))) <==> Deletes(client, p, users, user)
  {
    var p := Run(client, SanitizedAll(secrets, ops));
    forall i: nat | i < |users|
      ensures CalledWith(p, i, "delete_user", DeleteArgs(users[i], domain)) && Readable(p.replies[i])
      ensures Returned(client, p, i) <==> IsNamed(p.replies, i, Some(users[i]))
      ensures forall name :: IsNamed(p.replies, i, name) ==> name == Some(users[i])
    {
      DeleteIsCalled(client, secrets, ops, users, domain, i);
    }
    forall user | Deletes(client, p, users, user) ensures exists i: nat :: IsNamed(p.replies, i, Some(user)) {
      var i: nat :| i < |users| && users[i] == user && Returned(client, p, i);
      assert IsNamed(p.replies, i, Some(user));
    }
  }

  lemma SameCalls(client: Client, p: Progress, q: Progress, users: seq<string>)
    requires p.calls == q.calls
    ensures forall k: nat, name, args :: CalledWith(p, k, name, args) ==> CalledWith(q, k, name, args)
    ensures forall user :: Deletes(client, p, users, user) <==> Deletes(client, q, users, user)
  {
    forall i: nat ensures Returned(client, p, i) <==> Returned(client, q, i) {
      assert forall j: nat :: CallAt(p, i, j) <==> CallAt(q, i, j);
    }
    forall k: nat, name, args | CalledWith(p, k, name, args) ensures CalledWith(q, k, name, args) {
      var j: nat :| CallAt(p, k, j) && p.calls[j].1 == Call(name, args);
      assert CallAt(q, k, j);
    }
  }

  /** A whole deletion, from the `old_users` of the requirer to what is left of them: the request is
      generated, keystone runs it, and the reply is read. It is the reply step of `Credentials` for the
      users whose deletion returned. */
  method DeleteOldUsers(client: Client, secrets: map<string, map<string, string>>, r: Credentials.Requirer,
                        domain: string, novel: Credentials.Credential)
      returns (replies: seq<OpReply>, calls: seq<(nat, Call)>, left: seq<string>, ghost gone: seq<string>)
    requires DeletesByName(client) && IsPlainText(domain) && forall u :: u in r.oldUsers ==> IsPlainText(u)
    ensures var p := Progress(replies, map[], calls);
            && (forall i: nat :: i < |r.oldUsers| ==>
                  CalledWith(p, i, "delete_user", DeleteArgs(r.oldUsers[i], domain)))
            && (forall u :: u in gone <==> Deletes(client, p, r.oldUsers, u))
            && (forall u :: u in left <==> u in r.oldUsers && !Deletes(client, p, r.oldUsers, u))
    ensures left == Credentials.Answered(r, Credentials.DeleteReply(gone), novel).oldUsers
  {
    var ops := DeleteUserRequest(r.oldUsers, domain);
    replies, calls := HandleOpRequest(client, secrets, ops);
    SameCalls(client, Run(client, SanitizedAll(secrets, ops)), Progress(replies, map[], calls), r.oldUsers);
    NamedIffDeleted(client, secrets, ops, r.oldUsers, domain);
    var kept;
    kept, gone := ProcessDeleteUserResponse(r.oldUsers, replies);
    left := kept.value;
  }
}
