/** designate-bind's registry of RNDC client keys: the keys published on each relation, the copy
    in the peer store, the Juju secrets they name, and the nonces of the related units. */
module Rndc {
  import opened Text

  type RelationId = nat
  type SecretId = nat

  datatype Entry = Entry(algorithm: string, secret: SecretId)

  /** One store: entries by relation and nonce; a missing relation reads as empty. */
  type Store = map<RelationId, map<string, Entry>>

  const ALGORITHM := "hmac-sha256"
  const RNDC_SECRET_PREFIX := "rndc_"

  function KeysOf(store: Store, rel: RelationId): map<string, Entry> {
    if rel in store then store[rel] else map[]
  }

  /** The nonces published by the units of a relation; a unit may not have one yet. */
  function NoncesOf(units: seq<Option<string>>): (nonces: set<string>)
    ensures forall n :: n in nonces <==> Some(n) in units
  {
    if units == [] then {}
    else if Last(units).Some? then NoncesOf(Front(units)) + {Last(units).value}
    else NoncesOf(Front(units))
  }

  lemma NoncesStep(units: seq<Option<string>>, i: nat)
    requires i < |units|
    ensures NoncesOf(units[..i + 1]) == NoncesOf(units[..i]) + if units[i].Some? then {units[i].value} else {}
  {
    assert Front(units[..i + 1]) == units[..i] && Last(units[..i + 1]) == units[i];
  }

  /** Both stores say the same about every relation. */
  ghost predicate Agree(bag: Store, store: Store) {
    forall rel :: KeysOf(bag, rel) == KeysOf(store, rel)
  }

  ghost predicate NamesSecrets(bag: Store, secrets: map<SecretId, nat>) {
    forall rel, n :: n in KeysOf(bag, rel) ==> KeysOf(bag, rel)[n].secret in secrets
  }

  /** Two keys never share a secret. */
  ghost predicate NamesApart(bag: Store) {
    forall r, n, s, m :: n in KeysOf(bag, r) && m in KeysOf(bag, s) && (r != s || n != m) ==>
      KeysOf(bag, r)[n].secret != KeysOf(bag, s)[m].secret
  }

  /** Every secret has a content of its own, drawn before. */
  ghost predicate ContentsApart(secrets: map<SecretId, nat>, draws: nat) {
    && (forall id :: id in secrets ==> secrets[id] < draws)
    && (forall i, j :: i in secrets && j in secrets && i != j ==> secrets[i] != secrets[j])
  }

  /** Nothing to register and nothing to clean up on this relation. */
  predicate Settled(bag: Store, relations: map<RelationId, seq<Option<string>>>, rel: RelationId) {
    rel in relations ==> KeysOf(bag, rel).Keys == NoncesOf(relations[rel])
  }

  /** There is something to do on one of the relations. */
  predicate SomeUnsettled(bag: Store, relations: map<RelationId, seq<Option<string>>>, ids: seq<RelationId>) {
    exists rel :: rel in ids && !Settled(bag, relations, rel)
  }

  /** `before` and `after` hold the same keys on every relation outside `rels`. */
  ghost predicate SameOutside(before: Store, after: Store, rels: set<RelationId>) {
    forall rel :: rel !in rels ==> KeysOf(after, rel) == KeysOf(before, rel)
  }

  class RndcRegistry {
    var bag: Store                                       // rndc_keys of each relation databag
    var store: Store                                     // "rndc-store" of the peer databag
    var secrets: map<SecretId, nat>                      // current content of each secret
    var nextSecret: SecretId
    var draws: nat                                       // keys generated so far
    var revision: Option<nat>                            // "rndc_revision" of the peer databag
    var relations: map<RelationId, seq<Option<string>>>  // unit nonces of each relation

    ghost predicate Valid()
      reads this
    {
      && Agree(bag, store)
      && NamesSecrets(bag, secrets) && NamesApart(bag) && ContentsApart(secrets, draws)
      && forall id :: id in secrets ==> id < nextSecret
    }

    constructor ()
      ensures Valid() && bag == map[] && relations == map[] && revision == None
    {
      bag, store, secrets, nextSecret, draws, revision, relations := map[], map[], map[], 0, 0, None, map[];
    }

    /** `new_rndc_key`: a fresh secret, or a new content for the one the store already names. */
    method NewRndcKey(rel: RelationId, client: string) returns (entry: Entry)
      requires (forall id :: id in secrets ==> id < nextSecret) && ContentsApart(secrets, draws)
      requires client in KeysOf(store, rel) ==> KeysOf(store, rel)[client].secret in secrets
      modifies this`store, this`secrets, this`nextSecret, this`draws
      ensures KeysOf(store, rel) == KeysOf(old(store), rel)[client := entry]
      ensures SameOutside(old(store), store, {rel})
      ensures entry.algorithm == "hmac-sha256" && entry.secret in secrets
      ensures secrets[entry.secret] == old(draws) && draws == old(draws) + 1 && ContentsApart(secrets, draws)
      ensures if client in KeysOf(old(store), rel) then entry.secret == KeysOf(old(store), rel)[client].secret
              else entry.secret !in old(secrets)
      ensures forall id :: id in old(secrets) ==> id in secrets
      ensures forall id :: id in old(secrets) && id != entry.secret ==> secrets[id] == old(secrets)[id]
      ensures forall id :: id in secrets ==> id < nextSecret
    {
      var relationStore := KeysOf(store, rel);
      var id;
      if client in relationStore {
        id := relationStore[client].secret;
      } else {
        id := nextSecret;
        nextSecret := nextSecret + 1;
      }
      secrets := secrets[id := draws];
      draws := draws + 1;
      entry := Entry(ALGORITHM, id);
      store := store[rel := relationStore[client := entry]];
    }

    /** A new key for one nonce, recorded in the peer store and published on the relation. */
    method RegisterOne(rel: RelationId, nonce: string)
      requires Valid()
      modifies this`bag, this`store, this`secrets, this`nextSecret, this`draws
      ensures Valid() && KeySet(old(bag), old(secrets), bag, secrets, rel, nonce)
    {
      ghost var bag0, store0 := bag, store;
      assert KeysOf(bag, rel) == KeysOf(store, rel);
      var entry := NewRndcKey(rel, nonce);
      bag := bag[rel := KeysOf(bag, rel)[nonce := entry]];
      SetKeepsAgreement(bag0, store0, bag, store, rel);
      OneKeyMore(bag0, old(secrets), bag, secrets, rel, nonce);
    }

    /** One unit: a key for its nonce, unless it published none or one that had a key before. */
    method RegisterUnit(rel: RelationId, unit: Option<string>, keys: set<string>, before: bool,
                        ghost bag0: Store, ghost secrets0: map<SecretId, nat>, ghost nonces: set<string>)
        returns (anyChange: bool)
      requires Valid() && keys == KeysOf(bag0, rel).Keys
      requires Registered(bag0, secrets0, bag, secrets, rel, nonces, before)
      modifies this`bag, this`store, this`secrets, this`nextSecret, this`draws
      ensures Valid()
      ensures Registered(bag0, secrets0, bag, secrets, rel, nonces + (if unit.Some? then {unit.value} else {}),
                         anyChange)
    {
      anyChange := before;
      if unit.Some? {
        ghost var bag1, secrets1 := bag, secrets;
        if unit.value !in keys {
          anyChange := true;
          RegisterOne(rel, unit.value);
        }
        RegisteredMore(bag0, secrets0, bag1, secrets1, bag, secrets, rel, nonces, before, unit.value);
      } else {
        assert nonces + {} == nonces;
      }
    }

    /** `register_rndc_client`: a key for every nonce that had none when the call started. */
    method RegisterClients(rel: RelationId) returns (anyChange: bool)
      requires Valid() && rel in relations
      modifies this`bag, this`store, this`secrets, this`nextSecret, this`draws
      ensures Valid()
      ensures Registered(old(bag), old(secrets), bag, secrets, rel, NoncesOf(relations[rel]), anyChange)
    {
      var keys := KeysOf(bag, rel).Keys;
      var units := relations[rel];
      anyChange := false;
      ghost var bag0, secrets0 := bag, secrets;
      assert NoncesOf(units[..0]) == {};
      NothingRegistered(bag, secrets, rel);
      for i := 0 to |units|
        invariant Valid() && Registered(bag0, secrets0, bag, secrets, rel, NoncesOf(units[..i]), anyChange)
      {
        NoncesStep(units, i);
        anyChange := RegisterUnit(rel, units[i], keys, anyChange, bag0, secrets0, NoncesOf(units[..i]));
      }
      assert units[..|units|] == units;
    }

    /** `cleanup_rndc_client_from_peer_relation` for the clients in turn; the peer store has an entry for
        each of them. */
    method CleanupPeerStore(rel: RelationId, missing: set<string>)
      requires missing <= KeysOf(store, rel).Keys
      modifies this`store
      ensures KeysOf(store, rel) == KeysOf(old(store), rel) - missing && SameOutside(old(store), store, {rel})
    {
      var left := missing;
      ghost var before := store;
      assert KeysOf(store, rel) - {} == KeysOf(store, rel);
      while left != {}
        invariant left <= missing
        invariant KeysOf(store, rel) == KeysOf(before, rel) - (missing - left)
        invariant SameOutside(before, store, {rel})
      {
        var client :| client in left;
        assert client in KeysOf(store, rel);
        store := store[rel := store[rel] - {client}];
        left := left - {client};
        assert missing - left == missing - (left + {client}) + {client};
      }
      assert missing - {} == missing;
    }

    /** `cleanup_rndc_clients`: drop the keys of nonces that no unit has any more. The peer
        store has an entry for the relation whenever there is something to drop. */
    method CleanupClients(rel: RelationId) returns (removed: bool)
      requires Valid() && rel in relations
      modifies this`bag, this`store
      ensures Valid()
      ensures removed <==> !(KeysOf(old(bag), rel).Keys <= NoncesOf(relations[rel]))
      ensures KeysOf(bag, rel).Keys == KeysOf(old(bag), rel).Keys * NoncesOf(relations[rel])
      ensures forall n :: n in KeysOf(bag, rel) ==> KeysOf(bag, rel)[n] == KeysOf(old(bag), rel)[n]
      ensures SameOutside(old(bag), bag, {rel})
    {
      var missing := KeysOf(bag, rel).Keys - NoncesOf(relations[rel]);
      KeysLeft(KeysOf(bag, rel), NoncesOf(relations[rel]));
      ghost var bag0, store0 := bag, store;
      assert KeysOf(store, rel) == KeysOf(bag, rel);
      bag := bag[rel := KeysOf(bag, rel) - missing];
      CleanupPeerStore(rel, missing);
      SetKeepsAgreement(bag0, store0, bag, store, rel);
      FewerKeys(bag0, bag, secrets, rel);
      removed := missing != {};
    }

    /** `new_rndc_revision` and its publication. */
    method BumpRevision()
      modifies this`revision
      ensures revision == Some(Revision(old(revision)) + 1)
    {
      revision := Some(Revision(revision) + 1);
    }

    /** `service_rndc_requests` on the given relations. None when a relation does not exist
        (the source raises); `canService` is bootstrapped, peers ready and leader. */
    method ServiceRequests(canService: bool, ids: seq<RelationId>) returns (result: Option<bool>)
      requires Valid()
      modifies this`bag, this`store, this`secrets, this`nextSecret, this`draws, this`revision
      ensures Valid() && SameOutside(old(bag), bag, set rel | rel in ids)
      ensures !canService ==> result == Some(false) && unchanged(this)
      ensures canService ==> (result.None? <==> exists rel :: rel in ids && rel !in relations)
      ensures canService && result.Some? ==> Serviced(old(bag), bag, relations, ids)
      ensures canService && result.Some? ==> (result.value <==> SomeUnsettled(old(bag), relations, ids))
      ensures result == Some(true) ==> revision == Some(Revision(old(revision)) + 1)
      ensures result != Some(true) ==> revision == old(revision)
      ensures result == Some(false) ==> SameOutside(old(bag), bag, {}) && secrets == old(secrets)
      ensures ContentsKept(old(secrets), secrets)
    {
      if !canService {
        return Some(false);
      }
      result := ServiceAll(ids);
      if result == Some(true) {
        BumpRevision();
      }
    }

    /** The loop over relations. */
    method ServiceAll(ids: seq<RelationId>) returns (result: Option<bool>)
      requires Valid()
      modifies this`bag, this`store, this`secrets, this`nextSecret, this`draws
      ensures Valid() && SameOutside(old(bag), bag, set rel | rel in ids)
      ensures result.None? <==> exists rel :: rel in ids && rel !in relations
      ensures result.Some? ==> Serviced(old(bag), bag, relations, ids)
      ensures result.Some? ==> (result.value <==> SomeUnsettled(old(bag), relations, ids))
      ensures result == Some(false) ==> SameOutside(old(bag), bag, {}) && secrets == old(secrets)
      ensures ContentsKept(old(secrets), secrets)
    {
      var anyChange := false;
      ghost var bag0, secrets0 := bag, secrets;
      NothingServiced(bag, secrets, relations, ids[..0]);
      for i := 0 to |ids|
        invariant Valid() && ServicedSoFar(bag0, secrets0, bag, secrets, relations, ids[..i], anyChange)
      {
        if ids[i] !in relations {
          FewerOutside(bag0, bag, ids, i);
          return None;
        }
        ghost var bag1, secrets1, before := bag, secrets, anyChange;
        var changed := ServiceOne(ids[i]);
        anyChange := anyChange || changed;
        OneMoreId(ids, i);
        ServicedOneMore(bag0, secrets0, bag1, secrets1, bag, secrets, relations, ids[..i], ids[i], before, changed);
      }
      assert ids[..|ids|] == ids;
      result := Some(anyChange);
    }

    /** The body of the loop over relations. */
    method ServiceOne(rel: RelationId) returns (changed: bool)
      requires Valid() && rel in relations
      modifies this`bag, this`store, this`secrets, this`nextSecret, this`draws
      ensures Valid()
      ensures ServicedOne(old(bag), bag, relations, rel)
      ensures changed <==> !Settled(old(bag), relations, rel)
      ensures !changed ==> SameOutside(old(bag), bag, {}) && secrets == old(secrets)
      ensures ContentsKept(old(secrets), secrets)
    {
      var registered := RegisterClients(rel);
      var removed := CleanupClients(rel);
      changed := registered || removed;
      ServicedIsSettled(old(bag), bag, relations, rel, registered, removed);
    }

    /** An event on one relation: service it, and if that changed something run `configure_charm`,
        whose app step, if the hook reaches it, services every relation again. */
    method ServiceFromEvent(rel: RelationId, all: seq<RelationId>, reachesApp: bool) returns (bumps: nat)
      requires Valid() && rel in all && (forall r :: r in all <==> r in relations)
      modifies this`bag, this`store, this`secrets, this`nextSecret, this`draws, this`revision
      ensures Valid()
      ensures Settled(bag, relations, rel)
      ensures Revision(revision) == Revision(old(revision)) + bumps
      ensures bumps == if Settled(old(bag), relations, rel) then 0
                       else if reachesApp && exists r :: r in relations && r != rel && !Settled(old(bag), relations, r)
                       then 2 else 1
      ensures bumps > 0 && reachesApp ==> forall r :: r in relations ==> Settled(bag, relations, r)
    {
      bumps := 0;
      ghost var bag0 := bag;
      var first := ServiceRequests(true, [rel]);
      OnlyRelation(bag0, bag, relations, rel);
      if first == Some(true) {
        bumps := 1;
        if !reachesApp {
          return;
        }
        OthersUnsettled(bag0, bag, relations, rel, all);
        var second := ServiceRequests(true, all);
        if second == Some(true) {
          bumps := 2;
        }
      }
    }

    /** `_on_secret_rotate`: a registered secret gets a new content under the same id, with one bump, and
        `configure_charm` runs. */
    method OnSecretRotate(isLeader: bool, secretLabel: Option<string>, id: SecretId) returns (reconfigures: bool)
      requires Valid() && id in secrets
      modifies this`secrets, this`draws, this`revision
      ensures Valid()
      ensures reconfigures <==> isLeader && secretLabel.Some? && StartsWith(secretLabel.value, RNDC_SECRET_PREFIX)
      ensures secrets == if reconfigures then old(secrets)[id := old(draws)] else old(secrets)
      ensures revision == if reconfigures then Some(Revision(old(revision)) + 1) else old(revision)
    {
      reconfigures := isLeader && secretLabel.Some? && StartsWith(secretLabel.value, RNDC_SECRET_PREFIX);
      if reconfigures {
        secrets := secrets[id := draws];
        draws := draws + 1;
        BumpRevision();
      }
    }

    /** Two different keys, of one relation or of two, name different secrets with different contents; what
        is published names the same ones. */
    lemma KeysDiffer(r: RelationId, n: string, q: RelationId, m: string)
      requires Valid() && n in KeysOf(bag, r) && m in KeysOf(bag, q) && (r != q || n != m)
      ensures var id, other := KeysOf(bag, r)[n].secret, KeysOf(bag, q)[m].secret;
              id != other && id in secrets && other in secrets && secrets[id] != secrets[other]
      ensures n in KeysOf(store, r) && KeysOf(store, r)[n] == KeysOf(bag, r)[n]
    {
      assert KeysOf(bag, r) == KeysOf(store, r);
    }

    /** The name is that of a key of the relation. */
    predicate IsKeyName(relationName: string, rel: RelationId, name: string)
      reads this
    {
      exists n :: n in KeysOf(store, rel) && name == KeyName(relationName, rel, n)
    }

    /** The keys of one relation under their merged names, secrets resolved. */
    method CurrentKeys(relationName: string, rel: RelationId) returns (current: map<string, (string, nat)>)
      requires Valid()
      ensures forall n :: n in KeysOf(store, rel) ==>
                KeysOf(store, rel)[n].secret in secrets && KeyName(relationName, rel, n) in current
                && current[KeyName(relationName, rel, n)]
                   == (KeysOf(store, rel)[n].algorithm, secrets[KeysOf(store, rel)[n].secret])
      ensures forall name :: name in current ==> IsKeyName(relationName, rel, name)
    {
      var keys := KeysOf(store, rel);
      assert KeysOf(bag, rel) == keys;
      current := map[];
      var left := keys.Keys;
      while left != {}
        invariant left <= keys.Keys
        invariant forall n :: n in keys && n !in left ==>
                    KeyName(relationName, rel, n) in current
                    && current[KeyName(relationName, rel, n)] == (keys[n].algorithm, secrets[keys[n].secret])
        invariant forall name :: name in current ==> IsKeyName(relationName, rel, name)
      {
        var n :| n in left;
        KeyNamesDiffer(relationName, rel, n);
        current := current[KeyName(relationName, rel, n) := (keys[n].algorithm, secrets[keys[n].secret])];
        left := left - {n};
      }
    }

    /** `rndc_keys`: one table over all relations, rendered into named.conf; no entry is lost. */
    method RndcKeys(relationName: string) returns (table: map<string, (string, nat)>)
      requires Valid()
      ensures forall rel, n :: rel in relations && n in KeysOf(store, rel) ==>
                KeysOf(store, rel)[n].secret in secrets && KeyName(relationName, rel, n) in table
                && table[KeyName(relationName, rel, n)]
                   == (KeysOf(store, rel)[n].algorithm, secrets[KeysOf(store, rel)[n].secret])
      ensures forall name :: name in table ==>
                exists rel :: rel in relations && IsKeyName(relationName, rel, name)
    {
      table := map[];
      var todo := relations.Keys;
      while todo != {}
        invariant todo <= relations.Keys
        invariant forall rel, n :: rel in relations && rel !in todo && n in KeysOf(store, rel) ==>
                    KeysOf(store, rel)[n].secret in secrets && KeyName(relationName, rel, n) in table
                    && table[KeyName(relationName, rel, n)]
                       == (KeysOf(store, rel)[n].algorithm, secrets[KeysOf(store, rel)[n].secret])
        invariant forall name :: name in table ==>
                    exists rel :: rel in relations && IsKeyName(relationName, rel, name)
      {
        var rel :| rel in todo;
        var current := CurrentKeys(relationName, rel);
        ghost var before := table;
        table := table + current;
        todo := todo - {rel};
        forall r, n | r in relations && r !in todo && n in KeysOf(store, r) && r != rel
          ensures KeyName(relationName, r, n) !in current
        {
          if KeyName(relationName, r, n) in current {
            var n' :| n' in KeysOf(store, rel) && KeyName(relationName, r, n) == KeyName(relationName, rel, n');
            KeyNameInjective(relationName, r, n, rel, n');
            assert false;
          }
        }
      }
    }
  }

  function Revision(r: Option<nat>): nat {
    if r.Some? then r.value else 0
  }

  // ---------------------------------------------------------------- agreement

  /** What was in a secret is still in it. */
  predicate ContentsKept(secrets0: map<SecretId, nat>, secrets: map<SecretId, nat>) {
    forall id :: id in secrets0 ==> id in secrets && secrets[id] == secrets0[id]
  }

  /** The key of one nonce was set, in its own secret or a new one. */
  ghost predicate KeySet(bag0: Store, secrets0: map<SecretId, nat>, bag: Store, secrets: map<SecretId, nat>,
                         rel: RelationId, nonce: string)
  {
    && KeysOf(bag, rel).Keys == KeysOf(bag0, rel).Keys + {nonce}
    && (forall n :: n in KeysOf(bag0, rel) && n != nonce ==> KeysOf(bag, rel)[n] == KeysOf(bag0, rel)[n])
    && SameOutside(bag0, bag, {rel})
    && (if nonce in KeysOf(bag0, rel) then KeysOf(bag, rel)[nonce].secret == KeysOf(bag0, rel)[nonce].secret
        else KeysOf(bag, rel)[nonce].secret !in secrets0)
    && (forall id :: id in secrets0 ==> id in secrets)
    && (forall id :: id in secrets0 && id != KeysOf(bag, rel)[nonce].secret ==> secrets[id] == secrets0[id])
  }

  /** The nonces that had no key have one in a secret created since; everything else is as it was. */
  ghost predicate Registered(bag0: Store, secrets0: map<SecretId, nat>, bag: Store, secrets: map<SecretId, nat>,
                             rel: RelationId, nonces: set<string>, anyChange: bool)
  {
    && (anyChange <==> !(nonces <= KeysOf(bag0, rel).Keys))
    && Grown(bag0, bag, rel, nonces)
    && (!anyChange ==> bag == bag0 && secrets == secrets0)
    && ContentsKept(secrets0, secrets)
    && (forall n :: n in KeysOf(bag, rel) && n !in KeysOf(bag0, rel) ==> KeysOf(bag, rel)[n].secret !in secrets0)
  }

  lemma NothingRegistered(bag: Store, secrets: map<SecretId, nat>, rel: RelationId)
    ensures Registered(bag, secrets, bag, secrets, rel, {}, false)
  {
  }

  lemma RegisteredMore(bag0: Store, secrets0: map<SecretId, nat>, bag1: Store, secrets1: map<SecretId, nat>,
                       bag: Store, secrets: map<SecretId, nat>, rel: RelationId, nonces: set<string>, before: bool,
                       nonce: string)
    requires Registered(bag0, secrets0, bag1, secrets1, rel, nonces, before)
    requires if nonce in KeysOf(bag0, rel) then bag == bag1 && secrets == secrets1
             else KeySet(bag1, secrets1, bag, secrets, rel, nonce)
    ensures Registered(bag0, secrets0, bag, secrets, rel, nonces + {nonce}, before || nonce !in KeysOf(bag0, rel))
  {
    GrownMore(bag0, bag1, bag, rel, nonces, nonce);
    if nonce !in KeysOf(bag0, rel) {
      assert KeysOf(bag, rel)[nonce].secret !in secrets0;
    }
  }

  /** What is left of the keys of a relation without those of vanished nonces. */
  lemma KeysLeft(keys: map<string, Entry>, nonces: set<string>)
    ensures var missing := keys.Keys - nonces;
            && (missing == {} <==> keys.Keys <= nonces) && (keys - missing).Keys == keys.Keys * nonces
            && forall n :: n in keys - missing ==> (keys - missing)[n] == keys[n]
  {
    assert forall n :: n in keys.Keys && n !in nonces ==> n in keys.Keys - nonces;
  }

  lemma FewerKeys(bag0: Store, bag: Store, secrets: map<SecretId, nat>, rel: RelationId)
    requires NamesApart(bag0) && NamesSecrets(bag0, secrets) && SameOutside(bag0, bag, {rel})
    requires forall n :: n in KeysOf(bag, rel) ==> n in KeysOf(bag0, rel) && KeysOf(bag, rel)[n] == KeysOf(bag0, rel)[n]
    ensures NamesApart(bag) && NamesSecrets(bag, secrets)
  {
    forall r, n | n in KeysOf(bag, r) ensures n in KeysOf(bag0, r) && KeysOf(bag, r)[n] == KeysOf(bag0, r)[n] {
      if r != rel {
        assert KeysOf(bag, r) == KeysOf(bag0, r);
      }
    }
  }

  /** Keys stay apart when one key gets a secret of its own. */
  lemma OneKeyMore(bag0: Store, secrets0: map<SecretId, nat>, bag: Store, secrets: map<SecretId, nat>, rel: RelationId,
                   nonce: string)
    requires NamesApart(bag0) && NamesSecrets(bag0, secrets0) && KeySet(bag0, secrets0, bag, secrets, rel, nonce)
    requires KeysOf(bag, rel)[nonce].secret in secrets
    ensures NamesApart(bag) && NamesSecrets(bag, secrets)
  {
    forall r, n | n in KeysOf(bag, r) && (r != rel || n != nonce)
      ensures n in KeysOf(bag0, r) && KeysOf(bag, r)[n] == KeysOf(bag0, r)[n]
    {
      if r != rel {
        assert KeysOf(bag, r) == KeysOf(bag0, r);
      }
    }
  }

  lemma SetKeepsAgreement(bag0: Store, store0: Store, bag: Store, store: Store, rel: RelationId)
    requires Agree(bag0, store0)
    requires KeysOf(bag, rel) == KeysOf(store, rel)
    requires SameOutside(bag0, bag, {rel}) && SameOutside(store0, store, {rel})
    ensures Agree(bag, store)
  {
    forall r ensures KeysOf(bag, r) == KeysOf(store, r) {
      if r != rel {
        assert KeysOf(bag0, r) == KeysOf(store0, r);
      }
    }
  }

  /** One register-then-cleanup round leaves the relation with exactly the nonces of its units,
      and reports a change exactly when it was not so before. */
  lemma ServicedIsSettled(bag0: Store, bag: Store, relations: map<RelationId, seq<Option<string>>>, rel: RelationId,
                          registered: bool, removed: bool)
    requires rel in relations
    requires registered <==> !(NoncesOf(relations[rel]) <= KeysOf(bag0, rel).Keys)
    requires var keys := KeysOf(bag0, rel).Keys + NoncesOf(relations[rel]);
             && (removed <==> !(keys <= NoncesOf(relations[rel])))
             && KeysOf(bag, rel).Keys == keys * NoncesOf(relations[rel])
    requires forall n :: n in KeysOf(bag0, rel) && n in KeysOf(bag, rel) ==> KeysOf(bag, rel)[n] == KeysOf(bag0, rel)[n]
    requires SameOutside(bag0, bag, {rel})
    ensures ServicedOne(bag0, bag, relations, rel)
    ensures registered || removed <==> !Settled(bag0, relations, rel)
    ensures !(registered || removed) ==> SameOutside(bag0, bag, {})
  {
    var nonces := NoncesOf(relations[rel]);
    assert (KeysOf(bag0, rel).Keys + nonces) * nonces == nonces;
    if !(registered || removed) {
      assert KeysOf(bag0, rel).Keys == nonces;
      assert KeysOf(bag, rel) == KeysOf(bag0, rel);
    }
  }

  /** Relation `rel` gained keys for `nonces` and lost or changed none. */
  ghost predicate Grown(bag0: Store, bag: Store, rel: RelationId, nonces: set<string>) {
    && KeysOf(bag, rel).Keys == KeysOf(bag0, rel).Keys + nonces
    && (forall n :: n in KeysOf(bag0, rel) ==> KeysOf(bag, rel)[n] == KeysOf(bag0, rel)[n])
    && SameOutside(bag0, bag, {rel})
  }

  lemma GrownMore(bag0: Store, bag1: Store, bag: Store, rel: RelationId, nonces: set<string>, nonce: string)
    requires Grown(bag0, bag1, rel, nonces)
    requires if nonce in KeysOf(bag0, rel) then bag == bag1
             else KeysOf(bag, rel).Keys == KeysOf(bag1, rel).Keys + {nonce}
                  && (forall n :: n in KeysOf(bag1, rel) && n != nonce ==> KeysOf(bag, rel)[n] == KeysOf(bag1, rel)[n])
                  && SameOutside(bag1, bag, {rel})
    ensures Grown(bag0, bag, rel, nonces + {nonce})
  {
  }

  /** Serviced: exactly the current nonces have keys, keys that were there are kept as they
      were, and nothing else changed. */
  ghost predicate ServicedOne(bag0: Store, bag: Store, relations: map<RelationId, seq<Option<string>>>,
                              rel: RelationId)
  {
    && Settled(bag, relations, rel)
    && (forall n :: n in KeysOf(bag0, rel) && n in KeysOf(bag, rel) ==> KeysOf(bag, rel)[n] == KeysOf(bag0, rel)[n])
    && SameOutside(bag0, bag, {rel})
  }

  ghost predicate Serviced(bag0: Store, bag: Store, relations: map<RelationId, seq<Option<string>>>,
                           ids: seq<RelationId>)
  {
    && SameOutside(bag0, bag, set r | r in ids)
    && (forall r :: r in ids ==> r in relations && Settled(bag, relations, r))
    && (forall r, n :: r in ids && n in KeysOf(bag0, r) && n in KeysOf(bag, r) ==>
          KeysOf(bag, r)[n] == KeysOf(bag0, r)[n])
  }

  /** The relations serviced so far, whether something changed, and that no content was lost. */
  ghost predicate ServicedSoFar(bag0: Store, secrets0: map<SecretId, nat>, bag: Store, secrets: map<SecretId, nat>,
                                relations: map<RelationId, seq<Option<string>>>, ids: seq<RelationId>, anyChange: bool)
  {
    && Serviced(bag0, bag, relations, ids) && (anyChange <==> SomeUnsettled(bag0, relations, ids))
    && (!anyChange ==> SameOutside(bag0, bag, {}) && secrets == secrets0) && ContentsKept(secrets0, secrets)
  }

  lemma NothingServiced(bag: Store, secrets: map<SecretId, nat>, relations: map<RelationId, seq<Option<string>>>,
                        ids: seq<RelationId>)
    requires ids == []
    ensures ServicedSoFar(bag, secrets, bag, secrets, relations, ids, false)
  {
  }

  lemma FewerOutside(bag0: Store, bag: Store, ids: seq<RelationId>, i: nat)
    requires i <= |ids| && SameOutside(bag0, bag, set r | r in ids[..i])
    ensures SameOutside(bag0, bag, set r | r in ids)
  {
    assert forall r :: r in ids[..i] ==> r in ids;
  }

  lemma OneMoreId(ids: seq<RelationId>, i: nat)
    requires i < |ids|
    ensures ids[..i + 1] == ids[..i] + [ids[i]]
  {
  }

  lemma ServicedOneMore(bag0: Store, secrets0: map<SecretId, nat>, bag1: Store, secrets1: map<SecretId, nat>,
                        bag: Store, secrets: map<SecretId, nat>, relations: map<RelationId, seq<Option<string>>>,
                        done: seq<RelationId>, rel: RelationId, before: bool, changed: bool)
    requires ServicedSoFar(bag0, secrets0, bag1, secrets1, relations, done, before) && rel in relations
    requires ServicedOne(bag1, bag, relations, rel) && (changed <==> !Settled(bag1, relations, rel))
    requires (!changed ==> SameOutside(bag1, bag, {}) && secrets == secrets1) && ContentsKept(secrets1, secrets)
    ensures ServicedSoFar(bag0, secrets0, bag, secrets, relations, done + [rel], before || changed)
  {
    ServicedMore(bag0, bag1, bag, relations, done, rel, before, changed);
  }

  lemma ServicedMore(bag0: Store, bag1: Store, bag: Store, relations: map<RelationId, seq<Option<string>>>,
                     done: seq<RelationId>, rel: RelationId, before: bool, changed: bool)
    requires Serviced(bag0, bag1, relations, done) && ServicedOne(bag1, bag, relations, rel) && rel in relations
    requires changed <==> !Settled(bag1, relations, rel)
    requires before <==> SomeUnsettled(bag0, relations, done)
    requires !before ==> SameOutside(bag0, bag1, {})
    requires !changed ==> SameOutside(bag1, bag, {})
    ensures Serviced(bag0, bag, relations, done + [rel])
    ensures before || changed <==> SomeUnsettled(bag0, relations, done + [rel])
    ensures !before && !changed ==> SameOutside(bag0, bag, {})
  {
    var all := done + [rel];
    assert rel in all && forall r :: r in all <==> r in done || r == rel;
    forall r ensures r !in all ==> KeysOf(bag, r) == KeysOf(bag0, r)
             ensures r in all ==> Settled(bag, relations, r)
    {
      if r != rel {
        assert KeysOf(bag, r) == KeysOf(bag1, r);
      }
    }
    if rel !in done {
      assert KeysOf(bag1, rel) == KeysOf(bag0, rel);
    }
    KeptThrough(bag0, bag1, bag, relations, done, rel);
  }

  lemma KeptThrough(bag0: Store, bag1: Store, bag: Store, relations: map<RelationId, seq<Option<string>>>,
                    done: seq<RelationId>, rel: RelationId)
    requires Serviced(bag0, bag1, relations, done) && ServicedOne(bag1, bag, relations, rel) && rel in relations
    ensures forall r, n :: r in done + [rel] && n in KeysOf(bag0, r) && n in KeysOf(bag, r) ==>
              KeysOf(bag, r)[n] == KeysOf(bag0, r)[n]
  {
    forall r, n | r in done + [rel] && n in KeysOf(bag0, r) && n in KeysOf(bag, r)
      ensures KeysOf(bag, r)[n] == KeysOf(bag0, r)[n]
    {
      if r != rel {
        assert KeysOf(bag, r) == KeysOf(bag1, r);
      } else if rel in done {
        assert n in KeysOf(bag1, rel).Keys;
      } else {
        assert KeysOf(bag1, rel) == KeysOf(bag0, rel);
      }
    }
  }

  lemma OnlyRelation(bag0: Store, bag: Store, relations: map<RelationId, seq<Option<string>>>, rel: RelationId)
    ensures SomeUnsettled(bag0, relations, [rel]) <==> !Settled(bag0, relations, rel)
    ensures Serviced(bag0, bag, relations, [rel]) && rel in relations ==> Settled(bag, relations, rel)
  {
    assert rel in [rel];
  }

  /** What servicing one relation leaves to do. */
  lemma OthersUnsettled(bag0: Store, bag: Store, relations: map<RelationId, seq<Option<string>>>, rel: RelationId,
                        all: seq<RelationId>)
    requires (forall r :: r in all <==> r in relations) && Settled(bag, relations, rel)
    requires SameOutside(bag0, bag, set r | r in [rel])
    ensures SomeUnsettled(bag, relations, all) <==>
              exists r :: r in relations && r != rel && !Settled(bag0, relations, r)
  {
    forall r | r != rel ensures Settled(bag, relations, r) <==> Settled(bag0, relations, r) {
      assert KeysOf(bag, r) == KeysOf(bag0, r);
    }
  }

  /** Two bumps for one event: units of two relations published a nonce, and the event is about the
      first relation only. */
  method TwoBumps() returns (registry: RndcRegistry, bumps: nat)
    ensures fresh(registry) && registry.Valid() && bumps == 2 && registry.revision == Some(2)
    ensures Settled(registry.bag, registry.relations, 1) && Settled(registry.bag, registry.relations, 2)
  {
    registry := new RndcRegistry();
    registry.relations := map[1 := [Some("a")], 2 := [Some("b")]];
    assert Some("a") in [Some("a")] && Some("b") in [Some("b")];
    assert "a" in NoncesOf(registry.relations[1]) && "b" in NoncesOf(registry.relations[2]);
    assert !Settled(registry.bag, registry.relations, 1) && !Settled(registry.bag, registry.relations, 2);
    bumps := registry.ServiceFromEvent(1, [1, 2], true);
  }

  // ---------------------------------------------------------------- names in the merged table

  function Digit(d: nat): (c: char)
    requires d < 10
    ensures '0' <= c <= '9'
  {
    ['0', '1', '2', '3', '4', '5', '6', '7', '8', '9'][d]
  }

  /** `str(id)`. */
  function Decimal(n: nat): (s: string)
    ensures s != "" && forall i :: 0 <= i < |s| ==> '0' <= s[i] <= '9'
  {
    if n < 10 then [Digit(n)] else Decimal(n / 10) + [Digit(n % 10)]
  }

  /** `relation.name + ":" + str(relation.id) + "_" + nonce`. */
  function KeyName(relationName: string, rel: RelationId, nonce: string): string {
    relationName + ":" + Decimal(rel) + "_" + nonce
  }

  lemma DigitInjective(c: nat, d: nat)
    requires c < 10 && d < 10 && Digit(c) == Digit(d)
    ensures c == d
  {
  }

  lemma DecimalEnds(n: nat)
    ensures Last(Decimal(n)) == Digit(n % 10)
    ensures n >= 10 ==> Front(Decimal(n)) == Decimal(n / 10)
    ensures |Decimal(n)| == 1 <==> n < 10
  {
    if n >= 10 {
      var d := Decimal(n / 10);
      assert Front(d + [Digit(n % 10)]) == d;
    }
  }

  lemma {:induction false} DecimalInjective(a: nat, b: nat)
    requires Decimal(a) == Decimal(b)
    ensures a == b
  {
    DecimalEnds(a);
    DecimalEnds(b);
    DigitInjective(a % 10, b % 10);
    if a >= 10 {
      DecimalInjective(a / 10, b / 10);
    }
  }

  /** What follows the relation name is cut at the first underscore, whatever the nonce contains. */
  lemma CutAtUnderscore(rel: RelationId, nonce: string)
    ensures SplitOnce(Decimal(rel) + "_" + nonce, '_') == Some((Decimal(rel), nonce))
  {
    var d := Decimal(rel);
    var t := d + "_" + nonce;
    assert t[..|d|] == d && t[|d| + 1..] == nonce;
    FindIs(t, '_', |d|);
  }

  lemma SamePrefix(head: string, a: string, b: string)
    requires head + a == head + b
    ensures a == b
  {
    assert a == (head + a)[|head|..] && b == (head + b)[|head|..];
  }

  /** The merged names are unambiguous, whatever the nonces contain. */
  lemma KeyNameInjective(relationName: string, rel1: RelationId, n1: string, rel2: RelationId, n2: string)
    requires KeyName(relationName, rel1, n1) == KeyName(relationName, rel2, n2)
    ensures rel1 == rel2 && n1 == n2
  {
    var head := relationName + ":";
    assert KeyName(relationName, rel1, n1) == head + (Decimal(rel1) + "_" + n1);
    assert KeyName(relationName, rel2, n2) == head + (Decimal(rel2) + "_" + n2);
    SamePrefix(head, Decimal(rel1) + "_" + n1, Decimal(rel2) + "_" + n2);
    CutAtUnderscore(rel1, n1);
    CutAtUnderscore(rel2, n2);
    DecimalInjective(rel1, rel2);
  }

  lemma KeyNamesDiffer(relationName: string, rel: RelationId, n: string)
    ensures forall rel', n' :: KeyName(relationName, rel', n') == KeyName(relationName, rel, n) ==>
              rel' == rel && n' == n
  {
    forall rel', n' | KeyName(relationName, rel', n') == KeyName(relationName, rel, n) ensures rel' == rel && n' == n {
      KeyNameInjective(relationName, rel', n', rel, n);
    }
  }
}
