# Verification of the sunbeam charms' stateful core

The charms in this repository run as Juju hooks on many units that share no memory: leadership moves,
pods are replaced and lose their local storage, and two applications talk through databags. This
project models the places where that state is hard to keep right, and proves what the code promises
about them.

| module | models |
|---|---|
| `Bootstrap` | `configure_charm` on N units, stage by stage and interleaved, with leadership moves, pod replacement, raising stages and crashing hooks; and the same hook as one unit runs it |
| `Rollout` | rounds of undisturbed hooks on that machine: what they bring up and what a replaced pod repeats |
| `Credentials` | the user-identity requirer, keystone's side of the request slot, and every interleaving of the two |
| `OpRequests` | the op requests the requirer generates and the interpreter `handle_op_request` that runs them |
| `UserRequests` | the delete requests and what the requirer reads from keystone's replies, with the interpreter between |
| `Rndc` | designate-bind's key registry: relation bags, peer store, secrets, nonces, revision |
| `Restart` | configuration files written twice per hook and the service restarts they cause |
| `Domains` | keystone's domain files on disk |
| `ServiceAccounts` | keystone's rotation of the service accounts it hands out |
| `Repository` | `repository.py prepare` and `clean` of one charm in a file tree, and the command line over several |
| `CharmLists` | the same over a list of charms |
| `PrepareSuccess`, `PrepareExamples` | when `prepare` goes through, and two repositories on which `clean` fails and succeeds |
| `StatusPools` | the status pool and its survival across hooks |
| `LogWriting` | the chunked line splitter in `PebbleHandler.execute` |
| `Annotations` | the load balancer annotation parser, with its regular expressions |
| `HardwareTypes` | the merge of ironic hardware types, with Python lists as objects |
| `Naming` | snake and kebab case, and the field names of the configuration model |
| `RetiredUsers` | the list of users waiting for deletion, kept on both sides |
| `Text` | the string operations the others share |

Code that changes state is a class whose methods are proved equal to a function of the old state;
the functions are then the steps of a state machine over which the run properties are proved by
induction. Code made of expressions stays functions.

## What the proofs found

Each of these is a lemma with the exact condition; where it takes a run or a tree to show the failure,
another lemma gives one.

- `leader_ready` is safe on every run exactly if the charm declares a peers relation and leadership is
  stable inside a hook (`SafeOnEveryRunIffStableWithPeers`; `LeadershipMustBeStable` is the failing run).
- The rotation protocol is safe exactly with `add_suffix` (`SafeOnEveryRunIffSuffix`). A rotation keeps
  track of every account exactly if the config credentials have caught up, or the user it replaces
  neither exists nor is still requested (`RotationAccountingIff`; `RotationMayLeak` is a failing run).
- The config user exists on keystone at every moment of a run exactly if every create reply that moves
  the config finds the shared user's account there (`ConfigAlwaysExistsIff`). Replies are not compared
  with the request, so an old one handled again can break this (`StaleReplyStrandsTheService`);
  comparing them would do (`MatchedRunConfigExists`).
- An RNDC event bumps the revision twice instead of once exactly if some other relation was unsettled
  too and the hook reaches its app step (`ServiceFromEvent`; `TwoBumps` is a registry where it happens).
- A hook that aborts between writing files and restarting loses the restart: the next hook finds the
  files unchanged (`AbortLosesTheRestart`, `ServiceKeepsTheOldFile`). Over any sequence of hooks a
  running service is up to date exactly if no such abort followed its last start, or the last rendering
  is again the one it loaded (`UpToDateIff`; `TakenBack` shows that the second case is real).
- A domain name with a dot is removed and rewritten, with a restart, on every run unless its first
  segment is itself active (`SecondRunIsQuietIff`). A run changes files without a restart exactly if CA
  files are all that has to go (`ChangesWithoutRestartIff`, `OldCaGoesWithoutRestart`). An active domain
  that no longer has a CA keeps the old CA file (`ActiveCaIs`).
- The account a service secret names exists exactly if some creation for that secret went through
  (`AccountExistsIff`); a first creation that fails leaves a secret without one (`FirstCreationMayFail`).
- Service secrets are created under a label with `-` replaced by `_`, but the rotate handler looks for
  the unreplaced name: rotation reaches an application exactly if its name has no dash
  (`RotationReachesIff`). The remove handler compares prefixes, so the secret of `nova` also deletes the
  retired users of `nova2`, against its comment (`RemovalTakesIff`, `NovaTakesNova2`).
- `clean` undoes `prepare` exactly if every library name has four parts, and raises otherwise
  (`CleanUndoesPrepare`). `prepare` accepts an external library without them (`CleanMayFail`;
  `CleanMayUndo` is a charm with libraries and a template that comes back whole). Whether `prepare`
  goes through at all is `PrepareSucceedsIff`.
- Python's `$` also matches before a final newline, so an annotation key may have a newline before its
  slash (`PrefixAcceptedIff`, `NewlineBeforeSlashIsAccepted`). The comment on the DNS expression rules
  out consecutive dashes; the expression, and the model, allow them. With repeated keys only the last
  pair is validated (`AcceptedIff`).
- The computed status survives a reload in every order of re-adding exactly if entries tied for the top
  would show the same (`ReloadShowsTheSameIff`).
- The hardware merge raises `KeyError` exactly with ipxe and no known type (`KeyErrorIff`).
- Two option names collide in one field exactly if they have the same words (`NamesCollideIff`).

## Assumptions that are visible in the contracts

Leadership is stable inside a hook (`StableRun`); random suffixes never repeat a username (`NamedRun`,
`FreshNames`), and carry no dash (`UsersDifferIff`); user, domain, role and project names do not start with
"secret://", which keystone would look up as a secret (`IsPlainText`); keystone's `delete_user` returns the name
it was given (`DeletesByName`); the handlers of a charm are distinct objects over distinct containers; nothing is at the
managed paths before `prepare` (`NothingManaged`), no two sources claim one destination (`Sound`) and
charm directories are not nested (`Separate`); what `prepare` writes is not in its own way (`Apart`, which
follows from `Sound` with four-part names).

## Model

| member | source | states |
|---|---|---|
| `Bootstrap.NextKeepsInv` | ops-sunbeam/ops_sunbeam/charm.py:304-371 | every event (any unit's stage, raise, crash, pod replacement, leadership move outside hooks) keeps the invariant that a stored label or flag was set by a leader after a sync, or after the published gate was passed |
| `Bootstrap.LeaderReadyOnlyAfterSync` | ops-sunbeam/ops_sunbeam/charm.py:335-371 | on every stable run of any number of units, `leader_ready` or an active workload implies that a leader ran all sync commands, in order and back to back |
| `Bootstrap.StoredStateIsJustified` | ops-sunbeam/ops_sunbeam/job_ctrl.py:54-73 | on every stable run, a pod's "db-sync" label or `unit_bootstrapped` flag was first set by this pod in a hook it led once a leader had synced, or in a hook that passed the published `leader_ready` gate |
| `Bootstrap.LeaderReadyIsMonotone` | ops-sunbeam/ops_sunbeam/relation_handlers.py:741-751 | once published, `leader_ready` survives every run |
| `Bootstrap.ActiveOnlyAfterAllStages` | ops-sunbeam/ops_sunbeam/charm.py:769-803 | on every run, also without a peers relation and with leadership moving inside hooks, the workload turns active only in the last step of a hook all of whose earlier stages returned, in order |
| `Bootstrap.SafeOnEveryRunIffPeers` | ops-sunbeam/ops_sunbeam/charm.py:613-631 | all stable runs are safe if and only if the charm has a peers relation |
| `Bootstrap.LeadershipMustBeStable` | ops-sunbeam/ops_sunbeam/charm.py:861-884 | a run with leadership moving inside a hook that publishes `leader_ready` with no sync |
| `Bootstrap.SafeOnEveryRunIffStableWithPeers` | ops-sunbeam/ops_sunbeam/charm.py:304-371 | all runs, with leadership moving inside hooks or not, are safe if and only if there is a peers relation and leadership is stable |
| `Bootstrap.OperatorUnit.RunDbSync` | ops-sunbeam/ops_sunbeam/charm.py:861-884 | the wrapped db sync takes the hook from the sync stage to the next, or to the outcome of the failing command with the label unrecorded |
| `Bootstrap.OperatorUnit.ConfigureUnit` | ops-sunbeam/ops_sunbeam/charm.py:769-778 | the unit's stages in order, the gate included, and the flag set only when all returned |
| `Bootstrap.OperatorUnit.ConfigureApp` | ops-sunbeam/ops_sunbeam/charm.py:335-353 | the leader publishes (lost while the peers relation does not exist), others pass only when bootstrapped |
| `Bootstrap.OperatorUnit.Guarded` | ops-sunbeam/ops_sunbeam/charm.py:360-371 | a completed guarded section leaves the solo run's result with status active; a failing one leaves what was done so far |
| `Bootstrap.OperatorUnit.ConfigureCharm` | ops-sunbeam/ops_sunbeam/guard.py:100-143 | a whole hook with any fault at any point equals the outcome said without stages; without a fault, a hook that leads, has no peers relation or sees `leader_ready` ends active with flag and label set, publishes exactly if it leads and the peers relation exists, and runs the sync commands exactly if it leads without a label; a hook with the gate closed ends waiting and changes nothing else; each exception that is reached leaves its own status |
| `Bootstrap.HookOutcomeIs` | ops-sunbeam/ops_sunbeam/charm.py:304-371 | the stages run one after the other have exactly the outcome that gate, fault and label determine |
| `Bootstrap.HookIsARun` | ops-sunbeam/ops_sunbeam/charm.py:360-371 | an uninterrupted hook is a run of the N-unit machine with the same outcome, so the run theorems apply to the method |
| `Rollout.OneHook` | ops-sunbeam/ops_sunbeam/charm.py:304-371 | a hook of an idle unit with nothing raising is a run after which the unit is up if it may pass the gate, with exactly the commands it owed, and otherwise waits with nothing changed; other units are as before |
| `Rollout.RolloutCompletes` | ops-sunbeam/ops_sunbeam/charm.py:335-371 | from any state with a leader and all units idle, one undisturbed round, the leader first and the others in any order, brings every unit up, publishes `leader_ready`, and runs the sync commands exactly if the leader had not recorded them |
| `Rollout.ComesBack` | ops-sunbeam/ops_sunbeam/job_ctrl.py:54-73 | a replaced pod, or one whose hook died, comes up again with one hook once it may pass; the leader repeats all sync commands unless its pod still has the label, another unit runs none |
| `Credentials.UserIdentityHandler.EnsureCredentials` | ops-sunbeam/ops_sunbeam/relation_handlers.py:1731-1765 | the shared secret keeps its user unless it is new or refreshed, and nothing else changes |
| `Credentials.UserIdentityHandler.UpdateConfigCredentials` | ops-sunbeam/ops_sunbeam/relation_handlers.py:1786-1809 | the config secret follows the shared one and reports whether it changed |
| `Credentials.UserIdentityHandler.AddUserToDeleteList` | ops-sunbeam/ops_sunbeam/relation_handlers.py:1932-1939 | a user is listed once |
| `Credentials.UserIdentityHandler.OnProviderReady` | ops-sunbeam/ops_sunbeam/relation_handlers.py:2021-2028 | the leader requests the shared user; others change nothing |
| `Credentials.UserIdentityHandler.OnSecretRotate` | ops-sunbeam/ops_sunbeam/relation_handlers.py:1977-1996 | only the leader, and only for the shared secret's label, stores the new credentials and requests their user; the config and the list stay |
| `Credentials.UserIdentityHandler.OnSecretRemove` | ops-sunbeam/ops_sunbeam/relation_handlers.py:1998-2019 | only the leader, only for the config secret's label, and only if users are listed, requests the deletion of all of them |
| `Credentials.UserIdentityHandler.OnResponseAvailable` | ops-sunbeam/ops_sunbeam/relation_handlers.py:1921-1957 | a create reply moves the config credentials and lists the replaced user; a delete reply unlists exactly what it deleted |
| `Credentials.NextKeepsSafe` | ops-sunbeam/ops_sunbeam/relation_handlers.py:1786-1809 | every step of requirer or provider keeps the safety invariant when usernames are new |
| `Credentials.RunIsSafe` | ops-sunbeam/ops_sunbeam/relation_handlers.py:1921-2014 | over every interleaving, stale replies included, neither the config user nor the shared user is in `old_users` or in any delete request ever sent, and `old_users` has no duplicates |
| `Credentials.SafeOnEveryRunIffSuffix` | ops-sunbeam/ops_sunbeam/relation_handlers.py:1731-1765 | that safety holds on all runs if and only if `add_suffix` is set |
| `Credentials.RotationAccountingIff` | ops-sunbeam/ops_sunbeam/relation_handlers.py:1977-1996 | a rotation keeps every account known if and only if the config has caught up, or the replaced user neither exists nor stays requested |
| `Credentials.RotationMayLeak` | ops-sunbeam/ops_sunbeam/relation_handlers.py:1977-1996 | a rotation before the config caught up leaves an account that nothing names |
| `Credentials.RunIsAccounted` | ops-sunbeam/ops_sunbeam/relation_handlers.py:1921-1957 | over every run with such rotations, every existing or requested account is the shared user, the config user or listed for deletion |
| `Credentials.ConfigStaysIff` | ops-sunbeam/ops_sunbeam/relation_handlers.py:2030-2044 | one step keeps the config user existing on keystone if and only if it does not catch up with a shared user that has no account |
| `Credentials.ConfigAlwaysExistsIff` | ops-sunbeam/ops_sunbeam/relation_handlers.py:1921-1930 | over a run the config user exists at every moment if and only if every handled create reply is so grounded |
| `Credentials.MatchedRunConfigExists` | ops-sunbeam/ops_sunbeam/relation_handlers.py:2030-2044 | comparing create replies with the current request, which the code does not do, would be enough for that |
| `Credentials.StaleReplyStrandsTheService` | ops-sunbeam/ops_sunbeam/relation_handlers.py:2030-2044 | a run in which a stale reply leaves the config with a user that does not exist |
| `Credentials.RemovalCompletes` | ops-sunbeam/ops_sunbeam/relation_handlers.py:1998-2019 | after a removal that is sent, a delete of everything requested and the handling of its reply, no user that was listed is listed or has an account, and no other account is gone |
| `OpRequests.HandleOpRequest` | charms/keystone-k8s/src/charm.py:2914-2951 | replies and client calls equal those of the op-by-op run of the sanitized request, errors included |
| `OpRequests.RunIsAligned` | charms/keystone-k8s/src/charm.py:2914-2951 | one reply per op, in order and under its name, no -2 left; 0 only for an op that was called; calls at most once per op and in order |
| `OpRequests.CodesAreExact` | charms/keystone-k8s/src/charm.py:2943-2949 | the reply of an op is 0 with the returned value exactly if the op was called and the call returned; a call that raised is answered -1 with its text, and an op that was not called -1 |
| `OpRequests.CalledExactly` | charms/keystone-k8s/src/charm.py:2931-2943 | exactly the ops whose method exists and whose references have enough earlier results are called, with each parameter passed as its text, flag or the field of the result it names |
| `OpRequests.RunPrefix` | charms/keystone-k8s/src/charm.py:2926-2951 | later ops change no earlier reply or call |
| `OpRequests.ContextHoldsFirst` | charms/keystone-k8s/src/charm.py:2930-2951 | the template context has a name exactly if some op has it, with the first such op's result first |
| `OpRequests.ContextIs` | charms/keystone-k8s/src/charm.py:2926-2949 | under each name the context has the results of all ops of that name, in order |
| `OpRequests.ReferenceMeansFirst` | charms/keystone-k8s/src/charm.py:2934-2942 | an index-0 reference to an earlier op renders to that field of the first op of the name in the whole request |
| `OpRequests.CreateUserRequest` | ops-sunbeam/ops_sunbeam/relation_handlers.py:1811-1853 | the generated list is the settings' own ops followed by the valid extra ops |
| `OpRequests.ExtraOpsInPlace` | ops-sunbeam/ops_sunbeam/relation_handlers.py:1839-1846 | each extra op in its place: a dict as it is, a function's result, anything else skipped |
| `OpRequests.CreateRoleRequests` | ops-sunbeam/ops_sunbeam/relation_handlers.py:1855-1899 | no grants without a role; a domain grant, and with a project its lookup and grant |
| `OpRequests.GeneratedRequestIsWellScoped` | ops-sunbeam/ops_sunbeam/relation_handlers.py:1811-1899 | for every choice of role, project, project domain and identifiers, each reference names the first op of that name at an earlier index, and extra ops cannot capture it |
| `OpRequests.SanitizedIsWellScopedIff` | charms/keystone-k8s/src/charm.py:2878-2897 | filling in secrets neither adds nor breaks a reference: the request keystone runs is well scoped if and only if the one sent is |
| `OpRequests.ProjectGrantNamesTheNewUser` | ops-sunbeam/ops_sunbeam/relation_handlers.py:1878-1899 | whatever the client returns, whatever secrets are filled in and whatever extra ops follow, keystone calls the project grant with the ids returned for this request's own project, role, user and domain |
| `OpRequests.UserIsCreated` | ops-sunbeam/ops_sunbeam/relation_handlers.py:1827-1837 | run by keystone, the request creates the user under the generated name, with the password the secret holds and the handler's other settings |
| `OpRequests.DomainAndRoleAreCreated` | ops-sunbeam/ops_sunbeam/relation_handlers.py:1815-1826 | it creates the domain enabled, and the role if one is set |
| `OpRequests.DomainGrantIsCalled` | ops-sunbeam/ops_sunbeam/relation_handlers.py:1859-1871 | it grants the role to that user on the domain, leaving out what is not set |
| `OpRequests.ProjectIsLookedUp` | ops-sunbeam/ops_sunbeam/relation_handlers.py:1872-1882 | it looks the project up in its own domain, or in the user's |
| `OpRequests.GenerateAndHandle` | charms/keystone-k8s/src/charm.py:2914-2951 | the same from the handler's settings to the calls, through the generating and the interpreting methods |
| `UserRequests.DeleteUserRequest` | ops-sunbeam/ops_sunbeam/relation_handlers.py:1901-1919 | one delete op per listed user, in order, with the domain if one is set |
| `UserRequests.ProcessDeleteUserResponse` | ops-sunbeam/ops_sunbeam/relation_handlers.py:1941-1957 | raises exactly on a 0 without a record; otherwise the names with code 0 leave the list |
| `UserRequests.SucceedsIff` | ops-sunbeam/ops_sunbeam/relation_handlers.py:1921-1922 | a reply counts as a success if and only if there was an op and every op was called and returned |
| `UserRequests.SuccessCreatesTheUser` | ops-sunbeam/ops_sunbeam/relation_handlers.py:1921-1930 | whenever the requirer is about to move its credentials, keystone has created exactly that user with that password |
| `UserRequests.NamedIffDeleted` | ops-sunbeam/ops_sunbeam/relation_handlers.py:1941-1957 | the names read from the reply to a delete request are exactly the users whose deletion was called and returned, whatever secrets are filled in |
| `UserRequests.DeleteOldUsers` | ops-sunbeam/ops_sunbeam/relation_handlers.py:1998-2019 | request, interpreter and reading together: every listed user is deleted by one call, and those whose call returned leave the list, as the reply step of `Credentials` says |
| `Rndc.RndcRegistry.NewRndcKey` | charms/designate-bind-k8s/src/charm.py:469-498 | a new secret, or the one the store names, with content that no secret has had; no other entry or secret changes |
| `Rndc.RndcRegistry.KeysDiffer` | charms/designate-bind-k8s/src/charm.py:469-498 | two keys of different relations or nonces name different secrets with different contents (part of the invariant every operation keeps, rotation included) |
| `Rndc.RndcRegistry.RegisterClients` | charms/designate-bind-k8s/src/charm.py:403-445 | keys for exactly the nonces that had none, existing keys and the contents behind them kept, new contents new, bag and store agreeing |
| `Rndc.RndcRegistry.CleanupClients` | charms/designate-bind-k8s/src/charm.py:500-553 | exactly the keys of vanished nonces go from bag and store; the store entry is always there |
| `Rndc.RndcRegistry.ServiceRequests` | charms/designate-bind-k8s/src/charm.py:367-392 | every serviced relation ends with the keys of exactly its nonces in bag and store, the others untouched, and every key kept keeps its content; returns true, and bumps the revision by one, exactly if some relation was unsettled; otherwise changes nothing |
| `Rndc.RndcRegistry.ServiceFromEvent` | charms/designate-bind-k8s/src/charm.py:356-365 | the chain through `configure_charm`, which may or may not reach its app step, bumps the revision 0, 1 or 2 times, by what was unsettled; after reaching it nothing is left to do |
| `Rndc.TwoBumps` | charms/designate-bind-k8s/src/charm.py:356-365 | a registry with two unserved relations on which one event bumps the revision twice |
| `Rndc.RndcRegistry.OnSecretRotate` | charms/designate-bind-k8s/src/charm.py:227-239 | exactly on the leader and for a labelled RNDC secret: new content under the same id, one bump and a reconfiguration; bag and store still agree |
| `Rndc.RndcRegistry.RndcKeys` | charms/designate-bind-k8s/src/charm.py:149-175 | the merged table has every key of every relation with its secret's content, and nothing else |
| `Rndc.ServicedIsSettled` | charms/designate-bind-k8s/src/charm.py:376-389 | registering then cleaning one relation settles it, and something changed exactly if it was not settled |
| `Rndc.ServicedMore` | charms/designate-bind-k8s/src/charm.py:376-389 | the loop's change flag accumulates exactly over relations, also when one is listed twice |
| `Rndc.KeyNameInjective` | charms/designate-bind-k8s/src/charm.py:149-175 | merged key names determine relation and nonce, whatever the nonce contains |
| `Restart.ServicePebbleHandler.WriteFile` | ops-sunbeam/ops_sunbeam/templating.py:72-105 | compares then writes: reports a change exactly if the file was missing or different |
| `Restart.ServicePebbleHandler.WriteConfig` | ops-sunbeam/ops_sunbeam/container_handlers.py:177-210 | all files rendered; the list names exactly those that were missing or different, in order |
| `Restart.ServicePebbleHandler.ConfigureContainer` | ops-sunbeam/ops_sunbeam/container_handlers.py:239-245 | the remembered list grows by exactly the files found different |
| `Restart.ServicePebbleHandler.StartAll` | ops-sunbeam/ops_sunbeam/container_handlers.py:413-444 | every service is started if stopped and restarted if asked, although the memory of changed files is reset inside the loop; it is empty afterwards exactly if it was or some service was (re)started |
| `Restart.ServicePebbleHandler.StopAll` | ops-sunbeam/ops_sunbeam/container_handlers.py:446-458 | every service of a reachable container is stopped, files and what was loaded stay |
| `Restart.StopServices` | ops-sunbeam/ops_sunbeam/charm.py:760-767 | the same for exactly the containers that are ready |
| `Restart.ServicePebbleHandler.StartService` | ops-sunbeam/ops_sunbeam/container_handlers.py:481-498 | every service known before is known and running; if the handler's own was unknown, so are those of its layer, the added ones with the disk as it is; there are no others |
| `Restart.StartingStartsAll` | ops-sunbeam/ops_sunbeam/container_handlers.py:493-497 | adding the layer and starting everything leaves exactly the services known before and those of the layer, all running |
| `Restart.ServicePebbleHandler.InitService` | ops-sunbeam/ops_sunbeam/container_handlers.py:468-479 | the same, and services restart exactly if a change was remembered or is found now |
| `Restart.ConfigureContainers` | ops-sunbeam/ops_sunbeam/charm.py:722-733 | succeeds exactly if all containers are ready; every container up to the first that is not has its files written, the others are untouched |
| `Restart.ConfigureUnit` | ops-sunbeam/ops_sunbeam/charm.py:722-747 | completes exactly if all containers are ready and the sync succeeds; then each has its files as rendered, every service known before and, if the handler's was unknown, every one of its layer runs, and is as the completed hook says; otherwise no service is touched and exactly the containers reached have their files written |
| `Restart.FailedSync` | ops-sunbeam/ops_sunbeam/charm.py:769-778 | what a hook whose sync fails leaves for the next one: files written, services as they were, nothing remembered |
| `Restart.RelationsNotReady` | ops-sunbeam/ops_sunbeam/charm.py:311-319 | what a hook that found a mandatory relation missing leaves for the next one: services stopped, files as they were, nothing remembered |
| `Restart.WritingTwice` | ops-sunbeam/ops_sunbeam/container_handlers.py:239-245 | the second write of a hook finds nothing to do |
| `Restart.CompletedHookIsExact` | ops-sunbeam/ops_sunbeam/container_handlers.py:468-497 | after a completed hook a service has loaded the rendered files if and only if it was stopped, some file differed, or it already had; restarts count exactly the hooks with a difference |
| `Restart.RestartExactness` | ops-sunbeam/ops_sunbeam/container_handlers.py:413-444 | from an up-to-date container every service runs with the rendered config, a running one was restarted if and only if some file differed, and the container stays up to date |
| `Restart.AbortLosesTheRestart` | ops-sunbeam/ops_sunbeam/container_handlers.py:177-210 | after such a hook the next one leaves a running service on old files exactly if something had differed |
| `Restart.ServiceKeepsTheOldFile` | ops-sunbeam/ops_sunbeam/container_handlers.py:468-479 | a failed sync and a completed hook after which the disk has the new file and the running service the old one |
| `Restart.LoadedAtLastStart` | ops-sunbeam/ops_sunbeam/container_handlers.py:413-444 | over any sequence of completed, aborted and stopping hooks a running service has loaded the disk as it was at its last (re)start |
| `Restart.UpToDateIff` | ops-sunbeam/ops_sunbeam/container_handlers.py:413-497 | over any such sequence, each hook with its own rendering, it has loaded what is on disk if and only if no abort with a difference followed, or the last rendering is again the one it loaded |
| `Restart.TakenBack` | ops-sunbeam/ops_sunbeam/container_handlers.py:177-210 | two aborts, the second taking the change back, leave the service up to date |
| `Domains.DomainConfigurator.RemoveOldDomains` | charms/keystone-k8s/src/charm.py:2145-2175 | raises exactly on a file name without a dot, with only files that had to go gone by then; otherwise exactly the files of active domains and the excluded CAs stay; reports a removal exactly if a configuration file went |
| `Domains.DomainConfigurator.UpdateDomainConfig` | charms/keystone-k8s/src/charm.py:2177-2225 | files as requested in order; empty result exactly if every file was in step, and then nothing changed |
| `Domains.DomainConfigurator.ConfigureDomains` | charms/keystone-k8s/src/charm.py:2227-2242 | removal then update, with one restart exactly if a configuration was removed or a file written |
| `Domains.OneFilePerDomain` | charms/keystone-k8s/src/charm.py:2227-2242 | with dot-free distinct names in an owned directory: exactly one file keystone.NAME.conf per active domain with the requested contents, and the requested CA file for each that has a CA |
| `Domains.ActiveCaIs` | charms/keystone-k8s/src/charm.py:2166-2223 | the CA file of an active domain is as requested; one that is no longer requested stays as it was |
| `Domains.BundlesStay` | charms/keystone-k8s/src/charm.py:2151-2174 | the two bundles that belong to no domain stay as they are |
| `Domains.SecondRunIsQuietIff` | charms/keystone-k8s/src/charm.py:2145-2242 | a second run changes and restarts nothing if and only if every active name is recognised on disk and relations naming one domain agree |
| `Domains.DotFreeIsRecognised` | charms/keystone-k8s/src/charm.py:2159-2166 | dot-free names are recognised; a lone dotted one never is |
| `Domains.ChangesWithoutRestartIff` | charms/keystone-k8s/src/charm.py:2167-2242 | a run changes files without a restart if and only if every configuration is in step and stays, and some CA file has to go |
| `Domains.OldCaGoesWithoutRestart` | charms/keystone-k8s/src/charm.py:2167-2175 | the CA file of a domain that is no longer related is removed without a restart |
| `ServiceAccounts.KeystoneAccounts.OnSecretRotate` | charms/keystone-k8s/src/charm.py:1782-1818 | for a related application's label on the leader: the secret names svc_APP-SUFFIX, that account exists, and the user before is listed once; a failed creation stores nothing |
| `ServiceAccounts.KeystoneAccounts.OnSecretRemove` | charms/keystone-k8s/src/charm.py:1863-1889 | exactly the listed users whose name after the prefix starts with the label lose account and listing; if a deletion raises, the list keeps them all |
| `ServiceAccounts.KeystoneAccounts.AddService` | charms/keystone-k8s/src/charm.py:2387-2415 | the secret is stored first and once per label, then its account is created or not |
| `ServiceAccounts.UsersDifferIff` | charms/keystone-k8s/src/charm.py:1790-1796 | with dash-free suffixes two generated users are the same if and only if label and suffix are |
| `ServiceAccounts.EveryRunIsSafe` | charms/keystone-k8s/src/charm.py:1782-1889 | over every sequence of additions, rotations and removals with fresh names, failed ones included, the account of a current secret is never listed or deleted, secrets have distinct accounts, the list has no duplicates |
| `ServiceAccounts.AccountExistsIff` | charms/keystone-k8s/src/charm.py:2387-2415 | the account of a current secret exists on keystone if and only if some creation for that secret went through |
| `ServiceAccounts.FirstCreationMayFail` | charms/keystone-k8s/src/charm.py:2387-2415 | a secret without an account after a failed first creation |
| `ServiceAccounts.RotationReachesIff` | charms/keystone-k8s/src/charm.py:1135-1167 | the label a secret is created under is one the handlers look for exactly if the application name has no dash |
| `ServiceAccounts.RemovalReachesIff` | charms/keystone-k8s/src/charm.py:1875-1884 | a retired user of one application matches another's secret label exactly if the other's name is a prefix |
| `ServiceAccounts.RemovalTakesIff` | charms/keystone-k8s/src/charm.py:1863-1889 | after one application is added and rotated, removing a revision of another's secret deletes its old account and unlists it if and only if the other's name is a prefix |
| `ServiceAccounts.NovaTakesNova2` | charms/keystone-k8s/src/charm.py:1875-1884 | nova's secret takes nova2's retired account with it |
| `Repository.Repository.PrepareCharm` | repository.py:145-193 | the steps in order up to the first exception, and the tree it leaves then; a dry run changes nothing and checks the same names |
| `Repository.Repository.CleanCharm` | repository.py:195-230 | the removals in order up to the first exception, and the tree it leaves then; a dry run fails exactly on a name without four parts |
| `Repository.Repository.PrepareCli` | repository.py:320-339 | each charm cleaned first if asked, then prepared, up to the first exception, and the tree it leaves then; a dry run changes nothing and fails exactly if a check of some charm does |
| `Repository.Repository.CleanCli` | repository.py:342-352 | each charm cleaned, up to the first exception, and the tree it leaves then; the same for a dry run |
| `Repository.CleanRemovesTheManaged` | repository.py:195-230 | whatever tree it gets through, clean leaves exactly the unmanaged files; on matching kinds it gets through if and only if all names have four parts |
| `Repository.PrepareCopiesTheSources` | repository.py:145-193 | every managed file equals its source, none is missing or extra, nothing else changes |
| `Repository.FailedPrepareCopiesOnly` | repository.py:145-193 | whatever exception stops prepare, the managed files there are copies of their sources and nothing else has changed |
| `Repository.FailedCleanLeavesTheRest` | repository.py:195-230 | whatever exception stops clean, of whatever tree, only managed files are gone |
| `PrepareSuccess.PrepareSucceedsIff` | repository.py:145-193 | on a tree with nothing at the managed paths, prepare goes through if and only if the package, the utility file and the source of every named file are there and no file is in the way |
| `PrepareSuccess.SoundIsApart` | repository.py:145-193 | a build with sound sources and four-part names does not get in its own way, so that condition applies to it |
| `Repository.CleanUndoesPrepare` | repository.py:48-52 | clean after prepare gives back the same tree if and only if every library name has four parts, and raises otherwise |
| `PrepareExamples.CleanMayFail` | repository.py:48-52 | a tree and a build that the validation accepts, with the external library "m", a library of another charm and a template, that prepare accepts and clean raises on |
| `PrepareExamples.CleanMayUndo` | repository.py:55-85 | the same with a four-part library: prepare goes through and clean undoes it |
| `Repository.PrepareCleanIsCanonical` | repository.py:320-339 | prepare --clean from any tree makes every managed file equal its source and is idempotent |
| `CharmLists.PrepareAllCharms` | repository.py:320-339 | the same over a list of charms |
| `CharmLists.PrepareCleanAllCharms` | repository.py:320-339 | over a list of charms and from any tree, managed files become their sources and nothing else changes |
| `CharmLists.PrepareCleanAgain` | repository.py:320-339 | prepare --clean of the list on its own result succeeds and changes nothing |
| `CharmLists.CleanUndoesPrepareForAll` | repository.py:342-352 | clean over the list after prepare over the list gives back the same tree |
| `LogWriting.LogWriter.Write` | ops-sunbeam/ops_sunbeam/container_handlers.py:303-309 | what is logged plus the buffer is the newline split of old buffer and data; the inner loop ends |
| `LogWriting.LogWriter.Flush` | ops-sunbeam/ops_sunbeam/container_handlers.py:311-314 | the rest is logged only if non-empty |
| `LogWriting.Execute` | ops-sunbeam/ops_sunbeam/container_handlers.py:280-337 | for every chunking the logged lines are those of the whole output and the value is the whole output |
| `LogWriting.ChunkStep` | ops-sunbeam/ops_sunbeam/container_handlers.py:303-309 | one more chunk keeps logged-plus-buffer equal to the split of everything so far |
| `LogWriting.LinesLoseOnlyTheFinalNewline` | ops-sunbeam/ops_sunbeam/container_handlers.py:303-317 | the lines determine the output up to one final newline |
| `StatusPools.Status.Set` | ops-sunbeam/ops_sunbeam/compound_status.py:93-102 | stores the status and leaves the pool valid with the unit status recomputed |
| `StatusPools.StatusPool.Add` | ops-sunbeam/ops_sunbeam/compound_status.py:175-197 | puts the status at its label's place, restoring stored state exactly for a new, never-set label |
| `StatusPools.StatusPool.OnUpdate` | ops-sunbeam/ops_sunbeam/compound_status.py:255-271 | shows the computed status unless it is none or active |
| `StatusPools.StatusPool.OnCommit` | ops-sunbeam/ops_sunbeam/compound_status.py:216-228 | stores name and message per label |
| `StatusPools.HeadIsTop` | ops-sunbeam/ops_sunbeam/compound_status.py:230-253 | the head of the stable sort is the first entry that nothing precedes |
| `StatusPools.SortedIsOrdered` | ops-sunbeam/ops_sunbeam/compound_status.py:112-119 | sorting by severity and rank orders the entries |
| `StatusPools.WorstIsComputed` | ops-sunbeam/ops_sunbeam/compound_status.py:230-253 | the computed status is that of an entry of the worst kind (blocked, waiting, maintenance, active, unknown) with the highest rank of its kind, the earliest of several, its label in front of its message |
| `StatusPools.UnitShowsTheWorst` | ops-sunbeam/ops_sunbeam/compound_status.py:255-271 | the unit shows it if something is blocked, waiting or in maintenance, and stays as it was otherwise |
| `StatusPools.EveryRunShowsTheTop` | ops-sunbeam/ops_sunbeam/compound_status.py:255-271 | after any adds and sets, whenever a status is blocked, waiting or maintenance the unit shows the pool's top |
| `StatusPools.ReloadRestores` | ops-sunbeam/ops_sunbeam/compound_status.py:175-197 | commit, reload and re-adding in any order restores every status and message |
| `StatusPools.ReloadShowsTheSameIff` | ops-sunbeam/ops_sunbeam/compound_status.py:230-253 | every order of re-adding computes the same status if and only if entries tied for the top show the same |
| `StatusPools.NoTiesShowTheSame` | ops-sunbeam/ops_sunbeam/compound_status.py:112-119 | without (severity, priority) ties that condition holds |
| `Annotations.DnsExpressionIsTheLabelRule` | ops-sunbeam/ops_sunbeam/k8s_resource_handlers.py:76-78 | the DNS expression accepts exactly dot-separated labels of RFC 1123 section 2.1 without length limits |
| `Annotations.PrefixAcceptedIff` | ops-sunbeam/ops_sunbeam/k8s_resource_handlers.py:333-341 | as matched, also with one final newline, and nothing more |
| `Annotations.KeyAcceptedIff` | ops-sunbeam/ops_sunbeam/k8s_resource_handlers.py:259-280 | a trimmed key is valid if and only if it meets a rule stated without expressions |
| `Annotations.ValueAcceptedIff` | ops-sunbeam/ops_sunbeam/k8s_resource_handlers.py:283-291 | a trimmed value is valid if and only if it is non-empty and made of the allowed characters |
| `Annotations.PrintThenParse` | ops-sunbeam/ops_sunbeam/k8s_resource_handlers.py:294-330 | printed pairs in any order, with blanks around keys, values and text and trailing commas, parse to their table, the last of repeated keys winning |
| `Annotations.RoundTrip` | ops-sunbeam/ops_sunbeam/k8s_resource_handlers.py:294-330 | any legal table printed in any order parses back to itself |
| `Annotations.AcceptedIsLegal` | ops-sunbeam/ops_sunbeam/k8s_resource_handlers.py:322-330 | whatever is accepted meets the key and value rules |
| `Annotations.AcceptedIsFixpoint` | ops-sunbeam/ops_sunbeam/k8s_resource_handlers.py:294-330 | an accepted table is a fixpoint of print-then-parse |
| `Annotations.LegalIffParsed` | ops-sunbeam/ops_sunbeam/k8s_resource_handlers.py:294-330 | the parser's results are exactly the legal tables |
| `Annotations.AcceptedIff` | ops-sunbeam/ops_sunbeam/k8s_resource_handlers.py:306-330 | a text is accepted if and only if every non-empty pair has "=" and each key's last pair meets the rules |
| `Annotations.NewlineBeforeSlashIsAccepted` | ops-sunbeam/ops_sunbeam/k8s_resource_handlers.py:333-341 | a key with a newline before its slash is accepted |
| `HardwareTypes.GetHardwareTypesConfig` | charms/ironic-conductor-k8s/src/charm.py:155-186 | the in-place merge returns the sorted unions with their suffixes, or the KeyError, and the shared tables hold the same lists afterwards |
| `HardwareTypes.MergeOption` | charms/ironic-conductor-k8s/src/charm.py:164-170 | one option grows by the type's interfaces in a separate, ordered, duplicate-free list |
| `HardwareTypes.SortIsInOrder` | charms/ironic-conductor-k8s/src/charm.py:168-169 | sorting the distinct elements in any order gives the one ascending list of the set |
| `HardwareTypes.MergeIsTheUnion` | charms/ironic-conductor-k8s/src/charm.py:155-170 | an option is there, and has an interface, exactly if some enabled known type has it |
| `HardwareTypes.ConfigIs` | charms/ironic-conductor-k8s/src/charm.py:155-186 | every option of an enabled type and no other; its text is, in ascending order, the interfaces some enabled type lists, then ipxe for booting if wanted, then the name of doing nothing, separated by commas |
| `HardwareTypes.MergeIsCanonical` | charms/ironic-conductor-k8s/src/charm.py:155-186 | the result is the same for any reordering or repetition of the known types, whatever unknown ones are mixed in |
| `HardwareTypes.KeyErrorIff` | charms/ironic-conductor-k8s/src/charm.py:172-173 | with ironic's tables it raises if and only if ipxe is on and no type is known |
| `Naming.SnakeMarksWords` | ops-sunbeam/ops_sunbeam/storage.py:57-72 | the two greedy substitutions together insert exactly one underscore before each word start, judged by neighbouring characters |
| `Naming.SnakeOnlyInsertsUnderscores` | ops-sunbeam/ops_sunbeam/storage.py:57-72 | without separators the result is the lower-cased input |
| `Naming.SnakeIsIdempotent` | ops-sunbeam/ops_sunbeam/storage.py:57-72 | `to_snake` is idempotent |
| `Naming.KebabInvertsIff` | ops-sunbeam/ops_sunbeam/storage.py:75-77 | `to_kebab` gets a name back from its snake form if and only if it has no capital and no underscore |
| `Naming.WordsAreParts` | ops-sunbeam/ops_sunbeam/storage.py:57-72 | the parts of a snake name between underscores are the words of the original |
| `Naming.NamesCollideIff` | ops-sunbeam/ops_sunbeam/storage.py:57-72 | any two names get the same field if and only if they have the same words |
| `Naming.CamelAndKebabCollide` | ops-sunbeam/ops_sunbeam/storage.py:65-72 | "xY" and "x-y" collide |
| `Naming.LowerNamesCollideIff` | ops-sunbeam/ops_sunbeam/storage.py:57-77 | names without capitals collide if and only if they agree up to dashes and underscores; distinct kebab names never do |
| `Naming.UnderscoreCollides` | ops-sunbeam/ops_sunbeam/storage.py:70-72 | "a-b" and "a_b" collide |
| `Naming.ToPydanticClass` | ops-sunbeam/ops_sunbeam/storage.py:213-248 | raises exactly on an unknown override; otherwise the fields and groups of the options in order |
| `Naming.NoOptionLostIff` | ops-sunbeam/ops_sunbeam/storage.py:236-245 | no option is lost if and only if no two names have the same words, and then each keeps its own definition |
| `Naming.KebabOptionsAreKept` | ops-sunbeam/ops_sunbeam/storage.py:236-245 | distinct lower-case kebab options never collide into one field |
| `Naming.GroupsAre` | ops-sunbeam/ops_sunbeam/storage.py:236-245 | a required-if group names exactly the fields of the options annotated with it |

## Left out

- Pebble, Kubernetes, the Juju CLI and keystone's API: maps, or calls that succeed or raise at any point.
- Jinja2: rendering is any pure function; an op parameter is plain text or one `{{ name[i].field }}` reference, and a secret's content is plain text.
- Hashes, request ids, JSON encoding, random strings and X.509: ids and encodings are dropped, random suffixes are fresh names.
- Logging, tracing, action output, command line parsing and file permissions.
- Overrides of the base protocol in single charms (neutron, glance, horizon), base `PebbleHandler.init_service` and WSGI handlers: `Restart` models `ServicePebbleHandler`, with a custom restart method counting as a restart.
- Bootstrap: stages that only wait or raise (relations, containers, health checks) raise nondeterministically; retries of one sync command are one success or failure.
- Credentials.UserIdentityHandler.OnProviderReady: does not model the grant of the secret to the relation or the callback, which touch none of the modelled state.
- Credentials.UserIdentityHandler.OnResponseAvailable: does not model the processing of extra ops or the callback, which each charm supplies.
- Credentials: whether `request_ops` sends now or holds the request back is nondeterministic, and keystone reads the request slot atomically.
- Rndc.RndcRegistry.NewRndcKey: does not model the secret's label or its grant to the relation. Creation is taken to succeed; cleanup removes no secret, so a nonce that returns after its key was dropped would reuse a label that exists.
- Rndc.RndcRegistry.ServiceFromEvent: whether `configure_charm` reaches its app step is a parameter, and nothing else it does is modelled.
- Rndc: one relation name; an absent bag or peer store reads as empty; relations without a remote application do not occur.
- Restart: a service start that raises; rendering is fixed during one hook, and handlers do not share a container.
- Domains: creating the domain in keystone, and the `exclude` of a departing relation, which only shortens the list of configs.
- ServiceAccounts: the retry of account creation through `configure_charm` is one created-or-not and one succeeded-or-not; admin and charm users are not modelled.
- Repository: directories are implied by the files below them, so empty ones left behind are not seen; the utility files are `.jujuignore` alone.
- StatusPools: `summarise`, and a status object added to two pools.
- Annotations and Naming: ASCII text only; Python's `\w`, `strip` and `lower` accept more outside it.
- HardwareTypes: splitting the configuration string into type names.
- Naming: field types, defaults and validators of the generated class are an opaque definition per option.
- Finite tables and one-branch validators elsewhere in the charms, which only add cases.
