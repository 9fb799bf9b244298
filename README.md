# Redis retention scheduler module, modelled in Dafny

The module lets a monitoring scheduler keep the state of its hosts and
services across restarts by storing it in Redis. It answers two events:

- `save_retention`: it writes the pickled state of every retained host under
  `HOST-<host name>`, and of every retained service under
  `SERVICE-<host name>,<service description>`. In a service key, every space
  is then replaced by the token `SPACE`.
- `load_retention`: it looks up the key of every host and service the
  scheduler knows. A key that is absent is skipped. A payload that is present
  is unpickled. The two resulting maps, keyed by host name and by
  (host name, description), go back to the scheduler.

The model has three modules:

- `RetentionKeys` (`keys.dfy`): the key naming, which is pure. It also proves:
  - the shape of the keys;
  - that host keys and service keys never meet;
  - two ways service keys collide, and naming constraints under which they
    cannot (no comma in a host name, no `SPACE` token in either part);
  - that host keys are written as is: a host name's spaces stay in its key.
- `RetentionScheduler` (`scheduler.dfy`):
  - the class `RedisRetentionScheduler`, whose `store` field is the Redis
    database, seen as a map from key to payload;
  - the two hooks, `SaveRetention` and `LoadRetention`, written as loops over
    the key sets of the retention snapshot and over the sequences of known
    identities, each step writing to or reading from the store;
  - the specification functions and predicates the hooks are proved against:
    `SavedInto` for the store after a save, and `LoadOutcome` for the result
    of a load.
- `RetentionProperties` (`properties.dfy`): what a save followed by a load
  guarantees:
  - the round trip;
  - tolerance of missing keys;
  - when a load fails;
  - that saving the same data twice changes nothing when no two saved
    services share a key;
  - that services sharing a key all load one state, so all but one of them
    lose their own state when the states differ.

The retained state of an object is a type parameter `V`.
- Pickling is abstracted as the payload `Pickled(state)`.
- A payload that `cPickle.loads` would reject is `Unreadable(bytes)`.
- A load that meets such a payload ends in `UnpicklingFailed`. This stands
  for the exception that escapes the hook.

Save iterates over Python dictionaries, whose order is not specified. The
model therefore picks the next key nondeterministically. When two services
share a key, the one written last wins. The save specification records which
service that is, in the ghost map `writer`.

## Model

| member | source | states |
|---|---|---|
| RetentionKeys.ReplaceSpaces | module/module.py:100-101 | the replaced key contains no space, and text without spaces is left unchanged |
| RetentionKeys.ReplaceSpacesAppend | module/module.py:101 | replacing spaces works piecewise: replacing in `a + b` equals replacing in `a` followed by replacing in `b` |
| RetentionKeys.HostKey | module/module.py:94 | the host key built by both hooks (also at module/module.py:119): `HOST-` followed by the host name, unchanged, so its length is the prefix's plus the name's |
| RetentionKeys.HostKeyKeepsSpaces | module/module.py:94 | no replacement happens in a host key: it holds a space exactly when the host name does |
| RetentionKeys.HostKeyInjective | module/module.py:94 | distinct host names get distinct keys, so host states never overwrite each other |
| RetentionKeys.ServiceKey | module/module.py:99-101 | a service key contains no space |
| RetentionKeys.ServiceKeyShape | module/module.py:99-101 | a service key is `SERVICE-`, then the host name with spaces replaced, then a comma, then the description with spaces replaced |
| RetentionKeys.KeySpacesDisjoint | module/module.py:94-101 | no host key equals any service key |
| RetentionKeys.ServiceKeyOneSpace | module/module.py:99-101 | a description with one space gets `SPACE` in its place, e.g. host `web01` with `CPU load` is stored under `SERVICE-web01,CPUSPACEload` |
| RetentionKeys.SpaceTokenCollision | module/module.py:99-101 | a description with a space and the same description with `SPACE` written out are different services with the same key |
| RetentionKeys.CommaCollision | module/module.py:99 | the services (`a,b`, `c`) and (`a`, `b,c`) are different but have the same key |
| RetentionKeys.ReplaceSpacesInjective | module/module.py:101 | on strings without the `SPACE` token, replacing spaces is injective |
| RetentionKeys.ServiceKeyInjective | module/module.py:99-101 | two services whose host names contain no comma and whose parts contain no `SPACE` token have equal keys only if they are the same service |
| RetentionScheduler.Pickle | module/module.py:95 | abstracts `cPickle.dumps` (also at module/module.py:102): unpickling its payload gives the state back |
| RetentionScheduler.Unpickle | module/module.py:122 | abstracts `cPickle.loads` (also at module/module.py:131): it succeeds exactly on pickled payloads; `None` stands for the exception it raises otherwise |
| RetentionScheduler.PickleUnpickled | module/module.py:122 | a payload that unpickles is the pickle of the state it gives back |
| RetentionScheduler.HostPassStep | module/module.py:93-96 | writing one more host keeps the host pass invariant: every written host's key holds its own pickled state, and every other key is unchanged |
| RetentionScheduler.ServicePassStep | module/module.py:98-103 | writing one more service keeps the service pass invariant: every written service's key holds the state of the last service written under that key, and every other key is unchanged |
| RetentionScheduler.SavePassesCompose | module/module.py:93-103 | the host pass followed by the service pass is a complete save, because service keys never overwrite a host key |
| RetentionScheduler.LoadedHostsStep | module/module.py:118-123 | one more host adds an entry exactly when its key is present and its payload unpickles |
| RetentionScheduler.LoadedServicesStep | module/module.py:125-132 | one more service adds an entry exactly when its key is present and its payload unpickles |
| RetentionScheduler.RedisRetentionScheduler.constructor | module/module.py:72-75 | the scheduler starts connected to the given database contents |
| RetentionScheduler.RedisRetentionScheduler.SaveRetention | module/module.py:84-104 | after a save, the keys are the old keys plus the saved ones; every host key holds its host's pickled state; every service key holds the pickled state of a service sharing that key; every other key keeps its payload |
| RetentionScheduler.RedisRetentionScheduler.SaveHosts | module/module.py:93-96 | the host loop writes each host's pickled state under its key and touches no other key |
| RetentionScheduler.RedisRetentionScheduler.SaveServices | module/module.py:98-103 | the service loop writes under each service's key the state of the last service written there, and touches no other key |
| RetentionScheduler.RedisRetentionScheduler.LoadRetention | module/module.py:106-139 | a load returns `LoadOutcome` of the store, and changes nothing, since the method has no `modifies` clause |
| RetentionScheduler.RedisRetentionScheduler.LoadHosts | module/module.py:118-123 | the host loop succeeds exactly when every present host payload unpickles, and then returns the present hosts' states keyed by host name |
| RetentionScheduler.RedisRetentionScheduler.LoadServices | module/module.py:125-132 | the service loop succeeds exactly when every present service payload unpickles, and then returns the present services' states keyed by (host name, description) |
| RetentionProperties.WellFormedServicesHaveUniqueKeys | module/module.py:99-101 | services that respect the naming constraints never share a key |
| RetentionProperties.SavedServiceExact | module/module.py:98-103 | after a save, a service whose key no other saved service shares finds its own pickled state under its key |
| RetentionProperties.LoadEntriesMatchStoredKeys | module/module.py:117-132 | a successful load has an entry for an identity exactly when the identity is known and its key is present; the entry is keyed by the identity itself and holds the state stored under its key |
| RetentionProperties.LoadFailsOnlyOnUnreadablePayload | module/module.py:118-132 | a load fails exactly when some known identity's key holds a payload that cannot be unpickled; a missing key never makes it fail |
| RetentionProperties.LoadOfUnknownKeysIsEmpty | module/module.py:114-134 | against a store that holds none of the known keys, a load succeeds with two empty maps |
| RetentionProperties.SaveThenLoad | module/module.py:84-139 | after a save, loading saved hosts gives back their saved states, and loading saved services gives back theirs for every service whose key no other saved service shares, whatever collisions the rest of the snapshot has |
| RetentionProperties.SaveThenLoadAll | module/module.py:84-139 | loading exactly the saved identities gives back exactly the saved data, provided no two saved services share a key |
| RetentionProperties.SharedKeyLoadsOnce | module/module.py:125-132 | two services sharing a key are both loaded with the one state stored under it |
| RetentionProperties.CollidingServicesLoadTheSameState | module/module.py:98-132 | after a save, two saved services with the same key load with the same state, so one of them loses its own state whenever the two states differ |
| RetentionProperties.SaveIsIdempotent | module/module.py:93-103 | when service keys are unique, saving the same data a second time leaves the store as the first save did |

## Left out

- `get_instance` and `init` (module/module.py:54-64, 77-82) are left out. They create the Redis client from the module configuration. Here, the connected database is simply the `store` field the constructor receives.
- Calling a hook before `init` is not modelled. In the source the client is then still `None`, and the hook would raise as soon as there is at least one host or service to write or look up.
- Connection and command errors of the Redis client are not modelled; `set` and `get` always succeed.
- RetentionScheduler.Pickle: `cPickle.dumps` is taken to succeed on every retained state. In the source it raises on a state it cannot pickle (module/module.py:95, 102). That aborts the save after a prefix of its writes: the keys already `set` stay written, the rest are not, and if a host fails the service pass never runs. `SaveRetention` always completes instead.
- The pickle byte format is abstracted. A pickled state is `Pickled(state)`, and any payload `cPickle.loads` would reject is `Unreadable`.
- The scheduler daemon's objects are replaced by plain values, and `restore_retention_data` becomes the return value of `LoadRetention`:
  - the snapshot from `get_retention_data` is the `RetentionData` argument of `SaveRetention`;
  - `daemon.hosts` becomes the sequence of host names given to `LoadRetention`;
  - `daemon.services` becomes the sequence of service identities given to `LoadRetention`.
- Logging (`logger.debug`, `logger.info`) and the `BaseModule` plumbing are left out. They do not affect the stored or loaded data.
- The order in which Python iterates the retention dictionaries is not modelled; each loop picks its next key nondeterministically.
- RetentionScheduler.RedisRetentionScheduler.SaveRetention: states which service's state a shared key ends up holding only up to that order. It says "one of the services sharing the key" rather than naming which one.
- The key format follows the code: a comma separates the host name from the description (module/module.py:99 and 126). The module docstring at module/module.py:35 describes the format as `SERVICE-<hostname>-<service-description>`, with a dash; that is not followed.
- The code has no step that decodes a key back into a host name or service identity, so none is modelled. Nor does it reconcile loaded entries against the scheduler's objects beyond asking for the keys of known objects.
- An unpickling failure carries no key, because the exception raised in the source names none.
