/**
 The Redis retention scheduler module.

 On `save_retention` it writes the pickled state of every host and service the
 scheduler retains into Redis, one `set` per object; on `load_retention` it
 looks up the key of every host and service the scheduler knows, unpickles
 what it finds and hands the two resulting maps back to the scheduler.

 The Redis database is the `store` field of the scheduler object, a map from
 key to payload: `set` is a map update and `get` a lookup that may miss.
 */
module RetentionScheduler {
  import opened RetentionKeys

  datatype Option<T> = None | Some(value: T)

  /**
   What Redis holds under a key: either the pickle of a retained state, or
   bytes that unpickling rejects (written by someone else, or corrupted).
   */
  datatype Payload<V> = Pickled(state: V) | Unreadable(raw: seq<bv8>)

  /** `cPickle.dumps` of a retained state: unpickling gives the state back. */
  function Pickle<V>(state: V): (p: Payload<V>)
    ensures Unpickle(p) == Some(state)
  {
    Pickled(state)
  }

  /**
   `cPickle.loads`: `None` stands for the exception it raises on bytes it
   cannot read. It succeeds exactly on the payloads `Pickle` produces.
   */
  function Unpickle<V>(p: Payload<V>): (r: Option<V>)
    ensures r.Some? <==> p.Pickled?
  {
    match p
    case Pickled(state) => Some(state)
    case Unreadable(_) => None
  }

  /** A payload that unpickles is the pickle of the state it gives. */
  lemma PickleUnpickled<V>(p: Payload<V>)
    requires Unpickle(p).Some?
    ensures Pickle(Unpickle(p).value) == p
  {
  }

  /** What the scheduler hands over and gets back: retained state by host name and by service identity. */
  datatype RetentionData<V> = RetentionData(hosts: map<string, V>, services: map<ServiceId, V>)

  /** The outcome of a load: the data for the scheduler, or the unpickling exception. */
  datatype LoadResult<V> = Restored(data: RetentionData<V>) | UnpicklingFailed

  // ---------------------------------------------------------------------------
  // Specification of save

  function HostKeysOf(names: set<string>): set<string>
  {
    set h | h in names :: HostKey(h)
  }

  function ServiceKeysOf(ids: set<ServiceId>): set<string>
  {
    set id | id in ids :: ServiceKey(id)
  }

  /** The keys a save of `data` writes. */
  function SavedKeys<V>(data: RetentionData<V>): set<string>
  {
    HostKeysOf(data.hosts.Keys) + ServiceKeysOf(data.services.Keys)
  }

  /** No other service of `ids` shares the store key of `id`. */
  predicate KeyUniqueIn(ids: set<ServiceId>, id: ServiceId)
  {
    forall other :: other in ids && ServiceKey(other) == ServiceKey(id) ==> other == id
  }

  /** No two services of `ids` share a store key. */
  predicate UniqueServiceKeys(ids: set<ServiceId>)
  {
    forall a, b :: a in ids && b in ids && ServiceKey(a) == ServiceKey(b) ==> a == b
  }

  /** Every host of `names` has its pickled state under its key in `store`. */
  ghost predicate HostsWritten<V>(store: map<string, Payload<V>>, hosts: map<string, V>, names: set<string>)
  {
    forall h :: h in names && h in hosts ==> HostKey(h) in store && store[HostKey(h)] == Pickle(hosts[h])
  }

  /**
   Every service of `ids` has under its key the pickled state of the service
   `writer` names for that key: one of `services` sharing the key, the last
   of them to be written.
   */
  ghost predicate ServicesWritten<V>(store: map<string, Payload<V>>, services: map<ServiceId, V>, ids: set<ServiceId>,
                                     writer: map<string, ServiceId>)
  {
    forall id :: id in ids ==>
      && ServiceKey(id) in store && ServiceKey(id) in writer
      && writer[ServiceKey(id)] in services
      && ServiceKey(writer[ServiceKey(id)]) == ServiceKey(id)
      && store[ServiceKey(id)] == Pickle(services[writer[ServiceKey(id)]])
  }

  /** `after` holds every key of `before` outside `keys`, with the same payload. */
  ghost predicate KeptOutside<V>(before: map<string, Payload<V>>, after: map<string, Payload<V>>, keys: set<string>)
  {
    forall k :: k in before && k !in keys ==> k in after && after[k] == before[k]
  }

  /** `after` is what saving `data` makes of `before`, `writer` naming the service last written under each service key. */
  ghost predicate SavedIntoBy<V>(before: map<string, Payload<V>>, after: map<string, Payload<V>>, data: RetentionData<V>,
                                 writer: map<string, ServiceId>)
  {
    && after.Keys == before.Keys + SavedKeys(data)
    && HostsWritten(after, data.hosts, data.hosts.Keys)
    && ServicesWritten(after, data.services, data.services.Keys, writer)
    && KeptOutside(before, after, SavedKeys(data))
  }

  /**
   `after` is what saving `data` makes of the store `before`: every host's key
   holds its pickled state; every service's key holds the pickled state of one
   of the services sharing that key (which one depends on the order in which
   the services are written); every other key keeps its payload, since a save
   only issues `set` and never deletes.
   */
  ghost predicate SavedInto<V>(before: map<string, Payload<V>>, after: map<string, Payload<V>>, data: RetentionData<V>)
  {
    exists writer :: SavedIntoBy(before, after, data, writer)
  }

  /** The state of the host pass once the hosts of `done` are written. */
  ghost predicate HostPass<V>(before: map<string, Payload<V>>, store: map<string, Payload<V>>, hosts: map<string, V>, done: set<string>)
  {
    && store.Keys == before.Keys + HostKeysOf(done)
    && HostsWritten(store, hosts, done)
    && KeptOutside(before, store, HostKeysOf(done))
  }

  /** The state of the service pass once the services of `done` are written. */
  ghost predicate ServicePass<V>(before: map<string, Payload<V>>, store: map<string, Payload<V>>, services: map<ServiceId, V>,
                                 done: set<ServiceId>, writer: map<string, ServiceId>)
  {
    && store.Keys == before.Keys + ServiceKeysOf(done)
    && ServicesWritten(store, services, done, writer)
    && KeptOutside(before, store, ServiceKeysOf(done))
  }

  lemma HostKeysOfAdd(names: set<string>, name: string)
    ensures HostKeysOf(names + {name}) == HostKeysOf(names) + {HostKey(name)}
  {
  }

  lemma ServiceKeysOfAdd(ids: set<ServiceId>, id: ServiceId)
    ensures ServiceKeysOf(ids + {id}) == ServiceKeysOf(ids) + {ServiceKey(id)}
  {
  }

  /** Writing one more host keeps the host pass's invariant. */
  lemma HostPassStep<V>(before: map<string, Payload<V>>, store: map<string, Payload<V>>, hosts: map<string, V>, done: set<string>, name: string)
    requires HostPass(before, store, hosts, done)
    requires name in hosts
    ensures HostPass(before, store[HostKey(name) := Pickle(hosts[name])], hosts, done + {name})
  {
    var after := store[HostKey(name) := Pickle(hosts[name])];
    HostKeysOfAdd(done, name);
    forall h | h in done + {name} && h in hosts
      ensures HostKey(h) in after && after[HostKey(h)] == Pickle(hosts[h])
    {
      if h != name {
        if HostKey(h) == HostKey(name) { HostKeyInjective(h, name); }
      }
    }
  }

  /** Writing one more service keeps every written service's key holding the state its writer had. */
  lemma ServicesWrittenStep<V>(store: map<string, Payload<V>>, services: map<ServiceId, V>, done: set<ServiceId>,
                               writer: map<string, ServiceId>, id: ServiceId)
    requires ServicesWritten(store, services, done, writer)
    requires id in services
    ensures ServicesWritten(store[ServiceKey(id) := Pickle(services[id])], services, done + {id}, writer[ServiceKey(id) := id])
  {
  }

  /** Writing one more service keeps the service pass's invariant, the new service becoming its key's writer. */
  lemma ServicePassStep<V>(before: map<string, Payload<V>>, store: map<string, Payload<V>>, services: map<ServiceId, V>,
                           done: set<ServiceId>, writer: map<string, ServiceId>, id: ServiceId)
    requires ServicePass(before, store, services, done, writer)
    requires id in services
    ensures ServicePass(before, store[ServiceKey(id) := Pickle(services[id])], services, done + {id}, writer[ServiceKey(id) := id])
  {
    var after := store[ServiceKey(id) := Pickle(services[id])];
    assert after.Keys == before.Keys + ServiceKeysOf(done + {id}) by {
      ServiceKeysOfAdd(done, id);
    }
    assert KeptOutside(before, after, ServiceKeysOf(done + {id})) by {
      ServiceKeysOfAdd(done, id);
    }
    ServicesWrittenStep(store, services, done, writer, id);
  }

  /** No host key is among the keys of a set of services. */
  lemma HostKeyNotServiceKey(name: string, ids: set<ServiceId>)
    ensures HostKey(name) !in ServiceKeysOf(ids)
  {
    forall id | id in ids
      ensures HostKey(name) != ServiceKey(id)
    {
      KeySpacesDisjoint(name, id);
    }
  }

  /** The host pass followed by the service pass is a save: the service pass overwrites no host. */
  lemma SavePassesCompose<V>(before: map<string, Payload<V>>, mid: map<string, Payload<V>>, after: map<string, Payload<V>>,
                             data: RetentionData<V>, writer: map<string, ServiceId>)
    requires HostPass(before, mid, data.hosts, data.hosts.Keys)
    requires ServicePass(mid, after, data.services, data.services.Keys, writer)
    ensures SavedIntoBy(before, after, data, writer)
  {
    forall h | h in data.hosts
      ensures HostKey(h) in after && after[HostKey(h)] == Pickle(data.hosts[h])
    {
      HostKeyNotServiceKey(h, data.services.Keys);
    }
  }

  // ---------------------------------------------------------------------------
  // Specification of load

  /** The payload under `key`, if any, can be unpickled. */
  predicate Readable<V>(store: map<string, Payload<V>>, key: string)
  {
    key in store ==> Unpickle(store[key]).Some?
  }

  /** Every payload a load of these hosts would fetch can be unpickled. */
  predicate HostsReadable<V>(store: map<string, Payload<V>>, hostNames: seq<string>)
  {
    forall h :: h in hostNames ==> Readable(store, HostKey(h))
  }

  /** Every payload a load of these services would fetch can be unpickled. */
  predicate ServicesReadable<V>(store: map<string, Payload<V>>, serviceIds: seq<ServiceId>)
  {
    forall id :: id in serviceIds ==> Readable(store, ServiceKey(id))
  }

  /** Every payload a load of these identities would fetch can be unpickled. */
  predicate AllReadable<V>(store: map<string, Payload<V>>, hostNames: seq<string>, serviceIds: seq<ServiceId>)
  {
    HostsReadable(store, hostNames) && ServicesReadable(store, serviceIds)
  }

  /** The hosts of `hostNames` whose key the store holds, with their unpickled state. */
  function LoadedHosts<V>(store: map<string, Payload<V>>, hostNames: seq<string>): map<string, V>
  {
    map h | h in hostNames && HostKey(h) in store && Unpickle(store[HostKey(h)]).Some?
      :: Unpickle(store[HostKey(h)]).value
  }

  /** The services of `serviceIds` whose key the store holds, with their unpickled state. */
  function LoadedServices<V>(store: map<string, Payload<V>>, serviceIds: seq<ServiceId>): map<ServiceId, V>
  {
    map id | id in serviceIds && ServiceKey(id) in store && Unpickle(store[ServiceKey(id)]).Some?
      :: Unpickle(store[ServiceKey(id)]).value
  }

  /** What loading these identities from `store` gives the scheduler. */
  function LoadOutcome<V>(store: map<string, Payload<V>>, hostNames: seq<string>, serviceIds: seq<ServiceId>): LoadResult<V>
  {
    if AllReadable(store, hostNames, serviceIds)
    then Restored(RetentionData(LoadedHosts(store, hostNames), LoadedServices(store, serviceIds)))
    else UnpicklingFailed
  }

  lemma LoadedHostsStep<V>(store: map<string, Payload<V>>, names: seq<string>, name: string)
    ensures LoadedHosts(store, names + [name]) ==
      if HostKey(name) in store && Unpickle(store[HostKey(name)]).Some?
      then LoadedHosts(store, names)[name := Unpickle(store[HostKey(name)]).value]
      else LoadedHosts(store, names)
  {
    var longer := names + [name];
    assert forall h :: h in longer <==> h in names || h == name;
  }

  lemma LoadedServicesStep<V>(store: map<string, Payload<V>>, ids: seq<ServiceId>, id: ServiceId)
    ensures LoadedServices(store, ids + [id]) ==
      if ServiceKey(id) in store && Unpickle(store[ServiceKey(id)]).Some?
      then LoadedServices(store, ids)[id := Unpickle(store[ServiceKey(id)]).value]
      else LoadedServices(store, ids)
  {
    var longer := ids + [id];
    assert forall x :: x in longer <==> x in ids || x == id;
  }

  // ---------------------------------------------------------------------------
  // The scheduler module object

  class RedisRetentionScheduler<V> {
    /** The contents of the Redis database the client is connected to. */
    var store: map<string, Payload<V>>

    constructor (contents: map<string, Payload<V>>)
      ensures store == contents
    {
      store := contents;
    }

    /** `hook_save_retention`: writes every retained host, then every retained service. */
    method SaveRetention(data: RetentionData<V>)
      modifies this
      ensures SavedInto(old(store), store, data)
    {
      ghost var before := store;
      SaveHosts(data.hosts);
      ghost var mid := store;
      ghost var writer := SaveServices(data.services);
      SavePassesCompose(before, mid, store, data, writer);
    }

    /** The host half of `hook_save_retention`: one `set` per retained host. */
    method SaveHosts(hosts: map<string, V>)
      modifies this
      ensures HostPass(old(store), store, hosts, hosts.Keys)
    {
      ghost var before := store;
      var pending := hosts.Keys;
      ghost var done: set<string> := {};
      while pending != {}
        invariant pending !! done && pending + done == hosts.Keys
        invariant HostPass(before, store, hosts, done)
        decreases pending
      {
        var name :| name in pending;
        HostPassStep(before, store, hosts, done, name);
        store := store[HostKey(name) := Pickle(hosts[name])];
        pending, done := pending - {name}, done + {name};
      }
    }

    /**
     The service half of `hook_save_retention`: one `set` per retained service;
     `writer` names, for each key written, the service written there last.
     */
    method SaveServices(services: map<ServiceId, V>) returns (ghost writer: map<string, ServiceId>)
      modifies this
      ensures ServicePass(old(store), store, services, services.Keys, writer)
    {
      ghost var before := store;
      var pending := services.Keys;
      ghost var done: set<ServiceId> := {};
      writer := map[];
      while pending != {}
        invariant pending !! done && pending + done == services.Keys
        invariant ServicePass(before, store, services, done, writer)
        decreases pending
      {
        var id :| id in pending;
        ServicePassStep(before, store, services, done, writer, id);
        store := store[ServiceKey(id) := Pickle(services[id])];
        writer := writer[ServiceKey(id) := id];
        pending, done := pending - {id}, done + {id};
      }
    }

    /**
     `hook_load_retention`: fetches the key of every known host, then of every
     known service. A missing key adds no entry; a payload that cannot be
     unpickled ends the load with the unpickling error. Only `get` is issued:
     the method has no `modifies` clause, so the store is left as it was.
     */
    method LoadRetention(hostNames: seq<string>, serviceIds: seq<ServiceId>) returns (r: LoadResult<V>)
      ensures r == LoadOutcome(store, hostNames, serviceIds)
    {
      var hosts := LoadHosts(hostNames);
      if hosts.None? {
        return UnpicklingFailed;
      }
      var services := LoadServices(serviceIds);
      if services.None? {
        return UnpicklingFailed;
      }
      r := Restored(RetentionData(hosts.value, services.value));
    }

    /**
     The host loop of `hook_load_retention`: the states of the known hosts
     whose key is present, or nothing when one of their payloads cannot be
     unpickled.
     */
    method LoadHosts(hostNames: seq<string>) returns (r: Option<map<string, V>>)
      ensures r.Some? <==> HostsReadable(store, hostNames)
      ensures r.Some? ==> r.value == LoadedHosts(store, hostNames)
    {
      var hosts: map<string, V> := map[];
      var i := 0;
      while i < |hostNames|
        invariant 0 <= i <= |hostNames|
        invariant HostsReadable(store, hostNames[..i])
        invariant hosts == LoadedHosts(store, hostNames[..i])
      {
        var name := hostNames[i];
        var key := HostKey(name);
        if key in store {
          var val := Unpickle(store[key]);
          if val.None? {
            return None;
          }
          hosts := hosts[name := val.value];
        }
        assert hostNames[..i + 1] == hostNames[..i] + [name];
        LoadedHostsStep(store, hostNames[..i], name);
        i := i + 1;
      }
      assert hostNames[..i] == hostNames;
      r := Some(hosts);
    }

    /**
     The service loop of `hook_load_retention`: the states of the known
     services whose key is present, or nothing when one of their payloads
     cannot be unpickled.
     */
    method LoadServices(serviceIds: seq<ServiceId>) returns (r: Option<map<ServiceId, V>>)
      ensures r.Some? <==> ServicesReadable(store, serviceIds)
      ensures r.Some? ==> r.value == LoadedServices(store, serviceIds)
    {
      var services: map<ServiceId, V> := map[];
      var j := 0;
      while j < |serviceIds|
        invariant 0 <= j <= |serviceIds|
        invariant ServicesReadable(store, serviceIds[..j])
        invariant services == LoadedServices(store, serviceIds[..j])
      {
        var id := serviceIds[j];
        var key := ServiceKey(id);
        if key in store {
          var val := Unpickle(store[key]);
          if val.None? {
            return None;
          }
          services := services[id := val.value];
        }
        assert serviceIds[..j + 1] == serviceIds[..j] + [id];
        LoadedServicesStep(store, serviceIds[..j], id);
        j := j + 1;
      }
      assert serviceIds[..j] == serviceIds;
      r := Some(services);
    }
  }
}
