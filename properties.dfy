/**
 What a save followed by a load guarantees, and what it does not.

 The lemmas speak of the specification functions the two hooks are proved
 against: `SavedInto` (the store after `SaveRetention`) and `LoadOutcome`
 (the result of `LoadRetention`).
 */
module RetentionProperties {
  import opened RetentionKeys
  import opened RetentionScheduler

  /** Services that respect the naming constraints never share a store key. */
  lemma WellFormedServicesHaveUniqueKeys(ids: set<ServiceId>)
    requires forall id :: id in ids ==> WellFormedService(id)
    ensures UniqueServiceKeys(ids)
  {
    forall a, b | a in ids && b in ids && ServiceKey(a) == ServiceKey(b)
      ensures a == b
    {
      ServiceKeyInjective(a, b);
    }
  }

  /** A save leaves a service's own pickled state under its key when no other saved service shares that key. */
  lemma SavedServiceExact<V>(before: map<string, Payload<V>>, after: map<string, Payload<V>>, data: RetentionData<V>, id: ServiceId)
    requires SavedInto(before, after, data)
    requires id in data.services
    requires KeyUniqueIn(data.services.Keys, id)
    ensures ServiceKey(id) in after && after[ServiceKey(id)] == Pickle(data.services[id])
  {
    var writer :| SavedIntoBy(before, after, data, writer);
    assert writer[ServiceKey(id)] == id;
  }

  /**
   A load skips every identity whose key the store lacks: when it succeeds,
   an identity has an entry exactly when its key is present, keyed by the
   identity itself (the host name, the host name and the description as they
   are, not the store key), holding the state unpickled from that key.
   */
  lemma LoadEntriesMatchStoredKeys<V>(store: map<string, Payload<V>>, hostNames: seq<string>, serviceIds: seq<ServiceId>)
    requires LoadOutcome(store, hostNames, serviceIds).Restored?
    ensures var data := LoadOutcome(store, hostNames, serviceIds).data;
      && (forall h :: h in data.hosts <==> h in hostNames && HostKey(h) in store)
      && (forall h :: h in data.hosts ==> store[HostKey(h)] == Pickle(data.hosts[h]))
      && (forall id :: id in data.services <==> id in serviceIds && ServiceKey(id) in store)
      && (forall id :: id in data.services ==> store[ServiceKey(id)] == Pickle(data.services[id]))
  {
    var data := LoadOutcome(store, hostNames, serviceIds).data;
    assert AllReadable(store, hostNames, serviceIds);
    forall h | h in hostNames && HostKey(h) in store
      ensures h in data.hosts
    {
      assert Readable(store, HostKey(h));
    }
    forall id | id in serviceIds && ServiceKey(id) in store
      ensures id in data.services
    {
      assert Readable(store, ServiceKey(id));
    }
  }

  /**
   A load fails only on a payload it cannot unpickle under the key of a known
   identity; missing keys never make it fail.
   */
  lemma LoadFailsOnlyOnUnreadablePayload<V>(store: map<string, Payload<V>>, hostNames: seq<string>, serviceIds: seq<ServiceId>)
    ensures LoadOutcome(store, hostNames, serviceIds).UnpicklingFailed? <==>
      || (exists h :: h in hostNames && HostKey(h) in store && store[HostKey(h)].Unreadable?)
      || (exists id :: id in serviceIds && ServiceKey(id) in store && store[ServiceKey(id)].Unreadable?)
  {
    if !AllReadable(store, hostNames, serviceIds) {
      if h :| h in hostNames && !Readable(store, HostKey(h)) {
        assert store[HostKey(h)].Unreadable?;
      } else {
        var id :| id in serviceIds && !Readable(store, ServiceKey(id));
        assert store[ServiceKey(id)].Unreadable?;
      }
    }
  }

  /** Against a store that holds none of their keys, a load succeeds with no entries at all. */
  lemma LoadOfUnknownKeysIsEmpty<V>(store: map<string, Payload<V>>, hostNames: seq<string>, serviceIds: seq<ServiceId>)
    requires forall h :: h in hostNames ==> HostKey(h) !in store
    requires forall id :: id in serviceIds ==> ServiceKey(id) !in store
    ensures LoadOutcome(store, hostNames, serviceIds) == Restored(RetentionData(map[], map[]))
  {
    assert AllReadable(store, hostNames, serviceIds);
    assert LoadedHosts(store, hostNames) == map[] by {
      assert forall h :: h !in LoadedHosts(store, hostNames);
    }
    assert LoadedServices(store, serviceIds) == map[] by {
      assert forall id :: id !in LoadedServices(store, serviceIds);
    }
  }

  /** Loading hosts whose pickled state the store holds gives back that state. */
  lemma LoadWrittenHosts<V>(store: map<string, Payload<V>>, hosts: map<string, V>, hostNames: seq<string>)
    requires HostsWritten(store, hosts, hosts.Keys)
    requires forall h :: h in hostNames ==> h in hosts
    ensures forall h :: h in hostNames ==> Readable(store, HostKey(h))
    ensures LoadedHosts(store, hostNames) == map h | h in hostNames :: hosts[h]
  {
  }

  /** Loading services whose own pickled state the store holds gives back that state. */
  lemma LoadWrittenServices<V>(store: map<string, Payload<V>>, services: map<ServiceId, V>, serviceIds: seq<ServiceId>)
    requires forall id :: id in serviceIds ==>
               id in services && ServiceKey(id) in store && store[ServiceKey(id)] == Pickle(services[id])
    ensures forall id :: id in serviceIds ==> Readable(store, ServiceKey(id))
    ensures LoadedServices(store, serviceIds) == map id | id in serviceIds :: services[id]
  {
  }

  /**
   Saving and then loading gives back, for every saved host the load asks
   for, the state that was saved; the same holds for every saved service the
   load asks for whose key no other saved service shares.
   */
  lemma SaveThenLoad<V>(before: map<string, Payload<V>>, after: map<string, Payload<V>>, data: RetentionData<V>,
                        hostNames: seq<string>, serviceIds: seq<ServiceId>)
    requires SavedInto(before, after, data)
    requires forall h :: h in hostNames ==> h in data.hosts
    requires forall id :: id in serviceIds ==> id in data.services && KeyUniqueIn(data.services.Keys, id)
    ensures LoadOutcome(after, hostNames, serviceIds) ==
      Restored(RetentionData(map h | h in hostNames :: data.hosts[h], map id | id in serviceIds :: data.services[id]))
  {
    LoadWrittenHosts(after, data.hosts, hostNames);
    forall id | id in serviceIds
      ensures id in data.services && ServiceKey(id) in after && after[ServiceKey(id)] == Pickle(data.services[id])
    {
      SavedServiceExact(before, after, data, id);
    }
    LoadWrittenServices(after, data.services, serviceIds);
  }

  /** When no two saved services share a key, loading exactly the saved identities gives back exactly the saved data. */
  lemma SaveThenLoadAll<V>(before: map<string, Payload<V>>, after: map<string, Payload<V>>, data: RetentionData<V>,
                           hostNames: seq<string>, serviceIds: seq<ServiceId>)
    requires SavedInto(before, after, data)
    requires UniqueServiceKeys(data.services.Keys)
    requires forall h :: h in hostNames <==> h in data.hosts
    requires forall id :: id in serviceIds <==> id in data.services
    ensures LoadOutcome(after, hostNames, serviceIds) == Restored(data)
  {
    assert (map h | h in hostNames :: data.hosts[h]) == data.hosts;
    assert (map id | id in serviceIds :: data.services[id]) == data.services;
    assert forall id :: id in serviceIds ==> KeyUniqueIn(data.services.Keys, id);
    SaveThenLoad(before, after, data, hostNames, serviceIds);
  }

  /** Two services sharing a key that holds a readable payload are both loaded with its state. */
  lemma SharedKeyLoadsOnce<V>(store: map<string, Payload<V>>, a: ServiceId, b: ServiceId, state: V)
    requires ServiceKey(a) == ServiceKey(b)
    requires ServiceKey(a) in store && store[ServiceKey(a)] == Pickle(state)
    ensures LoadOutcome(store, [], [a, b]) == Restored(RetentionData(map[], map[a := state, b := state]))
  {
    assert forall id :: id in [a, b] <==> id == a || id == b;
    assert AllReadable(store, [], [a, b]);
    assert LoadedServices(store, [a, b]) == map[a := state, b := state];
  }

  /**
   Two saved services that share a key are loaded with the same state, so at
   least one of them loses its own state whenever the two states differ.
   */
  lemma CollidingServicesLoadTheSameState<V>(before: map<string, Payload<V>>, after: map<string, Payload<V>>, data: RetentionData<V>,
                                             a: ServiceId, b: ServiceId)
    requires SavedInto(before, after, data)
    requires a in data.services && b in data.services
    requires ServiceKey(a) == ServiceKey(b)
    ensures exists state :: LoadOutcome(after, [], [a, b]) == Restored(RetentionData(map[], map[a := state, b := state]))
  {
    var writer :| SavedIntoBy(before, after, data, writer);
    var state := data.services[writer[ServiceKey(a)]];
    SharedKeyLoadsOnce(after, a, b, state);
  }

  /** With unique service keys, saving the same data twice leaves the store as the first save did. */
  lemma SaveIsIdempotent<V>(s0: map<string, Payload<V>>, s1: map<string, Payload<V>>, s2: map<string, Payload<V>>, data: RetentionData<V>)
    requires SavedInto(s0, s1, data)
    requires SavedInto(s1, s2, data)
    requires UniqueServiceKeys(data.services.Keys)
    ensures s2 == s1
  {
    forall k | k in s1
      ensures s2[k] == s1[k]
    {
      if k in HostKeysOf(data.hosts.Keys) {
        var h :| h in data.hosts && HostKey(h) == k;
      } else if k in ServiceKeysOf(data.services.Keys) {
        var id :| id in data.services && ServiceKey(id) == k;
        SavedServiceExact(s0, s1, data, id);
        SavedServiceExact(s1, s2, data, id);
      }
    }
  }
}
