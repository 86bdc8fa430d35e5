/** Consequences of the manager's caching that only show over several
    calls on one manager.  `set_foreign_map` caches `None`, so every later
    `get_foreign_map` for that origin in the same process sees no map. */
module Scenarios {
  import opened Values
  import opened ForeignMap
  import opened Cache
  import opened Keybase
  import opened Paranoid

  /** Two successful `add_foreign_map` calls in a row: the second one sees
      no map and writes a list holding its own mapping only. */
  method SecondAddForgetsFirst(m: ParanoidManager, origin: string,
                               uid1: string, field1: string, user1: string,
                               uid2: string, field2: string, user2: string)
    returns (r1: Outcome, r2: Outcome)
    modifies m.keybase, m.cache
    ensures r1.Pass? ==> r2 == Pass
    ensures r1.Pass? ==>
      m.keybase.JsonAt(m.ForeignMapPath(origin)) == Some(ForeignMapList([Triple(user2, uid2, field2)]))
  {
    r1 := m.AddForeignMap(origin, uid1, field1, user1);
    if r1.Pass? {
      assert m.ForeignMapView(origin) == None;
    }
    r2 := m.AddForeignMap(origin, uid2, field2, user2);
    assert Added([], user2, uid2, field2) == [Triple(user2, uid2, field2)];
  }

  /** After a successful `add_foreign_map`, `remove_foreign_map` of the
      same mapping reports that the map does not exist and writes nothing. */
  method RemoveAfterAddFails(m: ParanoidManager, origin: string, uid: string, fieldName: string, username: string)
    returns (r1: Outcome, r2: Outcome)
    modifies m.keybase, m.cache
    ensures r1.Pass? ==> r2 == Fail(ForeignMapMissing(origin))
    ensures r1.Pass? ==>
      m.keybase.JsonAt(m.ForeignMapPath(origin)) ==
      Some(ForeignMapList(Added(old(m.ForeignMapView(origin)).GetOr([]), username, uid, fieldName)))
  {
    r1 := m.AddForeignMap(origin, uid, fieldName, username);
    if r1.Pass? {
      assert m.ForeignMapView(origin) == None;
    }
    r2 := m.RemoveForeignMap(origin, uid, fieldName, username);
  }

  /** After a successful `add_foreign_map`, `resolve_foreign_map` of the
      origin is empty. */
  method ResolveAfterAddIsEmpty(m: ParanoidManager, origin: string, uid: string, fieldName: string, username: string)
    returns (r: Outcome, resolved: map<string, map<string, string>>)
    modifies m.keybase, m.cache
    ensures r.Pass? ==> resolved == map[]
  {
    r := m.AddForeignMap(origin, uid, fieldName, username);
    if r.Pass? {
      assert m.ForeignMapView(origin) == None;
    }
    ghost var values, replies;
    resolved, values, replies := m.ResolveForeignMap(origin);
  }

  /** A one-entry map whose triple is already cached with a value resolves
      to that value, and a one-entry map whose triple was never cached
      resolves to what `decrypt` gave for the entry's own data file. */
  method ResolveSingleEntry(m: ParanoidManager, origin: string, e: Entry)
    returns (resolved: map<string, map<string, string>>)
    requires WellFormed(e) && m.ForeignMapView(origin) == Some([e])
    modifies m.cache
    ensures var (d, hit) := old(DecryptedOf(m.cache.State(), origin, Get(e, UidKey), Get(e, FieldNameKey)));
      hit && d.Some? ==> resolved == map[Get(e, UidKey) := map[Get(e, FieldNameKey) := d.value]]
    ensures !old(DecryptedOf(m.cache.State(), origin, Get(e, UidKey), Get(e, FieldNameKey))).1 && resolved != map[] ==>
      var p := m.EntryPath(origin, e);
      && p in m.keybase.files && m.keybase.files[p].Encrypted?
      && resolved == map[Get(e, UidKey) := map[Get(e, FieldNameKey) := m.keybase.files[p].data]]
  {
    ghost var start := m.AfterGetForeignMap(origin);
    assert start.decryptedDataFile == m.cache.State().decryptedDataFile;
    ghost var values, replies;
    resolved, values, replies := m.ResolveForeignMap(origin);
    assert [e][..0] == [] && values[..0] == [];
    if !DecryptedOf(start, origin, Get(e, UidKey), Get(e, FieldNameKey)).1 {
      m.ResolveStepsFresh(start, origin, [e], replies, 0);
    }
  }

  /** `get_service` right after `set_service` gives the cached JSON text of
      the service, not the parsed object. */
  method ServiceReadAfterWrite(m: ParanoidManager, origin: string, service: Service)
    returns (data: Cached<Service>)
    modifies m.keybase, m.cache
    ensures data == Dumped(service)
  {
    m.SetService(origin, service);
    ServiceWriteThenRead(old(m.cache.State()), origin, Dumped(service));
    data := m.GetService(origin);
  }

  /** `set_service_identity` leaves a cached identity in place: a read that
      was cached before the write gives the same value after it. */
  method IdentityReadIsStale(m: ParanoidManager, origin: string, uid: string, identity: Identity)
    returns (before: Cached<Identity>, r: Outcome, after: Cached<Identity>)
    modifies m.keybase, m.cache
    ensures old(IdentityOf(m.cache.State(), origin, uid)).1 || old(m.keybase.Exists(m.IdentityPath(origin, uid))) ==>
      after == before
    ensures r.Pass? ==> m.keybase.JsonAt(m.IdentityPath(origin, uid)) == Some(IdentityInfo(identity))
  {
    before := m.GetServiceIdentity(origin, uid);
    IdentityWriteThenRead(old(m.cache.State()), origin, uid, before);
    ghost var cachedAfterRead := IdentityOf(m.cache.State(), origin, uid);
    r := m.SetServiceIdentity(origin, uid, identity);
    assert IdentityOf(m.cache.State(), origin, uid) == cachedAfterRead;
    after := m.GetServiceIdentity(origin, uid);
  }

  /** The decrypted-value cache ignores whose file is read: once the owner
      has written a field, reading another user's copy of the same triple
      gives the owner's value. */
  method ForeignReadSeesOwnValue(m: ParanoidManager, origin: string, uid: string, fieldName: string,
                                 value: string, sharedUsers: seq<string>, other: string)
    returns (data: Option<string>)
    modifies m.keybase, m.cache
    ensures data == Some(value)
  {
    m.EncryptDataFile(origin, uid, fieldName, value, sharedUsers);
    DecryptedWriteThenRead(old(m.cache.State()), origin, uid, fieldName, Some(value));
    ghost var reply;
    data, reply := m.DecryptDataFile(origin, uid, fieldName, Some(other));
  }

  /** On a fresh manager, reading one stored service fills the origin list
      with that origin alone: `get_origins` then returns that list and does
      not read the listing. */
  method OriginsAfterServiceRead(m: ParanoidManager, origin: string, listed: seq<string>)
    returns (service: Cached<Service>, origins: seq<string>, r: Outcome)
    requires m.cache.State() == Empty && m.ServiceOnDisk(origin)
    modifies m.cache
    ensures r == Pass && origins == [origin]
  {
    service := m.GetService(origin);
    FreshServiceOrigins(origin, service);
    origins, r := m.GetOrigins(listed);
  }

  /** Re-encrypting right after an encryption keeps the plaintext and only
      changes the recipients. */
  method ReencryptAfterEncrypt(m: ParanoidManager, origin: string, uid: string, fieldName: string,
                               value: string, sharedUsers: seq<string>, newUsers: seq<string>)
    returns (r: Outcome)
    modifies m.keybase, m.cache
    ensures r == Pass
    ensures var p := m.DataPath(origin, uid, fieldName, None);
      p in m.keybase.files && m.keybase.files[p] == Encrypted(value, Recipients(newUsers, m.keybase.username))
  {
    m.EncryptDataFile(origin, uid, fieldName, value, sharedUsers);
    DecryptedWriteThenRead(old(m.cache.State()), origin, uid, fieldName, Some(value));
    r := m.ReencryptDataFile(origin, uid, fieldName, newUsers);
  }
}
