/** `ParanoidManager`: the daemon's logic layer over the Keybase store and
    the cache.  Each method says what it returns and what the store and the
    cache hold afterwards, in terms of the state before the call. */
module Paranoid {
  import opened Values
  import opened Origin
  import opened Addressing
  import opened ForeignMap
  import opened Cache
  import opened Keybase

  /** The exceptions a manager call ends with: the `ParanoidException`s,
      one per message, and the client's `KeybaseFileNotFoundException`,
      which `list_dir` raises for a path that does not exist. */
  datatype Error =
    | NotFound(path: string)
    | ServiceMissing(origin: string)
    | MappingExists(uid: string, fieldName: string, username: string)
    | ForeignMapMissing(origin: string)
    | MappingMissing(uid: string, fieldName: string, username: string)
    | MalformedIdentity
    | InvalidFieldName(fieldName: string)
    | DataFileMissing(origin: string, uid: string, fieldName: string)

  /** Normal return, or the exception raised. */
  datatype Outcome = Pass | Fail(error: Error)

  /** `validate_field_name`: a missing or empty `fields` is malformed, an
      undeclared name is invalid, and a declared name passes. */
  function ValidateFieldName(identity: Identity, fieldName: string): (r: Outcome)
    ensures r == Pass <==> identity.fields.Some? && fieldName in identity.fields.value
    ensures r == Fail(MalformedIdentity) <==> identity.fields.None? || identity.fields.value == map[]
    ensures r.Fail? ==> r == Fail(MalformedIdentity) || r == Fail(InvalidFieldName(fieldName))
  {
    if identity.fields.None? || identity.fields.value == map[] then Fail(MalformedIdentity)
    else if fieldName !in identity.fields.value then Fail(InvalidFieldName(fieldName))
    else Pass
  }

  /** The recipients `encrypt_data_file` passes to `encrypt`: an empty list
      becomes the caller's own name, so the list is never empty. */
  function Recipients(sharedUsers: seq<string>, own: string): (r: seq<string>)
    ensures r != []
    ensures sharedUsers != [] ==> r == sharedUsers
    ensures sharedUsers == [] ==> r == [own]
  {
    if sharedUsers == [] then [own] else sharedUsers
  }

  /** `fnmatch(name, '*.json')`. */
  predicate IsJsonName(name: string) {
    |name| >= 5 && name[|name| - 5..] == ".json"
  }

  /** `[uid[:-5] for uid in fnmatch.filter(names, '*.json')]`. */
  function UidsFromListing(names: seq<string>): seq<string> {
    if names == [] then []
    else
      var n := names[|names| - 1];
      UidsFromListing(names[..|names| - 1]) + if IsJsonName(n) then [n[..|n| - 5]] else []
  }

  /** A uid is listed exactly when `<uid>.json` is in the directory. */
  lemma {:induction false} UidsFromListingSpec(names: seq<string>)
    ensures |UidsFromListing(names)| <= |names|
    ensures forall u :: u in UidsFromListing(names) <==> u + ".json" in names
  {
    if names != [] {
      var init := names[..|names| - 1];
      var n := names[|names| - 1];
      UidsFromListingSpec(init);
      assert names == init + [n];
      if IsJsonName(n) {
        assert n[..|n| - 5] + ".json" == n;
      }
      forall u ensures u + ".json" == n ==> IsJsonName(n) && n[..|n| - 5] == u {
        if u + ".json" == n {
          assert n[|n| - 5..] == ".json";
          assert n[..|n| - 5] == u;
        }
      }
    }
  }

  /** `[origin_filename_to_key(f) for f in names]`. */
  function OriginsFromListing(names: seq<string>): (keys: seq<string>)
    ensures |keys| == |names|
    ensures forall k :: 0 <= k < |names| ==> keys[k] == FilenameToKey(names[k])
  {
    if names == [] then [] else [FilenameToKey(names[0])] + OriginsFromListing(names[1..])
  }

  /** Every listed directory name without `:` is given back as the key
      whose directory it is. */
  lemma OriginsFromListingAddress(names: seq<string>, k: nat)
    requires k < |names| && ':' !in names[k]
    ensures KeyToFilename(OriginsFromListing(names)[k]) == names[k]
  {
    KeyRoundTrip(names[k]);
  }

  class ParanoidManager {
    const keybase: KeybaseClient
    const cache: ParanoidCache
    /** SHA-256 of the UTF-8 encoding, as a hex string. */
    const sha256: string -> string

    constructor (keybase: KeybaseClient, sha256: string -> string)
      ensures this.keybase == keybase && this.sha256 == sha256
      ensures fresh(cache) && cache.State() == Empty
    {
      this.keybase := keybase;
      this.sha256 := sha256;
      this.cache := new ParanoidCache();
    }

    /** `get_service_path(origin, path)`. */
    function ServicePath(origin: string, path: string): string {
      keybase.Private(Join(Join("services", KeyToFilename(origin)), path))
    }

    function IdentityPath(origin: string, uid: string): string {
      ServicePath(origin, Join("uids", uid + ".json"))
    }

    function ForeignMapPath(origin: string): string {
      ServicePath(origin, "foreign_map.json")
    }

    /** Where the encrypted value of a field lives, in `user`'s public tree. */
    function DataPath(origin: string, uid: string, fieldName: string, user: Option<string>): string {
      keybase.Public(user, Join("ids", FieldHash(sha256, origin, uid, fieldName)))
    }

    // What the cache-miss branch of each getter reads from the store.

    predicate ServiceOnDisk(origin: string)
      reads keybase
    {
      keybase.Exists(ServicePath(origin, "")) && keybase.Exists(ServicePath(origin, "info.json"))
    }

    function StoredService(origin: string): Cached<Service>
      reads keybase
    {
      match keybase.JsonAt(ServicePath(origin, "info.json"))
      case Some(ServiceInfo(s)) => Parsed(s)
      case _ => Null
    }

    /** What `get_service(origin)` returns in the current state. */
    function ServiceView(origin: string): Cached<Service>
      reads keybase, cache
    {
      var (d, hit) := ServiceOf(cache.State(), origin);
      if hit then d else if ServiceOnDisk(origin) then StoredService(origin) else Null
    }

    /** The cache after `get_service(origin)`. */
    function AfterGetService(origin: string): CacheState
      reads keybase, cache
    {
      if ServiceOf(cache.State(), origin).1 || !ServiceOnDisk(origin) then cache.State()
      else WithService(cache.State(), origin, StoredService(origin))
    }

    function StoredIdentity(origin: string, uid: string): Cached<Identity>
      reads keybase
    {
      match keybase.JsonAt(IdentityPath(origin, uid))
      case Some(IdentityInfo(i)) => Parsed(i)
      case _ => Null
    }

    function StoredForeignMap(origin: string): Option<seq<Entry>>
      reads keybase
    {
      match keybase.JsonAt(ForeignMapPath(origin))
      case Some(ForeignMapList(es)) => Some(es)
      case _ => None
    }

    /** What `get_foreign_map(origin)` returns in the current state. */
    function ForeignMapView(origin: string): Option<seq<Entry>>
      reads keybase, cache
    {
      var (d, hit) := ForeignMapOf(cache.State(), origin);
      if hit then d else if keybase.Exists(ForeignMapPath(origin)) then StoredForeignMap(origin) else None
    }

    /** The cache after `get_foreign_map(origin)`. */
    function AfterGetForeignMap(origin: string): CacheState
      reads keybase, cache
    {
      if ForeignMapOf(cache.State(), origin).1 || !keybase.Exists(ForeignMapPath(origin)) then cache.State()
      else WithForeignMap(cache.State(), origin, StoredForeignMap(origin))
    }

    /** The plaintext `reencrypt_data_file` can start from: the cached value,
        or else what the owner's data file holds. */
    function CurrentPlaintext(origin: string, uid: string, fieldName: string): Option<string>
      reads keybase, cache
    {
      var (d, hit) := DecryptedOf(cache.State(), origin, uid, fieldName);
      var p := DataPath(origin, uid, fieldName, None);
      if hit then d
      else if p in keybase.files && keybase.files[p].Encrypted? then Some(keybase.files[p].data)
      else None
    }

    /** `get_origins(self)`; `listed` is what `list_dir` of the services
        directory returned. */
    method GetOrigins(listed: seq<string>) returns (data: seq<string>, r: Outcome)
      modifies cache
      ensures old(cache.State().originList).Some? ==>
        r == Pass && data == old(cache.State().originList.value) && cache.State() == old(cache.State())
      ensures old(cache.State().originList).None? && !keybase.Exists(keybase.Private("services")) ==>
        r == Fail(NotFound(keybase.Private("services"))) && data == [] && cache.State() == old(cache.State())
      ensures old(cache.State().originList).None? && keybase.Exists(keybase.Private("services")) ==>
        r == Pass && data == OriginsFromListing(listed) && cache.State() == WithOrigins(old(cache.State()), data)
    {
      var cached, hit := cache.GetOrigins();
      if !hit {
        var path := keybase.Private("services");
        if !keybase.Exists(path) {
          return [], Fail(NotFound(path));
        }
        data := OriginsFromListing(listed);
        cache.AddOrigins(data);
      } else {
        data := cached.value;
      }
      r := Pass;
    }

    /** `get_service(self, origin)`. */
    method GetService(origin: string) returns (data: Cached<Service>)
      modifies cache
      ensures data == old(ServiceView(origin))
      ensures cache.State() == old(AfterGetService(origin))
    {
      var hit;
      data, hit := cache.GetService(origin);
      if !hit {
        if !keybase.Exists(ServicePath(origin, "")) {
          return Null;
        }
        if !keybase.Exists(ServicePath(origin, "info.json")) {
          return Null;
        }
        var doc := keybase.GetJson(ServicePath(origin, "info.json"));
        data := if doc.Some? && doc.value.ServiceInfo? then Parsed(doc.value.info) else Null;
        cache.SetService(origin, data);
      }
    }

    /** `set_service(self, origin, service)`: the cache receives the JSON
        text, not the object. */
    method SetService(origin: string, service: Service)
      modifies keybase, cache
      ensures keybase.files == old(keybase.files)[ServicePath(origin, "info.json") := Json(ServiceInfo(service))]
      ensures keybase.dirs == EnsuredDirs(old(keybase.files),
                EnsuredDirs(old(keybase.files), old(keybase.dirs), ServicePath(origin, "")), ServicePath(origin, "uids"))
      ensures cache.State() == WithService(old(cache.State()), origin, Dumped(service))
    {
      var _ := keybase.EnsureDir(ServicePath(origin, ""));
      var _ := keybase.EnsureDir(ServicePath(origin, "uids"));
      keybase.PutFile(ServicePath(origin, "info.json"), ServiceInfo(service));
      cache.SetService(origin, Dumped(service));
    }

    /** `get_service_uids(self, origin)`; `listed` is what `list_dir` of the
        `uids` directory returned when it exists.  An origin directory
        without a `uids` directory makes `list_dir` raise. */
    method GetServiceUids(origin: string, listed: seq<string>) returns (data: seq<string>, r: Outcome)
      modifies cache
      ensures old(UidsOf(cache.State(), origin)).1 ==>
        r == Pass && data == old(UidsOf(cache.State(), origin)).0.value && cache.State() == old(cache.State())
      ensures !old(UidsOf(cache.State(), origin)).1 && !keybase.Exists(ServicePath(origin, "")) ==>
        r == Pass && data == [] && cache.State() == old(cache.State())
      ensures !old(UidsOf(cache.State(), origin)).1 && keybase.Exists(ServicePath(origin, ""))
              && !keybase.Exists(ServicePath(origin, "uids")) ==>
        r == Fail(NotFound(ServicePath(origin, "uids"))) && data == [] && cache.State() == old(cache.State())
      ensures !old(UidsOf(cache.State(), origin)).1 && keybase.Exists(ServicePath(origin, ""))
              && keybase.Exists(ServicePath(origin, "uids")) ==>
        r == Pass && data == UidsFromListing(listed) && cache.State() == WithUids(old(cache.State()), origin, data)
    {
      var cached, hit := cache.GetServiceUids(origin);
      if hit {
        return cached.value, Pass;
      }
      if !keybase.Exists(ServicePath(origin, "")) {
        return [], Pass;
      }
      var path := ServicePath(origin, "uids");
      if !keybase.Exists(path) {
        return [], Fail(NotFound(path));
      }
      data := UidsFromListing(listed);
      cache.AddServiceUids(origin, data);
      r := Pass;
    }

    /** `get_service_identity(self, origin, uid)`. */
    method GetServiceIdentity(origin: string, uid: string) returns (data: Cached<Identity>)
      modifies cache
      ensures old(IdentityOf(cache.State(), origin, uid)).1 ==>
        data == old(IdentityOf(cache.State(), origin, uid)).0 && cache.State() == old(cache.State())
      ensures !old(IdentityOf(cache.State(), origin, uid)).1 && !keybase.Exists(IdentityPath(origin, uid)) ==>
        data == Null && cache.State() == old(cache.State())
      ensures !old(IdentityOf(cache.State(), origin, uid)).1 && keybase.Exists(IdentityPath(origin, uid)) ==>
        data == StoredIdentity(origin, uid) && cache.State() == WithIdentity(old(cache.State()), origin, uid, data)
    {
      var hit;
      data, hit := cache.GetServiceIdentity(origin, uid);
      if !hit {
        if !keybase.Exists(IdentityPath(origin, uid)) {
          return Null;
        }
        var doc := keybase.GetJson(IdentityPath(origin, uid));
        data := if doc.Some? && doc.value.IdentityInfo? then Parsed(doc.value.identity) else Null;
        cache.SetServiceIdentity(origin, uid, data);
      }
    }

    /** `set_service_identity(self, origin, uid, identity)`: refuses before
        any write when `get_service` gives `None`; the method returns before
        its cache update, so the identity namespace is never touched. */
    method SetServiceIdentity(origin: string, uid: string, identity: Identity) returns (r: Outcome)
      modifies keybase, cache
      ensures r == if old(ServiceView(origin)) == Null then Fail(ServiceMissing(origin)) else Pass
      ensures r.Fail? ==> keybase.files == old(keybase.files) && keybase.dirs == old(keybase.dirs)
      ensures r.Pass? ==>
        && keybase.files == old(keybase.files)[IdentityPath(origin, uid) := Json(IdentityInfo(identity))]
        && keybase.dirs == EnsuredDirs(old(keybase.files), old(keybase.dirs), ServicePath(origin, "uids"))
      ensures cache.State() == old(AfterGetService(origin))
      ensures cache.State().serviceData == old(cache.State().serviceData)
    {
      var service := GetService(origin);
      if service == Null {
        return Fail(ServiceMissing(origin));
      }
      var _ := keybase.EnsureDir(ServicePath(origin, "uids"));
      keybase.PutFile(IdentityPath(origin, uid), IdentityInfo(identity));
      return Pass;
    }

    /** `get_foreign_map(self, origin)`. */
    method GetForeignMap(origin: string) returns (data: Option<seq<Entry>>)
      modifies cache
      ensures data == old(ForeignMapView(origin))
      ensures cache.State() == old(AfterGetForeignMap(origin))
    {
      var hit;
      data, hit := cache.GetForeignMap(origin);
      if !hit {
        if !keybase.Exists(ForeignMapPath(origin)) {
          return None;
        }
        var doc := keybase.GetJson(ForeignMapPath(origin));
        data := if doc.Some? && doc.value.ForeignMapList? then Some(doc.value.entries) else None;
        cache.SetForeignMap(origin, data);
      }
    }

    /** `set_foreign_map(self, origin, foreign_map)`: writes the list, then
        caches (and returns) what `put_file` returned, which is `None`. */
    method SetForeignMap(origin: string, foreignMap: seq<Entry>) returns (data: Option<seq<Entry>>)
      modifies keybase, cache
      ensures data == None
      ensures keybase.files == old(keybase.files)[ForeignMapPath(origin) := Json(ForeignMapList(foreignMap))]
      ensures keybase.dirs == EnsuredDirs(old(keybase.files), old(keybase.dirs), ServicePath(origin, ""))
      ensures cache.State() == WithForeignMap(old(cache.State()), origin, None)
    {
      var _ := keybase.EnsureDir(ServicePath(origin, ""));
      keybase.PutFile(ForeignMapPath(origin), ForeignMapList(foreignMap));
      data := None;
      cache.SetForeignMap(origin, data);
    }

    /** `decrypt_data_file(self, origin, uid, field_name, username)`: a cache
        hit is returned as is; a missing file gives `None` and caches
        nothing; otherwise the result of `decrypt`, `None` included, is
        cached under the triple's key.  `reply` is what `decrypt` answered
        (`None` when it was not called). */
    method DecryptDataFile(origin: string, uid: string, fieldName: string, user: Option<string>)
      returns (data: Option<string>, ghost reply: Option<string>)
      modifies cache
      ensures DecryptReply(keybase.files, DataPath(origin, uid, fieldName, user), reply)
      ensures (data, cache.State()) ==
        DecryptStep(old(cache.State()), keybase.Exists(DataPath(origin, uid, fieldName, user)), origin, uid, fieldName, reply)
      ensures old(DecryptedOf(cache.State(), origin, uid, fieldName)).1 ==>
        data == old(DecryptedOf(cache.State(), origin, uid, fieldName)).0 && cache.State() == old(cache.State())
      ensures !old(DecryptedOf(cache.State(), origin, uid, fieldName)).1 && !keybase.Exists(DataPath(origin, uid, fieldName, user)) ==>
        data == None && cache.State() == old(cache.State())
      ensures !old(DecryptedOf(cache.State(), origin, uid, fieldName)).1 && keybase.Exists(DataPath(origin, uid, fieldName, user)) ==>
        cache.State() == WithDecrypted(old(cache.State()), origin, uid, fieldName, data)
      ensures !old(DecryptedOf(cache.State(), origin, uid, fieldName)).1 && data.Some? ==>
        var p := DataPath(origin, uid, fieldName, user);
        p in keybase.files && keybase.files[p].Encrypted? && keybase.files[p].data == data.value
    {
      var hit;
      data, hit := cache.DecryptDataFile(origin, uid, fieldName);
      reply := None;
      if !hit {
        var path := DataPath(origin, uid, fieldName, user);
        if !keybase.Exists(path) {
          return None, None;
        }
        data := keybase.Decrypt(path);
        reply := data;
        cache.EncryptDataFile(origin, uid, fieldName, data);
      }
    }

    /** `encrypt_data_file(self, origin, uid, field_name, data, shared_users)`. */
    method EncryptDataFile(origin: string, uid: string, fieldName: string, data: string, sharedUsers: seq<string>)
      modifies keybase, cache
      ensures keybase.files == old(keybase.files)[DataPath(origin, uid, fieldName, None) :=
                Encrypted(data, Recipients(sharedUsers, keybase.username))]
      ensures keybase.files[DataPath(origin, uid, fieldName, None)].recipients != []
      ensures keybase.dirs == old(keybase.dirs)
      ensures cache.State() == WithDecrypted(old(cache.State()), origin, uid, fieldName, Some(data))
    {
      var users := sharedUsers;
      if users == [] {
        users := [keybase.username];
      }
      keybase.Encrypt(DataPath(origin, uid, fieldName, None), data, users);
      cache.EncryptDataFile(origin, uid, fieldName, Some(data));
    }

    /** `reencrypt_data_file(self, origin, uid, field_name, shared_users)`:
        the current plaintext is encrypted again for the new list; when it
        cannot be obtained the call raises and writes nothing. */
    method ReencryptDataFile(origin: string, uid: string, fieldName: string, sharedUsers: seq<string>) returns (r: Outcome)
      modifies keybase, cache
      ensures r.Fail? ==> r == Fail(DataFileMissing(origin, uid, fieldName)) && keybase.files == old(keybase.files)
      ensures old(CurrentPlaintext(origin, uid, fieldName)).None? ==> r.Fail?
      ensures old(DecryptedOf(cache.State(), origin, uid, fieldName)).1 ==>
        (r.Pass? <==> old(CurrentPlaintext(origin, uid, fieldName)).Some?)
      ensures r.Pass? ==>
        var v := old(CurrentPlaintext(origin, uid, fieldName));
        && v.Some?
        && keybase.files == old(keybase.files)[DataPath(origin, uid, fieldName, None) :=
             Encrypted(v.value, Recipients(sharedUsers, keybase.username))]
        && cache.State() == WithDecrypted(old(cache.State()), origin, uid, fieldName, v)
      ensures r.Fail? && (old(DecryptedOf(cache.State(), origin, uid, fieldName)).1
                          || !old(keybase.Exists(DataPath(origin, uid, fieldName, None)))) ==>
        cache.State() == old(cache.State())
      ensures r.Fail? && !old(DecryptedOf(cache.State(), origin, uid, fieldName)).1
              && old(keybase.Exists(DataPath(origin, uid, fieldName, None))) ==>
        cache.State() == WithDecrypted(old(cache.State()), origin, uid, fieldName, None)
      ensures keybase.dirs == old(keybase.dirs)
    {
      ghost var plaintext := CurrentPlaintext(origin, uid, fieldName);
      ghost var reply;
      var data;
      data, reply := DecryptDataFile(origin, uid, fieldName, None);
      assert data.Some? ==> data == plaintext;
      if data == None {
        return Fail(DataFileMissing(origin, uid, fieldName));
      }
      EncryptDataFile(origin, uid, fieldName, data.value, sharedUsers);
      return Pass;
    }

    /** `add_foreign_map(self, origin, uid, field_name, username)`: refuses
        when a well-formed entry already names the triple; otherwise writes
        the cleaned map with the triple appended. */
    method AddForeignMap(origin: string, uid: string, fieldName: string, username: string) returns (r: Outcome)
      modifies keybase, cache
      ensures var es := old(ForeignMapView(origin)).GetOr([]);
        r == if HasMapping(es, username, uid, fieldName) then Fail(MappingExists(uid, fieldName, username)) else Pass
      ensures r.Fail? ==>
        keybase.files == old(keybase.files) && keybase.dirs == old(keybase.dirs)
        && cache.State() == old(AfterGetForeignMap(origin))
      ensures r.Pass? ==>
        var es := old(ForeignMapView(origin)).GetOr([]);
        && keybase.files == old(keybase.files)[ForeignMapPath(origin) := Json(ForeignMapList(Added(es, username, uid, fieldName)))]
        && keybase.dirs == EnsuredDirs(old(keybase.files), old(keybase.dirs), ServicePath(origin, ""))
        && cache.State() == WithForeignMap(old(AfterGetForeignMap(origin)), origin, None)
    {
      var foreignMap := GetForeignMap(origin);
      var existing := foreignMap.GetOr([]);
      var newMap: seq<Entry> := [];
      var i := 0;
      while i < |existing|
        invariant 0 <= i <= |existing|
        invariant newMap == Cleaned(existing[..i])
        invariant !HasMapping(existing[..i], username, uid, fieldName)
        modifies {}
      {
        var mapping := existing[i];
        var mapUsername, mapUid, mapFieldName := Get(mapping, UsernameKey), Get(mapping, UidKey), Get(mapping, FieldNameKey);
        if mapUsername == "" || mapUid == "" || mapFieldName == "" {
          HasMappingStep(existing, i, username, uid, fieldName);
          CleanedStep(existing, i);
          i := i + 1;
          continue;
        }
        if mapUsername == username && mapUid == uid && mapFieldName == fieldName {
          assert WellFormed(existing[i]) && Matches(existing[i], username, uid, fieldName);
          return Fail(MappingExists(uid, fieldName, username));
        }
        HasMappingStep(existing, i, username, uid, fieldName);
        CleanedStep(existing, i);
        newMap := newMap + [Triple(mapUsername, mapUid, mapFieldName)];
        i := i + 1;
      }
      assert existing[..i] == existing;
      newMap := newMap + [Triple(username, uid, fieldName)];
      var _ := SetForeignMap(origin, newMap);
      return Pass;
    }

    /** `remove_foreign_map(self, origin, uid, field_name, username)`:
        refuses when the map is absent or no well-formed entry names the
        triple; otherwise writes the cleaned map without it. */
    method RemoveForeignMap(origin: string, uid: string, fieldName: string, username: string) returns (r: Outcome)
      modifies keybase, cache
      ensures old(ForeignMapView(origin)).None? ==> r == Fail(ForeignMapMissing(origin))
      ensures old(ForeignMapView(origin)).Some? ==>
        r == if HasMapping(old(ForeignMapView(origin)).value, username, uid, fieldName) then Pass
             else Fail(MappingMissing(uid, fieldName, username))
      ensures r.Fail? ==>
        keybase.files == old(keybase.files) && keybase.dirs == old(keybase.dirs)
        && cache.State() == old(AfterGetForeignMap(origin))
      ensures r.Pass? ==>
        var es := old(ForeignMapView(origin)).value;
        && keybase.files == old(keybase.files)[ForeignMapPath(origin) := Json(ForeignMapList(Removed(es, username, uid, fieldName)))]
        && keybase.dirs == EnsuredDirs(old(keybase.files), old(keybase.dirs), ServicePath(origin, ""))
        && cache.State() == WithForeignMap(old(AfterGetForeignMap(origin)), origin, None)
    {
      var foreignMap := GetForeignMap(origin);
      if foreignMap == None {
        return Fail(ForeignMapMissing(origin));
      }
      var existing := foreignMap.value;
      var found := false;
      var newMap: seq<Entry> := [];
      var i := 0;
      while i < |existing|
        invariant 0 <= i <= |existing|
        invariant newMap == Removed(existing[..i], username, uid, fieldName)
        invariant found <==> HasMapping(existing[..i], username, uid, fieldName)
        modifies {}
      {
        var mapping := existing[i];
        var mapUsername, mapUid, mapFieldName := Get(mapping, UsernameKey), Get(mapping, UidKey), Get(mapping, FieldNameKey);
        if mapUsername == "" || mapUid == "" || mapFieldName == "" {
          HasMappingStep(existing, i, username, uid, fieldName);
          RemovedStep(existing, i, username, uid, fieldName);
          i := i + 1;
          continue;
        }
        if mapUsername == username && mapUid == uid && mapFieldName == fieldName {
          HasMappingStep(existing, i, username, uid, fieldName);
          RemovedStep(existing, i, username, uid, fieldName);
          found := true;
          i := i + 1;
          continue;
        }
        HasMappingStep(existing, i, username, uid, fieldName);
        RemovedStep(existing, i, username, uid, fieldName);
        newMap := newMap + [Triple(mapUsername, mapUid, mapFieldName)];
        i := i + 1;
      }
      assert existing[..i] == existing;
      if !found {
        return Fail(MappingMissing(uid, fieldName, username));
      }
      var _ := SetForeignMap(origin, newMap);
      return Pass;
    }

    /** Where entry `e` of `origin`'s foreign map keeps its value: the data
        file of its triple in its user's public tree. */
    function EntryPath(origin: string, e: Entry): string {
      DataPath(origin, Get(e, UidKey), Get(e, FieldNameKey), Some(Get(e, UsernameKey)))
    }

    /** Every reply given for a well-formed entry is one `decrypt` of its
        data file may give. */
    ghost predicate Replies(origin: string, es: seq<Entry>, replies: seq<Option<string>>)
      reads keybase
    {
      forall k :: 0 <= k < |replies| && k < |es| && WellFormed(es[k]) ==>
        DecryptReply(keybase.files, EntryPath(origin, es[k]), replies[k])
    }

    lemma RepliesStep(origin: string, es: seq<Entry>, replies: seq<Option<string>>, reply: Option<string>)
      requires |replies| < |es| && Replies(origin, es, replies)
      requires WellFormed(es[|replies|]) ==> DecryptReply(keybase.files, EntryPath(origin, es[|replies|]), reply)
      ensures Replies(origin, es, replies + [reply])
    {
      var rs := replies + [reply];
      forall k | 0 <= k < |rs| && k < |es| && WellFormed(es[k])
        ensures DecryptReply(keybase.files, EntryPath(origin, es[k]), rs[k])
      {
        if k < |replies| {
          assert rs[k] == replies[k];
        }
      }
    }

    /** The values and the cache after the loop of `resolve_foreign_map`
        over `es`, from cache `s`, when `decrypt` answers `replies[k]` for
        entry `k`: a malformed entry gives `None` and is skipped, a
        well-formed one is one `decrypt_data_file` on the cache the earlier
        entries left. */
    ghost function ResolveSteps(s: CacheState, origin: string, es: seq<Entry>, replies: seq<Option<string>>): (r: (seq<Option<string>>, CacheState))
      requires |replies| == |es|
      reads keybase
      ensures |r.0| == |es|
      ensures forall k :: 0 <= k < |es| && !WellFormed(es[k]) ==> r.0[k] == None
      ensures Kept(s, r.1)
    {
      if es == [] then ([], s)
      else
        var n := |es| - 1;
        var pre := ResolveSteps(s, origin, es[..n], replies[..n]);
        var one := ResolveOne(pre.1, origin, es[n], replies[n]);
        (pre.0 + [one.0], one.1)
    }

    /** The loop body for entry `e` on cache `t`. */
    ghost function ResolveOne(t: CacheState, origin: string, e: Entry, reply: Option<string>): (r: (Option<string>, CacheState))
      reads keybase
      ensures Kept(t, r.1)
      ensures !WellFormed(e) ==> r == (None, t)
    {
      if !WellFormed(e) then (None, t)
      else DecryptStep(t, keybase.Exists(EntryPath(origin, e)), origin, Get(e, UidKey), Get(e, FieldNameKey), reply)
    }

    /** Resolving one more entry is one more step. */
    lemma ResolveStepsStep(s: CacheState, origin: string, es: seq<Entry>, replies: seq<Option<string>>, i: nat, reply: Option<string>)
      requires i < |es| && |replies| == i
      ensures var pre := ResolveSteps(s, origin, es[..i], replies);
        var one := ResolveOne(pre.1, origin, es[i], reply);
        ResolveSteps(s, origin, es[..i + 1], replies + [reply]) == (pre.0 + [one.0], one.1)
    {
      assert es[..i + 1][..i] == es[..i];
      assert (replies + [reply])[..i] == replies;
    }

    /** The values of a prefix of the entries are the prefix of the values. */
    lemma {:induction false} ResolveStepsPrefix(s: CacheState, origin: string, es: seq<Entry>, replies: seq<Option<string>>, m: nat)
      requires |replies| == |es| && m <= |es|
      ensures ResolveSteps(s, origin, es, replies).0[..m] == ResolveSteps(s, origin, es[..m], replies[..m]).0
      decreases |es|
    {
      if m < |es| {
        var n := |es| - 1;
        ResolveStepsPrefix(s, origin, es[..n], replies[..n], m);
        assert es[..n][..m] == es[..m];
        assert replies[..n][..m] == replies[..m];
      } else {
        assert es[..m] == es && replies[..m] == replies;
      }
    }

    /** An entry whose key the cache held before the loop gets the value
        cached then: nothing the loop writes replaces it. */
    lemma {:induction false} ResolveStepsCached(s: CacheState, origin: string, es: seq<Entry>, replies: seq<Option<string>>)
      requires |replies| == |es|
      ensures var vs := ResolveSteps(s, origin, es, replies).0;
        forall k :: 0 <= k < |es| && WellFormed(es[k]) && DecryptedOf(s, origin, Get(es[k], UidKey), Get(es[k], FieldNameKey)).1 ==>
          vs[k] == DecryptedOf(s, origin, Get(es[k], UidKey), Get(es[k], FieldNameKey)).0
    {
      if es != [] {
        var n := |es| - 1;
        ResolveStepsCached(s, origin, es[..n], replies[..n]);
        var pre := ResolveSteps(s, origin, es[..n], replies[..n]);
        var vs := ResolveSteps(s, origin, es, replies).0;
        assert vs[..n] == pre.0;
        forall k | 0 <= k < |es| && WellFormed(es[k]) && DecryptedOf(s, origin, Get(es[k], UidKey), Get(es[k], FieldNameKey)).1
          ensures vs[k] == DecryptedOf(s, origin, Get(es[k], UidKey), Get(es[k], FieldNameKey)).0
        {
          if k < n {
            assert es[..n][k] == es[k] && vs[k] == pre.0[k];
          } else {
            var key := CacheKey(origin, Get(es[k], UidKey), Get(es[k], FieldNameKey));
            assert key in pre.1.decryptedDataFile && pre.1.decryptedDataFile[key] == s.decryptedDataFile[key];
          }
        }
      }
    }

    /** A key that no well-formed entry maps to, and that the cache did not
        hold, is still absent after the loop. */
    lemma {:induction false} ResolveStepsUntouched(s: CacheState, origin: string, es: seq<Entry>, replies: seq<Option<string>>, key: string)
      requires |replies| == |es| && key !in s.decryptedDataFile
      requires forall j :: 0 <= j < |es| && WellFormed(es[j]) ==> CacheKey(origin, Get(es[j], UidKey), Get(es[j], FieldNameKey)) != key
      ensures key !in ResolveSteps(s, origin, es, replies).1.decryptedDataFile
    {
      if es != [] {
        var n := |es| - 1;
        forall j | 0 <= j < n && WellFormed(es[..n][j])
          ensures CacheKey(origin, Get(es[..n][j], UidKey), Get(es[..n][j], FieldNameKey)) != key
        {
          assert es[..n][j] == es[j];
        }
        ResolveStepsUntouched(s, origin, es[..n], replies[..n], key);
      }
    }

    /** The first entry for a key the cache did not hold is decrypted from
        its own file: it gets `decrypt`'s answer when the file exists and
        `None` otherwise. */
    lemma ResolveStepsFresh(s: CacheState, origin: string, es: seq<Entry>, replies: seq<Option<string>>, k: nat)
      requires |replies| == |es| && k < |es| && WellFormed(es[k])
      requires !DecryptedOf(s, origin, Get(es[k], UidKey), Get(es[k], FieldNameKey)).1
      requires forall j :: 0 <= j < k && WellFormed(es[j]) ==>
        CacheKey(origin, Get(es[j], UidKey), Get(es[j], FieldNameKey)) != CacheKey(origin, Get(es[k], UidKey), Get(es[k], FieldNameKey))
      ensures ResolveSteps(s, origin, es, replies).0[k] ==
        if keybase.Exists(EntryPath(origin, es[k])) then replies[k] else None
    {
      var e := es[k];
      var key := CacheKey(origin, Get(e, UidKey), Get(e, FieldNameKey));
      forall j | 0 <= j < k && WellFormed(es[..k][j])
        ensures CacheKey(origin, Get(es[..k][j], UidKey), Get(es[..k][j], FieldNameKey)) != key
      {
        assert es[..k][j] == es[j];
      }
      ResolveStepsUntouched(s, origin, es[..k], replies[..k], key);
      var pre := ResolveSteps(s, origin, es[..k], replies[..k]);
      ResolveOneFresh(pre.1, origin, e, replies[k]);
      ResolveStepsStep(s, origin, es, replies[..k], k, replies[k]);
      PrefixAndNext(replies, k);
      ResolveStepsPrefix(s, origin, es, replies, k + 1);
      assert ResolveSteps(s, origin, es, replies).0[k] == ResolveSteps(s, origin, es[..k + 1], replies[..k + 1]).0[k];
    }

    /** A well-formed entry whose key is not cached gets `decrypt`'s answer
        when its file exists and `None` otherwise. */
    lemma ResolveOneFresh(t: CacheState, origin: string, e: Entry, reply: Option<string>)
      requires WellFormed(e) && CacheKey(origin, Get(e, UidKey), Get(e, FieldNameKey)) !in t.decryptedDataFile
      ensures ResolveOne(t, origin, e, reply).0 == if keybase.Exists(EntryPath(origin, e)) then reply else None
    {
    }

    /** The loop body keeps what was remembered and remembers its own value. */
    lemma ResolveOneRemembers(t: CacheState, origin: string, es: seq<Entry>, vs: seq<Option<string>>, reply: Option<string>)
      requires |vs| < |es| && Remembered(t, origin, es, vs)
      ensures var one := ResolveOne(t, origin, es[|vs|], reply); Remembered(one.1, origin, es, vs + [one.0])
    {
      var one := ResolveOne(t, origin, es[|vs|], reply);
      if WellFormed(es[|vs|]) {
        RememberedDecrypt(t, one.1, origin, es, vs, one.0);
      } else {
        RememberedNone(t, origin, es, vs);
      }
    }

    /** After the loop every entry that decrypted has its value cached
        under its triple. */
    lemma {:induction false} ResolveStepsRemembered(s: CacheState, origin: string, es: seq<Entry>, replies: seq<Option<string>>)
      requires |replies| == |es|
      ensures var r := ResolveSteps(s, origin, es, replies); Remembered(r.1, origin, es, r.0)
    {
      if es != [] {
        var n := |es| - 1;
        ResolveStepsRemembered(s, origin, es[..n], replies[..n]);
        var pre := ResolveSteps(s, origin, es[..n], replies[..n]);
        RememberedExtend(pre.1, origin, es[..n], es, pre.0);
        ResolveOneRemembers(pre.1, origin, es, pre.0, replies[n]);
      }
    }

    /** With plain components, the directory of an origin is
        `services/<origin filename>` in the private tree, and `path` lies
        inside it. */
    lemma ServicePathLayout(origin: string, path: string)
      requires Segment(keybase.username) && Segment(keybase.basePath) && Segment(KeyToFilename(origin))
      requires |path| == 0 || path[0] != '/'
      ensures ServicePath(origin, path) ==
        "/keybase/private/" + keybase.username + "/" + keybase.basePath + "/" + ("services/" + KeyToFilename(origin) + "/" + path)
    {
      var f := KeyToFilename(origin);
      ServiceJoin(f, path);
      keybase.PrivateLayout(Join(Join("services", f), path));
    }

    /** `resolve_foreign_map(self, origin)`: `{}` without a map; otherwise
        the entries of the map, resolved by `ResolveEntries` on the cache
        `get_foreign_map` left. */
    method ResolveForeignMap(origin: string)
      returns (resolved: map<string, map<string, string>>, ghost values: seq<Option<string>>, ghost replies: seq<Option<string>>)
      modifies cache
      ensures old(ForeignMapView(origin)).None? ==> resolved == map[] && cache.State() == old(AfterGetForeignMap(origin))
      ensures old(ForeignMapView(origin)).Some? ==>
        var es := old(ForeignMapView(origin)).value;
        && |values| == |es| && |replies| == |es|
        && resolved == Resolved(es, values)
        && (values, cache.State()) == ResolveSteps(old(AfterGetForeignMap(origin)), origin, es, replies)
        && Replies(origin, es, replies)
        && (forall k :: 0 <= k < |es| && !WellFormed(es[k]) ==> values[k] == None)
        && (forall k :: 0 <= k < |es| && WellFormed(es[k]) && old(DecryptedOf(cache.State(), origin, Get(es[k], UidKey), Get(es[k], FieldNameKey))).1 ==>
              values[k] == old(DecryptedOf(cache.State(), origin, Get(es[k], UidKey), Get(es[k], FieldNameKey))).0)
        && Remembered(cache.State(), origin, es, values)
    {
      var foreignMap := GetForeignMap(origin);
      if foreignMap == None {
        return map[], [], [];
      }
      resolved, values, replies := ResolveEntries(origin, foreignMap.value);
    }

    /** The loop of `resolve_foreign_map` over the entries `es`: `values`
        and the new cache are `ResolveSteps` of the cache before and the
        answers `decrypt` gave, and the result is `Resolved` of the entries
        and those values.  A malformed entry is never decrypted, an entry
        whose key was cached gets the cached value, and every value that
        decrypted sits in the cache under its triple afterwards. */
    method ResolveEntries(origin: string, es: seq<Entry>)
      returns (resolved: map<string, map<string, string>>, ghost values: seq<Option<string>>, ghost replies: seq<Option<string>>)
      modifies cache
      ensures |values| == |es| && |replies| == |es|
      ensures resolved == Resolved(es, values)
      ensures (values, cache.State()) == ResolveSteps(old(cache.State()), origin, es, replies)
      ensures Replies(origin, es, replies)
      ensures forall k :: 0 <= k < |es| && !WellFormed(es[k]) ==> values[k] == None
      ensures forall k :: 0 <= k < |es| && WellFormed(es[k]) && old(DecryptedOf(cache.State(), origin, Get(es[k], UidKey), Get(es[k], FieldNameKey))).1 ==>
        values[k] == old(DecryptedOf(cache.State(), origin, Get(es[k], UidKey), Get(es[k], FieldNameKey))).0
      ensures Remembered(cache.State(), origin, es, values)
    {
      ghost var start := cache.State();
      values, replies := [], [];
      resolved := map[];
      var i := 0;
      while i < |es|
        invariant 0 <= i <= |es|
        invariant |values| == i && |replies| == i
        invariant resolved == Resolved(es[..i], values)
        invariant (values, cache.State()) == ResolveSteps(start, origin, es[..i], replies)
        invariant Replies(origin, es, replies)
      {
        assert es[..i + 1] == es[..i] + [es[i]];
        var mapping := es[i];
        var username, uid, fieldName := Get(mapping, UsernameKey), Get(mapping, UidKey), Get(mapping, FieldNameKey);
        if username == "" || uid == "" || fieldName == "" {
          ResolvedStep(es[..i], values, mapping, None);
          ResolveStepsStep(start, origin, es, replies, i, None);
          RepliesStep(origin, es, replies, None);
          values, replies := values + [None], replies + [None];
        } else {
          var value;
          ghost var reply;
          value, reply := DecryptDataFile(origin, uid, fieldName, Some(username));
          ResolvedStep(es[..i], values, mapping, value);
          ResolveStepsStep(start, origin, es, replies, i, reply);
          RepliesStep(origin, es, replies, reply);
          values, replies := values + [value], replies + [reply];
          if value.Some? {
            PutInSteps(resolved, uid, fieldName, value.value);
            if uid !in resolved {
              resolved := resolved[uid := map[]];
            }
            resolved := resolved[uid := resolved[uid][fieldName := value.value]];
          }
        }
        i := i + 1;
      }
      assert es[..i] == es;
      ResolveStepsCached(start, origin, es, replies);
      ResolveStepsRemembered(start, origin, es, replies);
    }
  }

  /** A prefix followed by the next element is the longer prefix. */
  lemma PrefixAndNext<T>(xs: seq<T>, k: nat)
    requires k < |xs|
    ensures xs[..k] + [xs[k]] == xs[..k + 1]
  {
  }

  /** The relative path `get_service_path` hands to `get_private`. */
  lemma ServiceJoin(f: string, path: string)
    requires Segment(f) && (|path| == 0 || path[0] != '/')
    ensures Join(Join("services", f), path) == "services/" + f + "/" + path
    ensures Join(Join("services", f), path)[0] == 's'
  {
    var d := Join("services", f);
    assert d == "services/" + f;
    assert d[|d| - 1] == f[|f| - 1];
  }

  /** One `decrypt_data_file(origin, uid, field_name, ...)` on cache `s`:
      the value returned and the cache afterwards, given whether the data
      file exists and what `decrypt` answered.  A hit is returned and
      changes nothing; a missing file gives `None` and changes nothing;
      otherwise the answer is returned and cached under the triple. */
  function DecryptStep(s: CacheState, fileExists: bool, origin: string, uid: string, fieldName: string, reply: Option<string>): (r: (Option<string>, CacheState))
    ensures Kept(s, r.1)
    ensures r.0.Some? ==> DecryptedOf(r.1, origin, uid, fieldName) == (r.0, true)
    ensures !DecryptedOf(s, origin, uid, fieldName).1 && fileExists ==> DecryptedOf(r.1, origin, uid, fieldName) == (reply, true)
  {
    var (d, hit) := DecryptedOf(s, origin, uid, fieldName);
    if hit then (d, s)
    else if !fileExists then (None, s)
    else (reply, WithDecrypted(s, origin, uid, fieldName, reply))
  }

  /** `t` differs from `s` only by new keys of the decrypted-value
      namespace. */
  predicate Kept(s: CacheState, t: CacheState) {
    && t == s.(decryptedDataFile := t.decryptedDataFile)
    && forall key :: key in s.decryptedDataFile ==> key in t.decryptedDataFile && t.decryptedDataFile[key] == s.decryptedDataFile[key]
  }

  /** Every value decrypted so far for a well-formed entry is in the cache
      under that entry's triple. */
  ghost predicate Remembered(s: CacheState, origin: string, es: seq<Entry>, values: seq<Option<string>>) {
    forall k :: 0 <= k < |values| && k < |es| && WellFormed(es[k]) && values[k].Some? ==>
      DecryptedOf(s, origin, Get(es[k], UidKey), Get(es[k], FieldNameKey)) == (values[k], true)
  }

  /** What is remembered for a prefix of the entries is remembered for the
      whole list. */
  lemma RememberedExtend(s: CacheState, origin: string, short: seq<Entry>, es: seq<Entry>, values: seq<Option<string>>)
    requires |values| <= |short| <= |es| && short == es[..|short|]
    requires Remembered(s, origin, short, values)
    ensures Remembered(s, origin, es, values)
  {
    forall k | 0 <= k < |values| && WellFormed(es[k]) && values[k].Some?
      ensures DecryptedOf(s, origin, Get(es[k], UidKey), Get(es[k], FieldNameKey)) == (values[k], true)
    {
      assert short[k] == es[k];
    }
  }

  lemma RememberedNone(s: CacheState, origin: string, es: seq<Entry>, values: seq<Option<string>>)
    requires Remembered(s, origin, es, values)
    ensures Remembered(s, origin, es, values + [None])
  {
    forall k | 0 <= k < |values| + 1 && k < |es| && WellFormed(es[k]) && (values + [None])[k].Some?
      ensures DecryptedOf(s, origin, Get(es[k], UidKey), Get(es[k], FieldNameKey)) == ((values + [None])[k], true)
    {
      assert (values + [None])[k] == values[k];
    }
  }

  /** One `decrypt_data_file` call for entry `|values|` keeps what was
      remembered (a hit changes nothing, a miss writes a fresh key) and
      remembers its own value when there is one. */
  lemma RememberedDecrypt(s: CacheState, t: CacheState, origin: string, es: seq<Entry>, values: seq<Option<string>>, v: Option<string>)
    requires |values| < |es| && WellFormed(es[|values|])
    requires Remembered(s, origin, es, values)
    requires var e := es[|values|];
      var (d, hit) := DecryptedOf(s, origin, Get(e, UidKey), Get(e, FieldNameKey));
      && (hit ==> v == d && t == s)
      && (!hit ==> (t == s && v == None) || t == WithDecrypted(s, origin, Get(e, UidKey), Get(e, FieldNameKey), v))
    ensures Remembered(t, origin, es, values + [v])
  {
    var e := es[|values|];
    var vs := values + [v];
    forall k | 0 <= k < |vs| && k < |es| && WellFormed(es[k]) && vs[k].Some?
      ensures DecryptedOf(t, origin, Get(es[k], UidKey), Get(es[k], FieldNameKey)) == (vs[k], true)
    {
      if k < |values| {
        assert vs[k] == values[k];
        assert DecryptedOf(s, origin, Get(es[k], UidKey), Get(es[k], FieldNameKey)) == (values[k], true);
      }
    }
  }
}
