/** `ParanoidCache`: six namespaces kept in memory for the life of the
    daemon.  `CacheState` is the abstract value of the cache; each method of
    the class is proved to move that value exactly as the matching function
    below says, and the lemmas state what the functions promise. */
module Cache {
  import opened Values
  import opened Addressing

  /** The six namespaces of `self.cache`. */
  datatype CacheState = CacheState(
    serviceInfo: map<string, Cached<Service>>,
    serviceData: map<string, map<string, Cached<Identity>>>,
    foreignMap: map<string, Option<seq<Entry>>>,
    uidList: map<string, seq<string>>,
    originList: Option<seq<string>>,
    decryptedDataFile: map<string, Option<string>>)

  /** A fresh cache: every dict empty, `origin_list` still `None`. */
  const Empty: CacheState := CacheState(map[], map[], map[], map[], None, map[])

  predicate NoDuplicates(s: seq<string>) {
    forall i, j :: 0 <= i < j < |s| ==> s[i] != s[j]
  }

  /** The list after the loop `for y in ys: if y not in xs: xs.append(y)`. */
  function AddNew(xs: seq<string>, ys: seq<string>): seq<string> {
    if ys == [] then xs
    else
      var r := AddNew(xs, ys[..|ys| - 1]);
      var y := ys[|ys| - 1];
      if y in r then r else r + [y]
  }

  /** Appending keeps the old list as a prefix, adds exactly the missing
      items, and creates no duplicate. */
  lemma {:induction false} AddNewShape(xs: seq<string>, ys: seq<string>)
    ensures |xs| <= |AddNew(xs, ys)| && AddNew(xs, ys)[..|xs|] == xs
    ensures forall z :: z in AddNew(xs, ys) <==> z in xs || z in ys
    ensures NoDuplicates(xs) ==> NoDuplicates(AddNew(xs, ys))
    ensures NoDuplicates(AddNew(xs, ys)[|xs|..])
    ensures forall z :: z in AddNew(xs, ys)[|xs|..] <==> z in ys && z !in xs
  {
    if ys != [] {
      var init := ys[..|ys| - 1];
      AddNewShape(xs, init);
      var r := AddNew(xs, init);
      var y := ys[|ys| - 1];
      assert ys == init + [y];
      if y !in r {
        assert (r + [y])[|xs|..] == r[|xs|..] + [y];
        assert (r + [y])[..|xs|] == r[..|xs|];
      }
    }
  }

  /** Items already present change nothing. */
  lemma {:induction false} AddNewPresent(xs: seq<string>, ys: seq<string>)
    requires forall y :: y in ys ==> y in xs
    ensures AddNew(xs, ys) == xs
  {
    if ys != [] {
      AddNewPresent(xs, ys[..|ys| - 1]);
      assert ys[|ys| - 1] in ys;
    }
  }

  /** `add_origins` and `add_service_uids` are idempotent. */
  lemma AddNewIdempotent(xs: seq<string>, ys: seq<string>)
    ensures AddNew(AddNew(xs, ys), ys) == AddNew(xs, ys)
  {
    AddNewShape(xs, ys);
    AddNewPresent(AddNew(xs, ys), ys);
  }

  /** `get_origins`. */
  function OriginsOf(s: CacheState): (Option<seq<string>>, bool) {
    (s.originList, s.originList.Some?)
  }

  /** `add_origins`. */
  function WithOrigins(s: CacheState, origins: seq<string>): CacheState {
    s.(originList := Some(AddNew(s.originList.GetOr([]), origins)))
  }

  /** `get_service`. */
  function ServiceOf(s: CacheState, origin: string): (Cached<Service>, bool) {
    if origin in s.serviceInfo then (s.serviceInfo[origin], true) else (Null, false)
  }

  /** `set_service`: the origin is recorded, then the info. */
  function WithService(s: CacheState, origin: string, info: Cached<Service>): CacheState {
    WithOrigins(s, [origin]).(serviceInfo := s.serviceInfo[origin := info])
  }

  /** `get_service_uids`. */
  function UidsOf(s: CacheState, origin: string): (Option<seq<string>>, bool) {
    if origin in s.uidList then (Some(s.uidList[origin]), true) else (None, false)
  }

  /** `add_service_uids`. */
  function WithUids(s: CacheState, origin: string, uids: seq<string>): CacheState {
    var old_ := if origin in s.uidList then s.uidList[origin] else [];
    s.(uidList := s.uidList[origin := AddNew(old_, uids)])
  }

  /** `get_service_identity`. */
  function IdentityOf(s: CacheState, origin: string, uid: string): (Cached<Identity>, bool) {
    if origin in s.serviceData && uid in s.serviceData[origin] then (s.serviceData[origin][uid], true)
    else (Null, false)
  }

  /** `set_service_identity`: the uid joins the uid list, then the identity is stored. */
  function WithIdentity(s: CacheState, origin: string, uid: string, identity: Cached<Identity>): CacheState {
    var inner := if origin in s.serviceData then s.serviceData[origin] else map[];
    WithUids(s, origin, [uid]).(serviceData := s.serviceData[origin := inner[uid := identity]])
  }

  /** `get_foreign_map`. */
  function ForeignMapOf(s: CacheState, origin: string): (Option<seq<Entry>>, bool) {
    if origin in s.foreignMap then (s.foreignMap[origin], true) else (None, false)
  }

  /** `set_foreign_map`. */
  function WithForeignMap(s: CacheState, origin: string, fm: Option<seq<Entry>>): CacheState {
    s.(foreignMap := s.foreignMap[origin := fm])
  }

  /** `decrypt_data_file`: looked up under `origin-uid-field_name`. */
  function DecryptedOf(s: CacheState, origin: string, uid: string, fieldName: string): (Option<string>, bool) {
    var key := CacheKey(origin, uid, fieldName);
    if key in s.decryptedDataFile then (s.decryptedDataFile[key], true) else (None, false)
  }

  /** `encrypt_data_file`. */
  function WithDecrypted(s: CacheState, origin: string, uid: string, fieldName: string, data: Option<string>): CacheState {
    s.(decryptedDataFile := s.decryptedDataFile[CacheKey(origin, uid, fieldName) := data])
  }

  predicate IsPrefix(a: seq<string>, b: seq<string>) {
    |a| <= |b| && b[..|a|] == a
  }

  /** Nothing is ever removed: every key stays, every list only extends. */
  predicate Grows(s: CacheState, t: CacheState) {
    && s.serviceInfo.Keys <= t.serviceInfo.Keys
    && s.foreignMap.Keys <= t.foreignMap.Keys
    && s.decryptedDataFile.Keys <= t.decryptedDataFile.Keys
    && (forall o :: o in s.uidList ==> o in t.uidList && IsPrefix(s.uidList[o], t.uidList[o]))
    && (forall o :: o in s.serviceData ==> o in t.serviceData && s.serviceData[o].Keys <= t.serviceData[o].Keys)
    && (s.originList.Some? ==> t.originList.Some? && IsPrefix(s.originList.value, t.originList.value))
  }

  /** `add_origins` only grows the cache. */
  lemma OriginsWriteGrows(s: CacheState, xs: seq<string>)
    ensures Grows(s, WithOrigins(s, xs))
  {
    AddNewShape(s.originList.GetOr([]), xs);
  }

  /** `set_service` only grows the cache. */
  lemma ServiceWriteGrows(s: CacheState, o: string, info: Cached<Service>)
    ensures Grows(s, WithService(s, o, info))
  {
    OriginsWriteGrows(s, [o]);
  }

  /** `add_service_uids` only grows the cache. */
  lemma UidsWriteGrows(s: CacheState, o: string, xs: seq<string>)
    ensures Grows(s, WithUids(s, o, xs))
  {
    var t := WithUids(s, o, xs);
    if o in s.uidList {
      AddNewShape(s.uidList[o], xs);
    }
    forall o2 | o2 in s.uidList ensures o2 in t.uidList && IsPrefix(s.uidList[o2], t.uidList[o2]) {
    }
  }

  /** `set_service_identity` only grows the cache. */
  lemma IdentityWriteGrows(s: CacheState, o: string, u: string, identity: Cached<Identity>)
    ensures Grows(s, WithIdentity(s, o, u, identity))
  {
    UidsWriteGrows(s, o, [u]);
  }

  /** `set_foreign_map` and `encrypt_data_file` only grow the cache. */
  lemma ValueWritesGrow(s: CacheState, o: string, u: string, f: string, fm: Option<seq<Entry>>, d: Option<string>)
    ensures Grows(s, WithForeignMap(s, o, fm))
    ensures Grows(s, WithDecrypted(s, o, u, f, d))
  {
  }

  /** A fresh cache misses on every lookup. */
  lemma EmptyMisses(o: string, u: string, f: string)
    ensures !OriginsOf(Empty).1 && OriginsOf(Empty).0 == None
    ensures !ServiceOf(Empty, o).1 && !UidsOf(Empty, o).1 && !IdentityOf(Empty, o, u).1
    ensures !ForeignMapOf(Empty, o).1 && !DecryptedOf(Empty, o, u, f).1
  {
  }

  /** `add_origins` turns `origin_list` on: afterwards `get_origins` hits. */
  lemma OriginsHitAfterAdd(s: CacheState, xs: seq<string>)
    ensures OriginsOf(WithOrigins(s, xs)).1
    ensures forall x :: x in xs ==> x in OriginsOf(WithOrigins(s, xs)).0.value
  {
    AddNewShape(s.originList.GetOr([]), xs);
  }

  /** `set_service(o, v)`: `get_service(o)` returns `(v, True)`, `o` is an
      origin, and nothing else changes except that the origin list may grow. */
  lemma ServiceWriteThenRead(s: CacheState, o: string, v: Cached<Service>)
    ensures ServiceOf(WithService(s, o, v), o) == (v, true)
    ensures OriginsOf(WithService(s, o, v)).1 && o in OriginsOf(WithService(s, o, v)).0.value
    ensures forall o2 :: o2 != o ==> ServiceOf(WithService(s, o, v), o2) == ServiceOf(s, o2)
    ensures var t := WithService(s, o, v);
      t.serviceData == s.serviceData && t.uidList == s.uidList && t.foreignMap == s.foreignMap
      && t.decryptedDataFile == s.decryptedDataFile
  {
    OriginsHitAfterAdd(s, [o]);
  }

  /** On a fresh cache `set_service(o, v)` makes `get_origins()` return `([o], True)`. */
  lemma FreshServiceOrigins(o: string, v: Cached<Service>)
    ensures OriginsOf(WithService(Empty, o, v)) == (Some([o]), true)
  {
    assert [o][..0] == [];
    assert AddNew([], [o]) == [o];
    assert Empty.originList.GetOr([]) == [];
  }

  /** `set_service_identity(o, u, v)`: `get_service_identity(o, u)` returns
      `(v, True)`, `u` is in `uid_list[o]`, and every other (origin, uid) and
      every other origin's uid list is unchanged. */
  lemma IdentityWriteThenRead(s: CacheState, o: string, u: string, v: Cached<Identity>)
    ensures IdentityOf(WithIdentity(s, o, u, v), o, u) == (v, true)
    ensures UidsOf(WithIdentity(s, o, u, v), o).1 && u in UidsOf(WithIdentity(s, o, u, v), o).0.value
    ensures forall o2, u2 :: (o2, u2) != (o, u) ==>
      IdentityOf(WithIdentity(s, o, u, v), o2, u2) == IdentityOf(s, o2, u2)
    ensures forall o2 :: o2 != o ==> UidsOf(WithIdentity(s, o, u, v), o2) == UidsOf(s, o2)
    ensures var t := WithIdentity(s, o, u, v);
      t.serviceInfo == s.serviceInfo && t.originList == s.originList && t.foreignMap == s.foreignMap
      && t.decryptedDataFile == s.decryptedDataFile
  {
    AddNewShape(if o in s.uidList then s.uidList[o] else [], [u]);
  }

  /** `set_foreign_map(o, v)`: the matching get returns `(v, True)`, all other
      origins keep theirs, and the other five namespaces are unchanged. */
  lemma ForeignMapWriteThenRead(s: CacheState, o: string, v: Option<seq<Entry>>)
    ensures ForeignMapOf(WithForeignMap(s, o, v), o) == (v, true)
    ensures forall o2 :: o2 != o ==> ForeignMapOf(WithForeignMap(s, o, v), o2) == ForeignMapOf(s, o2)
    ensures var t := WithForeignMap(s, o, v);
      t.serviceInfo == s.serviceInfo && t.serviceData == s.serviceData && t.uidList == s.uidList
      && t.originList == s.originList && t.decryptedDataFile == s.decryptedDataFile
  {
  }

  /** `encrypt_data_file(o, u, f, v)`: the matching get returns `(v, True)`;
      every triple with a different cache key keeps its entry, and every
      triple with the SAME joined key reads the new value too; the other
      five namespaces are unchanged. */
  lemma DecryptedWriteThenRead(s: CacheState, o: string, u: string, f: string, v: Option<string>)
    ensures DecryptedOf(WithDecrypted(s, o, u, f, v), o, u, f) == (v, true)
    ensures forall o2, u2, f2 :: CacheKey(o2, u2, f2) != CacheKey(o, u, f) ==>
      DecryptedOf(WithDecrypted(s, o, u, f, v), o2, u2, f2) == DecryptedOf(s, o2, u2, f2)
    ensures forall o2, u2, f2 :: CacheKey(o2, u2, f2) == CacheKey(o, u, f) ==>
      DecryptedOf(WithDecrypted(s, o, u, f, v), o2, u2, f2) == (v, true)
    ensures var t := WithDecrypted(s, o, u, f, v);
      t.serviceInfo == s.serviceInfo && t.serviceData == s.serviceData && t.foreignMap == s.foreignMap
      && t.uidList == s.uidList && t.originList == s.originList
  {
  }

  /** Two different triples can share a decrypted-value slot. */
  lemma SharedDecryptedSlot(s: CacheState, v: Option<string>)
    ensures DecryptedOf(WithDecrypted(s, "a-b", "c", "d", v), "a", "b-c", "d") == (v, true)
  {
    CacheKeyCollision();
  }

  /** The cache itself. */
  class ParanoidCache {
    var serviceInfo: map<string, Cached<Service>>
    var serviceData: map<string, map<string, Cached<Identity>>>
    var foreignMap: map<string, Option<seq<Entry>>>
    var uidList: map<string, seq<string>>
    var originList: Option<seq<string>>
    var decryptedDataFile: map<string, Option<string>>

    /** The abstract value of the cache. */
    function State(): CacheState
      reads this
    {
      CacheState(serviceInfo, serviceData, foreignMap, uidList, originList, decryptedDataFile)
    }

    constructor ()
      ensures State() == Empty
    {
      serviceInfo, serviceData, foreignMap := map[], map[], map[];
      uidList, originList, decryptedDataFile := map[], None, map[];
    }

    method GetOrigins() returns (data: Option<seq<string>>, hit: bool)
      ensures (data, hit) == OriginsOf(State())
    {
      hit := false;
      data := None;
      if originList != None {
        data := originList;
        hit := true;
      }
    }

    method AddOrigins(origins: seq<string>)
      modifies this
      ensures State() == WithOrigins(old(State()), origins)
    {
      if originList == None {
        originList := Some([]);
      }
      var list := originList.value;
      var i := 0;
      while i < |origins|
        invariant 0 <= i <= |origins|
        invariant list == AddNew(old(originList).GetOr([]), origins[..i])
      {
        assert origins[..i + 1][..i] == origins[..i];
        if origins[i] !in list {
          list := list + [origins[i]];
        }
        i := i + 1;
      }
      assert origins[..i] == origins;
      originList := Some(list);
    }

    method SetService(origin: string, info: Cached<Service>)
      modifies this
      ensures State() == WithService(old(State()), origin, info)
    {
      AddOrigins([origin]);
      serviceInfo := serviceInfo[origin := info];
    }

    method GetService(origin: string) returns (data: Cached<Service>, hit: bool)
      ensures (data, hit) == ServiceOf(State(), origin)
    {
      hit := false;
      data := Null;
      if origin in serviceInfo {
        data := serviceInfo[origin];
        hit := true;
      }
    }

    method GetServiceUids(origin: string) returns (data: Option<seq<string>>, hit: bool)
      ensures (data, hit) == UidsOf(State(), origin)
    {
      hit := false;
      data := None;
      if origin in uidList {
        data := Some(uidList[origin]);
        hit := true;
      }
    }

    method AddServiceUids(origin: string, uids: seq<string>)
      modifies this
      ensures State() == WithUids(old(State()), origin, uids)
    {
      if origin !in uidList {
        uidList := uidList[origin := []];
      }
      var list := uidList[origin];
      var i := 0;
      while i < |uids|
        invariant 0 <= i <= |uids|
        invariant list == AddNew(if origin in old(uidList) then old(uidList)[origin] else [], uids[..i])
      {
        assert uids[..i + 1][..i] == uids[..i];
        if uids[i] !in list {
          list := list + [uids[i]];
        }
        i := i + 1;
      }
      assert uids[..i] == uids;
      uidList := uidList[origin := list];
    }

    method SetServiceIdentity(origin: string, uid: string, identity: Cached<Identity>)
      modifies this
      ensures State() == WithIdentity(old(State()), origin, uid, identity)
    {
      ghost var inner := if origin in serviceData then serviceData[origin] else map[];
      if origin !in serviceData {
        serviceData := serviceData[origin := map[]];
      }
      assert serviceData[origin] == inner;
      ghost var uids := WithUids(State(), origin, [uid]).uidList;
      AddServiceUids(origin, [uid]);
      assert uidList == uids;
      serviceData := serviceData[origin := serviceData[origin][uid := identity]];
    }

    method GetServiceIdentity(origin: string, uid: string) returns (data: Cached<Identity>, hit: bool)
      ensures (data, hit) == IdentityOf(State(), origin, uid)
    {
      hit := false;
      data := Null;
      if origin in serviceData && uid in serviceData[origin] {
        data := serviceData[origin][uid];
        hit := true;
      }
    }

    method SetForeignMap(origin: string, fm: Option<seq<Entry>>)
      modifies this
      ensures State() == WithForeignMap(old(State()), origin, fm)
    {
      foreignMap := foreignMap[origin := fm];
    }

    method GetForeignMap(origin: string) returns (data: Option<seq<Entry>>, hit: bool)
      ensures (data, hit) == ForeignMapOf(State(), origin)
    {
      hit := false;
      data := None;
      if origin in foreignMap {
        data := foreignMap[origin];
        hit := true;
      }
    }

    method DecryptDataFile(origin: string, uid: string, fieldName: string) returns (data: Option<string>, hit: bool)
      ensures (data, hit) == DecryptedOf(State(), origin, uid, fieldName)
    {
      var key := CacheKey(origin, uid, fieldName);
      hit := false;
      data := None;
      if key in decryptedDataFile {
        data := decryptedDataFile[key];
        hit := true;
      }
    }

    method EncryptDataFile(origin: string, uid: string, fieldName: string, data: Option<string>)
      modifies this
      ensures State() == WithDecrypted(old(State()), origin, uid, fieldName, data)
    {
      var key := CacheKey(origin, uid, fieldName);
      decryptedDataFile := decryptedDataFile[key := data];
    }
  }
}
