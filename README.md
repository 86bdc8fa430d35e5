# Paranoid daemon core, modelled in Dafny

Paranoid lets a user keep the personal data a web service asks for inside their own
Keybase filesystem. The service only receives a `uid` and the names of the fields.
The daemon does the storing, encrypting, sharing and resolving. This project models the
daemon's two core classes:

- `ParanoidManager` (`daemon/paranoid.py`) turns each request into paths and JSON
  documents in the Keybase tree. The layout is:
  - `services/<origin filename>/info.json` holds the service;
  - `.../uids/<uid>.json` holds one identity;
  - `.../foreign_map.json` holds the mappings other users shared with this user;
  - `ids/<sha256 of origin:uid:field>` in the public tree holds one encrypted field value.
- `ParanoidCache` (`daemon/cache.py`) keeps six in-memory namespaces for the life of the
  process. The manager reads it first and fills it on a miss whenever the backing file exists.

Modules, in dependency order:

| file | module | contents |
|---|---|---|
| `values.dfy` | `Values` | `Option`. `Cached` separates a parsed JSON object from the JSON text `json.dumps` gives. The JSON shapes: `Service`, `Identity`, `FieldMeta`, `Entry`. |
| `origin.dfy` | `Origin` | The origin key and directory name conversions (`:` and `@`). |
| `addressing.dfy` | `Addressing` | The joined key under which SHA-256 names a field's data file, and the joined key of the decrypted-value cache. |
| `foreignmap.dfy` | `ForeignMap` | Foreign-map entries and the lists `add`/`remove`/`resolve` compute from them, written as recursive functions with their properties. |
| `cache.dfy` | `Cache` | The `ParanoidCache` class. Its value is a `CacheState`, and one transition function per operation. |
| `keybase.dfy` | `Keybase` | `KeybaseClient` as an abstract store: files by path, a set of directories, the logged-in user. |
| `paranoid.dfy` | `Paranoid` | The `ParanoidManager` class. |
| `scenarios.dfy` | `Scenarios` | Call sequences on one manager, with what they are proved to produce. |

Every stateful method is proved against a specification. A getter returns exactly what a
function of the old state says. A setter leaves the cache in `WithX(old(State()), …)`
and the store with exactly the files and directories stated.

The manager's three loops are proved against functions of the map they read:
- `add_foreign_map` computes `Added`;
- `remove_foreign_map` computes `Removed`;
- `resolve_foreign_map` computes `Resolved`.

For `resolve_foreign_map`, the values that `Resolved` combines, and the cache afterwards,
are `ResolveSteps`: one `DecryptStep` per well-formed entry, applied in order. What the
Keybase CLI answers to each `decrypt` is not predicted. It is a ghost input, `replies`,
constrained to be `None` or the plaintext stored in that entry's data file. Lemmas in
`ForeignMap`, `Cache` and `Paranoid` state what these functions promise.

Python's `None` results and raised exceptions are modelled as values:
- `Option` and `Cached.Null` stand for `None`;
- `Outcome.Fail(Error)` stands for a raised exception, with one `Error` per
  `ParanoidException` message;
- `Error.NotFound` stands for the client's `KeybaseFileNotFoundException`, which `list_dir`
  raises for a missing directory.

Two places where the code and its own comments differ; the model follows the code:
- The module docstring of `daemon/paranoid.py` (lines 12, 19 and 32) shows the directory of
  the origin `http://google.com:80` as `services/http:google.com:80/`. The code never produces
  that name, because `origin_key_to_filename` replaces every `:` with `@` and keeps the `//`.
  The origin `http://a.com:80` becomes the directory `http@//a.com@80`.
  `Origin.WebOriginDirectory` proves both directions for every `scheme://host:port`.
- The cache comment lists `foreign_map` as one list. The code keys it by origin, and the
  model does the same.

## Model

| member | source | states |
|---|---|---|
| Origin.Replace | daemon/paranoid.py:448 | `str.replace` of one character: same length, and every position holds the replacement exactly where the input held the old character. |
| Origin.KeyToFilename | daemon/paranoid.py:450-457 | A directory name never contains `:`, and has the key's length. |
| Origin.FilenameToKey | daemon/paranoid.py:445-448 | An origin key read back from a directory name never contains `@`, and has the name's length. |
| Origin.FilenameRoundTrip | daemon/paranoid.py:445-457 | For a key without `@`, the key survives the round trip through its directory name. |
| Origin.KeyRoundTrip | daemon/paranoid.py:445-457 | A directory name without `:` survives the round trip through its key. |
| Origin.KeyToFilenameInjective | daemon/paranoid.py:450-457 | Two keys without `@` never share a directory. |
| Origin.AtSignKeysCollide | daemon/paranoid.py:450-457 | Keys `a@b` and `a:b` share a directory, and `a@b` does not come back from it. |
| Origin.WebOriginDirectory | daemon/paranoid.py:445-457 | A web origin `scheme://host:port` is stored as `scheme@//host@port` (so `http://a.com:80` becomes `http@//a.com@80`), and is read back as the origin. |
| Addressing.FieldKeyLayout | daemon/paranoid.py:405-411 | The name of a field's data file is the hash of exactly `origin:uid:field_name`: the origin, a colon, the uid, a colon and the field name, each readable at its position. |
| Addressing.CacheKeyLayout | daemon/cache.py:128-140 | The decrypted-value key is `origin-uid-field_name`: the three parts joined by `-`, each readable at its position. |
| Addressing.FieldHashFollowsKey | daemon/paranoid.py:405-411 | The data file's name depends on the triple only through the joined `origin:uid:field` text. |
| Addressing.FieldKeyInjective | daemon/paranoid.py:405-411 | When the uid and the field name contain no `:`, different triples have different hash inputs. |
| Addressing.FieldKeyCollision | daemon/paranoid.py:405-411 | Triples `(a, b:c, d)` and `(a:b, c, d)` name the same data file, whatever the hash function. |
| Addressing.CacheKeyInjective | daemon/cache.py:128-140 | When the uid and the field name contain no `-`, different triples have different decrypted-cache keys. |
| Addressing.CacheKeyCollision | daemon/cache.py:128-140 | Triples `(a-b, c, d)` and `(a, b-c, d)` share a decrypted-cache slot. |
| ForeignMap.Triple | daemon/paranoid.py:291-302 | The entry `add_foreign_map` writes has exactly the keys `username`, `uid`, `field_name`, holding the given values. |
| ForeignMap.TripleInjective | daemon/paranoid.py:291-302 | Two written entries are equal exactly when their three values are. |
| ForeignMap.CleanedShape | daemon/paranoid.py:279-296 | The cleaned list has one entry per well-formed input entry, and every entry is well-formed and reduced to the three keys. An entry is in it exactly when it is some well-formed input entry's reduction. |
| ForeignMap.MatchesIffReduced | daemon/paranoid.py:288 | An entry names a triple exactly when its reduction is that triple's entry. |
| ForeignMap.HasMappingIffInCleaned | daemon/paranoid.py:280-289 | The duplicate check fires exactly when the triple's entry is already in the cleaned list. |
| ForeignMap.AddedShape | daemon/paranoid.py:297-305 | The written list is the cleaned list with the new triple appended as its last entry, one longer than the count of well-formed entries. |
| ForeignMap.AddedOnce | daemon/paranoid.py:280-305 | When no mapping exists yet, the written list holds the new triple exactly once, at the end. |
| ForeignMap.Without | daemon/paranoid.py:315-342 | Removing every copy of `t` from a list: an entry stays exactly when it is not `t`, and the list gets no longer. |
| ForeignMap.RemovedIsWithout | daemon/paranoid.py:315-342 | The list `remove_foreign_map` writes equals the cleaned list with every copy of the triple filtered out, order and multiplicity kept. |
| ForeignMap.RemovedIsFilteredCleaned | daemon/paranoid.py:315-342 | Every entry of the written list is well-formed and is not the triple. An entry is in it exactly when it is in the cleaned list and is not the removed triple. |
| ForeignMap.RemovedShrinks | daemon/paranoid.py:317-339 | The triple is found exactly when removal makes the cleaned list shorter. |
| ForeignMap.ResolvedDomain | daemon/paranoid.py:247-267 | `result[uid][field]` exists exactly when some well-formed entry for that uid and field decrypted. |
| ForeignMap.ResolvedLast | daemon/paranoid.py:247-267 | A value in the result is the value of the last well-formed entry for its uid and field that decrypted. |
| ForeignMap.ResolvedNonEmpty | daemon/paranoid.py:262-265 | No uid of the result maps to an empty dict. |
| Cache.AddNewShape | daemon/cache.py:64-69 | Appending keeps the old list as a prefix and adds exactly the missing items, with no duplicate among them. A duplicate-free list stays duplicate-free. |
| Cache.AddNewPresent | daemon/cache.py:93-98 | Adding items already present changes nothing. |
| Cache.AddNewIdempotent | daemon/cache.py:64-69 | `add_origins` and `add_service_uids` are idempotent. |
| Cache.OriginsWriteGrows | daemon/cache.py:64-69 | `add_origins` removes nothing: every key stays and every list only extends. |
| Cache.ServiceWriteGrows | daemon/cache.py:71-73 | `set_service` removes nothing from the cache. |
| Cache.UidsWriteGrows | daemon/cache.py:93-98 | `add_service_uids` removes nothing from the cache. |
| Cache.IdentityWriteGrows | daemon/cache.py:100-105 | `set_service_identity` removes nothing from the cache. |
| Cache.ValueWritesGrow | daemon/cache.py:116-140 | `set_foreign_map` and `encrypt_data_file` remove nothing from the cache. |
| Cache.EmptyMisses | daemon/cache.py:44-53 | A fresh cache misses on every lookup, and its origin list is `None`. |
| Cache.OriginsHitAfterAdd | daemon/cache.py:55-69 | After `add_origins`, even of an empty list, `get_origins` hits and holds every added origin. |
| Cache.ServiceWriteThenRead | daemon/cache.py:71-82 | After `set_service(o, v)`, `get_service(o)` is `(v, True)` and `o` is a cached origin. Other origins, and every namespace except the origin list, are unchanged. |
| Cache.FreshServiceOrigins | daemon/cache.py:64-73 | On a fresh cache, one `set_service(o, …)` makes `get_origins()` return `([o], True)`. |
| Cache.IdentityWriteThenRead | daemon/cache.py:93-114 | After `set_service_identity(o, u, v)`, the lookup is `(v, True)` and `u` is in `uid_list[o]`. Every other (origin, uid), every other origin's uid list, and the other namespaces are unchanged. |
| Cache.ForeignMapWriteThenRead | daemon/cache.py:116-126 | After `set_foreign_map(o, v)`, the lookup is `(v, True)` and other origins keep theirs. The other five namespaces are unchanged. |
| Cache.DecryptedWriteThenRead | daemon/cache.py:128-140 | After `encrypt_data_file`, its triple reads the new value. Triples with another joined key keep theirs; every triple with the same joined key reads the new value. The other five namespaces are unchanged. |
| Cache.SharedDecryptedSlot | daemon/cache.py:128-140 | Writing the decrypted value of `(a-b, c, d)` makes `(a, b-c, d)` hit with that value. |
| Cache.ParanoidCache.constructor | daemon/cache.py:45-53 | The new cache's state is `Empty`. |
| Cache.ParanoidCache.GetOrigins | daemon/cache.py:55-62 | Returns the origin list, with a hit exactly when it is not `None`. |
| Cache.ParanoidCache.AddOrigins | daemon/cache.py:64-69 | The loop leaves the state at `WithOrigins`: `None` becomes `[]`, then the new origins are appended in order, skipping ones present. |
| Cache.ParanoidCache.SetService | daemon/cache.py:71-73 | The new state is `WithService`: the origin is added to the origin list, then the service is stored. |
| Cache.ParanoidCache.GetService | daemon/cache.py:75-82 | Returns the stored service, with a hit exactly when the origin has one. |
| Cache.ParanoidCache.GetServiceUids | daemon/cache.py:84-91 | Returns the origin's uid list, with a hit exactly when it has one. |
| Cache.ParanoidCache.AddServiceUids | daemon/cache.py:93-98 | The loop leaves the state at `WithUids`: the list is created when missing, then the new uids are appended, skipping ones present. |
| Cache.ParanoidCache.SetServiceIdentity | daemon/cache.py:100-105 | The new state is `WithIdentity`: the uid joins the uid list, and the identity is stored under (origin, uid). |
| Cache.ParanoidCache.GetServiceIdentity | daemon/cache.py:107-114 | Returns the stored identity, with a hit exactly when (origin, uid) has one. |
| Cache.ParanoidCache.SetForeignMap | daemon/cache.py:116-117 | The new state is `WithForeignMap`. |
| Cache.ParanoidCache.GetForeignMap | daemon/cache.py:119-126 | Returns the origin's cached foreign map, `None` included, with a hit exactly when the origin has an entry. |
| Cache.ParanoidCache.DecryptDataFile | daemon/cache.py:128-136 | Returns the value under the joined key, with a hit exactly when the key is present. |
| Cache.ParanoidCache.EncryptDataFile | daemon/cache.py:138-140 | The new state is `WithDecrypted` under the joined key. |
| Keybase.JoinSegments | daemon/keybase.py:45-49 | Joining a root, two plain components (no leading or trailing `/`) and a relative path, as `get_private` and `get_public` do with `os.path.join`, puts exactly one `/` between each part. |
| Keybase.KeybaseClient.constructor | daemon/keybase.py:30-32 | The store starts with the given user, base path, files and directories. |
| Keybase.KeybaseClient.PrivateLayout | daemon/keybase.py:45-46 | With plain components, `get_private(path)` is `/keybase/private/<username>/<base_path>/<path>`. An absolute `path` is returned as it is. |
| Keybase.KeybaseClient.PublicLayout | daemon/keybase.py:48-49 | The same layout under `/keybase/public/<user>`, where `<user>` is the given user or the logged-in one. |
| Keybase.KeybaseClient.ExistsMeans | daemon/keybase.py:67-73 | A path exists exactly when a file or a directory is there. Nothing can be read or decrypted at a path that does not exist. |
| Keybase.KeybaseClient.EnsureDir | daemon/keybase.py:51-57 | Returns `True` exactly when the path did not exist. Afterwards it exists, files are unchanged, and only that directory may have been added. |
| Keybase.KeybaseClient.PutFile | daemon/keybase.py:84-86 | The path now holds the document, and nothing else changes. |
| Keybase.KeybaseClient.GetJson | daemon/paranoid.py:123 | Returns the JSON document at the path, or `None` when the path holds none. |
| Keybase.KeybaseClient.Encrypt | daemon/keybase.py:116-118 | The path now holds the data encrypted for exactly the given users, and nothing else changes. |
| Keybase.KeybaseClient.Decrypt | daemon/keybase.py:120-125 | The answer is a `DecryptReply`: `None` for any failure, otherwise the plaintext of the encrypted object at the path. |
| Paranoid.ValidateFieldName | daemon/paranoid.py:344-351 | It passes exactly when `fields` is present and declares the name. A missing or empty `fields` is exactly the malformed case, and every other failure is the invalid-name error. |
| Paranoid.Recipients | daemon/paranoid.py:383-385 | The recipient list is never empty. It is the given list when that is non-empty, and the user's own name otherwise. |
| Paranoid.UidsFromListingSpec | daemon/paranoid.py:159 | A uid is returned exactly when `<uid>.json` is in the listing. There are no more uids than names. |
| Paranoid.OriginsFromListing | daemon/paranoid.py:100 | One origin key per listed name, in order, each converted from its name. |
| Paranoid.OriginsFromListingAddress | daemon/paranoid.py:97-100 | Every listed name without `:` is given back as the key whose directory it is. |
| Paranoid.ParanoidManager.constructor | daemon/paranoid.py:84-86 | The manager keeps the given client and starts with a fresh, empty cache. |
| Paranoid.ParanoidManager.GetOrigins | daemon/paranoid.py:91-105 | A cached origin list is returned with the cache unchanged. On a miss without a `services` directory, `list_dir` raises and nothing is cached. Otherwise the listing is converted to keys, returned, and added to the cache. |
| Paranoid.ParanoidManager.GetService | daemon/paranoid.py:107-128 | Returns the cached service on a hit. On a miss it returns `None` unless both the origin directory and `info.json` exist, and then caches what it read. |
| Paranoid.ParanoidManager.SetService | daemon/paranoid.py:130-144 | Afterwards the origin and `uids` directories exist, `info.json` holds the service, and the cache holds its JSON text. Nothing else in the store changes. |
| Paranoid.ParanoidManager.ServicePathLayout | daemon/paranoid.py:413-416 | With plain components, an origin's path is `services/<origin filename>/<path>` inside the private tree. |
| Paranoid.ParanoidManager.GetServiceUids | daemon/paranoid.py:146-164 | A cached list is returned on a hit. A missing origin gives `[]` and caches nothing. When the origin exists but `uids` does not, `list_dir` raises and nothing is cached. Otherwise the `*.json` names, stripped of `.json`, are returned and added to the cache. |
| Paranoid.ParanoidManager.GetServiceIdentity | daemon/paranoid.py:166-183 | Returns the cached identity on a hit. A missing file gives `None` and caches nothing. Otherwise the stored identity is cached and returned. |
| Paranoid.ParanoidManager.SetServiceIdentity | daemon/paranoid.py:185-202 | Fails with the missing-service error exactly when `get_service` gives `None`, and then writes nothing. Otherwise it writes the identity file, creating `uids` if needed. The cached identities are never changed. |
| Paranoid.ParanoidManager.GetForeignMap | daemon/paranoid.py:204-221 | Returns the cached map on a hit. A missing file gives `None`, uncached. Otherwise the stored list is cached and returned. |
| Paranoid.ParanoidManager.SetForeignMap | daemon/paranoid.py:223-237 | Writes the list to `foreign_map.json`, creating the origin directory if needed. It returns `None` and caches `None` for the origin. |
| Paranoid.DecryptStep | daemon/paranoid.py:353-374 | One `decrypt_data_file` as a function of the cache, the file's existence and the CLI's answer. Nothing cached before is lost. A returned value is cached under the triple afterwards. A miss on an existing file caches the answer. |
| Paranoid.ParanoidManager.ResolveSteps | daemon/paranoid.py:248-267 | The loop as a fold of `DecryptStep` over the entries, starting from a cache. It gives one value per entry, with `None` for a malformed entry. The cache only gains decrypted-value keys. |
| Paranoid.ParanoidManager.ResolveStepsCached | daemon/paranoid.py:353-358 | An entry whose key was cached before the loop gets that cached value. |
| Paranoid.ParanoidManager.ResolveStepsUntouched | daemon/paranoid.py:366-372 | The loop caches no key except those of well-formed entries. |
| Paranoid.ParanoidManager.ResolveStepsFresh | daemon/paranoid.py:360-372 | The first entry for an uncached key gets `decrypt`'s answer for its own user's data file when that file exists, and `None` otherwise. |
| Paranoid.ParanoidManager.ResolveStepsRemembered | daemon/paranoid.py:369-372 | After the loop, every value that decrypted is cached under its entry's triple. |
| Paranoid.ParanoidManager.ResolveStepsPrefix | daemon/paranoid.py:249-265 | The values of a prefix of the entries are the prefix of the values, so each entry's value is fixed when the loop reaches it. |
| Paranoid.ParanoidManager.ResolveForeignMap | daemon/paranoid.py:239-267 | Without a map the result is `{}` and the cache is what `get_foreign_map` left. Otherwise the result is `Resolved` of the map's entries and `values`. `values` and the final cache are `ResolveSteps` from the cache `get_foreign_map` left, for replies that `decrypt` may give. Malformed entries give `None`, keys cached before give their cached value, and every value is cached afterwards. |
| Paranoid.ParanoidManager.ResolveEntries | daemon/paranoid.py:248-267 | The loop's values and final cache are `ResolveSteps` of the cache before and of replies that `decrypt` may give. The result is `Resolved` of the entries and those values. Keys cached before give their cached value, and every decrypted value is cached. |
| Paranoid.ParanoidManager.AddForeignMap | daemon/paranoid.py:269-305 | Fails exactly when a well-formed entry already names the triple, and then writes nothing. Otherwise it writes `Added` of the map read (`[]` when there is none) and caches `None`. |
| Paranoid.ParanoidManager.RemoveForeignMap | daemon/paranoid.py:307-342 | Fails when there is no map, or when no well-formed entry names the triple, and then writes nothing. Otherwise it writes `Removed` of the map and caches `None`. |
| Paranoid.ParanoidManager.DecryptDataFile | daemon/paranoid.py:353-374 | The value and the new cache are `DecryptStep` of the old cache, for an answer `decrypt` may give. A hit returns the cached value. A missing file in the given user's tree gives `None`, uncached. Otherwise the decryption result, `None` included, is cached, and a value is the plaintext stored in that file. |
| Paranoid.ParanoidManager.EncryptDataFile | daemon/paranoid.py:376-392 | The own data file holds the value encrypted for a non-empty recipient list: the given users, or the user alone. The cache holds the value. |
| Paranoid.ParanoidManager.ReencryptDataFile | daemon/paranoid.py:394-403 | With no cached value or stored plaintext it fails and writes no file. On a hit it succeeds exactly when the cached value is not `None`. On success the same plaintext is encrypted for the new recipients. A failure after a miss on an existing file leaves `None` cached. Any other failure leaves the cache unchanged. |
| Scenarios.SecondAddForgetsFirst | daemon/paranoid.py:223-237 | After one successful `add_foreign_map`, a second one in the same process succeeds. The file then holds only the second mapping. |
| Scenarios.RemoveAfterAddFails | daemon/paranoid.py:307-313 | After a successful `add_foreign_map`, removing the same mapping reports that the foreign map does not exist. |
| Scenarios.ResolveAfterAddIsEmpty | daemon/paranoid.py:239-245 | After a successful `add_foreign_map`, `resolve_foreign_map` of that origin returns `{}`. |
| Scenarios.ResolveSingleEntry | daemon/paranoid.py:239-267 | A one-entry map whose triple is cached with a value resolves to `{uid: {field_name: value}}`. When the triple is not cached, a non-empty result holds the plaintext of the entry's own data file. |
| Scenarios.ServiceReadAfterWrite | daemon/paranoid.py:130-144 | `get_service` after `set_service` returns the service's JSON text from the cache. |
| Scenarios.IdentityReadIsStale | daemon/paranoid.py:185-202 | An identity read before `set_service_identity` is served again afterwards from the cache, if it was cached, even though the file now holds the new identity. |
| Scenarios.ForeignReadSeesOwnValue | daemon/paranoid.py:353-374 | Once the user has written a field, decrypting another user's copy of the same triple returns the user's own value. |
| Scenarios.OriginsAfterServiceRead | daemon/paranoid.py:91-128 | On a fresh manager, reading one stored service makes `get_origins` succeed with that origin alone. It does not read the services directory. |
| Scenarios.ReencryptAfterEncrypt | daemon/paranoid.py:376-403 | Re-encrypting right after an encryption succeeds, keeps the plaintext, and encrypts it for the new recipients. |

## Left out

- `send_share_request` and `init(disable_chat)`: chat messaging is I/O through the Keybase CLI and does not touch the store or the cache.
- Failing store writes: every `put_file`, `encrypt` and `ensure_dir` (`mkdir`) succeeds in the model. In the code a `KeybaseCliException` raised part-way through aborts the manager operation after the earlier writes, for example `set_service` after `ensure_dir` but before `put_file`. The model has no such partial outcome.
- The rest of the `KeybaseClient` CLI wrapper: `get_username`, `ensure_file`, `get_file`, `mkdir`, `stat`, `_run_cmd` and the exception classes. The state they act on is modelled, their subprocess calls are not.
- `daemon/main.py`, `daemon/utils.py`, the authentication flow, the browser extension and the sample application are not part of this model.
- `list_dir`: directory listings are not derived from the store. `GetOrigins` and `GetServiceUids` take the listing as the parameter `listed`. Only `list_dir`'s raise for a missing directory is modelled, as `Error.NotFound`.
- SHA-256: modelled as the parameter `sha256` of the manager, any function from text to text. No property of the hash itself is used.
- JSON text: documents are stored as values, not text. `Cached.Dumped` marks where the code caches `json.dumps` output instead of an object.
- Keybase.KeybaseClient.GetJson: `get_json` is not in `daemon/keybase.py`. It is modelled as returning the stored document, and `None` when the path holds none or holds an encrypted object. A document of another kind at a path (a foreign map where `info.json` should be) reads as `None`, not as that document.
- Keybase.KeybaseClient.Public: `get_public` in `daemon/keybase.py` takes no `username`, while `daemon/paranoid.py` passes one. The model reads another user's public tree when one is given, and the user's own tree otherwise.
- Keybase.KeybaseClient.Decrypt: whether the CLI succeeds (keys, permissions, network) is not predicted. The model only promises that a success returns the stored plaintext. `DecryptDataFile`, `ResolveEntries` and `ResolveForeignMap` therefore return the CLI's answers as ghost outputs (`reply`, `replies`), and their contracts hold for every answer `DecryptReply` allows.
- Foreign-map entries: only string values are modelled, with a missing key read as `""`. Python's `not value` test on other types (numbers, lists) is not reproduced.
- ValidateFieldName: `fields` is modelled as a map, or absent. A non-dict truthy `fields` value is not modelled.
- Directory semantics: `ensure_dir` and `exists` treat paths as opaque strings. Parents are not created and there is no directory hierarchy.
- Concurrency: the model has one caller at a time; interleaved requests to the daemon are not modelled.
- Paranoid.ParanoidManager.ResolveEntries: the loop of `resolve_foreign_map` is a separate method so that each proof stays small. It is the same loop.
