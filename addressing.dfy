/** Content addressing of field values.  A field value of the triple
    (origin, uid, field_name) is stored under the SHA-256 hex digest of the
    string `origin:uid:field_name` (`ParanoidManager.get_field_hash`), and
    the plaintext is cached under `origin-uid-field_name`
    (`ParanoidCache.decrypt_data_file` / `encrypt_data_file`). */
module Addressing {

  /** `'{}<sep>{}<sep>{}'.format(a, b, c)`. */
  function Join3(a: string, b: string, c: string, sep: char): (r: string)
    ensures |r| == |a| + |b| + |c| + 2
    ensures r[|a|] == sep && r[|a| + 1 + |b|] == sep
  {
    a + [sep] + b + [sep] + c
  }

  /** The string `get_field_hash` feeds to SHA-256. */
  function FieldKey(origin: string, uid: string, fieldName: string): string {
    Join3(origin, uid, fieldName, ':')
  }

  /** `get_field_hash`: the digest of the field key.  SHA-256 itself is not
      modelled; `sha256` is any function from the key text to its hex digest. */
  function FieldHash(sha256: string -> string, origin: string, uid: string, fieldName: string): string {
    sha256(FieldKey(origin, uid, fieldName))
  }

  /** The key of the decrypted-value namespace of the cache. */
  function CacheKey(origin: string, uid: string, fieldName: string): string {
    Join3(origin, uid, fieldName, '-')
  }

  /** The three parts can be read back at their positions. */
  lemma Join3Parts(a: string, b: string, c: string, sep: char)
    ensures var r := Join3(a, b, c, sep);
      r[..|a|] == a && r[|a| + 1..|a| + 1 + |b|] == b && r[|a| + 2 + |b|..] == c
  {
    var r := Join3(a, b, c, sep);
    assert r == a + ([sep] + b + [sep] + c);
    assert r == (a + [sep] + b) + ([sep] + c);
  }

  /** The data file of a field is named by the digest of exactly
      `origin:uid:field_name`: the origin, a colon, the uid, a colon and the
      field name. */
  lemma FieldKeyLayout(sha256: string -> string, origin: string, uid: string, fieldName: string)
    ensures var k := FieldKey(origin, uid, fieldName);
      && FieldHash(sha256, origin, uid, fieldName) == sha256(k)
      && |k| == |origin| + |uid| + |fieldName| + 2
      && k[..|origin|] == origin && k[|origin|] == ':'
      && k[|origin| + 1..|origin| + 1 + |uid|] == uid && k[|origin| + 1 + |uid|] == ':'
      && k[|origin| + 2 + |uid|..] == fieldName
  {
    Join3Parts(origin, uid, fieldName, ':');
  }

  /** The decrypted-value key of a field is `origin-uid-field_name`. */
  lemma CacheKeyLayout(origin: string, uid: string, fieldName: string)
    ensures var k := CacheKey(origin, uid, fieldName);
      && |k| == |origin| + |uid| + |fieldName| + 2
      && k[..|origin|] == origin && k[|origin|] == '-'
      && k[|origin| + 1..|origin| + 1 + |uid|] == uid && k[|origin| + 1 + |uid|] == '-'
      && k[|origin| + 2 + |uid|..] == fieldName
  {
    Join3Parts(origin, uid, fieldName, '-');
  }

  /** Index of the last occurrence of `c` in `s`, or -1. */
  function LastIndexOf(s: string, c: char): (k: int)
    ensures -1 <= k < |s|
    ensures k >= 0 ==> s[k] == c
  {
    if s == [] then -1
    else if s[|s| - 1] == c then |s| - 1
    else LastIndexOf(s[..|s| - 1], c)
  }

  /** With no separator in the tail, the last separator is the one before it. */
  lemma {:induction false} LastSeparator(x: string, y: string, sep: char)
    requires sep !in y
    ensures LastIndexOf(x + [sep] + y, sep) == |x|
  {
    if y != [] {
      var s := x + [sep] + y;
      assert s[|s| - 1] == y[|y| - 1];
      assert s[..|s| - 1] == x + [sep] + y[..|y| - 1];
      LastSeparator(x, y[..|y| - 1], sep);
    }
  }

  /** The last separator splits a string uniquely when the tail cannot
      contain it. */
  lemma SplitAtLast(x: string, y: string, x2: string, y2: string, sep: char)
    requires sep !in y && sep !in y2
    requires x + [sep] + y == x2 + [sep] + y2
    ensures x == x2 && y == y2
  {
    var s := x + [sep] + y;
    LastSeparator(x, y, sep);
    LastSeparator(x2, y2, sep);
    assert x == s[..|x|] == x2;
    assert y == s[|x| + 1..] == y2;
  }

  /** A joined string determines its parts when the last two parts cannot
      contain the separator. */
  lemma Join3Injective(a: string, b: string, c: string, a2: string, b2: string, c2: string, sep: char)
    requires sep !in b && sep !in c && sep !in b2 && sep !in c2
    requires Join3(a, b, c, sep) == Join3(a2, b2, c2, sep)
    ensures a == a2 && b == b2 && c == c2
  {
    SplitAtLast(a + [sep] + b, c, a2 + [sep] + b2, c2, sep);
    SplitAtLast(a, b, a2, b2, sep);
  }

  /** Equal triples always reach the same stored object, and so do triples
      whose field keys coincide. */
  lemma FieldHashFollowsKey(sha256: string -> string, o: string, u: string, f: string, o2: string, u2: string, f2: string)
    requires FieldKey(o, u, f) == FieldKey(o2, u2, f2)
    ensures FieldHash(sha256, o, u, f) == FieldHash(sha256, o2, u2, f2)
  {
  }

  /** Colons may sit in the origin (they always do in `scheme://host:port`)
      without ambiguity, as long as uid and field name have none. */
  lemma FieldKeyInjective(o: string, u: string, f: string, o2: string, u2: string, f2: string)
    requires ':' !in u && ':' !in f && ':' !in u2 && ':' !in f2
    requires FieldKey(o, u, f) == FieldKey(o2, u2, f2)
    ensures o == o2 && u == u2 && f == f2
  {
    Join3Injective(o, u, f, o2, u2, f2, ':');
  }

  /** A colon inside the uid makes two different triples share one key, so
      one hash, whatever the hash function. */
  lemma FieldKeyCollision(sha256: string -> string)
    ensures FieldKey("a", "b:c", "d") == FieldKey("a:b", "c", "d")
    ensures FieldHash(sha256, "a", "b:c", "d") == FieldHash(sha256, "a:b", "c", "d")
  {
    assert FieldKey("a", "b:c", "d") == "a:b:c:d";
    assert FieldKey("a:b", "c", "d") == "a:b:c:d";
  }

  /** The cache key is unambiguous only when uid and field name carry no `-`. */
  lemma CacheKeyInjective(o: string, u: string, f: string, o2: string, u2: string, f2: string)
    requires '-' !in u && '-' !in f && '-' !in u2 && '-' !in f2
    requires CacheKey(o, u, f) == CacheKey(o2, u2, f2)
    ensures o == o2 && u == u2 && f == f2
  {
    Join3Injective(o, u, f, o2, u2, f2, '-');
  }

  /** A hyphen is common in host names, and an origin ending in `-x` meets a
      uid starting with `x-`: the two triples share one cache slot. */
  lemma CacheKeyCollision()
    ensures CacheKey("a-b", "c", "d") == CacheKey("a", "b-c", "d")
  {
    assert CacheKey("a-b", "c", "d") == "a-b-c-d";
    assert CacheKey("a", "b-c", "d") == "a-b-c-d";
  }
}
