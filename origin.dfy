/** Origin keys are web origins such as `http://a.com:80`; on disk a service
    directory is named after the key with every `:` replaced by `@`
    (`ParanoidManager.origin_key_to_filename` / `origin_filename_to_key`). */
module Origin {

  /** Python's `s.replace(from, to)` for single characters. */
  function Replace(s: string, from: char, to: char): (r: string)
    ensures |r| == |s|
    ensures forall i :: 0 <= i < |s| ==> r[i] == if s[i] == from then to else s[i]
  {
    if s == [] then [] else [if s[0] == from then to else s[0]] + Replace(s[1..], from, to)
  }

  /** `origin_key_to_filename`: a name that contains no `:`. */
  function KeyToFilename(key: string): (filename: string)
    ensures ':' !in filename
    ensures |filename| == |key|
  {
    Replace(key, ':', '@')
  }

  /** `origin_filename_to_key`: a key that contains no `@`. */
  function FilenameToKey(filename: string): (key: string)
    ensures '@' !in key
    ensures |key| == |filename|
  {
    Replace(filename, '@', ':')
  }

  /** A key without `@` (origins never contain one) survives the trip to a
      file name and back. */
  lemma FilenameRoundTrip(key: string)
    requires '@' !in key
    ensures FilenameToKey(KeyToFilename(key)) == key
  {
    var r := FilenameToKey(KeyToFilename(key));
    forall i | 0 <= i < |key| ensures r[i] == key[i] {
      assert key[i] != '@';
    }
  }

  /** A file name without `:` survives the trip to a key and back. */
  lemma KeyRoundTrip(filename: string)
    requires ':' !in filename
    ensures KeyToFilename(FilenameToKey(filename)) == filename
  {
    var r := KeyToFilename(FilenameToKey(filename));
    forall i | 0 <= i < |filename| ensures r[i] == filename[i] {
      assert filename[i] != ':';
    }
  }

  /** On keys without `@` the transform is a bijection onto names without `:`. */
  lemma KeyToFilenameInjective(k1: string, k2: string)
    requires '@' !in k1 && '@' !in k2
    requires KeyToFilename(k1) == KeyToFilename(k2)
    ensures k1 == k2
  {
    FilenameRoundTrip(k1);
    FilenameRoundTrip(k2);
  }

  /** Outside that alphabet the transform is not injective: a key that
      already contains `@` shares its directory with the `:` spelling. */
  lemma AtSignKeysCollide()
    ensures KeyToFilename("a@b") == KeyToFilename("a:b")
    ensures FilenameToKey(KeyToFilename("a@b")) != "a@b"
  {
    assert KeyToFilename("a@b") == "a@b";
    assert KeyToFilename("a:b") == "a@b";
    assert FilenameToKey("a@b") == "a:b";
  }

  /** `replace` works piecewise on a concatenation. */
  lemma {:induction false} ReplaceConcat(a: string, b: string, from: char, to: char)
    ensures Replace(a + b, from, to) == Replace(a, from, to) + Replace(b, from, to)
  {
    if a != [] {
      assert (a + b)[1..] == a[1..] + b;
      ReplaceConcat(a[1..], b, from, to);
    }
  }

  /** A string without `from` is left alone. */
  lemma ReplaceAbsent(s: string, from: char, to: char)
    requires from !in s
    ensures Replace(s, from, to) == s
  {
    var r := Replace(s, from, to);
    forall i | 0 <= i < |s| ensures r[i] == s[i] {
      assert s[i] != from;
    }
  }

  /** A web origin `scheme://host:port` keeps its `//`: only the two colons
      change, and the directory name converts back to the origin. */
  lemma WebOriginDirectory(scheme: string, host: string, port: string)
    requires ':' !in scheme && ':' !in host && ':' !in port
    requires '@' !in scheme && '@' !in host && '@' !in port
    ensures KeyToFilename(scheme + "://" + host + ":" + port) == scheme + "@//" + host + "@" + port
    ensures FilenameToKey(scheme + "@//" + host + "@" + port) == scheme + "://" + host + ":" + port
  {
    var b := "//" + host;
    assert ':' !in b && '@' !in b;
    assert scheme + "://" + host + ":" + port == scheme + [':'] + b + [':'] + port;
    assert scheme + "@//" + host + "@" + port == scheme + ['@'] + b + ['@'] + port;
    ReplaceThree(scheme, b, port, ':', '@');
    ReplaceThree(scheme, b, port, '@', ':');
  }

  /** Replacing the two separators of `a + [from] + b + [from] + c`. */
  lemma ReplaceThree(a: string, b: string, c: string, from: char, to: char)
    requires from !in a && from !in b && from !in c
    ensures Replace(a + [from] + b + [from] + c, from, to) == a + [to] + b + [to] + c
  {
    var x := a + [from];
    var y := x + b;
    var z := y + [from];
    assert Replace([from], from, to) == [to];
    ReplaceAbsent(a, from, to);
    ReplaceAbsent(b, from, to);
    ReplaceAbsent(c, from, to);
    ReplaceConcat(a, [from], from, to);
    assert Replace(x, from, to) == a + [to];
    ReplaceConcat(x, b, from, to);
    assert Replace(y, from, to) == a + [to] + b;
    ReplaceConcat(y, [from], from, to);
    assert Replace(z, from, to) == a + [to] + b + [to];
    ReplaceConcat(z, c, from, to);
  }
}
