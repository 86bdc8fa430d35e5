/** The Keybase filesystem as the manager sees it.  The CLI wrapper
    (`KeybaseClient`) is replaced by an abstract store: JSON documents and
    encrypted objects by path, a set of directories, and the logged-in
    user's name. */
module Keybase {
  import opened Values

  /** The JSON documents the manager keeps in the private tree. */
  datatype Document =
    | ServiceInfo(info: Service)
    | IdentityInfo(identity: Identity)
    | ForeignMapList(entries: seq<Entry>)

  /** A file: a JSON document, or an object written by `keybase encrypt`
      together with the recipient list it was encrypted for. */
  datatype File = Json(doc: Document) | Encrypted(data: string, recipients: seq<string>)

  /** `os.path.join(a, b)`: an absolute `b` wins, otherwise one `/` separates. */
  function Join(a: string, b: string): (r: string)
    ensures |b| > 0 && b[0] == '/' ==> r == b
    ensures (|b| == 0 || b[0] != '/') && (a == [] || a[|a| - 1] == '/') ==> r == a + b
    ensures (|b| == 0 || b[0] != '/') && a != [] && a[|a| - 1] != '/' ==> r == a + "/" + b
  {
    if |b| > 0 && b[0] == '/' then b
    else if a == [] || a[|a| - 1] == '/' then a + b
    else a + "/" + b
  }

  /** A path component that neither starts nor ends with `/`, so that
      joining it adds exactly one separator on each side. */
  predicate Segment(s: string) {
    s != [] && s[0] != '/' && s[|s| - 1] != '/'
  }

  /** Joining a root without a trailing `/` and two plain components, then
      a relative path, puts one `/` between each. */
  lemma JoinSegments(root: string, a: string, b: string, path: string)
    requires root != [] && root[|root| - 1] != '/'
    ensures Segment(a) && Segment(b) && (|path| == 0 || path[0] != '/') ==>
      Join(Join(Join(root, a), b), path) == root + "/" + a + "/" + b + "/" + path
  {
    if Segment(a) && Segment(b) && (|path| == 0 || path[0] != '/') {
      var x := Join(root, a);
      assert x == root + "/" + a;
      assert x[|x| - 1] == a[|a| - 1];
      var y := Join(x, b);
      assert y == x + "/" + b;
      assert y[|y| - 1] == b[|b| - 1];
    }
  }

  /** What a `keybase decrypt` of `path` may answer: nothing (the CLI failed),
      or the plaintext of the object stored there. */
  predicate DecryptReply(files: map<string, File>, path: string, r: Option<string>) {
    r.Some? ==> path in files && files[path].Encrypted? && files[path].data == r.value
  }

  /** The directories after `ensure_dir(path)`. */
  function EnsuredDirs(files: map<string, File>, dirs: set<string>, path: string): set<string> {
    if path in files || path in dirs then dirs else dirs + {path}
  }

  class KeybaseClient {
    const username: string
    const basePath: string
    var files: map<string, File>
    var dirs: set<string>

    constructor (username: string, basePath: string, files: map<string, File>, dirs: set<string>)
      ensures this.username == username && this.basePath == basePath
      ensures this.files == files && this.dirs == dirs
    {
      this.username, this.basePath := username, basePath;
      this.files, this.dirs := files, dirs;
    }

    /** `get_private(path)`. */
    function Private(path: string): string {
      Join(Join(Join("/keybase/private", username), basePath), path)
    }

    /** `get_public(path, username=user)`; `None` means the logged-in user. */
    function Public(user: Option<string>, path: string): string {
      Join(Join(Join("/keybase/public", user.GetOr(username)), basePath), path)
    }

    /** `exists(path)`: any file or directory at that path. */
    predicate Exists(path: string)
      reads this
    {
      path in files || path in dirs
    }

    /** What `get_json(path)` yields: the document at the path, `None` when
        there is none to parse. */
    function JsonAt(path: string): Option<Document>
      reads this
    {
      if path in files && files[path].Json? then Some(files[path].doc) else None
    }

    /** With plain components, `get_private(path)` is
        `/keybase/private/<username>/<base_path>/<path>`; an absolute `path`
        is returned as it is. */
    lemma PrivateLayout(path: string)
      ensures |path| > 0 && path[0] == '/' ==> Private(path) == path
      ensures Segment(username) && Segment(basePath) && (|path| == 0 || path[0] != '/') ==>
        Private(path) == "/keybase/private/" + username + "/" + basePath + "/" + path
    {
      JoinSegments("/keybase/private", username, basePath, path);
    }

    /** The same layout under `/keybase/public/<user>`. */
    lemma PublicLayout(user: Option<string>, path: string)
      ensures |path| > 0 && path[0] == '/' ==> Public(user, path) == path
      ensures Segment(user.GetOr(username)) && Segment(basePath) && (|path| == 0 || path[0] != '/') ==>
        Public(user, path) == "/keybase/public/" + user.GetOr(username) + "/" + basePath + "/" + path
    {
      JoinSegments("/keybase/public", user.GetOr(username), basePath, path);
    }

    /** A path exists exactly when a file or a directory is there; nothing
        can be read from a path that does not. */
    lemma ExistsMeans(path: string)
      ensures Exists(path) <==> path in files || path in dirs
      ensures !Exists(path) ==> JsonAt(path) == None && forall r :: DecryptReply(files, path, r) ==> r == None
    {
    }

    /** `ensure_dir`: `False` when the path exists, otherwise `mkdir` and `True`. */
    method EnsureDir(path: string) returns (created: bool)
      modifies this
      ensures created == !old(Exists(path))
      ensures Exists(path)
      ensures files == old(files)
      ensures dirs == EnsuredDirs(old(files), old(dirs), path)
    {
      if path in files || path in dirs {
        return false;
      }
      dirs := dirs + {path};
      return true;
    }

    /** `put_file(path, json.dumps(doc))`; it returns `None`. */
    method PutFile(path: string, doc: Document)
      modifies this
      ensures files == old(files)[path := Json(doc)] && dirs == old(dirs)
    {
      files := files[path := Json(doc)];
    }

    /** `get_json(path)`. */
    method GetJson(path: string) returns (doc: Option<Document>)
      ensures doc == JsonAt(path)
      ensures doc.Some? ==> path in files && files[path] == Json(doc.value)
    {
      doc := None;
      if path in files && files[path].Json? {
        doc := Some(files[path].doc);
      }
    }

    /** `encrypt(path, data, users)`: the object keeps the recipient list. */
    method Encrypt(path: string, data: string, users: seq<string>)
      modifies this
      ensures files == old(files)[path := Encrypted(data, users)] && dirs == old(dirs)
    {
      files := files[path := Encrypted(data, users)];
    }

    /** `decrypt(path)`: `None` on any failure of the CLI (which the model
        does not predict); a success yields the plaintext stored there. */
    method Decrypt(path: string) returns (r: Option<string>)
      ensures DecryptReply(files, path, r)
    {
      var succeeds: bool :| true;
      if succeeds && path in files && files[path].Encrypted? {
        r := Some(files[path].data);
      } else {
        r := None;
      }
    }
  }
}
