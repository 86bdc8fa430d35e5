/** Values shared by the cache, the store and the manager: the documents the
    daemon keeps in Keybase and the Python `None`/JSON distinctions that the
    cache exposes. */
module Values {

  /** Python's `None` versus a value. */
  datatype Option<+T> = None | Some(value: T) {
    function GetOr(default: T): T {
      match this
      case Some(v) => v
      case None => default
    }
  }

  /** What a cache slot or a getter hands back for a JSON document:
      `Null` is Python's `None`, `Parsed(v)` is the object `v` as `json.loads`
      returns it, and `Dumped(v)` is the string `json.dumps(v)`.  The text of
      `json.dumps` is not spelled out character by character; `Dumped(v)`
      records the value it was made from, so a string is never equal to the
      object it encodes. */
  datatype Cached<+T> = Null | Parsed(value: T) | Dumped(value: T)

  /** `info.json` of a service: a JSON object of string attributes,
      `{"origin": ...}` plus whatever the caller supplied. */
  datatype Service = Service(attrs: map<string, string>)

  /** Metadata of one declared field of an identity. */
  datatype FieldMeta = FieldMeta(kind: string, sharedWith: seq<string>)

  /** `uids/<uid>.json`: the public key and the declared fields, either of
      which may be missing from the object. */
  datatype Identity = Identity(key: Option<string>, fields: Option<map<string, FieldMeta>>)

  /** One element of `foreign_map.json`: a JSON object whose values are
      strings.  A key that is absent, or whose value is JSON `null`, is simply
      not in `attrs`. */
  datatype Entry = Entry(attrs: map<string, string>)
}
