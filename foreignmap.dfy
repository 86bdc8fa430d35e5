/** The rewrites over a foreign map that `add_foreign_map`,
    `remove_foreign_map` and `resolve_foreign_map` perform, stated as
    functions of the stored list.  The manager's loops are proved to compute
    exactly these. */
module ForeignMap {
  import opened Values

  const UsernameKey: string := "username"
  const UidKey: string := "uid"
  const FieldNameKey: string := "field_name"

  /** `mapping.get(key)`, with a missing key read as the empty string: both
      are falsy and both make the entry malformed. */
  function Get(e: Entry, key: string): string {
    if key in e.attrs then e.attrs[key] else ""
  }

  /** `username`, `uid` and `field_name` are all present and non-empty. */
  predicate WellFormed(e: Entry) {
    Get(e, UsernameKey) != "" && Get(e, UidKey) != "" && Get(e, FieldNameKey) != ""
  }

  /** The object `{'username': ..., 'uid': ..., 'field_name': ...}`. */
  function Triple(username: string, uid: string, fieldName: string): (e: Entry)
    ensures Get(e, UsernameKey) == username && Get(e, UidKey) == uid && Get(e, FieldNameKey) == fieldName
    ensures e.attrs.Keys == {UsernameKey, UidKey, FieldNameKey}
  {
    Entry(map[UsernameKey := username, UidKey := uid, FieldNameKey := fieldName])
  }

  /** The entry cut down to its three keys. */
  function Reduce(e: Entry): Entry {
    Triple(Get(e, UsernameKey), Get(e, UidKey), Get(e, FieldNameKey))
  }

  /** The entry names exactly this (username, uid, field_name). */
  predicate Matches(e: Entry, username: string, uid: string, fieldName: string) {
    Get(e, UsernameKey) == username && Get(e, UidKey) == uid && Get(e, FieldNameKey) == fieldName
  }

  /** Two triples are equal exactly when their three values are. */
  lemma TripleInjective(u: string, i: string, f: string, u2: string, i2: string, f2: string)
    ensures Triple(u, i, f) == Triple(u2, i2, f2) <==> (u == u2 && i == i2 && f == f2)
  {
    if Triple(u, i, f) == Triple(u2, i2, f2) {
      assert Get(Triple(u, i, f), UidKey) == Get(Triple(u2, i2, f2), UidKey);
    }
  }

  /** The well-formed entries, reduced to their three keys, in their
      original order: what both rewrites keep of an existing map. */
  function Cleaned(es: seq<Entry>): seq<Entry> {
    if es == [] then []
    else
      var rest := Cleaned(es[..|es| - 1]);
      var e := es[|es| - 1];
      if WellFormed(e) then rest + [Reduce(e)] else rest
  }

  /** Number of well-formed entries. */
  function WellFormedCount(es: seq<Entry>): nat {
    if es == [] then 0
    else WellFormedCount(es[..|es| - 1]) + (if WellFormed(es[|es| - 1]) then 1 else 0)
  }

  /** Some well-formed entry names the triple: `add_foreign_map` refuses,
      `remove_foreign_map` proceeds. */
  predicate HasMapping(es: seq<Entry>, username: string, uid: string, fieldName: string) {
    exists k :: 0 <= k < |es| && WellFormed(es[k]) && Matches(es[k], username, uid, fieldName)
  }

  /** The list `add_foreign_map` writes: the cleaned map with the new triple
      appended. */
  function Added(es: seq<Entry>, username: string, uid: string, fieldName: string): seq<Entry> {
    Cleaned(es) + [Triple(username, uid, fieldName)]
  }

  /** The list `remove_foreign_map` writes: the cleaned map without any entry
      naming the triple. */
  function Removed(es: seq<Entry>, username: string, uid: string, fieldName: string): seq<Entry> {
    if es == [] then []
    else
      var rest := Removed(es[..|es| - 1], username, uid, fieldName);
      var e := es[|es| - 1];
      if WellFormed(e) && !Matches(e, username, uid, fieldName) then rest + [Reduce(e)] else rest
  }

  /** The cleaned map holds one reduced, well-formed entry per well-formed
      input entry, and its entries are exactly the reductions of the
      well-formed inputs. */
  lemma {:induction false} CleanedShape(es: seq<Entry>)
    ensures |Cleaned(es)| == WellFormedCount(es) <= |es|
    ensures forall x :: x in Cleaned(es) ==> WellFormed(x) && x == Reduce(x)
    ensures forall x :: x in Cleaned(es) <==> exists k :: 0 <= k < |es| && WellFormed(es[k]) && x == Reduce(es[k])
  {
    if es != [] {
      var init := es[..|es| - 1];
      CleanedShape(init);
      forall x
        ensures x in Cleaned(es) <==> exists k :: 0 <= k < |es| && WellFormed(es[k]) && x == Reduce(es[k])
      {
        if x in Cleaned(es) && x !in Cleaned(init) {
          assert WellFormed(es[|es| - 1]) && x == Reduce(es[|es| - 1]);
        }
        if x in Cleaned(init) {
          var k :| 0 <= k < |init| && WellFormed(init[k]) && x == Reduce(init[k]);
          assert es[k] == init[k];
        }
        if exists k :: 0 <= k < |es| && WellFormed(es[k]) && x == Reduce(es[k]) {
          var k :| 0 <= k < |es| && WellFormed(es[k]) && x == Reduce(es[k]);
          if k < |init| {
            assert init[k] == es[k];
          }
        }
      }
    }
  }

  /** A well-formed entry matches a triple exactly when its reduction is
      that triple. */
  lemma MatchesIffReduced(e: Entry, username: string, uid: string, fieldName: string)
    ensures Matches(e, username, uid, fieldName) <==> Reduce(e) == Triple(username, uid, fieldName)
  {
    TripleInjective(Get(e, UsernameKey), Get(e, UidKey), Get(e, FieldNameKey), username, uid, fieldName);
  }

  /** The uniqueness test of `add_foreign_map` is membership of the triple in
      the cleaned map. */
  lemma HasMappingIffInCleaned(es: seq<Entry>, username: string, uid: string, fieldName: string)
    ensures HasMapping(es, username, uid, fieldName) <==> Triple(username, uid, fieldName) in Cleaned(es)
  {
    CleanedShape(es);
    var t := Triple(username, uid, fieldName);
    if HasMapping(es, username, uid, fieldName) {
      var k :| 0 <= k < |es| && WellFormed(es[k]) && Matches(es[k], username, uid, fieldName);
      MatchesIffReduced(es[k], username, uid, fieldName);
    }
    if t in Cleaned(es) {
      var k :| 0 <= k < |es| && WellFormed(es[k]) && t == Reduce(es[k]);
      MatchesIffReduced(es[k], username, uid, fieldName);
    }
  }

  /** What `add_foreign_map` writes: one entry more than the well-formed
      count, the cleaned map first and every entry of it well-formed, the new
      triple last.  `AddedOnce` says when the triple is then held once. */
  lemma AddedShape(es: seq<Entry>, username: string, uid: string, fieldName: string)
    ensures var r := Added(es, username, uid, fieldName);
      && |r| == WellFormedCount(es) + 1
      && r[|r| - 1] == Triple(username, uid, fieldName)
      && r[..|r| - 1] == Cleaned(es)
      && forall k :: 0 <= k < |r| - 1 ==> WellFormed(r[k])
  {
    CleanedShape(es);
    var r := Added(es, username, uid, fieldName);
    forall k | 0 <= k < |r| - 1 ensures WellFormed(r[k]) {
      assert r[k] in Cleaned(es);
    }
  }

  /** Adding to a map that did not hold the triple leaves it held exactly
      once. */
  lemma {:induction false} AddedOnce(es: seq<Entry>, username: string, uid: string, fieldName: string)
    requires !HasMapping(es, username, uid, fieldName)
    ensures var r := Added(es, username, uid, fieldName);
      forall k :: 0 <= k < |r| - 1 ==> r[k] != Triple(username, uid, fieldName)
  {
    HasMappingIffInCleaned(es, username, uid, fieldName);
    var r := Added(es, username, uid, fieldName);
    forall k | 0 <= k < |r| - 1 ensures r[k] != Triple(username, uid, fieldName) {
      assert r[k] == Cleaned(es)[k];
    }
  }

  /** `remove_foreign_map` writes the cleaned map with EVERY copy of the
      triple dropped (not only the first), order kept, all entries
      well-formed. */
  lemma {:induction false} RemovedIsFilteredCleaned(es: seq<Entry>, username: string, uid: string, fieldName: string)
    ensures var t := Triple(username, uid, fieldName);
      && t !in Removed(es, username, uid, fieldName)
      && (forall x :: x in Removed(es, username, uid, fieldName) <==> x in Cleaned(es) && x != t)
      && (forall x :: x in Removed(es, username, uid, fieldName) ==> WellFormed(x))
      && |Removed(es, username, uid, fieldName)| <= |Cleaned(es)|
  {
    var t := Triple(username, uid, fieldName);
    if es != [] {
      var init := es[..|es| - 1];
      var e := es[|es| - 1];
      RemovedIsFilteredCleaned(init, username, uid, fieldName);
      CleanedShape(init);
      MatchesIffReduced(e, username, uid, fieldName);
      assert WellFormed(Reduce(e)) <== WellFormed(e);
    }
  }

  /** The list without any copy of `t`, order kept. */
  function Without(xs: seq<Entry>, t: Entry): (r: seq<Entry>)
    ensures |r| <= |xs|
    ensures forall x :: x in r <==> x in xs && x != t
  {
    if xs == [] then []
    else
      var rest := Without(xs[..|xs| - 1], t);
      var x := xs[|xs| - 1];
      assert forall y :: y in xs <==> y in xs[..|xs| - 1] || y == x;
      if x == t then rest else rest + [x]
  }

  /** What `remove_foreign_map` writes is exactly the cleaned map filtered
      by "is not the triple". */
  lemma {:induction false} RemovedIsWithout(es: seq<Entry>, username: string, uid: string, fieldName: string)
    ensures Removed(es, username, uid, fieldName) == Without(Cleaned(es), Triple(username, uid, fieldName))
  {
    if es != [] {
      var init := es[..|es| - 1];
      var e := es[|es| - 1];
      var c := Cleaned(init);
      var t := Triple(username, uid, fieldName);
      RemovedIsWithout(init, username, uid, fieldName);
      MatchesIffReduced(e, username, uid, fieldName);
      if WellFormed(e) {
        assert (c + [Reduce(e)])[..|c|] == c;
      }
    }
  }

  /** `remove_foreign_map` shrinks the well-formed map exactly when it finds
      the triple. */
  lemma {:induction false} RemovedShrinks(es: seq<Entry>, username: string, uid: string, fieldName: string)
    ensures HasMapping(es, username, uid, fieldName) <==> |Removed(es, username, uid, fieldName)| < |Cleaned(es)|
  {
    if es != [] {
      var init := es[..|es| - 1];
      var e := es[|es| - 1];
      RemovedShrinks(init, username, uid, fieldName);
      RemovedIsFilteredCleaned(init, username, uid, fieldName);
      if HasMapping(es, username, uid, fieldName) && !HasMapping(init, username, uid, fieldName) {
        var k :| 0 <= k < |es| && WellFormed(es[k]) && Matches(es[k], username, uid, fieldName);
      }
      if HasMapping(init, username, uid, fieldName) {
        var k :| 0 <= k < |init| && WellFormed(init[k]) && Matches(init[k], username, uid, fieldName);
        assert es[k] == init[k];
      }
    }
  }

  /** Cleaning one more entry appends its reduction when it is well formed. */
  lemma CleanedStep(es: seq<Entry>, i: nat)
    requires i < |es|
    ensures Cleaned(es[..i + 1]) == Cleaned(es[..i]) + if WellFormed(es[i]) then [Reduce(es[i])] else []
  {
    assert es[..i + 1][..i] == es[..i];
  }

  /** Removing from one more entry appends its reduction when it is well
      formed and names another triple. */
  lemma RemovedStep(es: seq<Entry>, i: nat, username: string, uid: string, fieldName: string)
    requires i < |es|
    ensures Removed(es[..i + 1], username, uid, fieldName) == Removed(es[..i], username, uid, fieldName) +
      if WellFormed(es[i]) && !Matches(es[i], username, uid, fieldName) then [Reduce(es[i])] else []
  {
    assert es[..i + 1][..i] == es[..i];
  }

  /** One more entry extends the prefix's `HasMapping` by that entry alone. */
  lemma HasMappingStep(es: seq<Entry>, i: nat, username: string, uid: string, fieldName: string)
    requires i < |es|
    ensures HasMapping(es[..i + 1], username, uid, fieldName) <==>
      HasMapping(es[..i], username, uid, fieldName) || (WellFormed(es[i]) && Matches(es[i], username, uid, fieldName))
  {
    var longer := es[..i + 1];
    assert longer[i] == es[i];
    if HasMapping(es[..i], username, uid, fieldName) {
      var k :| 0 <= k < i && WellFormed(es[..i][k]) && Matches(es[..i][k], username, uid, fieldName);
      assert longer[k] == es[..i][k];
    }
    if HasMapping(longer, username, uid, fieldName) {
      var k :| 0 <= k < i + 1 && WellFormed(longer[k]) && Matches(longer[k], username, uid, fieldName);
      if k < i {
        assert es[..i][k] == longer[k];
      }
    }
  }

  /** `resolved[uid][field_name] = value`. */
  function Put(r: map<string, map<string, string>>, uid: string, fieldName: string, value: string): map<string, map<string, string>> {
    r[uid := (if uid in r then r[uid] else map[])[fieldName := value]]
  }

  /** Creating the inner map when missing and then assigning into it is `Put`. */
  lemma PutInSteps(r: map<string, map<string, string>>, uid: string, fieldName: string, value: string)
    ensures var r1 := if uid in r then r else r[uid := map[]];
      r1[uid := r1[uid][fieldName := value]] == Put(r, uid, fieldName, value)
  {
  }

  /** Entry `e`, whose decryption gave `v`, supplies `result[uid][fieldName]`. */
  predicate Contributes(e: Entry, v: Option<string>, uid: string, fieldName: string) {
    WellFormed(e) && v.Some? && Get(e, UidKey) == uid && Get(e, FieldNameKey) == fieldName
  }

  /** The map `resolve_foreign_map` builds from the entries and the results
      of decrypting each of them. */
  function Resolved(es: seq<Entry>, values: seq<Option<string>>): map<string, map<string, string>>
    requires |values| == |es|
  {
    if es == [] then map[]
    else
      var n := |es| - 1;
      var rest := Resolved(es[..n], values[..n]);
      if WellFormed(es[n]) && values[n].Some? then Put(rest, Get(es[n], UidKey), Get(es[n], FieldNameKey), values[n].value)
      else rest
  }

  /** Resolving one more entry either records its value or changes nothing. */
  lemma ResolvedStep(es: seq<Entry>, values: seq<Option<string>>, e: Entry, v: Option<string>)
    requires |values| == |es|
    ensures Resolved(es + [e], values + [v]) ==
      if WellFormed(e) && v.Some? then Put(Resolved(es, values), Get(e, UidKey), Get(e, FieldNameKey), v.value)
      else Resolved(es, values)
  {
    assert (es + [e])[..|es|] == es;
    assert (values + [v])[..|es|] == values;
  }

  /** `result[uid][field]` exists exactly when some well-formed entry for
      (uid, field) decrypted. */
  lemma {:induction false} ResolvedDomain(es: seq<Entry>, values: seq<Option<string>>, uid: string, fieldName: string)
    requires |values| == |es|
    ensures var r := Resolved(es, values);
      (uid in r && fieldName in r[uid]) <==> exists k :: 0 <= k < |es| && Contributes(es[k], values[k], uid, fieldName)
  {
    if es != [] {
      var n := |es| - 1;
      ResolvedDomain(es[..n], values[..n], uid, fieldName);
      if !Contributes(es[n], values[n], uid, fieldName) {
        if exists k :: 0 <= k < |es| && Contributes(es[k], values[k], uid, fieldName) {
          var k :| 0 <= k < |es| && Contributes(es[k], values[k], uid, fieldName);
          assert es[..n][k] == es[k] && values[..n][k] == values[k];
        }
      }
    }
  }

  /** A value in the result comes from the LAST well-formed entry for its
      (uid, field) that decrypted. */
  lemma {:induction false} ResolvedLast(es: seq<Entry>, values: seq<Option<string>>, uid: string, fieldName: string)
    requires |values| == |es|
    ensures var r := Resolved(es, values);
      uid in r && fieldName in r[uid] ==>
        exists k :: 0 <= k < |es| && Contributes(es[k], values[k], uid, fieldName) && r[uid][fieldName] == values[k].value
          && forall j :: k < j < |es| ==> !Contributes(es[j], values[j], uid, fieldName)
  {
    if es != [] {
      var n := |es| - 1;
      var r := Resolved(es, values);
      var rest := Resolved(es[..n], values[..n]);
      if Contributes(es[n], values[n], uid, fieldName) {
        assert r[uid][fieldName] == values[n].value;
      } else if uid in r && fieldName in r[uid] {
        assert uid in rest && fieldName in rest[uid] && r[uid][fieldName] == rest[uid][fieldName];
        ResolvedLast(es[..n], values[..n], uid, fieldName);
        var k :| 0 <= k < n && Contributes(es[..n][k], values[..n][k], uid, fieldName) && rest[uid][fieldName] == values[..n][k].value
          && forall j :: k < j < n ==> !Contributes(es[..n][j], values[..n][j], uid, fieldName);
        assert es[..n][k] == es[k] && values[..n][k] == values[k];
        forall j | k < j < |es| ensures !Contributes(es[j], values[j], uid, fieldName) {
          if j < n {
            assert es[..n][j] == es[j] && values[..n][j] == values[j];
          }
        }
      }
    }
  }

  /** No uid of the result maps to an empty dict. */
  lemma {:induction false} ResolvedNonEmpty(es: seq<Entry>, values: seq<Option<string>>, uid: string)
    requires |values| == |es|
    ensures var r := Resolved(es, values); uid in r ==> r[uid] != map[]
  {
    if es != [] {
      var n := |es| - 1;
      var r := Resolved(es, values);
      ResolvedNonEmpty(es[..n], values[..n], uid);
      if WellFormed(es[n]) && values[n].Some? && Get(es[n], UidKey) == uid {
        assert Get(es[n], FieldNameKey) in r[uid];
      }
    }
  }
}
