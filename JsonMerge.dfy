/**
  The library's JSON deep merge (`_mergeJson`, src/OXRS_32.cpp:41-61).

  When the source is an object, its members are visited in order; for each
  one, if the destination already holds a truthy value at that key the merge
  recurses into it, otherwise the source value is written at that key. Any
  other source value overwrites the destination wholesale. A `null` in the
  source is stored like any other value: this is not JSON Merge Patch.

  `Merge` is the specification; `MergeJson` is the loop-and-recursion form the
  firmware runs, proved equal to it.
*/
module JsonMerge {
  import opened Json

  /** The value one merge step leaves at a key whose current value is `cur`
      when the source member's value is `v`. */
  function MergedValue(cur: Option<Json>, v: Json): (r: Json)
    decreases v, 2
    ensures cur.None? || !Truthy(cur.value) ==> r == v
    ensures !v.Object? ==> r == v
    ensures cur.Some? && Truthy(cur.value) && !cur.value.Object? && v.Object? ==> r == cur.value
    ensures cur.Some? && cur.value.Object? && v.Object? ==> r.Object?
  {
    if cur.Some? && Truthy(cur.value) then Merge(cur.value, v) else v
  }

  /** `_mergeJson(dst, src)`: the document `dst` becomes. */
  function Merge(dst: Json, src: Json): (r: Json)
    decreases src, 1
    ensures !src.Object? ==> r == src
    ensures src.Object? && dst.Object? ==> r.Object?
    ensures src.Object? && !(dst.Null? || dst.Object?) ==> r == dst
  {
    if src.Object? then MergeMembers(dst, src.members) else src
  }

  /** The loop of `_mergeJson` over the source object's members. */
  function MergeMembers(dst: Json, ms: seq<Member>): (r: Json)
    decreases ms, 0
    ensures dst.Object? ==> r.Object?
    ensures dst.Null? ==> (r.Object? <==> ms != []) && (r.Null? <==> ms == [])
    ensures !(dst.Null? || dst.Object?) ==> r == dst
  {
    if ms == [] then dst
    else
      var key := ms[0].key;
      MergeMembers(SetMember(dst, key, MergedValue(Lookup(dst, key), ms[0].value)), ms[1..])
  }

  /** The firmware's merge as it runs: a loop over the source members that
      writes into the destination, recursing for truthy destination values. */
  method MergeJson(dst: Json, src: Json) returns (r: Json)
    decreases src
    ensures r == Merge(dst, src)
  {
    if src.Object? {
      var ms := src.members;
      r := dst;
      var i := 0;
      while i < |ms|
        invariant 0 <= i <= |ms|
        invariant MergeMembers(r, ms[i..]) == Merge(dst, src)
      {
        var key := ms[i].key;
        var cur := Lookup(r, key);
        if cur.Some? && Truthy(cur.value) {
          var merged := MergeJson(cur.value, ms[i].value);
          r := SetMember(r, key, merged);
        } else {
          r := SetMember(r, key, ms[i].value);
        }
        assert ms[i..][1..] == ms[i + 1..];
        i := i + 1;
      }
    } else {
      r := src;
    }
  }

  /** What a merge of a unique-keyed member list does to one key: a key the
      source does not name reads as before, a key it names reads as one merge
      step over the old value. */
  lemma {:induction false} MergeMembersLookup(dst: Json, ms: seq<Member>, k: string)
    requires dst.Null? || dst.Object?
    requires UniqueKeys(ms)
    decreases ms
    ensures Lookup(MergeMembers(dst, ms), k) ==
      match Get(ms, k)
      case None => Lookup(dst, k)
      case Some(v) => Some(MergedValue(Lookup(dst, k), v))
  {
    if ms != [] {
      var key := ms[0].key;
      var d1 := SetMember(dst, key, MergedValue(Lookup(dst, key), ms[0].value));
      assert UniqueKeys(ms[1..]);
      MergeMembersLookup(d1, ms[1..], k);
      SetMemberLookup(dst, key, MergedValue(Lookup(dst, key), ms[0].value), k);
      if k != key && k in Keys(ms[1..]) {
        assert Get(ms, k) == Get(ms[1..], k);
      } else if k == key {
        KeysIff(ms[1..], key);
        assert k !in Keys(ms[1..]);
      }
    }
  }

  /** Merging an object source, read key by key. */
  lemma MergeLookup(dst: Json, src: Json, k: string)
    requires dst.Null? || dst.Object?
    requires src.Object? && UniqueKeys(src.members)
    ensures Lookup(Merge(dst, src), k) ==
      match Get(src.members, k)
      case None => Lookup(dst, k)
      case Some(v) => Some(MergedValue(Lookup(dst, k), v))
  {
    MergeMembersLookup(dst, src.members, k);
  }

  /** Every destination key the source does not name keeps its value, and
      every source key is present afterwards. */
  lemma MergeKeepsAndAdds(dst: Json, src: Json, k: string)
    requires dst.Null? || dst.Object?
    requires src.Object? && UniqueKeys(src.members)
    ensures k !in Keys(src.members) ==> Lookup(Merge(dst, src), k) == Lookup(dst, k)
    ensures k in Keys(src.members) ==> Lookup(Merge(dst, src), k).Some?
  {
    MergeLookup(dst, src, k);
  }

  /** Right bias: a source member whose value is not an object wins, whatever
      the destination held at that key. */
  lemma MergeOverwritesScalar(dst: Json, src: Json, k: string, v: Json)
    requires dst.Null? || dst.Object?
    requires src.Object? && UniqueKeys(src.members)
    requires Get(src.members, k) == Some(v) && !v.Object?
    ensures Lookup(Merge(dst, src), k) == Some(v)
  {
    MergeLookup(dst, src, k);
  }

  /** A source object lands as it is where the destination key is absent or
      falsy (null, false, zero). */
  lemma MergeAssignsOverFalsy(dst: Json, src: Json, k: string, v: Json)
    requires dst.Null? || dst.Object?
    requires src.Object? && UniqueKeys(src.members)
    requires Get(src.members, k) == Some(v)
    requires Lookup(dst, k).None? || !Truthy(Lookup(dst, k).value)
    ensures Lookup(Merge(dst, src), k) == Some(v)
  {
    MergeLookup(dst, src, k);
  }

  /** A source object cannot be merged into a truthy value that is not an
      object (a string, an array, `true`, a non-zero number): the library
      cannot add members to it, so it is left as it was. */
  lemma MergeKeepsTruthyScalar(dst: Json, src: Json, k: string, d: Json, v: Json)
    requires dst.Null? || dst.Object?
    requires src.Object? && UniqueKeys(src.members)
    requires Get(src.members, k) == Some(v) && v.Object?
    requires Lookup(dst, k) == Some(d) && Truthy(d) && !d.Object?
    ensures Lookup(Merge(dst, src), k) == Some(d)
  {
    MergeLookup(dst, src, k);
  }

  /** Merging two objects: the key set of the result is the union of the two. */
  lemma {:induction false} MergeKeysUnion(dst: Json, src: Json)
    requires dst.Object?
    requires src.Object? && UniqueKeys(src.members)
    ensures Merge(dst, src).Object?
    ensures Keys(Merge(dst, src).members) == Keys(dst.members) + Keys(src.members)
  {
    var r := Merge(dst, src);
    forall k ensures k in Keys(r.members) <==> k in Keys(dst.members) + Keys(src.members) {
      MergeLookup(dst, src, k);
    }
  }

  /** Where both sides hold objects at a key, the result there is the
      recursive merge of the two, whose keys are the union of theirs. */
  lemma MergeNestedObjects(dst: Json, src: Json, k: string, d: Json, v: Json)
    requires dst.Null? || dst.Object?
    requires src.Object? && WellFormed(src)
    requires Get(src.members, k) == Some(v) && v.Object?
    requires Lookup(dst, k) == Some(d) && d.Object?
    ensures Lookup(Merge(dst, src), k) == Some(Merge(d, v))
    ensures Keys(Merge(d, v).members) == Keys(d.members) + Keys(v.members)
  {
    MergeLookup(dst, src, k);
    GetIff(src.members, k, v);
    var i :| 0 <= i < |src.members| && src.members[i] == Member(k, v);
    assert WellFormed(src.members[i].value);
    MergeKeysUnion(d, v);
  }

  /** Merging a value into itself changes nothing. */
  lemma {:induction false} MergeSelf(v: Json)
    requires WellFormed(v)
    decreases v, 1
    ensures Merge(v, v) == v
  {
    if v.Object? {
      var ms := v.members;
      forall i | 0 <= i < |ms|
        ensures Lookup(v, ms[i].key) == Some(ms[i].value)
        ensures MergedValue(Some(ms[i].value), ms[i].value) == ms[i].value
      {
        GetAt(ms, i);
        assert WellFormed(ms[i].value);
        MergeSelf(ms[i].value);
      }
      MergeMembersNoop(v, ms);
    }
  }

  /** A member list whose every step would write back the value already at
      its key leaves the object unchanged. */
  lemma {:induction false} MergeMembersNoop(r: Json, ms: seq<Member>)
    requires r.Object?
    requires forall i :: 0 <= i < |ms| ==>
      Lookup(r, ms[i].key).Some? &&
      MergedValue(Lookup(r, ms[i].key), ms[i].value) == Lookup(r, ms[i].key).value
    ensures MergeMembers(r, ms) == r
  {
    if ms != [] {
      var key := ms[0].key;
      PutExisting(r.members, key, Lookup(r, key).value);
      assert SetMember(r, key, MergedValue(Lookup(r, key), ms[0].value)) == r;
      forall i | 0 <= i < |ms[1..]|
        ensures Lookup(r, ms[1..][i].key).Some? &&
          MergedValue(Lookup(r, ms[1..][i].key), ms[1..][i].value) == Lookup(r, ms[1..][i].key).value
      {
        assert ms[1..][i] == ms[i + 1];
      }
      MergeMembersNoop(r, ms[1..]);
    }
  }

  /** Idempotence: merging the same source a second time changes nothing,
      whatever the destination was. */
  lemma {:induction false} MergeIdempotent(dst: Json, src: Json)
    requires WellFormed(src)
    decreases src, 1
    ensures Merge(Merge(dst, src), src) == Merge(dst, src)
  {
    if src.Object? && (dst.Null? || dst.Object?) && src.members != [] {
      var ms := src.members;
      var r := Merge(dst, src);
      forall i | 0 <= i < |ms|
        ensures Lookup(r, ms[i].key).Some?
        ensures MergedValue(Lookup(r, ms[i].key), ms[i].value) == Lookup(r, ms[i].key).value
      {
        GetAt(ms, i);
        MergeLookup(dst, src, ms[i].key);
        assert WellFormed(ms[i].value);
        MergedValueIdempotent(Lookup(dst, ms[i].key), ms[i].value);
      }
      MergeMembersNoop(r, ms);
    }
  }

  /** One merge step, repeated, gives the same value. */
  lemma {:induction false} MergedValueIdempotent(cur: Option<Json>, v: Json)
    requires WellFormed(v)
    decreases v, 2
    ensures MergedValue(Some(MergedValue(cur, v)), v) == MergedValue(cur, v)
  {
    if cur.Some? && Truthy(cur.value) {
      MergeIdempotent(cur.value, v);
    } else {
      MergeSelf(v);
    }
  }

  /** Merging an object with unique keys into an object holding exactly the
      members before it reproduces the whole object: each key is new and is
      appended in source order. */
  lemma {:induction false} MergeMembersAppend(p: seq<Member>, q: seq<Member>)
    requires UniqueKeys(p + q)
    decreases q
    ensures MergeMembers(Object(p), q) == Object(p + q)
  {
    if q != [] {
      var key := q[0].key;
      forall i | 0 <= i < |p| ensures p[i].key != key {
        assert (p + q)[i] == p[i] && (p + q)[|p|] == q[0];
      }
      KeysIff(p, key);
      PutAbsent(p, key, q[0].value);
      assert p + q == (p + [q[0]]) + q[1..];
      MergeMembersAppend(p + [q[0]], q[1..]);
    }
  }

  /** Merging an object fragment into an empty object yields the fragment. */
  lemma MergeIntoEmptyObject(f: Json)
    requires f.Object? && UniqueKeys(f.members)
    ensures Merge(Object([]), f) == f
  {
    MergeMembersAppend([], f.members);
    assert [] + f.members == f.members;
  }

  /** Merging an object fragment into a cleared (null) document yields the
      fragment, except that an empty fragment leaves the document null. */
  lemma MergeIntoNull(f: Json)
    requires f.Object? && UniqueKeys(f.members)
    ensures Merge(Null, f) == if f.members == [] then Null else f
  {
    var ms := f.members;
    if ms != [] {
      assert SetMember(Null, ms[0].key, MergedValue(Lookup(Null, ms[0].key), ms[0].value)) == Object([ms[0]]);
      MergeMembersAppend([ms[0]], ms[1..]);
      assert [ms[0]] + ms[1..] == ms;
    }
  }
}
