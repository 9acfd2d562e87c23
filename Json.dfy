/**
  The JSON value model used by the firmware library: a tagged tree whose
  objects are ordered lists of key/value members, as in the JSON library the
  firmware links against. Numbers are integers (floating point is not
  modelled).

  Member access follows the library's variant semantics:
  - reading a key looks up the FIRST member with that key, and reading a key
    of anything that is not an object yields nothing;
  - writing a key replaces the first member with that key in place, or
    appends a new member at the end;
  - writing a key into `null` first turns it into an empty object, while
    writing a key into any other non-object value is silently ignored.
*/
module Json {

  datatype Option<T> = None | Some(value: T)

  datatype Json =
    | Null
    | Bool(b: bool)
    | Number(n: int)
    | Str(s: string)
    | Array(items: seq<Json>)
    | Object(members: seq<Member>)

  datatype Member = Member(key: string, value: Json)

  /** The library's conversion of a value to bool: null, false and numeric
      zero are false; every string, array and object is true. */
  predicate Truthy(j: Json): (r: bool)
    ensures r <==> j != Null && j != Bool(false) && j != Number(0)
  {
    match j
    case Null => false
    case Bool(b) => b
    case Number(n) => n != 0
    case _ => true
  }

  /** The set of keys named by a member list. */
  function Keys(ms: seq<Member>): set<string> {
    if ms == [] then {} else {ms[0].key} + Keys(ms[1..])
  }

  /** A key is in `Keys(ms)` exactly when some member names it. */
  lemma {:induction false} KeysIff(ms: seq<Member>, k: string)
    ensures k in Keys(ms) <==> exists i :: 0 <= i < |ms| && ms[i].key == k
  {
    if ms != [] {
      KeysIff(ms[1..], k);
      if exists i :: 0 <= i < |ms| && ms[i].key == k {
        var i :| 0 <= i < |ms| && ms[i].key == k;
        if i > 0 { assert ms[1..][i - 1].key == k; }
      }
      if exists i :: 0 <= i < |ms[1..]| && ms[1..][i].key == k {
        var i :| 0 <= i < |ms[1..]| && ms[1..][i].key == k;
        assert ms[i + 1].key == k;
      }
    }
  }

  /** No key is named twice in a member list. */
  predicate UniqueKeys(ms: seq<Member>) {
    forall i, j :: 0 <= i < j < |ms| ==> ms[i].key != ms[j].key
  }

  /** A value the library can hold: every object in it, at any depth, names
      each key at most once (the library's parser and its key assignment
      never create a second member with an existing key). */
  predicate WellFormed(j: Json)
    decreases j, 1
  {
    match j
    case Array(items) => forall i :: 0 <= i < |items| ==> WellFormed(items[i])
    case Object(ms) => UniqueKeys(ms) && MembersWellFormed(ms)
    case _ => true
  }

  predicate MembersWellFormed(ms: seq<Member>)
    decreases ms, 0
  {
    forall i :: 0 <= i < |ms| ==> WellFormed(ms[i].value)
  }

  /** First member with key `k`, as the library's member lookup finds it. */
  function Get(ms: seq<Member>, k: string): (r: Option<Json>)
    ensures r.None? <==> k !in Keys(ms)
  {
    if ms == [] then None
    else if ms[0].key == k then Some(ms[0].value)
    else Get(ms[1..], k)
  }

  /** Member `i` is the first one naming `k`. */
  predicate FirstAt(ms: seq<Member>, k: string, i: int) {
    0 <= i < |ms| && ms[i].key == k && forall j :: 0 <= j < i ==> ms[j].key != k
  }

  /** A read finds the value of the first member naming the key, and finds
      something only when such a member exists. */
  lemma {:induction false} GetFirstIff(ms: seq<Member>, k: string)
    ensures forall i :: FirstAt(ms, k, i) ==> Get(ms, k) == Some(ms[i].value)
    ensures Get(ms, k).Some? ==> exists i :: FirstAt(ms, k, i)
  {
    if ms != [] {
      GetFirstIff(ms[1..], k);
      forall i | FirstAt(ms, k, i) ensures Get(ms, k) == Some(ms[i].value) {
        if i > 0 {
          assert ms[1..][i - 1] == ms[i];
          assert FirstAt(ms[1..], k, i - 1);
        }
      }
      if ms[0].key == k {
        assert FirstAt(ms, k, 0);
      } else if Get(ms[1..], k).Some? {
        var i :| FirstAt(ms[1..], k, i);
        assert ms[1..][i] == ms[i + 1];
        assert FirstAt(ms, k, i + 1);
      }
    }
  }

  /** Write `v` at key `k`: replace the first member with that key where it
      stands, or append a new member. */
  function Put(ms: seq<Member>, k: string, v: Json): (r: seq<Member>)
    ensures Keys(r) == Keys(ms) + {k}
    ensures |r| == if k in Keys(ms) then |ms| else |ms| + 1
  {
    if ms == [] then [Member(k, v)]
    else if ms[0].key == k then [Member(k, v)] + ms[1..]
    else [ms[0]] + Put(ms[1..], k, v)
  }

  /** `j[k]` read as a value: only an object has members. */
  function Lookup(j: Json, k: string): (r: Option<Json>)
    ensures r.Some? ==> j.Object? && k in Keys(j.members)
    ensures j.Object? && k in Keys(j.members) ==> r.Some?
  {
    if j.Object? then Get(j.members, k) else None
  }

  /** `j[k] = v`: null becomes an object holding the member, an object gets
      the member written, every other value is left as it was. */
  function SetMember(j: Json, k: string, v: Json): (r: Json)
    ensures j.Null? || j.Object? ==> r.Object? && Lookup(r, k) == Some(v)
    ensures !(j.Null? || j.Object?) ==> r == j
  {
    match j
    case Null => Object([Member(k, v)])
    case Object(ms) => PutGet(ms, k, v, k); Object(Put(ms, k, v))
    case _ => j
  }

  /** Reading back after a write sees the written value at that key and the
      old value everywhere else. */
  lemma {:induction false} PutGet(ms: seq<Member>, k: string, v: Json, k': string)
    ensures Get(Put(ms, k, v), k') == if k' == k then Some(v) else Get(ms, k')
  {
    if ms != [] && ms[0].key != k {
      PutGet(ms[1..], k, v, k');
    }
  }

  /** Writing back the value a key already holds changes nothing. */
  lemma {:induction false} PutExisting(ms: seq<Member>, k: string, v: Json)
    requires Get(ms, k) == Some(v)
    ensures Put(ms, k, v) == ms
  {
    if ms[0].key != k {
      PutExisting(ms[1..], k, v);
    }
  }

  /** A write keeps the keys unique. */
  lemma {:induction false} PutUnique(ms: seq<Member>, k: string, v: Json)
    requires UniqueKeys(ms)
    ensures UniqueKeys(Put(ms, k, v))
  {
    if ms == [] {
    } else if ms[0].key == k {
      var r := Put(ms, k, v);
      forall i, j | 0 <= i < j < |r| ensures r[i].key != r[j].key {
        assert r[j] == ms[j];
        if i > 0 { assert r[i] == ms[i]; }
      }
    } else {
      var tail := Put(ms[1..], k, v);
      PutUnique(ms[1..], k, v);
      var r := Put(ms, k, v);
      assert r == [ms[0]] + tail;
      KeysIff(ms[1..], ms[0].key);
      assert ms[0].key !in Keys(tail);
      forall i, j | 0 <= i < j < |r| ensures r[i].key != r[j].key {
        assert r[j] == tail[j - 1];
        if i > 0 { assert r[i] == tail[i - 1]; } else { KeysIff(tail, tail[j - 1].key); }
      }
    }
  }

  /** Writing a key that is not there appends the member at the end. */
  lemma {:induction false} PutAbsent(ms: seq<Member>, k: string, v: Json)
    requires k !in Keys(ms)
    ensures Put(ms, k, v) == ms + [Member(k, v)]
  {
    if ms != [] {
      PutAbsent(ms[1..], k, v);
      assert ms == [ms[0]] + ms[1..];
    }
  }

  /** Writing a key that is present replaces its first member where it
      stands, keeping every member before and after it. */
  lemma {:induction false} PutPresent(ms: seq<Member>, k: string, v: Json, i: nat)
    requires FirstAt(ms, k, i)
    ensures Put(ms, k, v) == ms[..i] + [Member(k, v)] + ms[i + 1..]
  {
    if i > 0 {
      assert FirstAt(ms[1..], k, i - 1);
      PutPresent(ms[1..], k, v, i - 1);
      assert ms[1..][..i - 1] == ms[1..i];
      assert ms[1..][i..] == ms[i + 1..];
      assert ms[..i] == [ms[0]] + ms[1..i];
    }
  }

  /** `SetMember` on null or an object: the written key reads back the new
      value, every other key reads as before. */
  lemma SetMemberLookup(j: Json, k: string, v: Json, k': string)
    requires j.Null? || j.Object?
    ensures Lookup(SetMember(j, k, v), k') == if k' == k then Some(v) else Lookup(j, k')
  {
    if j.Object? {
      PutGet(j.members, k, v, k');
    }
  }

  /** Writing one key into null or an object leaves every other key as it
      was. */
  lemma SetMemberKeepsOthers(j: Json, k: string, v: Json)
    ensures j.Null? || j.Object? ==> forall k' :: k' != k ==> Lookup(SetMember(j, k, v), k') == Lookup(j, k')
  {
    if j.Null? || j.Object? {
      forall k' | k' != k ensures Lookup(SetMember(j, k, v), k') == Lookup(j, k') {
        SetMemberLookup(j, k, v, k');
      }
    }
  }

  /** With unique keys, the member at position `i` is the one lookup finds. */
  lemma {:induction false} GetAt(ms: seq<Member>, i: nat)
    requires UniqueKeys(ms)
    requires i < |ms|
    ensures Get(ms, ms[i].key) == Some(ms[i].value)
  {
    if i > 0 {
      assert ms[0].key != ms[i].key;
      GetAt(ms[1..], i - 1);
    }
  }

  /** A key no member names is not found. */
  lemma GetAbsent(ms: seq<Member>, k: string)
    requires forall i :: 0 <= i < |ms| ==> ms[i].key != k
    ensures Get(ms, k) == None
  {
    KeysIff(ms, k);
  }

  /** With unique keys, lookup is exactly membership of the pair. */
  lemma GetIff(ms: seq<Member>, k: string, v: Json)
    requires UniqueKeys(ms)
    ensures Get(ms, k) == Some(v) <==> exists i :: 0 <= i < |ms| && ms[i] == Member(k, v)
  {
    if exists i :: 0 <= i < |ms| && ms[i] == Member(k, v) {
      var i :| 0 <= i < |ms| && ms[i] == Member(k, v);
      GetAt(ms, i);
    }
  }
}
