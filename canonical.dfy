/** The canonical hasher: a document's fingerprint is a hash of its JSON
    value, so two documents that differ only in the order of object members
    or in whitespace get the same fingerprint (scripts/4_process_manifest.py,
    get_canonical_hash). */
module Canonical {
  import opened Common

  /** A JSON value as `json.load` produces it. An object is a map, so its
      members have no order. */
  datatype Json =
    | Null
    | Bool(b: bool)
    | Int(i: int)
    | Float(f: real)
    | Str(s: string)
    | Array(elems: seq<Json>)
    | Object(members: map<string, Json>)

  /** A document as written on disk: objects list their members in the order
      of the text, and any value may be surrounded by whitespace. */
  datatype Raw =
    | RNull
    | RBool(b: bool)
    | RInt(i: int)
    | RFloat(f: real)
    | RStr(s: string)
    | RArray(elems: seq<Raw>)
    | RObject(members: seq<Member>)
    | Spaced(before: string, inner: Raw, after: string)

  datatype Member = Member(key: string, value: Raw)

  /** The hex digest of SHA-256; the hash itself is a parameter of the model. */
  type Digest = string

  /** What reading and parsing a file yields: the parse tree, or a failure
      (the file cannot be opened, or its text is not JSON). */
  datatype ReadOutcome = Unreadable | Parsed(doc: Raw)

  /** `json.load`: whitespace disappears, and an object's members become a
      map in which a repeated key keeps its last value. */
  function Value(r: Raw): Json
    decreases r, 1
  {
    match r
    case RNull => Null
    case RBool(b) => Bool(b)
    case RInt(i) => Int(i)
    case RFloat(f) => Float(f)
    case RStr(s) => Str(s)
    case RArray(elems) => Array(Values(elems))
    case RObject(members) => Object(Members(members))
    case Spaced(_, inner, _) => Value(inner)
  }

  function Values(rs: seq<Raw>): (js: seq<Json>)
    decreases rs, 0
    ensures |js| == |rs|
  {
    if rs == [] then [] else [Value(rs[0])] + Values(rs[1..])
  }

  function Members(ms: seq<Member>): map<string, Json>
    decreases ms, 0
  {
    if ms == [] then map[]
    else Members(ms[..|ms| - 1])[ms[|ms| - 1].key := Value(ms[|ms| - 1].value)]
  }

  /** `get_canonical_hash`: the hash of the canonical serialisation, which
      depends on the JSON value alone; None when the file cannot be read or
      parsed. */
  function Fingerprint(f: ReadOutcome, hash: Json -> Digest): (d: Option<Digest>)
    ensures d.None? <==> f.Unreadable?
  {
    match f
    case Unreadable => None
    case Parsed(doc) => Some(hash(Value(doc)))
  }

  predicate DistinctKeys(ms: seq<Member>) {
    forall i, j :: 0 <= i < j < |ms| ==> ms[i].key != ms[j].key
  }

  function KeySet(ms: seq<Member>): set<string> {
    set m | m in ms :: m.key
  }

  /** `a` and `b` are the same JSON document written differently: whitespace
      may differ, object members may be listed in any order (each key once),
      and everything else is the same. */
  ghost predicate Equivalent(a: Raw, b: Raw)
    decreases a, b
  {
    if a.Spaced? then Equivalent(a.inner, b)
    else if b.Spaced? then Equivalent(a, b.inner)
    else if a.RArray? then
      && b.RArray? && |a.elems| == |b.elems|
      && forall i :: 0 <= i < |a.elems| ==> Equivalent(a.elems[i], b.elems[i])
    else if a.RObject? then
      && b.RObject?
      && DistinctKeys(a.members) && DistinctKeys(b.members)
      && KeySet(a.members) == KeySet(b.members)
      && forall i, j ::
           (0 <= i < |a.members| && 0 <= j < |b.members| && a.members[i].key == b.members[j].key) ==>
           Equivalent(a.members[i].value, b.members[j].value)
    else a == b
  }

  /** The map holds exactly the listed keys. */
  lemma {:induction false} MembersKeys(ms: seq<Member>)
    ensures Members(ms).Keys == KeySet(ms)
  {
    if ms != [] {
      var n := |ms| - 1;
      var init, last := ms[..n], ms[n];
      assert ms == init + [last];
      MembersKeys(init);
      assert Members(ms).Keys == Members(init).Keys + {last.key};
      assert KeySet(ms) == KeySet(init) + {last.key} by {
        forall m | m in ms ensures m in init || m == last {
        }
      }
    }
  }

  /** With its key listed once, a member's key maps to its value. */
  lemma {:induction false} MembersAt(ms: seq<Member>, i: nat)
    requires i < |ms|
    requires forall j :: 0 <= j < |ms| && j != i ==> ms[j].key != ms[i].key
    decreases |ms|
    ensures ms[i].key in Members(ms) && Members(ms)[ms[i].key] == Value(ms[i].value)
  {
    var n := |ms| - 1;
    if i < n {
      var init := ms[..n];
      assert ms[n].key != ms[i].key;
      assert init[i] == ms[i];
      assert forall j :: 0 <= j < n && j != i ==> init[j].key != init[i].key by {
        assert forall j :: 0 <= j < n ==> init[j] == ms[j];
      }
      MembersAt(init, i);
    }
  }

  /** With each key listed once, the map holds exactly the listed keys, each
      with the value of its member. */
  lemma MembersLookup(ms: seq<Member>)
    requires DistinctKeys(ms)
    ensures Members(ms).Keys == KeySet(ms)
    ensures forall i :: 0 <= i < |ms| ==> Members(ms)[ms[i].key] == Value(ms[i].value)
  {
    MembersKeys(ms);
    forall i | 0 <= i < |ms|
      ensures Members(ms)[ms[i].key] == Value(ms[i].value)
    {
      MembersAt(ms, i);
    }
  }

  /** Documents that differ only in member order and whitespace parse to the
      same JSON value. */
  lemma {:induction false} EquivalentSameValue(a: Raw, b: Raw)
    requires Equivalent(a, b)
    decreases a, b
    ensures Value(a) == Value(b)
  {
    if a.Spaced? {
      EquivalentSameValue(a.inner, b);
    } else if b.Spaced? {
      EquivalentSameValue(a, b.inner);
    } else if a.RArray? {
      var xs, ys := a.elems, b.elems;
      forall i | 0 <= i < |xs| ensures Value(xs[i]) == Value(ys[i]) {
        EquivalentSameValue(xs[i], ys[i]);
      }
      ValuesPointwise(xs, ys);
    } else if a.RObject? {
      var xs, ys := a.members, b.members;
      forall i, j | 0 <= i < |xs| && 0 <= j < |ys| && xs[i].key == ys[j].key
        ensures Value(xs[i].value) == Value(ys[j].value)
      {
        EquivalentSameValue(xs[i].value, ys[j].value);
      }
      MembersReordered(xs, ys);
    }
  }

  /** Two member lists with the same keys, each listed once, and the same
      value under each key build the same map, whatever their order. */
  lemma MembersReordered(xs: seq<Member>, ys: seq<Member>)
    requires DistinctKeys(xs) && DistinctKeys(ys) && KeySet(xs) == KeySet(ys)
    requires forall i, j :: 0 <= i < |xs| && 0 <= j < |ys| && xs[i].key == ys[j].key ==>
      Value(xs[i].value) == Value(ys[j].value)
    ensures Members(xs) == Members(ys)
  {
    MembersLookup(xs);
    MembersLookup(ys);
    var mx, my := Members(xs), Members(ys);
    forall k | k in mx.Keys ensures mx[k] == my[k] {
      var m :| m in xs && m.key == k;
      var i :| 0 <= i < |xs| && xs[i] == m;
      assert k in KeySet(ys);
      var m' :| m' in ys && m'.key == k;
      var j :| 0 <= j < |ys| && ys[j] == m';
    }
  }

  lemma {:induction false} ValuesPointwise(xs: seq<Raw>, ys: seq<Raw>)
    requires |xs| == |ys|
    requires forall i :: 0 <= i < |xs| ==> Value(xs[i]) == Value(ys[i])
    ensures Values(xs) == Values(ys)
  {
    if xs != [] {
      ValuesPointwise(xs[1..], ys[1..]);
    }
  }

  /** The hasher's promise: documents equal as JSON values, whatever their
      member order and whitespace, get the same fingerprint. */
  lemma SameDocumentSameFingerprint(a: Raw, b: Raw, hash: Json -> Digest)
    requires Equivalent(a, b)
    ensures Fingerprint(Parsed(a), hash) == Fingerprint(Parsed(b), hash)
    ensures Fingerprint(Parsed(a), hash).Some?
  {
    EquivalentSameValue(a, b);
  }
}
