/** Canonical JSON (`src/lib/hash.ts`): recursively sorted object keys, then
    `JSON.stringify`. Two plain values get the same canonical text exactly when
    they mean the same thing, objects being unordered maps. */
module CanonicalJson {
  import JsonReader
  import opened JsonText

  // ----- what a JSON value means, independently of property order

  datatype Value =
    | VNull
    | VBool(b: bool)
    | VNum(numeral: string)
    | VStr(s: string)
    | VArr(elems: seq<Value>)
    | VObj(members: map<string, Value>)

  function Meaning(v: Json): Value
    decreases v, 0
  {
    match v
    case Null => VNull
    case Bool(b) => VBool(b)
    case Num(n) => VNum(n)
    case Str(s) => VStr(s)
    case Arr(es) => VArr(MeaningOfElems(es))
    case Obj(ms) => VObj(MeaningOfMembers(ms))
  }

  function MeaningOfElems(es: seq<Json>): (vs: seq<Value>)
    ensures |vs| == |es|
    decreases es, 0
  {
    if es == [] then [] else [Meaning(es[0])] + MeaningOfElems(es[1..])
  }

  function MeaningOfMembers(ms: seq<Member>): (m: map<string, Value>)
    ensures m.Keys == Keys(ms)
    decreases ms, 0
  {
    if ms == [] then map[] else MeaningOfMembers(ms[1..])[ms[0].key := Meaning(ms[0].value)]
  }

  /** Records written with the same keys in the same order. */
  predicate SameShape(ms: seq<Member>, ns: seq<Member>)
  {
    |ms| == |ns| && forall i :: 0 <= i < |ms| ==> ms[i].key == ns[i].key
  }

  ghost predicate SameFields(ms: seq<Member>, ns: seq<Member>)
    requires |ms| == |ns|
  {
    forall i :: 0 <= i < |ms| ==> Meaning(ms[i].value) == Meaning(ns[i].value)
  }

  /** A record means what its fields mean. */
  lemma RecordMeaning(ms: seq<Member>, ns: seq<Member>)
    requires PlainMembers(ms) && PlainMembers(ns) && SameShape(ms, ns)
    ensures MeaningOfMembers(ms) == MeaningOfMembers(ns) <==> SameFields(ms, ns)
  {
    if MeaningOfMembers(ms) == MeaningOfMembers(ns) {
      forall i | 0 <= i < |ms|
        ensures Meaning(ms[i].value) == Meaning(ns[i].value)
      {
        PlainAt(ms, i);
        PlainAt(ns, i);
      }
    }
    if SameFields(ms, ns) { SameFieldsMeaning(ms, ns); }
  }

  /** A record means the map of its fields. */
  lemma {:induction false} RecordMeans(ms: seq<Member>)
    requires PlainMembers(ms)
    ensures forall i :: 0 <= i < |ms| ==> ms[i].key in MeaningOfMembers(ms) && MeaningOfMembers(ms)[ms[i].key] == Meaning(ms[i].value)
  {
    if ms != [] {
      RecordMeans(ms[1..]);
      assert forall i :: 0 < i < |ms| ==> ms[i] == ms[1..][i - 1] && ms[i] in ms[1..];
    }
  }

  lemma {:induction false} SameFieldsMeaning(ms: seq<Member>, ns: seq<Member>)
    requires SameShape(ms, ns) && SameFields(ms, ns)
    ensures MeaningOfMembers(ms) == MeaningOfMembers(ns)
  {
    if ms != [] {
      var ms', ns' := ms[1..], ns[1..];
      assert forall i :: 0 <= i < |ms'| ==> ms'[i] == ms[i + 1] && ns'[i] == ns[i + 1];
      SameFieldsMeaning(ms', ns');
    }
  }

  lemma {:induction false} RecordIsPlain(ms: seq<Member>)
    requires forall i :: 0 <= i < |ms| ==> ms[i].key != "__proto__" && Plain(ms[i].value)
    requires forall i, j :: 0 <= i < j < |ms| ==> ms[i].key != ms[j].key
    ensures PlainMembers(ms)
  {
    if ms != [] {
      RecordIsPlain(ms[1..]);
    }
  }

  // ----- key order

  /** Orders scalar values as their UTF-16 encodings order: a supplementary
      character starts with a surrogate, below U+E000. */
  function Utf16Rank(c: char): int
  {
    var n := c as int;
    if n < 0xD800 then n else if n < 0x10000 then n + 0x100000 else n - 0x10000 + 0xD800
  }

  /** The order of `Array.prototype.sort` on strings: by UTF-16 code units. */
  predicate CodeUnitLess(a: string, b: string)
  {
    b != "" &&
    (a == "" ||
     if a[0] != b[0] then Utf16Rank(a[0]) < Utf16Rank(b[0]) else CodeUnitLess(a[1..], b[1..]))
  }

  /** An array index in the sense of ECMAScript: a canonical decimal numeral
      below 2^32 - 1. Such keys are enumerated first, in numeric order. */
  predicate ArrayIndex(k: string)
  {
    && k != ""
    && (forall i :: 0 <= i < |k| ==> '0' <= k[i] <= '9')
    && (k[0] == '0' ==> |k| == 1)
    && (|k| < 10 || (|k| == 10 && !CodeUnitLess("4294967294", k)))
  }

  /** The order in which JavaScript enumerates own keys that were added in
      ascending code unit order. On canonical numerals, numeric order is: shorter
      first, then by code units. */
  predicate KeyLess(a: string, b: string)
  {
    if ArrayIndex(a) != ArrayIndex(b) then ArrayIndex(a)
    else if ArrayIndex(a) && |a| != |b| then |a| < |b|
    else CodeUnitLess(a, b)
  }

  lemma {:induction false} CodeUnitOrder(a: string, b: string, c: string)
    ensures !CodeUnitLess(a, a)
    ensures CodeUnitLess(a, b) ==> !CodeUnitLess(b, a)
    ensures CodeUnitLess(a, b) || CodeUnitLess(b, a) || a == b
    ensures CodeUnitLess(a, b) && CodeUnitLess(b, c) ==> CodeUnitLess(a, c)
  {
    if a != "" {
      CodeUnitOrder(a[1..], if b == "" then "" else b[1..], if c == "" then "" else c[1..]);
      if b != "" && a[0] == b[0] && a[1..] == b[1..] {
        assert a == [a[0]] + a[1..] && b == [b[0]] + b[1..];
      }
    }
  }

  lemma KeyOrder(a: string, b: string, c: string)
    ensures !KeyLess(a, a)
    ensures KeyLess(a, b) ==> !KeyLess(b, a)
    ensures KeyLess(a, b) || KeyLess(b, a) || a == b
    ensures KeyLess(a, b) && KeyLess(b, c) ==> KeyLess(a, c)
  {
    CodeUnitOrder(a, b, c);
  }

  // ----- the canonical form

  predicate Below(key: string, ms: seq<Member>)
  {
    forall m :: m in ms ==> KeyLess(key, m.key)
  }

  /** Every object lists its members in strictly ascending key order. */
  predicate Canonical(v: Json)
    decreases v, 0
  {
    match v
    case Arr(es) => CanonicalElems(es)
    case Obj(ms) => CanonicalMembers(ms)
    case _ => true
  }

  predicate CanonicalElems(es: seq<Json>)
    decreases es, 0
  {
    es != [] ==> Canonical(es[0]) && CanonicalElems(es[1..])
  }

  predicate CanonicalMembers(ms: seq<Member>)
    decreases ms, 0
  {
    ms != [] ==> Below(ms[0].key, ms[1..]) && Canonical(ms[0].value) && CanonicalMembers(ms[1..])
  }

  /** Puts a member at its place in the enumeration order. */
  function Insert(m: Member, ms: seq<Member>): seq<Member>
  {
    if ms == [] then [m]
    else if KeyLess(m.key, ms[0].key) then [m] + ms
    else [ms[0]] + Insert(m, ms[1..])
  }

  /** The value with all its objects recursively sorted. */
  function Sorted(v: Json): Json
    decreases v, 0
  {
    match v
    case Arr(es) => Arr(SortedElems(es))
    case Obj(ms) => Obj(SortedMembers(ms))
    case _ => v
  }

  function SortedElems(es: seq<Json>): (r: seq<Json>)
    ensures |r| == |es|
    decreases es, 0
  {
    if es == [] then [] else [Sorted(es[0])] + SortedElems(es[1..])
  }

  function SortedMembers(ms: seq<Member>): seq<Member>
    decreases ms, 0
  {
    if ms == [] then [] else Insert(Member(ms[0].key, Sorted(ms[0].value)), SortedMembers(ms[1..]))
  }

  function CanonicalText(v: Json): string
  {
    Print(Sorted(v))
  }

  // ----- sorting keeps the meaning and reaches the canonical form

  lemma {:induction false} InsertMembers(m: Member, ms: seq<Member>)
    ensures forall x :: x in Insert(m, ms) <==> x == m || x in ms
    ensures Keys(Insert(m, ms)) == Keys(ms) + {m.key}
  {
    if ms != [] && !KeyLess(m.key, ms[0].key) {
      InsertMembers(m, ms[1..]);
      assert forall x :: x in ms <==> x == ms[0] || x in ms[1..];
    }
    assert forall x :: x in Insert(m, ms) <==> x == m || x in ms;
    forall k | k in Keys(ms) + {m.key}
      ensures k in Keys(Insert(m, ms))
    {
      var x :| (x == m || x in ms) && x.key == k;
      assert x in Insert(m, ms);
    }
  }

  lemma {:induction false} InsertIsCanonical(m: Member, ms: seq<Member>)
    requires Canonical(m.value) && CanonicalMembers(ms) && m.key !in Keys(ms)
    ensures CanonicalMembers(Insert(m, ms))
  {
    if ms != [] {
      var r := Insert(m, ms);
      KeyOrder(m.key, ms[0].key, "");
      if KeyLess(m.key, ms[0].key) {
        assert r[1..] == ms;
        forall x | x in ms
          ensures KeyLess(m.key, x.key)
        {
          KeyOrder(m.key, ms[0].key, x.key);
          assert x == ms[0] || x in ms[1..];
        }
      } else {
        assert ms[0] in ms && m.key != ms[0].key;
        assert r[1..] == Insert(m, ms[1..]);
        InsertIsCanonical(m, ms[1..]);
        InsertMembers(m, ms[1..]);
      }
    }
  }

  lemma {:induction false} InsertIsPlain(m: Member, ms: seq<Member>)
    requires Plain(m.value) && m.key != "__proto__" && PlainMembers(ms) && m.key !in Keys(ms)
    ensures PlainMembers(Insert(m, ms))
  {
    if ms != [] {
      assert ms[0] in ms && m.key != ms[0].key;
      if KeyLess(m.key, ms[0].key) {
        assert Insert(m, ms)[1..] == ms;
      } else {
        assert Insert(m, ms)[1..] == Insert(m, ms[1..]);
        InsertIsPlain(m, ms[1..]);
        InsertMembers(m, ms[1..]);
      }
    }
  }

  lemma {:induction false} InsertMeaning(m: Member, ms: seq<Member>)
    requires m.key !in Keys(ms)
    ensures MeaningOfMembers(Insert(m, ms)) == MeaningOfMembers(ms)[m.key := Meaning(m.value)]
  {
    if ms != [] {
      assert ms[0] in ms && m.key != ms[0].key;
      if KeyLess(m.key, ms[0].key) {
        assert Insert(m, ms)[1..] == ms;
      } else {
        assert Insert(m, ms)[1..] == Insert(m, ms[1..]);
        InsertMeaning(m, ms[1..]);
      }
    }
  }

  lemma {:induction false} SortedIsCanonical(v: Json)
    requires Plain(v)
    ensures Canonical(Sorted(v)) && Plain(Sorted(v)) && Meaning(Sorted(v)) == Meaning(v)
    decreases v, 0
  {
    match v
    case Arr(es) => SortedElemsAreCanonical(es);
    case Obj(ms) => SortedMembersAreCanonical(ms);
    case _ =>
  }

  lemma {:induction false} SortedElemsAreCanonical(es: seq<Json>)
    requires PlainElems(es)
    ensures CanonicalElems(SortedElems(es)) && PlainElems(SortedElems(es))
    ensures MeaningOfElems(SortedElems(es)) == MeaningOfElems(es)
    decreases es, 0
  {
    if es != [] {
      SortedIsCanonical(es[0]);
      SortedElemsAreCanonical(es[1..]);
      assert SortedElems(es)[1..] == SortedElems(es[1..]);
    }
  }

  lemma {:induction false} SortedMembersAreCanonical(ms: seq<Member>)
    requires PlainMembers(ms)
    ensures CanonicalMembers(SortedMembers(ms)) && PlainMembers(SortedMembers(ms))
    ensures MeaningOfMembers(SortedMembers(ms)) == MeaningOfMembers(ms)
    decreases ms, 0
  {
    if ms != [] {
      SortedIsCanonical(ms[0].value);
      SortedMembersAreCanonical(ms[1..]);
      assert Keys(SortedMembers(ms[1..])) == Keys(ms[1..]);
      var m := Member(ms[0].key, Sorted(ms[0].value));
      InsertIsCanonical(m, SortedMembers(ms[1..]));
      InsertIsPlain(m, SortedMembers(ms[1..]));
      InsertMeaning(m, SortedMembers(ms[1..]));
    }
  }

  // ----- the canonical form is unique

  lemma {:induction false} CanonicalUnique(a: Json, b: Json)
    requires Canonical(a) && Canonical(b) && Meaning(a) == Meaning(b)
    ensures a == b
    decreases a, 0
  {
    match a
    case Arr(es) => CanonicalElemsUnique(es, b.elems);
    case Obj(ms) => CanonicalMembersUnique(ms, b.members);
    case _ =>
  }

  lemma {:induction false} CanonicalElemsUnique(es: seq<Json>, fs: seq<Json>)
    requires CanonicalElems(es) && CanonicalElems(fs) && MeaningOfElems(es) == MeaningOfElems(fs)
    ensures es == fs
    decreases es, 0
  {
    if es != [] {
      assert MeaningOfElems(es)[0] == MeaningOfElems(fs)[0];
      assert MeaningOfElems(es)[1..] == MeaningOfElems(fs)[1..];
      CanonicalUnique(es[0], fs[0]);
      CanonicalElemsUnique(es[1..], fs[1..]);
      assert es == [es[0]] + es[1..] && fs == [fs[0]] + fs[1..];
    }
  }

  /** The first key of a sorted object is its least key. */
  lemma FirstKeyLeast(ms: seq<Member>, key: string)
    requires CanonicalMembers(ms) && ms != [] && key in Keys(ms)
    ensures key == ms[0].key || KeyLess(ms[0].key, key)
    ensures ms[0].key !in Keys(ms[1..])
  {
    var m :| m in ms && m.key == key;
    assert m == ms[0] || m in ms[1..];
    KeyOrder(ms[0].key, key, key);
  }

  /** Sorted objects with equal meanings start with the same key, mapped to the
      same meaning, and go on with equal meanings. */
  lemma SameFirstMember(ms: seq<Member>, ns: seq<Member>)
    requires CanonicalMembers(ms) && CanonicalMembers(ns) && MeaningOfMembers(ms) == MeaningOfMembers(ns)
    requires ms != []
    ensures ns != [] && ms[0].key == ns[0].key && Meaning(ms[0].value) == Meaning(ns[0].value)
    ensures MeaningOfMembers(ms[1..]) == MeaningOfMembers(ns[1..])
  {
    var j := ms[0].key;
    assert Keys(ms) == MeaningOfMembers(ms).Keys == Keys(ns);
    assert ms[0] in ms && j in Keys(ns);
    var k := ns[0].key;
    assert ns[0] in ns && k in Keys(ms);
    FirstKeyLeast(ms, k);
    FirstKeyLeast(ns, j);
    KeyOrder(j, k, j);
    FirstKeyLeast(ns, k);
    var f, g := MeaningOfMembers(ms[1..]), MeaningOfMembers(ns[1..]);
    assert MeaningOfMembers(ms) == f[j := Meaning(ms[0].value)];
    assert MeaningOfMembers(ns) == g[j := Meaning(ns[0].value)];
    assert j !in f && j !in g;
    WithoutKey(f, g, j, Meaning(ms[0].value), Meaning(ns[0].value));
  }

  lemma WithoutKey<K, V>(f: map<K, V>, g: map<K, V>, k: K, v: V, w: V)
    requires k !in f && k !in g && f[k := v] == g[k := w]
    ensures f == g && v == w
  {
    assert f[k := v][k] == v && g[k := w][k] == w;
    assert f == f[k := v] - {k} && g == g[k := w] - {k};
  }

  lemma {:induction false} CanonicalMembersUnique(ms: seq<Member>, ns: seq<Member>)
    requires CanonicalMembers(ms) && CanonicalMembers(ns) && MeaningOfMembers(ms) == MeaningOfMembers(ns)
    ensures ms == ns
    decreases ms, 0
  {
    if ms == [] {
      if ns != [] { SameFirstMember(ns, ms); }
    } else {
      SameFirstMember(ms, ns);
      CanonicalUnique(ms[0].value, ns[0].value);
      CanonicalMembersUnique(ms[1..], ns[1..]);
      assert ms == [ms[0]] + ms[1..] && ns == [ns[0]] + ns[1..];
    }
  }

  // ----- main results

  /** Canonical JSON is a true canonical form. */
  lemma CanonicalTextIffSameMeaning(a: Json, b: Json)
    requires Plain(a) && Plain(b)
    ensures CanonicalText(a) == CanonicalText(b) <==> Meaning(a) == Meaning(b)
  {
    SortedIsCanonical(a);
    SortedIsCanonical(b);
    if CanonicalText(a) == CanonicalText(b) {
      JsonReader.PrintInjective(Sorted(a), Sorted(b));
    }
    if Meaning(a) == Meaning(b) {
      CanonicalUnique(Sorted(a), Sorted(b));
    }
  }

  /** Records of one shape have the same canonical text exactly when their fields
      mean the same. */
  lemma RecordTextIffSameFields(ms: seq<Member>, ns: seq<Member>)
    requires PlainMembers(ms) && PlainMembers(ns) && SameShape(ms, ns)
    ensures CanonicalText(Obj(ms)) == CanonicalText(Obj(ns)) <==> SameFields(ms, ns)
  {
    CanonicalTextIffSameMeaning(Obj(ms), Obj(ns));
    RecordMeaning(ms, ns);
  }

  /** Canonical JSON is JSON of the value: parsing it gives a value of the same meaning. */
  lemma CanonicalTextParses(v: Json)
    requires Plain(v)
    ensures var r := JsonReader.Parse(CanonicalText(v)); r.Some? && Meaning(r.value) == Meaning(v)
  {
    hide Sorted, Print, JsonReader.Parse;
    SortedIsCanonical(v);
    JsonReader.ParsePrint(Sorted(v));
  }

  lemma SortedIdempotent(v: Json)
    requires Plain(v)
    ensures Sorted(Sorted(v)) == Sorted(v)
  {
    SortedIsCanonical(v);
    SortedIsCanonical(Sorted(v));
    CanonicalUnique(Sorted(Sorted(v)), Sorted(v));
  }

  // ----- the loop of `sortDeep`

  predicate Ascending(keys: seq<string>)
  {
    forall i, j :: 0 <= i < j < |keys| ==> CodeUnitLess(keys[i], keys[j])
  }

  function KeySet(keys: seq<string>): set<string>
  {
    set k | k in keys
  }

  function InsertKey(k: string, keys: seq<string>): (r: seq<string>)
    ensures forall x :: x in r <==> x == k || x in keys
  {
    if keys == [] then [k]
    else if CodeUnitLess(k, keys[0]) then [k] + keys
    else
      assert forall x :: x in keys <==> x == keys[0] || x in keys[1..];
      [keys[0]] + InsertKey(k, keys[1..])
  }

  /** `Object.keys(obj).sort()` */
  function SortedKeys(ms: seq<Member>): (keys: seq<string>)
    ensures KeySet(keys) == Keys(ms)
  {
    if ms == [] then [] else
      assert forall x :: x in ms <==> x == ms[0] || x in ms[1..];
      assert Keys(ms) == Keys(ms[1..]) + {ms[0].key};
      InsertKey(ms[0].key, SortedKeys(ms[1..]))
  }

  lemma {:induction false} InsertKeyAscending(k: string, keys: seq<string>)
    requires Ascending(keys) && k !in keys
    ensures Ascending(InsertKey(k, keys))
  {
    if keys != [] {
      var r := InsertKey(k, keys);
      CodeUnitOrder(k, keys[0], "");
      if CodeUnitLess(k, keys[0]) {
        forall j | 0 < j < |keys|
          ensures CodeUnitLess(k, keys[j])
        {
          CodeUnitOrder(k, keys[0], keys[j]);
        }
      } else {
        var t := InsertKey(k, keys[1..]);
        InsertKeyAscending(k, keys[1..]);
        forall j | 0 <= j < |t|
          ensures CodeUnitLess(keys[0], t[j])
        {
          assert t[j] in KeySet(t);
          assert t[j] == k || t[j] in keys[1..];
        }
      }
    }
  }

  lemma {:induction false} SortedKeysAscending(ms: seq<Member>)
    requires PlainMembers(ms)
    ensures Ascending(SortedKeys(ms))
  {
    if ms != [] {
      SortedKeysAscending(ms[1..]);
      assert ms[0].key !in KeySet(SortedKeys(ms[1..]));
      InsertKeyAscending(ms[0].key, SortedKeys(ms[1..]));
    }
  }

  function FindKey(ms: seq<Member>, k: string): (i: nat)
    requires k in Keys(ms)
    ensures i < |ms| && ms[i].key == k
  {
    if ms[0].key == k then 0 else
      assert forall x :: x in ms <==> x == ms[0] || x in ms[1..];
      1 + FindKey(ms[1..], k)
  }

  lemma {:induction false} PlainAt(ms: seq<Member>, i: nat)
    requires PlainMembers(ms) && i < |ms|
    ensures Plain(ms[i].value) && ms[i].key != "__proto__"
    ensures ms[i].key in MeaningOfMembers(ms) && MeaningOfMembers(ms)[ms[i].key] == Meaning(ms[i].value)
  {
    if i > 0 {
      PlainAt(ms[1..], i - 1);
      assert ms[1..][i - 1] == ms[i] && ms[i] in ms[1..];
    }
  }

  lemma {:induction false} PlainElemAt(es: seq<Json>, i: nat)
    requires PlainElems(es) && i < |es|
    ensures Plain(es[i]) && SortedElems(es)[i] == Sorted(es[i])
  {
    if i > 0 { PlainElemAt(es[1..], i - 1); }
  }

  /** `obj[key] = value` for a new key: an array index takes its numeric place
      among the array indices in front, any other key goes to the end. */
  function Put(ms: seq<Member>, m: Member): seq<Member>
  {
    if ArrayIndex(m.key) then Insert(m, ms) else ms + [m]
  }

  lemma {:induction false} PutIsInsert(ms: seq<Member>, m: Member)
    requires forall x :: x in ms ==> CodeUnitLess(x.key, m.key)
    ensures Put(ms, m) == Insert(m, ms)
  {
    if !ArrayIndex(m.key) && ms != [] {
      assert ms[0] in ms;
      CodeUnitOrder(ms[0].key, m.key, "");
      PutIsInsert(ms[1..], m);
      assert ms + [m] == [ms[0]] + (ms[1..] + [m]);
    }
  }

  ghost function Restrict<K, V>(f: map<K, V>, ks: seq<K>): map<K, V>
  {
    map k | k in f && k in ks :: f[k]
  }

  method SortDeep(v: Json) returns (r: Json)
    requires Plain(v)
    ensures r == Sorted(v)
    decreases v
  {
    match v
    case Arr(es) =>
      var out: seq<Json> := [];
      for i := 0 to |es|
        invariant |out| == i && forall j :: 0 <= j < i ==> out[j] == SortedElems(es)[j]
      {
        PlainElemAt(es, i);
        var x := SortDeep(es[i]);
        out := out + [x];
      }
      assert out == SortedElems(es);
      r := Arr(out);
    case Obj(ms) =>
      var sorted := SortMembersDeep(ms);
      r := Obj(sorted);
    case _ =>
      r := v;
  }

  /** What the object built so far holds: the keys up to `i`, with the meanings
      they have in the source object, in canonical order. */
  ghost predicate SortedUpTo(ms: seq<Member>, keys: seq<string>, i: nat, sorted: seq<Member>)
    requires i <= |keys|
  {
    && Keys(sorted) == KeySet(keys[..i])
    && CanonicalMembers(sorted)
    && MeaningOfMembers(sorted) == Restrict(MeaningOfMembers(ms), keys[..i])
  }

  lemma LastKey(keys: seq<string>, i: nat, sorted: seq<Member>)
    requires Ascending(keys) && i < |keys| && Keys(sorted) == KeySet(keys[..i])
    ensures forall y :: y in sorted ==> CodeUnitLess(y.key, keys[i])
    ensures keys[i] !in Keys(sorted)
    ensures KeySet(keys[..i + 1]) == KeySet(keys[..i]) + {keys[i]}
  {
    forall y | y in sorted
      ensures CodeUnitLess(y.key, keys[i])
    {
      assert y.key in KeySet(keys[..i]);
    }
    CodeUnitOrder(keys[i], keys[i], keys[i]);
    assert keys[..i + 1] == keys[..i] + [keys[i]];
  }

  lemma RestrictStep<K, V>(f: map<K, V>, ks: seq<K>, i: nat)
    requires i < |ks| && ks[i] in f
    ensures Restrict(f, ks[..i + 1]) == Restrict(f, ks[..i])[ks[i] := f[ks[i]]]
  {
    assert ks[..i + 1] == ks[..i] + [ks[i]];
  }

  lemma PutStep(ms: seq<Member>, keys: seq<string>, i: nat, sorted: seq<Member>, m: Member)
    requires Ascending(keys) && i < |keys| && SortedUpTo(ms, keys, i, sorted)
    requires m.key == keys[i] && Canonical(m.value)
    requires m.key in MeaningOfMembers(ms) && MeaningOfMembers(ms)[m.key] == Meaning(m.value)
    ensures SortedUpTo(ms, keys, i + 1, Put(sorted, m))
  {
    LastKey(keys, i, sorted);
    PutIsInsert(sorted, m);
    InsertMembers(m, sorted);
    InsertIsCanonical(m, sorted);
    InsertMeaning(m, sorted);
    RestrictStep(MeaningOfMembers(ms), keys, i);
  }

  lemma SortedUpToEnd(ms: seq<Member>, keys: seq<string>, sorted: seq<Member>)
    requires PlainMembers(ms) && KeySet(keys) == Keys(ms) && SortedUpTo(ms, keys, |keys|, sorted)
    ensures sorted == SortedMembers(ms)
  {
    assert keys[..|keys|] == keys;
    assert forall k :: k in MeaningOfMembers(ms) ==> k in KeySet(keys);
    assert Restrict(MeaningOfMembers(ms), keys) == MeaningOfMembers(ms);
    SortedMembersAreCanonical(ms);
    CanonicalMembersUnique(sorted, SortedMembers(ms));
  }

  method SortMembersDeep(ms: seq<Member>) returns (sorted: seq<Member>)
    requires PlainMembers(ms)
    ensures sorted == SortedMembers(ms)
    decreases ms
  {
    var keys := SortedKeys(ms);
    SortedKeysAscending(ms);
    sorted := [];
    for i := 0 to |keys|
      invariant SortedUpTo(ms, keys, i, sorted)
    {
      assert keys[i] in KeySet(keys);
      var j := FindKey(ms, keys[i]);
      PlainAt(ms, j);
      var x := SortDeep(ms[j].value);
      SortedIsCanonical(ms[j].value);
      PutStep(ms, keys, i, sorted, Member(keys[i], x));
      sorted := Put(sorted, Member(keys[i], x));
    }
    SortedUpToEnd(ms, keys, sorted);
  }
}
