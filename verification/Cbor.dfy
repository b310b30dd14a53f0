/** CBOR data items as trees, ordered text-keyed maps, and the checks made before a message is decoded. */
module Cbor {
  import opened Bytes
  import opened Results

  datatype Entry = Entry(key: Value, value: Value)

  datatype Value =
    | Integer(i: int)
    | Text(text: string)
    | Bytes(bytes: seq<Byte>)
    | Bool(b: bool)
    | Array(items: seq<Value>)
    | Map(entries: seq<Entry>)
    | Tag(number: nat, inner: Value)
    | Simple

  datatype CodecError =
    | CborDecode
    | NotAMap
    | NonStringKey
    | NestingTooDeep(depth: nat)
    | TagNotAllowed
    | MissingField(field: string)
    | WrongType(field: string, expected: string)
    | UnknownMessageType(code: U64)
    | ManifestTooLarge(count: nat)
    | EncodedTooLarge

  const MAX_CBOR_NESTING: nat := 6

  // ----- Ordered maps -----

  /** Lexicographic order of text, by code point. */
  predicate Less(a: string, b: string) {
    b != [] && (a == [] || a[0] < b[0] || (a[0] == b[0] && Less(a[1..], b[1..])))
  }

  lemma {:induction false} LessTransitive(a: string, b: string, c: string)
    requires Less(a, b) && Less(b, c)
    ensures Less(a, c)
  {
    if a != [] && a[0] == b[0] == c[0] {
      LessTransitive(a[1..], b[1..], c[1..]);
    }
  }

  lemma {:induction false} LessTrichotomy(a: string, b: string)
    ensures Less(a, b) || a == b || Less(b, a)
    ensures !(Less(a, b) && Less(b, a)) && !Less(a, a)
  {
    if a != [] && b != [] {
      if a[0] == b[0] {
        LessTrichotomy(a[1..], b[1..]);
        assert a == [a[0]] + a[1..] && b == [b[0]] + b[1..];
      }
      LessTrichotomy(a[1..], a[1..]);
    } else if a != [] {
      LessTrichotomy(a[1..], a[1..]);
    }
  }

  datatype Field = Field(key: string, value: Value)

  predicate AllAbove(k: string, t: seq<Field>) {
    forall f <- t :: Less(k, f.key)
  }

  /** Keys in strictly increasing order. */
  predicate Sorted(t: seq<Field>) {
    t != [] ==> AllAbove(t[0].key, t[1..]) && Sorted(t[1..])
  }

  /** A text-keyed map that is iterated in the order of its keys. */
  type Tree = t: seq<Field> | Sorted(t) witness []

  function Contents(t: seq<Field>): map<string, Value> {
    if t == [] then map[] else map[t[0].key := t[0].value] + Contents(t[1..])
  }

  /** Adds or replaces an entry. */
  function Put(t: seq<Field>, k: string, v: Value): seq<Field> {
    if t == [] then [Field(k, v)]
    else if k == t[0].key then [Field(k, v)] + t[1..]
    else if Less(k, t[0].key) then [Field(k, v)] + t
    else [t[0]] + Put(t[1..], k, v)
  }

  lemma {:induction false} KeysAbove(k: string, t: seq<Field>)
    requires AllAbove(k, t)
    ensures k !in Contents(t)
  {
    if t != [] {
      LessTrichotomy(k, t[0].key);
      assert t[0] in t;
      assert forall f <- t[1..] :: f in t;
      KeysAbove(k, t[1..]);
    }
  }

  lemma {:induction false} PutAbove(low: string, t: seq<Field>, k: string, v: Value)
    requires AllAbove(low, t) && Less(low, k)
    ensures AllAbove(low, Put(t, k, v))
  {
    if t != [] {
      assert forall f <- t[1..] :: f in t;
      PutAbove(low, t[1..], k, v);
    }
  }

  lemma ConsOrder(f: Field, t: seq<Field>, u: seq<Field>)
    requires Sorted(t) && AllAbove(f.key, t) && u == [f] + t
    ensures Sorted(u) && Contents(u) == Contents(t)[f.key := f.value]
  {
    assert u[1..] == t;
    KeysAbove(f.key, t);
  }

  lemma AboveAll(k: string, t: seq<Field>)
    requires Sorted(t) && t != [] && Less(k, t[0].key)
    ensures AllAbove(k, t)
  {
    forall f <- t ensures Less(k, f.key) {
      if f != t[0] {
        assert f in t[1..];
        LessTransitive(k, t[0].key, f.key);
      }
    }
  }

  lemma SwapUpdates(m: map<string, Value>, a: Field, b: Field)
    requires a.key != b.key
    ensures m[a.key := a.value][b.key := b.value] == m[b.key := b.value][a.key := a.value]
  {
  }

  lemma PutInTail(head: Field, tail: seq<Field>, t: seq<Field>, k: string, v: Value)
    requires Sorted(t) && t != [] && head == t[0] && tail == t[1..] && (k == head.key || Less(head.key, k))
    requires Sorted(Put(tail, k, v)) && Contents(Put(tail, k, v)) == Contents(tail)[k := v]
    ensures Sorted(Put(t, k, v)) && Contents(Put(t, k, v)) == Contents(t)[k := v]
  {
    assert t == [head] + tail;
    ConsOrder(head, tail, t);
    LessTrichotomy(k, head.key);
    if k == head.key {
      ConsOrder(Field(k, v), tail, [Field(k, v)] + tail);
    } else {
      PutAbove(head.key, tail, k, v);
      SwapUpdates(Contents(tail), head, Field(k, v));
      ConsOrder(head, Put(tail, k, v), [head] + Put(tail, k, v));
    }
  }

  lemma {:induction false} PutKeepsOrder(t: seq<Field>, k: string, v: Value)
    requires Sorted(t)
    ensures Sorted(Put(t, k, v)) && Contents(Put(t, k, v)) == Contents(t)[k := v]
  {
    if t == [] {
      ConsOrder(Field(k, v), t, [Field(k, v)]);
    } else {
      LessTrichotomy(k, t[0].key);
      if Less(k, t[0].key) {
        AboveAll(k, t);
        ConsOrder(Field(k, v), t, [Field(k, v)] + t);
      } else {
        PutKeepsOrder(t[1..], k, v);
        PutInTail(t[0], t[1..], t, k, v);
      }
    }
  }

  /** Inserting keeps the keys in strictly increasing order and changes nothing else. */
  function Insert(t: Tree, k: string, v: Value): (r: Tree)
    ensures Contents(r) == Contents(t)[k := v]
  {
    PutKeepsOrder(t, k, v);
    Put(t, k, v)
  }

  lemma EmptyContents(t: seq<Field>)
    ensures t == [] <==> Contents(t) == map[]
  {
    if t != [] {
      assert t[0].key in Contents(t);
    }
  }

  lemma {:induction false} KeyIsListed(t: seq<Field>, k: string)
    requires k in Contents(t)
    ensures exists f <- t :: f.key == k
  {
    if k == t[0].key {
      assert t[0] in t;
    } else {
      KeyIsListed(t[1..], k);
      var f :| f in t[1..] && f.key == k;
      assert f in t;
    }
  }

  lemma {:induction false} SmallestKey(t: Tree, k: string)
    requires k in Contents(t)
    ensures t != [] && (k == t[0].key || Less(t[0].key, k))
  {
    if k != t[0].key {
      KeyIsListed(t[1..], k);
    }
  }

  /** Two ordered maps with the same contents are the same list: the form is canonical. */
  lemma {:induction false} OrderIsCanonical(t: Tree, u: Tree)
    requires Contents(t) == Contents(u)
    ensures t == u
  {
    EmptyContents(t);
    EmptyContents(u);
    if t != [] && u != [] {
      SmallestKey(t, u[0].key);
      SmallestKey(u, t[0].key);
      assert t[0].key in Contents(u) && u[0].key in Contents(t);
      LessTrichotomy(t[0].key, u[0].key);
      KeysAbove(t[0].key, t[1..]);
      KeysAbove(u[0].key, u[1..]);
      assert Contents(t[1..]) == Contents(t) - {t[0].key};
      assert Contents(u[1..]) == Contents(u) - {u[0].key};
      assert Contents(t)[t[0].key] == t[0].value && Contents(u)[u[0].key] == u[0].value;
      OrderIsCanonical(t[1..], u[1..]);
      assert t == [t[0]] + t[1..] && u == [u[0]] + u[1..];
    }
  }

  /** A list of fields as entries of a map item. */
  function ToEntries(t: seq<Field>): (es: seq<Entry>)
    ensures |es| == |t|
  {
    seq(|t|, i requires 0 <= i < |t| => Entry(Text(t[i].key), t[i].value))
  }

  /** The fields of a map in the order of their keys; which of them is inserted first makes no difference. */
  ghost function InOrder(m: map<string, Value>): (t: Tree)
    ensures Contents(t) == m
    decreases |m|
  {
    if m == map[] then []
    else
      var k :| k in m;
      assert m == (m - {k})[k := m[k]] && |m - {k}| < |m|;
      Insert(InOrder(m - {k}), k, m[k])
  }

  /** The map as a data item. */
  ghost function ToValue(m: map<string, Value>): Value {
    Map(ToEntries(InOrder(m)))
  }

  /** The contents of a map item, if all its keys are text; of repeated keys the last one counts. */
  function ReadEntries(es: seq<Entry>): Result<map<string, Value>, CodecError> {
    if es == [] then Ok(map[])
    else if !es[0].key.Text? then Err(NonStringKey)
    else
      var rest :- ReadEntries(es[1..]);
      Ok(map[es[0].key.text := es[0].value] + rest)
  }

  function ReadMap(v: Value): Result<map<string, Value>, CodecError> {
    if v.Map? then ReadEntries(v.entries) else Err(NotAMap)
  }

  lemma {:induction false} EntriesReadBack(t: seq<Field>)
    ensures ReadEntries(ToEntries(t)) == Ok(Contents(t))
  {
    if t != [] {
      assert ToEntries(t)[1..] == ToEntries(t[1..]);
      EntriesReadBack(t[1..]);
    }
  }

  lemma MapReadsBack(m: map<string, Value>)
    ensures ReadMap(ToValue(m)) == Ok(m)
  {
    EntriesReadBack(InOrder(m));
  }

  function Merge(m: map<string, Value>, r: Result<map<string, Value>, CodecError>): Result<map<string, Value>, CodecError> {
    match r
    case Ok(rest) => Ok(m + rest)
    case Err(e) => Err(e)
  }

  lemma MergeStep(m: map<string, Value>, k: string, v: Value, r: Result<map<string, Value>, CodecError>)
    ensures Merge(m, Merge(map[k := v], r)) == Merge(m[k := v], r)
  {
    if r.Ok? {
      assert m + (map[k := v] + r.value) == m[k := v] + r.value;
    }
  }

  /** The loop that fills the map, entry by entry. */
  method CollectEntries(es: seq<Entry>) returns (r: Result<map<string, Value>, CodecError>)
    ensures r == ReadEntries(es)
  {
    var m: map<string, Value> := map[];
    var i := 0;
    assert es[0..] == es;
    assert ReadEntries(es).Ok? ==> m + ReadEntries(es).value == ReadEntries(es).value;
    while i < |es|
      invariant i <= |es|
      invariant ReadEntries(es) == Merge(m, ReadEntries(es[i..]))
    {
      if !es[i].key.Text? {
        return Err(NonStringKey);
      }
      MergeStep(m, es[i].key.text, es[i].value, ReadEntries(es[i + 1..]));
      assert es[i..][1..] == es[i + 1..];
      m := m[es[i].key.text := es[i].value];
      i := i + 1;
    }
    assert es[i..] == [] && m + map[] == m;
    return Ok(m);
  }

  // ----- Nesting -----

  /** How many levels are left below `depth`. */
  function LevelsLeft(depth: nat): nat {
    if depth > MAX_CBOR_NESTING then 0 else MAX_CBOR_NESTING + 1 - depth
  }

  function CheckItems(items: seq<Value>, depth: nat): Result<(), CodecError>
    decreases LevelsLeft(depth), 1, |items|
  {
    if items == [] then Ok(())
    else
      var _ :- CheckNesting(items[0], depth);
      CheckItems(items[1..], depth)
  }

  function CheckEntries(entries: seq<Entry>, depth: nat): Result<(), CodecError>
    decreases LevelsLeft(depth), 1, |entries|
  {
    if entries == [] then Ok(())
    else
      var _ :- CheckNesting(entries[0].key, depth);
      var _ :- CheckNesting(entries[0].value, depth);
      CheckEntries(entries[1..], depth)
  }

  /** Nesting within the limit and no tags; reports the first violation met from left to right. */
  function CheckNesting(v: Value, depth: nat): Result<(), CodecError>
    decreases LevelsLeft(depth), 0, 0
  {
    if depth > MAX_CBOR_NESTING then Err(NestingTooDeep(depth))
    else
      match v
      case Map(entries) => CheckEntries(entries, depth + 1)
      case Array(items) => CheckItems(items, depth + 1)
      case Tag(_, _) => Err(TagNotAllowed)
      case _ => Ok(())
  }

  /** No tags, and nothing lies more than `levels` levels below the item. */
  predicate Within(v: Value, levels: nat)
    decreases levels
  {
    match v
    case Map(entries) =>
      entries == []
      || (levels > 0 && forall e <- entries :: Within(e.key, levels - 1) && Within(e.value, levels - 1))
    case Array(items) => items == [] || (levels > 0 && forall i <- items :: Within(i, levels - 1))
    case Tag(_, _) => false
    case _ => true
  }

  lemma {:induction false} ItemsCheckIsExact(items: seq<Value>, depth: nat)
    requires 0 < depth <= MAX_CBOR_NESTING + 1
    ensures CheckItems(items, depth).Ok?
       <==> items == [] || (depth <= MAX_CBOR_NESTING && forall i <- items :: Within(i, MAX_CBOR_NESTING - depth))
    decreases LevelsLeft(depth), 1, |items|
  {
    if items != [] && depth <= MAX_CBOR_NESTING {
      NestingCheckIsExact(items[0], depth);
      ItemsCheckIsExact(items[1..], depth);
      assert items == [items[0]] + items[1..] && items[0] in items;
      assert forall i <- items[1..] :: i in items;
    }
  }

  lemma {:induction false} EntriesCheckIsExact(entries: seq<Entry>, depth: nat)
    requires 0 < depth <= MAX_CBOR_NESTING + 1
    ensures CheckEntries(entries, depth).Ok?
       <==> entries == [] || (depth <= MAX_CBOR_NESTING
              && forall e <- entries :: Within(e.key, MAX_CBOR_NESTING - depth) && Within(e.value, MAX_CBOR_NESTING - depth))
    decreases LevelsLeft(depth), 1, |entries|
  {
    if entries != [] && depth <= MAX_CBOR_NESTING {
      NestingCheckIsExact(entries[0].key, depth);
      NestingCheckIsExact(entries[0].value, depth);
      EntriesCheckIsExact(entries[1..], depth);
      assert entries == [entries[0]] + entries[1..] && entries[0] in entries;
      assert forall e <- entries[1..] :: e in entries;
    }
  }

  /** The check accepts exactly the items that nest within the limit and carry no tags. */
  lemma {:induction false} NestingCheckIsExact(v: Value, depth: nat)
    requires depth <= MAX_CBOR_NESTING
    ensures CheckNesting(v, depth).Ok? <==> Within(v, MAX_CBOR_NESTING - depth)
    decreases LevelsLeft(depth), 0, 0
  {
    match v {
      case Map(entries) =>
        EntriesCheckIsExact(entries, depth + 1);
        assert CheckNesting(v, depth) == CheckEntries(entries, depth + 1);
      case Array(items) =>
        ItemsCheckIsExact(items, depth + 1);
        assert CheckNesting(v, depth) == CheckItems(items, depth + 1);
      case _ =>
    }
  }

  lemma {:induction false} FieldIsContained(t: Tree, f: Field)
    requires f in t
    ensures f.key in Contents(t) && Contents(t)[f.key] == f.value
  {
    if f == t[0] {
      KeysAbove(f.key, t[1..]);
    } else {
      FieldIsContained(t[1..], f);
    }
  }

  // ----- The form of what is written -----

  /** Text keys in strictly increasing order. */
  predicate KeysIncrease(entries: seq<Entry>) {
    && (forall e <- entries :: e.key.Text?)
    && (forall i, j :: 0 <= i < j < |entries| && entries[i].key.Text? && entries[j].key.Text?
          ==> Less(entries[i].key.text, entries[j].key.text))
  }

  /** No tags, at most `levels` levels, and in every map inside the item the keys are text and increase strictly. */
  predicate Regular(v: Value, levels: nat)
    decreases levels
  {
    match v
    case Map(entries) =>
      entries == [] || (levels > 0 && KeysIncrease(entries) && forall e <- entries :: Regular(e.value, levels - 1))
    case Array(items) => items == [] || (levels > 0 && forall i <- items :: Regular(i, levels - 1))
    case Tag(_, _) => false
    case _ => true
  }

  lemma {:induction false} RegularIsWithin(v: Value, levels: nat)
    requires Regular(v, levels)
    ensures Within(v, levels)
    decreases levels
  {
    match v {
      case Map(entries) =>
        forall e <- entries ensures Within(e.key, levels - 1) && Within(e.value, levels - 1) {
          RegularIsWithin(e.value, levels - 1);
        }
      case Array(items) =>
        forall i <- items ensures Within(i, levels - 1) {
          RegularIsWithin(i, levels - 1);
        }
      case _ =>
    }
  }

  predicate AllRegular(m: map<string, Value>, levels: nat) {
    forall k <- m :: Regular(m[k], levels)
  }

  lemma {:induction false} SortedPairs(t: Tree, i: nat, j: nat)
    requires i < j < |t|
    ensures Less(t[i].key, t[j].key)
  {
    if i == 0 {
      assert t[j] == t[1..][j - 1];
    } else {
      SortedPairs(t[1..], i - 1, j - 1);
    }
  }

  /** A map item is regular when its values are, one level below. */
  lemma MapIsRegular(m: map<string, Value>, levels: nat)
    requires AllRegular(m, levels)
    ensures Regular(ToValue(m), levels + 1)
  {
    var t := InOrder(m);
    var es := ToEntries(t);
    forall i, j | 0 <= i < j < |es| ensures Less(es[i].key.text, es[j].key.text) {
      SortedPairs(t, i, j);
    }
    forall i | 0 <= i < |es| ensures Regular(es[i].value, levels) {
      FieldIsContained(t, t[i]);
    }
  }

  lemma ValuesNestOneLess(m: map<string, Value>, k: string, levels: nat)
    requires k in m && Within(ToValue(m), levels)
    ensures levels > 0 && Within(m[k], levels - 1)
  {
    var t := InOrder(m);
    KeyIsListed(t, k);
    var f :| f in t && f.key == k;
    FieldIsContained(t, f);
    var i :| 0 <= i < |t| && t[i] == f;
    assert ToEntries(t)[i] in ToEntries(t);
  }

  /** An item of an array in the map that nests too deeply makes the map do so. */
  lemma ArrayNestsDeeper(m: map<string, Value>, k: string, items: seq<Value>, i: nat, levels: nat)
    requires levels >= 2 && k in m && m[k] == Array(items) && i < |items| && !Within(items[i], levels - 2)
    ensures !Within(ToValue(m), levels)
  {
    assert items[i] in items;
    if Within(ToValue(m), levels) {
      ValuesNestOneLess(m, k, levels);
    }
  }
}
