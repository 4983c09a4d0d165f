/** Parsed JSON, and writing it with every object's keys in order. */
module Json {
  import opened Names

  /** An object holds its fields in the order they were written. */
  datatype Value = Leaf(text: string) | Array(items: seq<Value>) | Object(fields: seq<Field>)

  datatype Field = Field(key: string, value: Value)

  function Keys(fields: seq<Field>): set<string> {
    set f | f in fields :: f.key
  }

  /** Where a key's field stands. */
  function FieldAt(fields: seq<Field>, key: string): (i: nat)
    requires key in Keys(fields)
    ensures i < |fields| && fields[i].key == key
  {
    if fields[0].key == key then 0
    else
      assert fields == [fields[0]] + fields[1..];
      FieldAt(fields[1..], key) + 1
  }

  ghost function SortKeysDeep(value: Value): Value
    decreases value
  {
    match value
    case Leaf(_) => value
    case Array(items) => Array(seq(|items|, i requires 0 <= i < |items| => SortKeysDeep(items[i])))
    case Object(fields) =>
      var keys := Sorted(Keys(fields));
      Object(seq(|keys|, i requires 0 <= i < |keys| =>
        assert keys[i] in keys;
        var at := FieldAt(fields, keys[i]);
        Field(keys[i], SortKeysDeep(fields[at].value))))
  }

  /** The same data: equal up to the order of keys, at every depth. */
  ghost predicate Same(a: Value, b: Value)
    decreases a
  {
    match a
    case Leaf(_) => a == b
    case Array(items) =>
      b.Array? && |b.items| == |items| && forall i :: 0 <= i < |items| ==> Same(items[i], b.items[i])
    case Object(fields) =>
      && b.Object? && Keys(b.fields) == Keys(fields)
      && forall key :: key in Keys(fields) ==>
           Same(fields[FieldAt(fields, key)].value, b.fields[FieldAt(b.fields, key)].value)
  }

  /** The written form is the same exactly when the data is. */
  lemma {:induction false} SortedFormIsCanonical(a: Value, b: Value)
    ensures SortKeysDeep(a) == SortKeysDeep(b) <==> Same(a, b)
    decreases a
  {
    match a
    case Leaf(_) =>
    case Array(items) =>
      if b.Array? && |b.items| == |items| {
        forall i | 0 <= i < |items|
          ensures SortKeysDeep(items[i]) == SortKeysDeep(b.items[i]) <==> Same(items[i], b.items[i])
        {
          SortedFormIsCanonical(items[i], b.items[i]);
        }
        ArraysEqual(items, b.items);
      } else {
        ArrayLength(items);
        if b.Array? {
          ArrayLength(b.items);
        }
      }
    case Object(fields) =>
      if b.Object? {
        if Keys(b.fields) == Keys(fields) {
          forall key | key in Keys(fields)
            ensures var x, y := fields[FieldAt(fields, key)].value, b.fields[FieldAt(b.fields, key)].value;
                    SortKeysDeep(x) == SortKeysDeep(y) <==> Same(x, y)
          {
            SortedFormIsCanonical(fields[FieldAt(fields, key)].value, b.fields[FieldAt(b.fields, key)].value);
          }
          ObjectsEqual(fields, b.fields);
        } else {
          ObjectKeys(fields);
          ObjectKeys(b.fields);
        }
      }
  }

  /** Sorting the keys keeps the data. */
  lemma {:induction false} SortingKeepsData(value: Value)
    ensures Same(value, SortKeysDeep(value))
    decreases value
  {
    match value
    case Leaf(_) =>
    case Array(items) =>
      forall i | 0 <= i < |items|
        ensures Same(items[i], SortKeysDeep(items[i]))
      {
        SortingKeepsData(items[i]);
      }
    case Object(fields) =>
      ObjectKeys(fields);
      forall key | key in Keys(fields)
        ensures Same(fields[FieldAt(fields, key)].value,
                     SortKeysDeep(value).fields[FieldAt(SortKeysDeep(value).fields, key)].value)
      {
        SortingKeepsData(fields[FieldAt(fields, key)].value);
        WrittenValue(fields, FieldAt(SortKeysDeep(value).fields, key));
      }
  }

  lemma WrittenValue(fields: seq<Field>, i: nat)
    requires SortKeysDeep(Object(fields)).Object? && i < |SortKeysDeep(Object(fields)).fields|
    ensures var written := SortKeysDeep(Object(fields)).fields[i];
            written.key in Keys(fields) && written.value == SortKeysDeep(fields[FieldAt(fields, written.key)].value)
  {
    var keys := Sorted(Keys(fields));
    assert keys[i] in keys;
  }

  /** Every object's keys, at every depth, are in order and each there once. */
  ghost predicate KeysInOrder(value: Value)
    decreases value
  {
    match value
    case Leaf(_) => true
    case Array(items) => forall i :: 0 <= i < |items| ==> KeysInOrder(items[i])
    case Object(fields) =>
      && (forall i, j :: 0 <= i < j < |fields| ==>
            fields[i].key != fields[j].key && exists k: nat :: FirstBy(fields[i].key, fields[j].key, k))
      && forall i :: 0 <= i < |fields| ==> KeysInOrder(fields[i].value)
  }

  lemma {:induction false} SortingOrdersKeys(value: Value)
    ensures KeysInOrder(SortKeysDeep(value))
    decreases value
  {
    match value
    case Leaf(_) =>
    case Array(items) =>
      forall i | 0 <= i < |items|
        ensures KeysInOrder(SortKeysDeep(items[i]))
      {
        SortingOrdersKeys(items[i]);
      }
    case Object(fields) =>
      var keys := Sorted(Keys(fields));
      ObjectKeys(fields);
      var written := SortKeysDeep(value).fields;
      forall i, j | 0 <= i < j < |written|
        ensures written[i].key != written[j].key && exists k: nat :: FirstBy(written[i].key, written[j].key, k)
      {
        assert AtMost(keys[i], keys[j]) && keys[i] != keys[j];
        AtMostIsFirst(keys[i], keys[j]);
      }
      forall i | 0 <= i < |written|
        ensures KeysInOrder(written[i].value)
      {
        WrittenValue(fields, i);
        SortingOrdersKeys(fields[FieldAt(fields, written[i].key)].value);
      }
  }

  lemma ArrayLength(items: seq<Value>)
    ensures SortKeysDeep(Array(items)).Array? && |SortKeysDeep(Array(items)).items| == |items|
  {
  }

  lemma ArraysEqual(a: seq<Value>, b: seq<Value>)
    requires |a| == |b|
    ensures SortKeysDeep(Array(a)) == SortKeysDeep(Array(b))
            <==> forall i :: 0 <= i < |a| ==> SortKeysDeep(a[i]) == SortKeysDeep(b[i])
  {
    var x, y := SortKeysDeep(Array(a)).items, SortKeysDeep(Array(b)).items;
    assert forall i :: 0 <= i < |a| ==> x[i] == SortKeysDeep(a[i]) && y[i] == SortKeysDeep(b[i]);
    assert x == y <==> forall i :: 0 <= i < |a| ==> x[i] == y[i];
  }

  lemma ObjectsEqual(a: seq<Field>, b: seq<Field>)
    requires Keys(a) == Keys(b)
    ensures SortKeysDeep(Object(a)) == SortKeysDeep(Object(b))
            <==> forall key :: key in Keys(a) ==> SortKeysDeep(a[FieldAt(a, key)].value) == SortKeysDeep(b[FieldAt(b, key)].value)
  {
    var keys := Sorted(Keys(a));
    var x, y := SortKeysDeep(Object(a)).fields, SortKeysDeep(Object(b)).fields;
    forall i | 0 <= i < |keys|
      ensures keys[i] in Keys(a)
      ensures x[i] == Field(keys[i], SortKeysDeep(a[FieldAt(a, keys[i])].value))
      ensures y[i] == Field(keys[i], SortKeysDeep(b[FieldAt(b, keys[i])].value))
    {
      assert keys[i] in keys;
    }
    if x == y {
      forall key | key in Keys(a)
        ensures SortKeysDeep(a[FieldAt(a, key)].value) == SortKeysDeep(b[FieldAt(b, key)].value)
      {
        var i :| 0 <= i < |keys| && keys[i] == key;
        assert x[i] == y[i];
      }
    }
    if forall key :: key in Keys(a) ==> SortKeysDeep(a[FieldAt(a, key)].value) == SortKeysDeep(b[FieldAt(b, key)].value) {
      assert forall i :: 0 <= i < |keys| ==> x[i] == y[i];
    }
  }

  lemma WrittenKeys(fields: seq<Field>)
    ensures SortKeysDeep(Object(fields)).Object?
    ensures var written := SortKeysDeep(Object(fields)).fields;
            && |written| == |Sorted(Keys(fields))|
            && forall i :: 0 <= i < |written| ==> written[i].key == Sorted(Keys(fields))[i]
  {
    hide Keys, Sorted;
  }

  /** The keys of the written form are the object's keys, in order. */
  lemma ObjectKeys(fields: seq<Field>)
    ensures SortKeysDeep(Object(fields)).Object?
    ensures var written := SortKeysDeep(Object(fields)).fields;
            && |written| == |Sorted(Keys(fields))|
            && (forall i :: 0 <= i < |written| ==> written[i].key == Sorted(Keys(fields))[i])
            && Keys(written) == Keys(fields)
  {
    var keys := Sorted(Keys(fields));
    WrittenKeys(fields);
    hide SortKeysDeep;
    var written := SortKeysDeep(Object(fields)).fields;
    forall i | 0 <= i < |written|
      ensures written[i].key in Keys(fields)
    {
      assert keys[i] in keys;
    }
    forall key | key in Keys(fields)
      ensures key in Keys(written)
    {
      assert key in keys;
      var i :| 0 <= i < |keys| && keys[i] == key;
      assert written[i] in written;
    }
  }
}
