/** The label order behind the per-thread cell cache of `arion-metrics/src/sharded.rs`.

A label set is a sequence of key/value pairs. The cache is a `BTreeMap` ordered by
`CompareLabels`, so the cache is a faithful map exactly when that comparison is a total
order whose `Equal` is equality. Values of different types are compared through their text,
and `LawfulExactly` says for which typings of the label keys that is harmless. */
module Labels {

  /** Every integer is admitted, the 64-bit ones among them. */
  datatype Value = StringValue(text: string) | BoolValue(flag: bool) | I64Value(number: int)

  datatype ValueKind = StringKind | BoolKind | I64Kind

  datatype KeyValue = KeyValue(key: string, value: Value)

  type LabelSet = seq<KeyValue>

  datatype Ordering = Less | Equal | Greater

  function Flip(o: Ordering): Ordering {
    match o
    case Less => Greater
    case Equal => Equal
    case Greater => Less
  }

  function Kind(v: Value): ValueKind {
    match v
    case StringValue(_) => StringKind
    case BoolValue(_) => BoolKind
    case I64Value(_) => I64Kind
  }

  // ---- Comparison of the parts ----

  function CompareInt(a: int, b: int): Ordering {
    if a < b then Less else if a == b then Equal else Greater
  }

  function CompareBool(a: bool, b: bool): Ordering {
    if a == b then Equal else if b then Less else Greater
  }

  /** `str::cmp`: byte order of the UTF-8 text, which is code point order. */
  function CompareText(a: string, b: string): Ordering {
    if a == "" || b == "" then CompareInt(|a|, |b|)
    else if a[0] != b[0] then CompareInt(a[0] as int, b[0] as int)
    else CompareText(a[1..], b[1..])
  }

  function Decimal(n: nat): string {
    if n < 10 then ["0123456789"[n]] else Decimal(n / 10) + ["0123456789"[n % 10]]
  }

  /** `Value::as_str`. */
  function Text(v: Value): string {
    match v
    case StringValue(s) => s
    case BoolValue(b) => if b then "true" else "false"
    case I64Value(n) => if n < 0 then "-" + Decimal(-n) else Decimal(n)
  }

  function CompareValue(a: Value, b: Value): Ordering {
    match (a, b)
    case (StringValue(x), StringValue(y)) => CompareText(x, y)
    case (BoolValue(x), BoolValue(y)) => CompareBool(x, y)
    case (I64Value(x), I64Value(y)) => CompareInt(x, y)
    case _ => CompareText(Text(a), Text(b))
  }

  function CompareKeyValue(a: KeyValue, b: KeyValue): Ordering {
    var byKey := CompareText(a.key, b.key);
    if byKey == Equal then CompareValue(a.value, b.value) else byKey
  }

  /** The first differing pair decides. */
  function CompareZipped(a: LabelSet, b: LabelSet): Ordering
    requires |a| == |b|
  {
    if a == [] then Equal
    else
      var first := CompareKeyValue(a[0], b[0]);
      if first == Equal then CompareZipped(a[1..], b[1..]) else first
  }

  function CompareLabels(a: LabelSet, b: LabelSet): Ordering {
    if |a| != |b| then CompareInt(|a|, |b|) else CompareZipped(a, b)
  }

  /** `cmp_labels` as the loop it is. */
  method CmpLabels(left: LabelSet, right: LabelSet) returns (ordering: Ordering)
    ensures ordering == CompareLabels(left, right)
  {
    ordering := CompareInt(|left|, |right|);
    if ordering != Equal { return; }
    for i := 0 to |left|
      invariant CompareZipped(left, right) == CompareZipped(left[i..], right[i..])
    {
      ordering := CompareKeyValue(left[i], right[i]);
      if ordering != Equal { return; }
    }
    ordering := Equal;
  }

  // ---- Laws ----

  /** What a total order owes on three elements, stated on its results. */
  ghost predicate Lawful<T(!new)>(cmp: (T, T) -> Ordering, a: T, b: T, c: T) {
    && (cmp(a, b) == Equal <==> a == b)
    && cmp(b, a) == Flip(cmp(a, b))
    && (cmp(a, b) == Less && cmp(b, c) == Less ==> cmp(a, c) == Less)
  }

  lemma {:induction false} TextLawful(a: string, b: string, c: string)
    ensures Lawful(CompareText, a, b, c)
  {
    if a == "" || b == "" {
    } else {
      TextLawful(a[1..], b[1..], if c == "" then c else c[1..]);
      assert a == [a[0]] + a[1..] && b == [b[0]] + b[1..];
    }
  }

  lemma {:induction false} DecimalStartsWithDigit(n: nat)
    ensures Decimal(n) != "" && '0' <= Decimal(n)[0] <= '9'
  {
    if n >= 10 { DecimalStartsWithDigit(n / 10); }
  }

  /** Numbers render below both booleans, so text order and numeric order never disagree. */
  lemma {:induction false} NumberBelowBool(n: int, b: bool)
    ensures CompareText(Text(I64Value(n)), Text(BoolValue(b))) == Less
    ensures CompareText(Text(BoolValue(b)), Text(I64Value(n))) == Greater
  {
    DecimalStartsWithDigit(if n < 0 then -n else n);
  }

  /** Strings mixed with anything else is the one combination of types that breaks the order. */
  predicate Compatible(kinds: set<ValueKind>) {
    StringKind in kinds ==> kinds == {StringKind}
  }

  lemma {:induction false} ValueLawful(kinds: set<ValueKind>, a: Value, b: Value, c: Value)
    requires Compatible(kinds) && Kind(a) in kinds && Kind(b) in kinds && Kind(c) in kinds
    ensures Lawful(CompareValue, a, b, c)
  {
    if StringKind in kinds {
      TextLawful(a.text, b.text, c.text);
    } else {
      forall n: int, f: bool
        ensures CompareValue(I64Value(n), BoolValue(f)) == Less
        ensures CompareValue(BoolValue(f), I64Value(n)) == Greater
      { NumberBelowBool(n, f); }
    }
  }

  predicate Fits(schema: string -> set<ValueKind>, pair: KeyValue) {
    Kind(pair.value) in schema(pair.key)
  }

  ghost predicate Conforms(schema: string -> set<ValueKind>, labels: LabelSet) {
    forall i :: 0 <= i < |labels| ==> Fits(schema, labels[i])
  }

  lemma {:induction false} KeyValueLawful(schema: string -> set<ValueKind>, a: KeyValue, b: KeyValue, c: KeyValue)
    requires forall k :: Compatible(schema(k))
    requires Fits(schema, a) && Fits(schema, b) && Fits(schema, c)
    ensures Lawful(CompareKeyValue, a, b, c)
  {
    TextLawful(a.key, b.key, c.key);
    TextLawful(b.key, c.key, a.key);
    if a.key == b.key == c.key {
      ValueLawful(schema(a.key), a.value, b.value, c.value);
    } else if a.key == b.key {
      ValueLawful(schema(a.key), a.value, b.value, b.value);
    }
  }

  lemma {:induction false} ZippedLawful(schema: string -> set<ValueKind>, a: LabelSet, b: LabelSet, c: LabelSet)
    requires forall k :: Compatible(schema(k))
    requires Conforms(schema, a) && Conforms(schema, b) && Conforms(schema, c)
    requires |a| == |b| == |c|
    ensures CompareZipped(a, b) == Equal <==> a == b
    ensures CompareZipped(b, a) == Flip(CompareZipped(a, b))
    ensures CompareZipped(a, b) == Less && CompareZipped(b, c) == Less ==> CompareZipped(a, c) == Less
  {
    if a == [] {
    } else {
      KeyValueLawful(schema, a[0], b[0], c[0]);
      KeyValueLawful(schema, b[0], c[0], a[0]);
      KeyValueLawful(schema, a[0], c[0], b[0]);
      ZippedLawful(schema, a[1..], b[1..], c[1..]);
      assert a == [a[0]] + a[1..] && b == [b[0]] + b[1..];
    }
  }

  lemma {:induction false} LabelsLawful(schema: string -> set<ValueKind>, a: LabelSet, b: LabelSet, c: LabelSet)
    requires forall k :: Compatible(schema(k))
    requires Conforms(schema, a) && Conforms(schema, b) && Conforms(schema, c)
    ensures Lawful(CompareLabels, a, b, c)
  {
    if |a| == |b| == |c| { ZippedLawful(schema, a, b, c); }
    else if |a| == |b| { ZippedLawful(schema, a, b, b); }
  }

  lemma {:induction false} CompareSingletons(a: KeyValue, b: KeyValue)
    ensures CompareLabels([a], [b]) == CompareKeyValue(a, b)
  {
    assert CompareZipped([a][1..], [b][1..]) == Equal;
  }

  /** A string and a value of another type are told apart by their text alone: under every key, each
      number and bool collides with its own text, and with no other. */
  lemma {:induction false} MixedTypesCollide(key: string, text: string, v: Value)
    requires !v.StringValue?
    ensures CompareLabels([KeyValue(key, StringValue(text))], [KeyValue(key, v)]) == Equal <==> text == Text(v)
  {
    TextLawful(key, key, key);
    TextLawful(text, Text(v), text);
    CompareSingletons(KeyValue(key, StringValue(text)), KeyValue(key, v));
  }

  /** A typing that mixes strings with another type admits a string and a value that is none. */
  lemma {:induction false} OtherValue(kinds: set<ValueKind>) returns (v: Value)
    requires !Compatible(kinds)
    ensures StringKind in kinds && !v.StringValue? && Kind(v) in kinds
  {
    if I64Kind in kinds {
      v := I64Value(1);
    } else {
      v := BoolValue(true);
      if BoolKind !in kinds { OnlyStrings(kinds); }
    }
  }

  lemma {:induction false} OnlyStrings(kinds: set<ValueKind>)
    requires StringKind in kinds && I64Kind !in kinds && BoolKind !in kinds
    ensures kinds == {StringKind}
  {
    forall kind | kind in kinds ensures kind == StringKind { assert kind != BoolKind && kind != I64Kind; }
  }

  lemma {:induction false} OneLabelConforms(schema: string -> set<ValueKind>, pair: KeyValue)
    requires Kind(pair.value) in schema(pair.key)
    ensures Conforms(schema, [pair])
  {
    assert [pair][0] == pair;
  }

  ghost predicate OrderIsLawful(schema: string -> set<ValueKind>) {
    forall a: LabelSet, b: LabelSet, c: LabelSet
      | Conforms(schema, a) && Conforms(schema, b) && Conforms(schema, c) :: Lawful(CompareLabels, a, b, c)
  }

  /** `cmp_labels` is a total order whose `Equal` is equality, over everything a typing of the
      label keys admits, exactly when no key admits strings beside another type. */
  lemma {:induction false} LawfulExactly(schema: string -> set<ValueKind>)
    ensures OrderIsLawful(schema) <==> forall k :: Compatible(schema(k))
  {
    if forall k :: Compatible(schema(k)) {
      forall a: LabelSet, b: LabelSet, c: LabelSet
        | Conforms(schema, a) && Conforms(schema, b) && Conforms(schema, c)
        ensures Lawful(CompareLabels, a, b, c)
      { LabelsLawful(schema, a, b, c); }
    } else {
      var k :| !Compatible(schema(k));
      var v := OtherValue(schema(k));
      var other, text := KeyValue(k, v), KeyValue(k, StringValue(Text(v)));
      MixedTypesCollide(k, Text(v), v);
      OneLabelConforms(schema, text);
      OneLabelConforms(schema, other);
      assert [text] != [other] by { assert [text][0] != [other][0]; }
      assert !Lawful(CompareLabels, [text], [other], [other]);
    }
  }
}
