/** The payload gate of the metric store: a walk that stops at the first violation,
    refining plain recursive size, depth and finiteness functions. */
module MetricPayload {
  import opened Bytes

  const MAX_SAMPLE_PAYLOAD_BYTES: nat := 64 * 1024
  const MAX_SAMPLE_JSON_DEPTH: nat := 16
  const USIZE_MAX: nat := 0xFFFF_FFFF_FFFF_FFFF

  /** JSON values; strings are their UTF-8 bytes, numbers only say whether they are finite. */
  datatype Json =
    | Null
    | Bool(value: bool)
    | Number(finite: bool)
    | String(text: seq<byte>)
    | Array(items: seq<Json>)
    | Object(fields: seq<Field>)
  datatype Field = Field(key: seq<byte>, value: Json)

  datatype PayloadError = TooLarge | TooDeep | NonFinite
  datatype WalkResult = Walked(total: nat) | Rejected(error: PayloadError)

  // Reference functions: no limits, no order of evaluation.

  function Size(v: Json): nat
    decreases v
  {
    match v
    case Null => 4
    case Bool(b) => if b then 4 else 5
    case Number(_) => 24
    case String(s) => |s| + 2
    case Array(items) => 2 + ItemsSize(items)
    case Object(fields) => 2 + FieldsSize(fields)
  }

  function ItemsSize(items: seq<Json>): nat
    decreases items
  {
    if items == [] then 0
    else ItemsSize(items[..|items| - 1]) + 1 + Size(items[|items| - 1])
  }

  function FieldsSize(fields: seq<Field>): nat
    decreases fields
  {
    if fields == [] then 0
    else
      var last := fields[|fields| - 1];
      FieldsSize(fields[..|fields| - 1]) + |last.key| + 4 + Size(last.value)
  }

  function Larger(a: nat, b: nat): nat { if a < b then b else a }

  function Depth(v: Json): nat
    decreases v
  {
    match v
    case Array(items) => ItemsDepth(items)
    case Object(fields) => FieldsDepth(fields)
    case _ => 0
  }

  function ItemsDepth(items: seq<Json>): nat
    decreases items
  {
    if items == [] then 0
    else Larger(ItemsDepth(items[..|items| - 1]), 1 + Depth(items[|items| - 1]))
  }

  function FieldsDepth(fields: seq<Field>): nat
    decreases fields
  {
    if fields == [] then 0
    else Larger(FieldsDepth(fields[..|fields| - 1]), 1 + Depth(fields[|fields| - 1].value))
  }

  predicate AllFinite(v: Json)
    decreases v
  {
    match v
    case Number(finite) => finite
    case Array(items) => forall i | 0 <= i < |items| :: AllFinite(items[i])
    case Object(fields) => forall i | 0 <= i < |fields| :: AllFinite(fields[i].value)
    case _ => true
  }

  predicate Acceptable(v: Json)
  {
    Size(v) <= MAX_SAMPLE_PAYLOAD_BYTES && Depth(v) <= MAX_SAMPLE_JSON_DEPTH && AllFinite(v)
  }

  /** A prefix is never larger or deeper than the whole, so stopping early loses nothing. */
  lemma {:induction false} ItemsMonotone(items: seq<Json>, k: nat)
    requires k <= |items|
    ensures ItemsSize(items[..k]) <= ItemsSize(items)
    ensures ItemsDepth(items[..k]) <= ItemsDepth(items)
    decreases |items| - k
  {
    if k == |items| {
      assert items[..k] == items;
    } else {
      ItemsMonotone(items, k + 1);
      assert items[..k + 1][..k] == items[..k];
    }
  }

  lemma {:induction false} FieldsMonotone(fields: seq<Field>, k: nat)
    requires k <= |fields|
    ensures FieldsSize(fields[..k]) <= FieldsSize(fields)
    ensures FieldsDepth(fields[..k]) <= FieldsDepth(fields)
    decreases |fields| - k
  {
    if k == |fields| {
      assert fields[..k] == fields;
    } else {
      FieldsMonotone(fields, k + 1);
      assert fields[..k + 1][..k] == fields[..k];
    }
  }

  lemma {:induction false} ItemsStep(items: seq<Json>, i: nat)
    requires i < |items|
    ensures ItemsSize(items[..i + 1]) == ItemsSize(items[..i]) + 1 + Size(items[i]) <= ItemsSize(items)
    ensures ItemsDepth(items[..i + 1]) == Larger(ItemsDepth(items[..i]), 1 + Depth(items[i])) <= ItemsDepth(items)
  {
    assert items[..i + 1][..i] == items[..i];
    ItemsMonotone(items, i + 1);
  }

  lemma {:induction false} FieldsStep(fields: seq<Field>, i: nat)
    requires i < |fields|
    ensures FieldsSize(fields[..i + 1])
         == FieldsSize(fields[..i]) + |fields[i].key| + 4 + Size(fields[i].value) <= FieldsSize(fields)
    ensures FieldsDepth(fields[..i + 1])
         == Larger(FieldsDepth(fields[..i]), 1 + Depth(fields[i].value)) <= FieldsDepth(fields)
  {
    assert fields[..i + 1][..i] == fields[..i];
    FieldsMonotone(fields, i + 1);
  }

  lemma ItemsMeasure(v: Json)
    requires v.Array?
    ensures Size(v) == 2 + ItemsSize(v.items) && Depth(v) == ItemsDepth(v.items)
    ensures ItemsSize(v.items[..0]) == 0 && ItemsDepth(v.items[..0]) == 0
  {
  }

  lemma FieldsMeasure(v: Json)
    requires v.Object?
    ensures Size(v) == 2 + FieldsSize(v.fields) && Depth(v) == FieldsDepth(v.fields)
    ensures FieldsSize(v.fields[..0]) == 0 && FieldsDepth(v.fields[..0]) == 0
  {
  }

  lemma ItemsFinite(v: Json, i: nat)
    requires v.Array? && i < |v.items|
    ensures AllFinite(v) ==> AllFinite(v.items[i])
  {
  }

  lemma AllItemsFinite(v: Json)
    requires v.Array? && forall i | 0 <= i < |v.items| :: AllFinite(v.items[i])
    ensures AllFinite(v)
  {
  }

  lemma FieldsFinite(v: Json, i: nat)
    requires v.Object? && i < |v.fields|
    ensures AllFinite(v) ==> AllFinite(v.fields[i].value)
  {
  }

  lemma AllFieldsFinite(v: Json)
    requires v.Object? && forall i | 0 <= i < |v.fields| :: AllFinite(v.fields[i].value)
    ensures AllFinite(v)
  {
  }

  function SaturatingAdd(a: nat, b: nat): nat
  {
    if USIZE_MAX < a + b then USIZE_MAX else a + b
  }

  function AddBytes(accumulated: nat, n: nat): (r: WalkResult)
    requires accumulated <= MAX_SAMPLE_PAYLOAD_BYTES
    ensures r == if accumulated + n <= MAX_SAMPLE_PAYLOAD_BYTES then Walked(accumulated + n) else Rejected(TooLarge)
  {
    var total := SaturatingAdd(accumulated, n);
    if MAX_SAMPLE_PAYLOAD_BYTES < total then Rejected(TooLarge) else Walked(total)
  }

  /** What a walk over `v` entered at `depth` with `accumulated` bytes so far must return. */
  ghost predicate WalkSpec(v: Json, depth: nat, accumulated: nat, r: WalkResult)
  {
    && (r.Walked? <==> AllFinite(v) && depth + Depth(v) <= MAX_SAMPLE_JSON_DEPTH
                       && accumulated + Size(v) <= MAX_SAMPLE_PAYLOAD_BYTES)
    && (r.Walked? ==> r.total == accumulated + Size(v))
  }

  method Walk(v: Json, depth: nat, accumulated: nat) returns (r: WalkResult)
    requires accumulated <= MAX_SAMPLE_PAYLOAD_BYTES
    ensures WalkSpec(v, depth, accumulated, r)
    decreases v, 1
  {
    if MAX_SAMPLE_JSON_DEPTH < depth {
      return Rejected(TooDeep);
    }
    match v
    case Null => r := AddBytes(accumulated, 4);
    case Bool(b) => r := AddBytes(accumulated, if b then 4 else 5);
    case Number(finite) =>
      if !finite {
        return Rejected(NonFinite);
      }
      r := AddBytes(accumulated, 24);
    case String(s) => r := AddBytes(accumulated, SaturatingAdd(|s|, 2));
    case Array(items) => r := WalkItems(v, depth, accumulated);
    case Object(fields) => r := WalkFields(v, depth, accumulated);
  }

  method WalkItems(v: Json, depth: nat, accumulated: nat) returns (r: WalkResult)
    requires v.Array? && depth <= MAX_SAMPLE_JSON_DEPTH && accumulated <= MAX_SAMPLE_PAYLOAD_BYTES
    ensures WalkSpec(v, depth, accumulated, r)
    decreases v, 0
  {
    hide ItemsSize, ItemsDepth, Size, Depth, AllFinite;
    var items := v.items;
    ItemsMeasure(v);
    r := AddBytes(accumulated, 2);
    if r.Rejected? {
      return;
    }
    for i := 0 to |items|
      invariant r.Walked? && r.total == accumulated + 2 + ItemsSize(items[..i]) <= MAX_SAMPLE_PAYLOAD_BYTES
      invariant depth + ItemsDepth(items[..i]) <= MAX_SAMPLE_JSON_DEPTH
      invariant forall j | 0 <= j < i :: AllFinite(items[j])
    {
      ItemsStep(items, i);
      ItemsFinite(v, i);
      r := AddBytes(r.total, 1);
      if r.Rejected? {
        return;
      }
      r := Walk(items[i], depth + 1, r.total);
      if r.Rejected? {
        return;
      }
    }
    assert items[..|items|] == items;
    AllItemsFinite(v);
  }

  method WalkFields(v: Json, depth: nat, accumulated: nat) returns (r: WalkResult)
    requires v.Object? && depth <= MAX_SAMPLE_JSON_DEPTH && accumulated <= MAX_SAMPLE_PAYLOAD_BYTES
    ensures WalkSpec(v, depth, accumulated, r)
    decreases v, 0
  {
    hide FieldsSize, FieldsDepth, Size, Depth, AllFinite;
    var fields := v.fields;
    FieldsMeasure(v);
    r := AddBytes(accumulated, 2);
    if r.Rejected? {
      return;
    }
    for i := 0 to |fields|
      invariant r.Walked? && r.total == accumulated + 2 + FieldsSize(fields[..i]) <= MAX_SAMPLE_PAYLOAD_BYTES
      invariant depth + FieldsDepth(fields[..i]) <= MAX_SAMPLE_JSON_DEPTH
      invariant forall j | 0 <= j < i :: AllFinite(fields[j].value)
    {
      FieldsStep(fields, i);
      FieldsFinite(v, i);
      r := AddBytes(r.total, SaturatingAdd(|fields[i].key|, 4));
      if r.Rejected? {
        return;
      }
      r := Walk(fields[i].value, depth + 1, r.total);
      if r.Rejected? {
        return;
      }
    }
    assert fields[..|fields|] == fields;
    AllFieldsFinite(v);
  }

  /** The early-exit walk accepts exactly the acceptable values and reports their size. */
  method ValidateSamplePayload(v: Json) returns (r: WalkResult)
    ensures r.Walked? <==> Acceptable(v)
    ensures r.Walked? ==> r.total == Size(v)
  {
    r := Walk(v, 0, 0);
  }
}
