/** The aggregator of the widget pipeline (processAggregation in
    components/dashboard/DashboardGrid.tsx): group rows by the string form of one field
    and reduce the numeric form of another with NONE, SUM, AVG, MIN, MAX or COUNT. */
module Aggregation {
  import opened Common
  import opened Values
  import opened Model

  /** String(row[xField]): the key a row is grouped under. */
  function KeyOf(row: Row, xField: string): string
  {
    Text(Lookup(row, xField))
  }

  /** Number(row[yField]) || 0: the value a row contributes to its group. */
  function MeasureOf(row: Row, yField: string): real
  {
    Coerce(Lookup(row, yField))
  }

  /** The keys of all rows, row by row. */
  function KeySeq(data: seq<Row>, xField: string): (r: seq<string>)
    ensures |r| == |data|
    ensures forall i :: 0 <= i < |data| ==> r[i] == KeyOf(data[i], xField)
  {
    seq(|data|, i requires 0 <= i < |data| => KeyOf(data[i], xField))
  }

  /** The group keys in the order the rows first produce them. */
  function FirstSeen(data: seq<Row>, xField: string): seq<string>
    decreases |data|
  {
    if data == [] then []
    else
      var before := FirstSeen(data[..|data| - 1], xField);
      var k := KeyOf(data[|data| - 1], xField);
      if k in before then before else before + [k]
  }

  /** The values contributed by the rows whose key is `key`, in row order. */
  function Group(data: seq<Row>, xField: string, yField: string, key: string): seq<real>
    decreases |data|
  {
    if data == [] then []
    else
      var last := data[|data| - 1];
      Group(data[..|data| - 1], xField, yField, key)
        + (if KeyOf(last, xField) == key then [MeasureOf(last, yField)] else [])
  }

  /** values.reduce((a, b) => a + b, 0) */
  function Sum(vals: seq<real>): real
    decreases |vals|
  {
    if vals == [] then 0.0 else Sum(vals[..|vals| - 1]) + vals[|vals| - 1]
  }

  /** Math.min(...values) for a non-empty list. */
  function Min(vals: seq<real>): real
    requires |vals| > 0
    decreases |vals|
  {
    if |vals| == 1 then vals[0]
    else
      var m := Min(vals[..|vals| - 1]);
      if vals[|vals| - 1] < m then vals[|vals| - 1] else m
  }

  /** Math.max(...values) for a non-empty list. */
  function Max(vals: seq<real>): real
    requires |vals| > 0
    decreases |vals|
  {
    if |vals| == 1 then vals[0]
    else
      var m := Max(vals[..|vals| - 1]);
      if vals[|vals| - 1] > m then vals[|vals| - 1] else m
  }

  /** The reduction of a non-empty group; NONE takes the first value unreduced. */
  function Reduce(agg: AggregationType, vals: seq<real>): real
    requires |vals| > 0
  {
    match agg
    case SUM => Sum(vals)
    case AVG => Sum(vals) / (|vals| as real)
    case MIN => Min(vals)
    case MAX => Max(vals)
    case COUNT => |vals| as real
    case NONE => vals[0]
  }

  /** Math.round(r * 100) / 100, where Math.round rounds halves upwards. */
  function Round2(r: real): real
  {
    ((r * 100.0 + 0.5).Floor as real) / 100.0
  }

  /** { [xField]: key, [yField]: value }: when both fields are the same, the value
      takes the key's place. */
  function GroupRow(xField: string, yField: string, key: string, value: real): Row
  {
    if xField == yField then [(xField, Num(value))]
    else [(xField, Str(key)), (yField, Num(value))]
  }

  /** The group row is the object literal: the key stored under xField, then the value
      stored under yField. */
  lemma GroupRowIsLiteral(xField: string, yField: string, key: string, value: real)
    ensures GroupRow(xField, yField, key, value) == Assign(Assign([], xField, Str(key)), yField, Num(value))
  {
    assert Assign([], xField, Str(key)) == [(xField, Str(key))];
    if xField != yField {
      assert Assign([(xField, Str(key))], yField, Num(value)) == [(xField, Str(key))] + Assign([], yField, Num(value));
    }
  }

  /** The output row for one group key. */
  function RowFor(data: seq<Row>, xField: string, yField: string, agg: AggregationType, key: string): Row
    requires |Group(data, xField, yField, key)| > 0
  {
    GroupRow(xField, yField, key, Round2(Reduce(agg, Group(data, xField, yField, key))))
  }

  /** The output rows for the given keys, one row per key, in key order. */
  function RowsFor(keys: seq<string>, data: seq<Row>, xField: string, yField: string, agg: AggregationType): (r: seq<Row>)
    requires forall k :: k in keys ==> |Group(data, xField, yField, k)| > 0
    ensures |r| == |keys|
    decreases |keys|
  {
    if keys == [] then []
    else RowsFor(keys[..|keys| - 1], data, xField, yField, agg) + [RowFor(data, xField, yField, agg, keys[|keys| - 1])]
  }

  /** The keys of the output, in the order Object.keys lists the properties of the
      group dictionary. */
  function OutputKeys(data: seq<Row>, xField: string): seq<string>
  {
    OwnKeyOrder(FirstSeen(data, xField))
  }

  /** What processAggregation returns. */
  function Aggregate(data: seq<Row>, xField: string, yField: string, agg: AggregationType): seq<Row>
  {
    var keys := OutputKeys(data, xField);
    OutputKeysHaveGroups(data, xField, yField);
    RowsFor(keys, data, xField, yField, agg)
  }

  // ---------------------------------------------------------------------------
  // The loop of processAggregation

  /** The state of the forEach pass after the rows `pre`: the properties in creation
      order, and each property's bucket holding its group. */
  ghost predicate Grouped(pre: seq<Row>, xField: string, yField: string,
                    groups: map<string, seq<real>>, created: seq<string>)
  {
    && created == FirstSeen(pre, xField)
    && (forall k :: k in groups <==> k in created)
    && (forall k :: k in groups ==> groups[k] == Group(pre, xField, yField, k))
    && (forall k :: k !in groups ==> Group(pre, xField, yField, k) == [])
  }

  /** The forEach pass of processAggregation: the group dictionary, with the creation
      order of its properties alongside. */
  method GroupRows(data: seq<Row>, xField: string, yField: string)
    returns (groups: map<string, seq<real>>, created: seq<string>)
    ensures created == FirstSeen(data, xField)
    ensures groups.Keys == set k | k in created
    ensures forall k :: k in groups ==> groups[k] == Group(data, xField, yField, k)
  {
    groups := map[];
    created := [];
    var i := 0;
    while i < |data|
      invariant 0 <= i <= |data|
      invariant Grouped(data[..i], xField, yField, groups, created)
    {
      var key := KeyOf(data[i], xField);
      var val := MeasureOf(data[i], yField);
      ghost var before, seen := groups, created;
      var bucket := [];
      if key in groups {
        bucket := groups[key];
      } else {
        created := created + [key];
      }
      groups := groups[key := bucket + [val]];
      GroupStep(data[..i], data[i], xField, yField, before, seen, key, val, bucket);
      TakeOneMore(data, i);
      i := i + 1;
    }
    assert data[..|data|] == data;
    KeysOfCreated(groups, created);
  }

  lemma KeysOfCreated(groups: map<string, seq<real>>, created: seq<string>)
    requires forall k :: k in groups <==> k in created
    ensures groups.Keys == set k | k in created
  {
  }

  /** One pass of the forEach: a new property is created empty and remembered, then the
      row's value is pushed onto its bucket. */
  lemma GroupStep(pre: seq<Row>, row: Row, xField: string, yField: string,
                  groups: map<string, seq<real>>, created: seq<string>,
                  key: string, val: real, bucket: seq<real>)
    requires Grouped(pre, xField, yField, groups, created)
    requires key == KeyOf(row, xField) && val == MeasureOf(row, yField)
    requires bucket == if key in groups then groups[key] else []
    ensures Grouped(pre + [row], xField, yField, groups[key := bucket + [val]],
                    if key in groups then created else created + [key])
  {
    FirstSeenSnoc(pre, row, xField);
    BucketStep(pre, row, xField, yField, groups, groups[key := bucket + [val]]);
  }

  /** The group dictionary after one more row. */
  lemma BucketStep(pre: seq<Row>, row: Row, xField: string, yField: string,
                   groups: map<string, seq<real>>, groups': map<string, seq<real>>)
    requires forall k :: k in groups ==> groups[k] == Group(pre, xField, yField, k)
    requires forall k :: k !in groups ==> Group(pre, xField, yField, k) == []
    requires var key := KeyOf(row, xField);
      groups' == groups[key := (if key in groups then groups[key] else []) + [MeasureOf(row, yField)]]
    ensures forall k :: k in groups' ==> groups'[k] == Group(pre + [row], xField, yField, k)
    ensures forall k :: k !in groups' ==> Group(pre + [row], xField, yField, k) == []
  {
    var key := KeyOf(row, xField);
    GroupSnoc(pre, row, xField, yField);
    forall k | k in groups' ensures groups'[k] == Group(pre + [row], xField, yField, k) {
      if k != key {
        assert groups'[k] == groups[k];
      }
    }
    forall k | k !in groups' ensures Group(pre + [row], xField, yField, k) == [] {
      assert k != key && k !in groups;
    }
  }

  /** The map over Object.keys(groups): one row per key, reduced from its bucket. */
  function BucketRows(buckets: map<string, seq<real>>, keys: seq<string>,
                      xField: string, yField: string, agg: AggregationType): (r: seq<Row>)
    requires forall k :: k in keys ==> k in buckets && |buckets[k]| > 0
    ensures |r| == |keys|
    decreases |keys|
  {
    if keys == [] then []
    else
      BucketRows(buckets, keys[..|keys| - 1], xField, yField, agg)
        + [BucketRow(buckets, keys[|keys| - 1], xField, yField, agg)]
  }

  /** The row for one key: the key and its bucket's rounded reduction. */
  function BucketRow(buckets: map<string, seq<real>>, key: string,
                     xField: string, yField: string, agg: AggregationType): Row
    requires key in buckets && |buckets[key]| > 0
  {
    GroupRow(xField, yField, key, Round2(Reduce(agg, buckets[key])))
  }

  /** The Object.keys(groups).map pass as a loop over the keys. */
  method EmitRows(groups: map<string, seq<real>>, keys: seq<string>,
                  xField: string, yField: string, agg: AggregationType)
    returns (result: seq<Row>)
    requires forall k :: k in keys ==> k in groups && |groups[k]| > 0
    ensures result == BucketRows(groups, keys, xField, yField, agg)
  {
    result := [];
    var j := 0;
    while j < |keys|
      invariant 0 <= j <= |keys|
      invariant forall k :: k in keys[..j] ==> k in groups && |groups[k]| > 0
      invariant result == BucketRows(groups, keys[..j], xField, yField, agg)
    {
      BucketRowsSnoc(groups, keys, j, xField, yField, agg);
      result := result + [BucketRow(groups, keys[j], xField, yField, agg)];
      j := j + 1;
    }
    assert keys[..|keys|] == keys;
  }

  lemma BucketRowsSnoc(groups: map<string, seq<real>>, keys: seq<string>, j: nat,
                       xField: string, yField: string, agg: AggregationType)
    requires j < |keys|
    requires forall k :: k in keys ==> k in groups && |groups[k]| > 0
    ensures forall k :: k in keys[..j + 1] ==> k in groups && |groups[k]| > 0
    ensures keys[j] in groups && |groups[keys[j]]| > 0
    ensures BucketRows(groups, keys[..j + 1], xField, yField, agg)
      == BucketRows(groups, keys[..j], xField, yField, agg) + [BucketRow(groups, keys[j], xField, yField, agg)]
  {
    assert keys[j] in keys;
    assert keys[..j + 1][..j] == keys[..j];
    assert forall k :: k in keys[..j + 1] ==> k in keys;
  }

  /** Rows read from buckets holding the groups are the intended rows. */
  lemma {:induction false} BucketRowsAgree(buckets: map<string, seq<real>>, keys: seq<string>, data: seq<Row>,
                                           xField: string, yField: string, agg: AggregationType)
    requires forall k :: k in keys ==> k in buckets && buckets[k] == Group(data, xField, yField, k) && |buckets[k]| > 0
    ensures BucketRows(buckets, keys, xField, yField, agg) == RowsFor(keys, data, xField, yField, agg)
    decreases |keys|
  {
    if keys != [] {
      BucketRowsAgree(buckets, keys[..|keys| - 1], data, xField, yField, agg);
    }
  }

  /** Groups the rows, then emits one row per property of the group dictionary in
      Object.keys order. */
  method ProcessAggregation(data: seq<Row>, xField: string, yField: string, agg: AggregationType)
    returns (result: seq<Row>)
    ensures result == Aggregate(data, xField, yField, agg)
  {
    var groups, created := GroupRows(data, xField, yField);
    var keys := OwnKeyOrder(created);
    OutputKeysHaveGroups(data, xField, yField);
    forall k | k in keys
      ensures k in groups
    {
      FirstSeenGroups(data, xField, yField, k);
    }
    result := EmitRows(groups, keys, xField, yField, agg);
    BucketRowsAgree(groups, keys, data, xField, yField, agg);
  }

  // ---------------------------------------------------------------------------
  // Groups and keys

  lemma FirstSeenSnoc(data: seq<Row>, row: Row, xField: string)
    ensures FirstSeen(data + [row], xField)
      == if KeyOf(row, xField) in FirstSeen(data, xField) then FirstSeen(data, xField)
         else FirstSeen(data, xField) + [KeyOf(row, xField)]
  {
    assert (data + [row])[..|data|] == data;
  }

  lemma GroupSnoc(data: seq<Row>, row: Row, xField: string, yField: string)
    ensures forall k {:trigger Group(data + [row], xField, yField, k)} ::
      Group(data + [row], xField, yField, k)
        == Group(data, xField, yField, k) + (if KeyOf(row, xField) == k then [MeasureOf(row, yField)] else [])
  {
    assert (data + [row])[..|data|] == data;
  }

  /** A key is listed exactly when some row produces it, and then its group is not empty. */
  lemma {:induction false} FirstSeenGroups(data: seq<Row>, xField: string, yField: string, k: string)
    ensures k in FirstSeen(data, xField) <==> k in KeySeq(data, xField)
    ensures k in FirstSeen(data, xField) <==> |Group(data, xField, yField, k)| > 0
    decreases |data|
  {
    if data != [] {
      var front := data[..|data| - 1];
      FirstSeenGroups(front, xField, yField, k);
      assert KeySeq(data, xField) == KeySeq(front, xField) + [KeyOf(data[|data| - 1], xField)];
    }
  }

  lemma {:induction false} FirstSeenDistinct(data: seq<Row>, xField: string)
    ensures Distinct(FirstSeen(data, xField))
    decreases |data|
  {
    if data != [] {
      FirstSeenDistinct(data[..|data| - 1], xField);
    }
  }

  lemma OutputKeysHaveGroups(data: seq<Row>, xField: string, yField: string)
    ensures forall k :: k in OutputKeys(data, xField) ==> |Group(data, xField, yField, k)| > 0
  {
    forall k | k in OutputKeys(data, xField)
      ensures |Group(data, xField, yField, k)| > 0
    {
      OwnKeyOrderPermutes(FirstSeen(data, xField));
      assert k in multiset(OutputKeys(data, xField));
      FirstSeenGroups(data, xField, yField, k);
    }
  }

  /** The i-th output row is the row of the i-th key. */
  lemma {:induction false} RowsForAt(keys: seq<string>, data: seq<Row>, xField: string, yField: string, agg: AggregationType, i: nat)
    requires forall k :: k in keys ==> |Group(data, xField, yField, k)| > 0
    requires i < |keys|
    ensures RowsFor(keys, data, xField, yField, agg)[i] == RowFor(data, xField, yField, agg, keys[i])
    decreases |keys|
  {
    if i < |keys| - 1 {
      RowsForAt(keys[..|keys| - 1], data, xField, yField, agg, i);
    }
  }

  /** The shape of a group row: the key under xField and the value under yField; when
      both fields are the same the value overwrites the key. */
  lemma GroupRowShape(xField: string, yField: string, key: string, value: real)
    ensures xField != yField ==>
      Names(GroupRow(xField, yField, key, value)) == [xField, yField]
      && Lookup(GroupRow(xField, yField, key, value), xField) == Some(Str(key))
      && Lookup(GroupRow(xField, yField, key, value), yField) == Some(Num(value))
    ensures xField == yField ==>
      Names(GroupRow(xField, yField, key, value)) == [xField]
      && Lookup(GroupRow(xField, yField, key, value), xField) == Some(Num(value))
  {
    assert Names([(xField, Str(key))]) == [xField];
  }

  lemma OutputKeysDistinct(data: seq<Row>, xField: string)
    ensures Distinct(OutputKeys(data, xField))
  {
    OwnKeyOrderPermutes(FirstSeen(data, xField));
    FirstSeenDistinct(data, xField);
    DistinctPermutation(FirstSeen(data, xField), OutputKeys(data, xField));
  }

  lemma OutputKeysMembers(data: seq<Row>, xField: string, k: string)
    ensures k in OutputKeys(data, xField) <==> k in KeySeq(data, xField)
  {
    var fs := FirstSeen(data, xField);
    OwnKeyOrderPermutes(fs);
    assert k in OutputKeys(data, xField) <==> k in multiset(OutputKeys(data, xField));
    assert k in fs <==> k in multiset(fs);
    FirstSeenGroups(data, xField, xField, k);
  }

  lemma OutputKeysSet(data: seq<Row>, xField: string)
    ensures (set k | k in OutputKeys(data, xField)) == (set r | r in data :: KeyOf(r, xField))
  {
    var keys := OutputKeys(data, xField);
    forall k | k in keys ensures exists r :: r in data && KeyOf(r, xField) == k {
      OutputKeysMembers(data, xField, k);
      var i :| 0 <= i < |data| && KeySeq(data, xField)[i] == k;
      assert data[i] in data;
    }
    forall r | r in data ensures KeyOf(r, xField) in keys {
      var i :| 0 <= i < |data| && data[i] == r;
      assert KeySeq(data, xField)[i] == KeyOf(r, xField);
      OutputKeysMembers(data, xField, KeyOf(r, xField));
    }
  }

  lemma AggregateAt(data: seq<Row>, xField: string, yField: string, agg: AggregationType, i: nat)
    requires i < |OutputKeys(data, xField)|
    ensures |Group(data, xField, yField, OutputKeys(data, xField)[i])| > 0
    ensures Aggregate(data, xField, yField, agg)[i]
      == GroupRow(xField, yField, OutputKeys(data, xField)[i],
                  Round2(Reduce(agg, Group(data, xField, yField, OutputKeys(data, xField)[i]))))
  {
    var keys := OutputKeys(data, xField);
    OutputKeysHaveGroups(data, xField, yField);
    assert keys[i] in keys;
    RowsForAt(keys, data, xField, yField, agg, i);
  }

  /** processAggregation emits exactly one row per distinct String(row[xField]): the
      output keys are the distinct keys of the input, each once, so there are as many
      rows as distinct keys (none for an empty input). Each row is the group row of its
      key, holding the rounded reduction of the key's group. */
  lemma AggregateRows(data: seq<Row>, xField: string, yField: string, agg: AggregationType)
    ensures var keys := OutputKeys(data, xField);
      && |Aggregate(data, xField, yField, agg)| == |keys| == |set r | r in data :: KeyOf(r, xField)|
      && Distinct(keys)
      && (set k | k in keys) == (set r | r in data :: KeyOf(r, xField))
      && (data == [] ==> Aggregate(data, xField, yField, agg) == [])
    ensures forall i :: 0 <= i < |OutputKeys(data, xField)| ==>
      var keys := OutputKeys(data, xField);
      var group := Group(data, xField, yField, keys[i]);
      |group| > 0
      && Aggregate(data, xField, yField, agg)[i] == GroupRow(xField, yField, keys[i], Round2(Reduce(agg, group)))
  {
    var keys := OutputKeys(data, xField);
    OutputKeysDistinct(data, xField);
    DistinctCardinality(keys);
    OutputKeysSet(data, xField);
    forall i | 0 <= i < |keys|
      ensures |Group(data, xField, yField, keys[i])| > 0
      ensures Aggregate(data, xField, yField, agg)[i] == GroupRow(xField, yField, keys[i], Round2(Reduce(agg, Group(data, xField, yField, keys[i]))))
    {
      AggregateAt(data, xField, yField, agg, i);
    }
  }

  // ---------------------------------------------------------------------------
  // Every row belongs to exactly one group

  function CountKey(keys: seq<string>, k: string): nat
    decreases |keys|
  {
    if keys == [] then 0 else CountKey(keys[..|keys| - 1], k) + (if keys[|keys| - 1] == k then 1 else 0)
  }

  /** A group holds one value per row with that key; COUNT is this size. */
  lemma {:induction false} GroupSize(data: seq<Row>, xField: string, yField: string, k: string)
    ensures |Group(data, xField, yField, k)| == CountKey(KeySeq(data, xField), k)
    decreases |data|
  {
    if data != [] {
      GroupSize(data[..|data| - 1], xField, yField, k);
      assert KeySeq(data, xField)[..|data| - 1] == KeySeq(data[..|data| - 1], xField);
    }
  }

  function TotalSize(keys: seq<string>, data: seq<Row>, xField: string, yField: string): nat
    decreases |keys|
  {
    if keys == [] then 0 else |Group(data, xField, yField, keys[0])| + TotalSize(keys[1..], data, xField, yField)
  }

  lemma {:induction false} TotalSizeAppendRow(keys: seq<string>, data: seq<Row>, xField: string, yField: string, row: Row)
    requires KeyOf(row, xField) !in keys
    ensures TotalSize(keys, data + [row], xField, yField) == TotalSize(keys, data, xField, yField)
    decreases |keys|
  {
    if keys != [] {
      assert (data + [row])[..|data|] == data;
      TotalSizeAppendRow(keys[1..], data, xField, yField, row);
    }
  }

  lemma {:induction false} TotalSizeAppendRowIn(keys: seq<string>, data: seq<Row>, xField: string, yField: string, row: Row)
    requires Distinct(keys) && KeyOf(row, xField) in keys
    ensures TotalSize(keys, data + [row], xField, yField) == TotalSize(keys, data, xField, yField) + 1
    decreases |keys|
  {
    assert (data + [row])[..|data|] == data;
    if keys[0] == KeyOf(row, xField) {
      assert KeyOf(row, xField) !in keys[1..];
      TotalSizeAppendRow(keys[1..], data, xField, yField, row);
    } else {
      TotalSizeAppendRowIn(keys[1..], data, xField, yField, row);
    }
  }

  lemma {:induction false} TotalSizeAppendKey(keys: seq<string>, k: string, data: seq<Row>, xField: string, yField: string)
    ensures TotalSize(keys + [k], data, xField, yField) == TotalSize(keys, data, xField, yField) + |Group(data, xField, yField, k)|
    decreases |keys|
  {
    if keys == [] {
      assert [k][1..] == [];
    } else {
      assert (keys + [k])[1..] == keys[1..] + [k];
      TotalSizeAppendKey(keys[1..], k, data, xField, yField);
    }
  }

  lemma {:induction false} GroupAppendAbsent(data: seq<Row>, xField: string, yField: string, k: string, row: Row)
    requires k !in FirstSeen(data, xField)
    ensures |Group(data, xField, yField, k)| == 0
  {
    FirstSeenGroups(data, xField, yField, k);
  }

  /** The groups partition the rows: their sizes add up to the number of rows. */
  lemma {:induction false} GroupsPartitionRows(data: seq<Row>, xField: string, yField: string)
    ensures TotalSize(FirstSeen(data, xField), data, xField, yField) == |data|
    decreases |data|
  {
    if data != [] {
      var front := data[..|data| - 1];
      var row := data[|data| - 1];
      var k := KeyOf(row, xField);
      var before := FirstSeen(front, xField);
      GroupsPartitionRows(front, xField, yField);
      FirstSeenDistinct(front, xField);
      assert data == front + [row];
      if k in before {
        TotalSizeAppendRowIn(before, front, xField, yField, row);
      } else {
        TotalSizeAppendRow(before, front, xField, yField, row);
        TotalSizeAppendKey(before, k, data, xField, yField);
        GroupAppendAbsent(front, xField, yField, k, row);
        assert Group(data, xField, yField, k) == Group(front, xField, yField, k) + [MeasureOf(row, yField)];
      }
    }
  }

  // ---------------------------------------------------------------------------
  // The reductions

  lemma {:induction false} MinMaxBounds(vals: seq<real>)
    requires |vals| > 0
    ensures Min(vals) in vals && Max(vals) in vals
    ensures forall v :: v in vals ==> Min(vals) <= v <= Max(vals)
    decreases |vals|
  {
    if |vals| > 1 {
      var front := vals[..|vals| - 1];
      MinMaxBounds(front);
      assert vals == front + [vals[|vals| - 1]];
    }
  }

  /** k copies of x added up. */
  function Times(k: nat, x: real): real
    decreases k
  {
    if k == 0 then 0.0 else Times(k - 1, x) + x
  }

  lemma {:induction false} TimesMonotone(k: nat, a: real, b: real)
    requires a <= b
    ensures Times(k, a) <= Times(k, b)
    decreases k
  {
    if k > 0 {
      TimesMonotone(k - 1, a, b);
    }
  }

  lemma {:induction false} TimesIsProduct(k: nat, x: real)
    ensures Times(k, x) == (k as real) * x
    decreases k
  {
    if k > 0 {
      TimesIsProduct(k - 1, x);
      SuccTimes(k as real, (k - 1) as real, x);
    }
  }

  lemma SuccTimes(m: real, n: real, x: real)
    requires m == n + 1.0
    ensures m * x == n * x + x
  {
  }

  /** The sum lies between |vals| times the minimum and |vals| times the maximum. */
  lemma {:induction false} SumBounds(vals: seq<real>)
    requires |vals| > 0
    ensures Times(|vals|, Min(vals)) <= Sum(vals) <= Times(|vals|, Max(vals))
    decreases |vals|
  {
    if |vals| == 1 {
      assert vals[..0] == [];
    } else {
      var front := vals[..|vals| - 1];
      var last := vals[|vals| - 1];
      SumBounds(front);
      var k := |front|;
      var lo, hi := Min(vals), Max(vals);
      assert Sum(vals) == Sum(front) + last;
      assert lo <= Min(front) && lo <= last;
      assert hi >= Max(front) && hi >= last;
      TimesMonotone(k, lo, Min(front));
      TimesMonotone(k, Max(front), hi);
      assert Times(|vals|, lo) == Times(k, lo) + lo;
      assert Times(|vals|, hi) == Times(k, hi) + hi;
    }
  }

  /** MIN is a member of the group not above any member, MAX one not below any member,
      and AVG lies between them. SUM, COUNT and NONE are the sum, the size and the first
      member. */
  lemma ReduceMeaning(vals: seq<real>)
    requires |vals| > 0
    ensures Reduce(MIN, vals) in vals && Reduce(MAX, vals) in vals
    ensures forall v :: v in vals ==> Reduce(MIN, vals) <= v <= Reduce(MAX, vals)
    ensures Reduce(MIN, vals) <= Reduce(AVG, vals) <= Reduce(MAX, vals)
    ensures Reduce(AVG, vals) * (|vals| as real) == Reduce(SUM, vals)
    ensures Reduce(COUNT, vals) == |vals| as real && Reduce(NONE, vals) == vals[0]
  {
    MinMaxBounds(vals);
    SumBounds(vals);
    TimesIsProduct(|vals|, Min(vals));
    TimesIsProduct(|vals|, Max(vals));
    var n := |vals| as real;
    assert Sum(vals) / n * n == Sum(vals);
    DivAtLeast(Sum(vals), n, Min(vals));
    DivAtMost(Sum(vals), n, Max(vals));
  }

  lemma DivAtLeast(s: real, n: real, lo: real)
    requires n > 0.0 && n * lo <= s
    ensures lo <= s / n
  {
    var q := s / n;
    assert q * n == s;
    if q < lo {
      assert n * (lo - q) > 0.0;
    }
  }

  lemma DivAtMost(s: real, n: real, hi: real)
    requires n > 0.0 && s <= n * hi
    ensures s / n <= hi
  {
    var q := s / n;
    assert q * n == s;
    if q > hi {
      assert n * (q - hi) > 0.0;
    }
  }

  /** A group of one value reduces to that value under every operator except COUNT. */
  lemma ReduceSingleton(agg: AggregationType, v: real)
    requires agg != COUNT
    ensures Reduce(agg, [v]) == v
  {
    assert [v][..0] == [];
    assert Sum([v]) == Sum([]) + v;
  }

  /** Rounding is monotone, so it keeps MIN <= member <= MAX. */
  lemma Round2Monotone(a: real, b: real)
    requires a <= b
    ensures Round2(a) <= Round2(b)
  {
    assert (a * 100.0 + 0.5).Floor <= (b * 100.0 + 0.5).Floor;
  }

  /** A number of whole hundredths, integers included, is not changed by rounding. */
  lemma Round2Hundredths(n: int)
    ensures Round2(n as real / 100.0) == n as real / 100.0
  {
    assert n as real / 100.0 * 100.0 + 0.5 == n as real + 0.5;
    assert (n as real + 0.5).Floor == n;
  }

  lemma Round2Whole(n: int)
    ensures Round2(n as real) == n as real
  {
    Round2Hundredths(100 * n);
    assert (100 * n) as real / 100.0 == n as real;
  }

  lemma Round2Idempotent(r: real)
    ensures Round2(Round2(r)) == Round2(r)
  {
    Round2Hundredths((r * 100.0 + 0.5).Floor);
  }

  /** By the monotonicity of rounding, the emitted MIN and MAX of a group bound the
      rounded value of every member. */
  lemma RoundedMinMax(vals: seq<real>)
    requires |vals| > 0
    ensures forall v :: v in vals ==> Round2(Reduce(MIN, vals)) <= Round2(v) <= Round2(Reduce(MAX, vals))
  {
    ReduceMeaning(vals);
    forall v | v in vals ensures Round2(Reduce(MIN, vals)) <= Round2(v) <= Round2(Reduce(MAX, vals)) {
      Round2Monotone(Reduce(MIN, vals), v);
      Round2Monotone(v, Reduce(MAX, vals));
    }
  }

  // ---------------------------------------------------------------------------
  // Re-aggregation is a no-op

  lemma {:induction false} FirstSeenOfDistinctKeys(data: seq<Row>, xField: string)
    requires Distinct(KeySeq(data, xField))
    ensures FirstSeen(data, xField) == KeySeq(data, xField)
    decreases |data|
  {
    if data != [] {
      var front := data[..|data| - 1];
      assert KeySeq(data, xField) == KeySeq(front, xField) + [KeyOf(data[|data| - 1], xField)];
      assert Distinct(KeySeq(front, xField));
      FirstSeenOfDistinctKeys(front, xField);
    }
  }

  lemma {:induction false} GroupOfDistinctKeys(data: seq<Row>, xField: string, yField: string, i: nat)
    requires Distinct(KeySeq(data, xField)) && i < |data|
    ensures Group(data, xField, yField, KeyOf(data[i], xField)) == [MeasureOf(data[i], yField)]
    decreases |data|
  {
    var front := data[..|data| - 1];
    var k := KeyOf(data[i], xField);
    assert KeySeq(data, xField) == KeySeq(front, xField) + [KeyOf(data[|data| - 1], xField)];
    assert Distinct(KeySeq(front, xField));
    if i == |data| - 1 {
      assert k !in KeySeq(front, xField);
      FirstSeenGroups(front, xField, yField, k);
    } else {
      GroupOfDistinctKeys(front, xField, yField, i);
      assert KeySeq(data, xField)[i] != KeySeq(data, xField)[|data| - 1];
    }
  }

  /** When no two rows share a key and no key is an array index, every row is its own
      group and the output follows the input row by row. */
  lemma AggregateOfDistinctKeys(data: seq<Row>, xField: string, yField: string, agg: AggregationType)
    requires Distinct(KeySeq(data, xField))
    requires forall i :: 0 <= i < |data| ==> !IsArrayIndex(KeyOf(data[i], xField))
    ensures |Aggregate(data, xField, yField, agg)| == |data|
    ensures forall i :: 0 <= i < |data| ==>
      Aggregate(data, xField, yField, agg)[i]
        == GroupRow(xField, yField, KeyOf(data[i], xField), Round2(Reduce(agg, [MeasureOf(data[i], yField)])))
  {
    FirstSeenOfDistinctKeys(data, xField);
    OwnKeyOrderPlain(KeySeq(data, xField));
    assert OutputKeys(data, xField) == KeySeq(data, xField);
    forall i | 0 <= i < |data|
      ensures Aggregate(data, xField, yField, agg)[i]
        == GroupRow(xField, yField, KeyOf(data[i], xField), Round2(Reduce(agg, [MeasureOf(data[i], yField)])))
    {
      AggregateAt(data, xField, yField, agg, i);
      GroupOfDistinctKeys(data, xField, yField, i);
    }
  }

  /** Read back with the same fields, the i-th output row has the i-th key and the
      i-th reduced value. */
  lemma AggregatedRowAt(data: seq<Row>, xField: string, yField: string, agg: AggregationType, i: nat)
    requires xField != yField && i < |OutputKeys(data, xField)|
    ensures |Group(data, xField, yField, OutputKeys(data, xField)[i])| > 0
    ensures KeyOf(Aggregate(data, xField, yField, agg)[i], xField) == OutputKeys(data, xField)[i]
    ensures MeasureOf(Aggregate(data, xField, yField, agg)[i], yField)
      == Round2(Reduce(agg, Group(data, xField, yField, OutputKeys(data, xField)[i])))
  {
    var keys := OutputKeys(data, xField);
    AggregateAt(data, xField, yField, agg, i);
    GroupRowShape(xField, yField, keys[i], Round2(Reduce(agg, Group(data, xField, yField, keys[i]))));
  }

  /** The output lists its keys in the order of OutputKeys, so aggregating it again
      keeps that order. */
  lemma OutputKeysOfAggregate(data: seq<Row>, xField: string, yField: string, agg: AggregationType)
    requires xField != yField
    ensures KeySeq(Aggregate(data, xField, yField, agg), xField) == OutputKeys(data, xField)
    ensures Distinct(KeySeq(Aggregate(data, xField, yField, agg), xField))
    ensures OutputKeys(Aggregate(data, xField, yField, agg), xField) == OutputKeys(data, xField)
  {
    var out := Aggregate(data, xField, yField, agg);
    var keys := OutputKeys(data, xField);
    forall i | 0 <= i < |out| ensures KeySeq(out, xField)[i] == keys[i] {
      AggregatedRowAt(data, xField, yField, agg, i);
    }
    OutputKeysDistinct(data, xField);
    FirstSeenOfDistinctKeys(out, xField);
    OwnKeyOrderIdempotent(FirstSeen(data, xField));
  }

  /** Aggregating an aggregated result again with the same fields and an operator other
      than COUNT gives it back unchanged: every group has one member. */
  lemma AggregateIdempotent(data: seq<Row>, xField: string, yField: string, agg: AggregationType)
    requires xField != yField && agg != COUNT
    ensures Aggregate(Aggregate(data, xField, yField, agg), xField, yField, agg) == Aggregate(data, xField, yField, agg)
  {
    var out := Aggregate(data, xField, yField, agg);
    var keys := OutputKeys(data, xField);
    OutputKeysOfAggregate(data, xField, yField, agg);
    var again := Aggregate(out, xField, yField, agg);
    forall i | 0 <= i < |keys| ensures again[i] == out[i] {
      AggregatedRowAt(data, xField, yField, agg, i);
      var v := Round2(Reduce(agg, Group(data, xField, yField, keys[i])));
      GroupOfDistinctKeys(out, xField, yField, i);
      assert Group(out, xField, yField, keys[i]) == [v];
      ReduceSingleton(agg, v);
      Round2Idempotent(Reduce(agg, Group(data, xField, yField, keys[i])));
      AggregateAt(out, xField, yField, agg, i);
      AggregateAt(data, xField, yField, agg, i);
    }
  }

  // ---------------------------------------------------------------------------
  // The group dictionary as written: a plain object literal

  /** The properties every plain object inherits from Object.prototype. */
  const InheritedNames: set<string> := {
    "constructor", "toString", "toLocaleString", "valueOf", "hasOwnProperty",
    "isPrototypeOf", "propertyIsEnumerable", "__proto__",
    "__defineGetter__", "__defineSetter__", "__lookupGetter__", "__lookupSetter__"}

  /** What `groups[key]` reads on the `{}` dictionary: the own bucket if there is one,
      else an inherited Object.prototype member (a function, or Object.prototype itself
      for __proto__), else undefined. */
  datatype Slot = OwnBucket(vals: seq<real>) | InheritedMember | Absent

  function ReadSlot(buckets: map<string, seq<real>>, key: string): Slot
  {
    if key in buckets then OwnBucket(buckets[key])
    else if key in InheritedNames then InheritedMember
    else Absent
  }

  /** The group dictionary as written: its own properties and their creation order. */
  datatype Dict = Dict(buckets: map<string, seq<real>>, created: seq<string>)

  /** One pass of the forEach as written. Only undefined is falsy: then `groups[key] = []`
      creates the property and the push fills it. An array is truthy even when empty, and
      so is an inherited member, on which nothing is created and `.push` is not a
      function; None is that TypeError. */
  function PushAsWritten(d: Dict, key: string, val: real): Option<Dict>
  {
    match ReadSlot(d.buckets, key)
    case OwnBucket(b) => Some(Dict(d.buckets[key := b + [val]], d.created))
    case Absent => Some(Dict(d.buckets[key := [val]], d.created + [key]))
    case InheritedMember => None
  }

  /** The forEach pass as written, row after row; None once a push has thrown. */
  function GroupAsWritten(data: seq<Row>, xField: string, yField: string): Option<Dict>
    decreases |data|
  {
    if data == [] then Some(Dict(map[], []))
    else
      match GroupAsWritten(data[..|data| - 1], xField, yField)
      case None => None
      case Some(d) =>
        var last := data[|data| - 1];
        PushAsWritten(d, KeyOf(last, xField), MeasureOf(last, yField))
  }

  /** processAggregation as written: the thrown TypeError is None. */
  function AggregateAsWritten(data: seq<Row>, xField: string, yField: string, agg: AggregationType): Option<seq<Row>>
  {
    match GroupAsWritten(data, xField, yField)
    case None => None
    case Some(d) =>
      GroupAsWrittenMeaning(data, xField, yField);
      BucketsCoverKeys(data, xField, yField, d.buckets, d.created);
      Some(BucketRows(d.buckets, OwnKeyOrder(d.created), xField, yField, agg))
  }

  /** Some row's key names an inherited member. */
  predicate AnyInherited(data: seq<Row>, xField: string)
    decreases |data|
  {
    data != [] && (AnyInherited(data[..|data| - 1], xField) || KeyOf(data[|data| - 1], xField) in InheritedNames)
  }

  lemma {:induction false} AnyInheritedMeaning(data: seq<Row>, xField: string)
    ensures AnyInherited(data, xField) <==> exists i :: 0 <= i < |data| && KeyOf(data[i], xField) in InheritedNames
    decreases |data|
  {
    if data != [] {
      var init := data[..|data| - 1];
      AnyInheritedMeaning(init, xField);
      if AnyInherited(init, xField) {
        var i :| 0 <= i < |init| && KeyOf(init[i], xField) in InheritedNames;
        assert data[i] == init[i];
      } else if KeyOf(data[|data| - 1], xField) !in InheritedNames {
        forall i | 0 <= i < |data| ensures KeyOf(data[i], xField) !in InheritedNames {
          if i < |init| {
            assert data[i] == init[i];
          }
        }
      }
    }
  }

  /** The pass as written throws exactly when some row's key names an inherited member;
      otherwise its dictionary is the one the intended pass builds, and no property of it
      has an inherited name. */
  lemma {:induction false} GroupAsWrittenMeaning(data: seq<Row>, xField: string, yField: string)
    ensures GroupAsWritten(data, xField, yField).None? <==> AnyInherited(data, xField)
    ensures GroupAsWritten(data, xField, yField).Some? ==>
      var d := GroupAsWritten(data, xField, yField).value;
      Grouped(data, xField, yField, d.buckets, d.created)
      && forall k :: k in d.buckets ==> k !in InheritedNames
    decreases |data|
  {
    if data == [] {
      assert Grouped(data, xField, yField, map[], []);
    } else {
      var init, last := data[..|data| - 1], data[|data| - 1];
      assert data == init + [last];
      GroupAsWrittenMeaning(init, xField, yField);
      match GroupAsWritten(init, xField, yField)
      case None =>
      case Some(d) =>
        PushAsWrittenStep(init, last, xField, yField, d);
    }
  }

  /** One pass as written: a row with an inherited key throws; any other row takes the
      intended step. */
  lemma PushAsWrittenStep(pre: seq<Row>, row: Row, xField: string, yField: string, d: Dict)
    requires Grouped(pre, xField, yField, d.buckets, d.created)
    requires forall k :: k in d.buckets ==> k !in InheritedNames
    ensures var r := PushAsWritten(d, KeyOf(row, xField), MeasureOf(row, yField));
      (r.None? <==> KeyOf(row, xField) in InheritedNames)
      && (r.Some? ==> Grouped(pre + [row], xField, yField, r.value.buckets, r.value.created)
                      && forall k :: k in r.value.buckets ==> k !in InheritedNames)
  {
    var key, val := KeyOf(row, xField), MeasureOf(row, yField);
    PushCases(d, key, val);
    if key !in InheritedNames {
      var bucket := if key in d.buckets then d.buckets[key] else [];
      GroupStep(pre, row, xField, yField, d.buckets, d.created, key, val, bucket);
    }
  }

  /** The push as written on a dictionary without inherited names among its properties:
      an inherited name throws, any other key takes the intended step. */
  lemma PushCases(d: Dict, key: string, val: real)
    requires forall k :: k in d.buckets ==> k !in InheritedNames
    ensures key in InheritedNames ==> PushAsWritten(d, key, val).None?
    ensures key !in InheritedNames ==>
      PushAsWritten(d, key, val)
        == Some(Dict(d.buckets[key := (if key in d.buckets then d.buckets[key] else []) + [val]],
                     if key in d.buckets then d.created else d.created + [key]))
  {
    if key in InheritedNames {
      assert key !in d.buckets;
    } else if key !in d.buckets {
      assert [] + [val] == [val];
    }
  }

  /** Every key Object.keys lists has a non-empty bucket holding its group. */
  lemma BucketsCoverKeys(data: seq<Row>, xField: string, yField: string,
                         buckets: map<string, seq<real>>, created: seq<string>)
    requires Grouped(data, xField, yField, buckets, created)
    ensures forall k :: k in OwnKeyOrder(created) ==>
      k in buckets && buckets[k] == Group(data, xField, yField, k) && |buckets[k]| > 0
  {
    OutputKeysHaveGroups(data, xField, yField);
  }

  /** processAggregation as written fails exactly when some row's key names an inherited
      member, and otherwise returns what the intended aggregation returns. */
  lemma AggregateAsWrittenMeaning(data: seq<Row>, xField: string, yField: string, agg: AggregationType)
    ensures AggregateAsWritten(data, xField, yField, agg).None?
      <==> exists i :: 0 <= i < |data| && KeyOf(data[i], xField) in InheritedNames
    ensures AggregateAsWritten(data, xField, yField, agg).Some? ==>
      AggregateAsWritten(data, xField, yField, agg).value == Aggregate(data, xField, yField, agg)
  {
    GroupAsWrittenMeaning(data, xField, yField);
    AnyInheritedMeaning(data, xField);
    if GroupAsWritten(data, xField, yField).Some? {
      var d := GroupAsWritten(data, xField, yField).value;
      BucketsCoverKeys(data, xField, yField, d.buckets, d.created);
      BucketRowsAgree(d.buckets, OwnKeyOrder(d.created), data, xField, yField, agg);
    }
  }

  /** A single sales row whose month is "constructor" makes the code as written throw:
      the read finds Object.prototype's constructor, so no bucket is created and the push
      fails. The intended grouping yields one row for it. */
  lemma InheritedKeyThrows()
    ensures var data := [[("month", Str("constructor")), ("revenue", Num(10.0))]];
      GroupAsWritten(data[..0], "month", "revenue") == Some(Dict(map[], []))
      && ReadSlot(map[], KeyOf(data[0], "month")) == InheritedMember
      && AggregateAsWritten(data, "month", "revenue", SUM).None?
      && |Aggregate(data, "month", "revenue", SUM)| == 1
  {
    var data := [[("month", Str("constructor")), ("revenue", Num(10.0))]];
    var key := KeyOf(data[0], "month");
    assert Lookup(data[0], "month") == Some(Str("constructor"));
    assert key == "constructor";
    assert data[..0] == [];
    assert FirstSeen(data, "month") == [key];
    assert !IsArrayIndex(key) by {
      assert !IsDigit(key[0]);
    }
    OwnKeyOrderPlain([key]);
    assert |OutputKeys(data, "month")| == 1;
  }

  /** Away from inherited names, the code as written computes the intended aggregation. */
  lemma AsWrittenAgreesOffInheritedNames(data: seq<Row>, xField: string, yField: string, agg: AggregationType)
    requires forall r :: r in data ==> KeyOf(r, xField) !in InheritedNames
    ensures AggregateAsWritten(data, xField, yField, agg) == Some(Aggregate(data, xField, yField, agg))
  {
    AggregateAsWrittenMeaning(data, xField, yField, agg);
  }
}
