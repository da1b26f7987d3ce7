/** JavaScript values as they appear in the rows of a data set, property lookup and
    assignment on plain objects, truthiness, the conversions Number(v) and String(v),
    the enumeration order of Object.keys, and the parsing of ISO calendar dates. */
module Values {
  import opened Common

  /** A value a row can hold: a string, a finite number, a boolean, null, or a nested
      plain object whose contents the model does not look into. */
  datatype Value = Str(s: string) | Num(n: real) | Bool(b: bool) | Null | Nested

  /** A plain object: its own properties in creation order. */
  type Row = seq<(string, Value)>

  /** The property names of an object in creation order. */
  function Names<V>(entries: seq<(string, V)>): (r: seq<string>)
    ensures |r| == |entries|
    decreases |entries|
  {
    if entries == [] then [] else [entries[0].0] + Names(entries[1..])
  }

  lemma {:induction false} NamesAt<V>(entries: seq<(string, V)>, i: nat)
    requires i < |entries|
    ensures Names(entries)[i] == entries[i].0
    decreases |entries|
  {
    if i > 0 {
      NamesAt(entries[1..], i - 1);
    }
  }

  /** obj[k]: the value of property k, None when the object has none (undefined). */
  function Lookup<V>(entries: seq<(string, V)>, k: string): (r: Option<V>)
    ensures r.Some? <==> k in Names(entries)
    decreases |entries|
  {
    if entries == [] then None
    else if entries[0].0 == k then Some(entries[0].1)
    else Lookup(entries[1..], k)
  }

  /** The first property named k decides obj[k]. */
  lemma {:induction false} LookupAt<V>(entries: seq<(string, V)>, k: string, i: nat)
    requires i < |entries| && entries[i].0 == k
    requires forall j :: 0 <= j < i ==> entries[j].0 != k
    ensures Lookup(entries, k) == Some(entries[i].1)
    decreases i
  {
    if i > 0 {
      LookupAt(entries[1..], k, i - 1);
    }
  }

  /** obj[k] = v: an existing property keeps its place, a new one is added last. */
  function Assign<V>(entries: seq<(string, V)>, k: string, v: V): (r: seq<(string, V)>)
    ensures Lookup(r, k) == Some(v)
    ensures forall j :: j != k ==> Lookup(r, j) == Lookup(entries, j)
    ensures Names(r) == if k in Names(entries) then Names(entries) else Names(entries) + [k]
    decreases |entries|
  {
    if entries == [] then [(k, v)]
    else if entries[0].0 == k then [(k, v)] + entries[1..]
    else [entries[0]] + Assign(entries[1..], k, v)
  }

  /** Assigning keeps the property names free of repetitions. */
  lemma AssignKeepsDistinct<V>(entries: seq<(string, V)>, k: string, v: V)
    requires Distinct(Names(entries))
    ensures Distinct(Names(Assign(entries, k, v)))
  {
    var before := Names(entries);
    var after := Names(Assign(entries, k, v));
    if k !in before {
      forall i, j | 0 <= i < j < |after| ensures after[i] != after[j] {
        if j == |before| {
          assert after[i] == before[i] && before[i] in before;
        } else {
          assert after[i] == before[i] && after[j] == before[j];
        }
      }
    }
  }

  /** JavaScript truthiness of a property read; None is undefined. */
  predicate Truthy(v: Option<Value>)
  {
    match v
    case None => false
    case Some(Str(s)) => s != ""
    case Some(Num(n)) => n != 0.0
    case Some(Bool(b)) => b
    case Some(Null) => false
    case Some(Nested) => true
  }

  /** typeof v === 'object', which holds for null as well. */
  predicate IsObject(v: Option<Value>)
  {
    v == Some(Null) || v == Some(Nested)
  }

  // ---------------------------------------------------------------------------
  // Number(v)

  function TrimStart(s: string): (r: string)
    ensures |r| <= |s|
    decreases |s|
  {
    if s != [] && IsJsSpace(s[0]) then TrimStart(s[1..]) else s
  }

  function TrimEnd(s: string): (r: string)
    ensures |r| <= |s|
    decreases |s|
  {
    if s != [] && IsJsSpace(s[|s| - 1]) then TrimEnd(s[..|s| - 1]) else s
  }

  /** The position of the first occurrence of c in s. */
  function IndexOf(s: string, c: char): (r: Option<nat>)
    ensures r.Some? ==> r.value < |s| && s[r.value] == c && c !in s[..r.value]
    ensures r.None? ==> c !in s
    decreases |s|
  {
    if s == [] then None
    else if s[0] == c then Some(0)
    else match IndexOf(s[1..], c)
      case None => None
      case Some(i) => assert s[..i + 1] == [s[0]] + s[1..][..i]; Some(i + 1)
  }

  /** An unsigned decimal literal: digits, optionally a point and more digits, with at
      least one digit in all; None is NaN. */
  function ParseUnsigned(u: string): Option<real>
  {
    match IndexOf(u, '.')
    case None =>
      if u != "" && AllDigits(u) then Some(DigitsValue(u) as real) else None
    case Some(dot) =>
      var whole, fraction := u[..dot], u[dot + 1..];
      if (whole == "" && fraction == "") || !AllDigits(whole) || !AllDigits(fraction) then None
      else Some(DigitsValue(whole) as real + DigitsValue(fraction) as real / Pow10(|fraction|) as real)
  }

  /** Number(s) for a string: surrounding white space is ignored, the empty string is
      0, and a signed decimal literal is its value; None is NaN. */
  function ParseNumber(s: string): Option<real>
  {
    var t := TrimEnd(TrimStart(s));
    if t == "" then Some(0.0)
    else if t[0] == '-' then
      match ParseUnsigned(t[1..])
      case None => None
      case Some(r) => Some(-r)
    else if t[0] == '+' then ParseUnsigned(t[1..])
    else ParseUnsigned(t)
  }

  /** Number(v); None is NaN. */
  function ToNumber(v: Option<Value>): Option<real>
  {
    match v
    case None => None
    case Some(Str(s)) => ParseNumber(s)
    case Some(Num(n)) => Some(n)
    case Some(Bool(b)) => Some(if b then 1.0 else 0.0)
    case Some(Null) => Some(0.0)
    case Some(Nested) => None
  }

  /** Number(v) || 0: NaN becomes 0, every other number is kept. */
  function Coerce(v: Option<Value>): real
  {
    match ToNumber(v)
    case None => 0.0
    case Some(n) => n
  }

  // ---------------------------------------------------------------------------
  // String(v)

  /** The digits of a fraction 0 <= f < 1 after the decimal point, at most `places` of them. */
  function FractionDigits(f: real, places: nat): string
    requires 0.0 <= f < 1.0
    decreases places
  {
    if places == 0 || f == 0.0 then ""
    else
      var d := (f * 10.0).Floor;
      [DigitChar(d)] + FractionDigits(f * 10.0 - d as real, places - 1)
  }

  function UnsignedText(r: real): string
    requires r >= 0.0
  {
    var whole := r.Floor;
    var fraction := r - whole as real;
    NatText(whole) + if fraction == 0.0 then "" else "." + FractionDigits(fraction, 20)
  }

  /** String(n) for a finite number: exact for integers and for fractions of at most
      twenty decimal places. */
  function NumberText(r: real): string
  {
    if r < 0.0 then "-" + UnsignedText(-r) else UnsignedText(r)
  }

  /** String(v); None is undefined. */
  function Text(v: Option<Value>): string
  {
    match v
    case None => "undefined"
    case Some(Str(s)) => s
    case Some(Num(n)) => NumberText(n)
    case Some(Bool(b)) => if b then "true" else "false"
    case Some(Null) => "null"
    case Some(Nested) => "[object Object]"
  }

  lemma NatTextHasNoSpaceOrDot(n: nat)
    ensures '.' !in NatText(n)
    ensures NatText(n)[0] != '-' && NatText(n)[0] != '+'
    ensures TrimEnd(TrimStart(NatText(n))) == NatText(n)
  {
    var t := NatText(n);
    assert IsDigit(t[0]) && IsDigit(t[|t| - 1]);
    assert forall i :: 0 <= i < |t| ==> t[i] != '.';
  }

  /** Number(String(i)) == i for every integer: writing an integer as text and reading
      it back is the identity. */
  lemma {:induction false} IntegerTextRoundTrip(i: int)
    ensures ParseNumber(NumberText(i as real)) == Some(i as real)
    ensures Coerce(Some(Str(Text(Some(Num(i as real)))))) == i as real
  {
    var m: nat := if i < 0 then -i else i;
    if i < 0 {
      assert NumberText(i as real) == "-" + UnsignedText(m as real);
      UnsignedIntegerText(m);
      NegativeText(m);
    } else {
      assert NumberText(i as real) == UnsignedText(m as real);
      UnsignedIntegerText(m);
    }
    assert Text(Some(Num(i as real))) == NumberText(i as real);
  }

  lemma NegativeText(m: nat)
    ensures ParseNumber("-" + NatText(m)) == Some(-(m as real))
  {
    var t := "-" + NatText(m);
    UnsignedIntegerText(m);
    NatTextHasNoSpaceOrDot(m);
    assert t[1..] == NatText(m);
    assert TrimStart(t) == t;
    assert TrimEnd(t) == t by {
      assert t[|t| - 1] == NatText(m)[|NatText(m)| - 1];
    }
  }

  lemma UnsignedIntegerText(m: nat)
    ensures UnsignedText(m as real) == NatText(m)
    ensures ParseUnsigned(NatText(m)) == Some(m as real)
    ensures ParseNumber(NatText(m)) == Some(m as real)
  {
    NatTextRoundTrip(m);
    NatTextHasNoSpaceOrDot(m);
    assert (m as real).Floor == m;
    assert IndexOf(NatText(m), '.').None?;
  }

  // ---------------------------------------------------------------------------
  // Object.keys order

  /** A canonical array index: "0", or digits without a leading zero, below 2^32 - 1.
      Such property names enumerate before all others, in ascending numeric order. */
  predicate IsArrayIndex(s: string)
  {
    |s| > 0 && AllDigits(s) && (s[0] != '0' || |s| == 1) && DigitsValue(s) < 4294967295
  }

  function IndexValue(s: string): nat
    requires IsArrayIndex(s)
  {
    DigitsValue(s)
  }

  function IndexNames(names: seq<string>): (r: seq<string>)
    ensures forall k :: k in r ==> IsArrayIndex(k)
    decreases |names|
  {
    if names == [] then []
    else (if IsArrayIndex(names[0]) then [names[0]] else []) + IndexNames(names[1..])
  }

  function OtherNames(names: seq<string>): (r: seq<string>)
    ensures forall k :: k in r ==> !IsArrayIndex(k)
    decreases |names|
  {
    if names == [] then []
    else (if IsArrayIndex(names[0]) then [] else [names[0]]) + OtherNames(names[1..])
  }

  predicate SortedIndices(s: seq<string>)
  {
    (forall k :: k in s ==> IsArrayIndex(k))
    && forall i, j :: 0 <= i < j < |s| ==> IndexValue(s[i]) <= IndexValue(s[j])
  }

  function InsertIndex(k: string, sorted: seq<string>): (r: seq<string>)
    requires IsArrayIndex(k) && forall x :: x in sorted ==> IsArrayIndex(x)
    ensures multiset(r) == multiset(sorted) + multiset{k}
    ensures forall x :: x in r ==> IsArrayIndex(x)
    decreases |sorted|
  {
    if sorted == [] || IndexValue(k) <= IndexValue(sorted[0]) then [k] + sorted
    else
      assert sorted == [sorted[0]] + sorted[1..];
      [sorted[0]] + InsertIndex(k, sorted[1..])
  }

  function SortIndices(s: seq<string>): (r: seq<string>)
    requires forall x :: x in s ==> IsArrayIndex(x)
    ensures multiset(r) == multiset(s)
    ensures forall x :: x in r ==> IsArrayIndex(x)
    decreases |s|
  {
    if s == [] then []
    else
      assert s == [s[0]] + s[1..];
      InsertIndex(s[0], SortIndices(s[1..]))
  }

  /** The order in which Object.keys lists the property names an object was given in
      creation order `names`. */
  function OwnKeyOrder(names: seq<string>): seq<string>
  {
    SortIndices(IndexNames(names)) + OtherNames(names)
  }

  /** Object.keys(row). */
  function Keys(row: Row): seq<string>
  {
    OwnKeyOrder(Names(row))
  }

  lemma {:induction false} PartitionNames(names: seq<string>)
    ensures multiset(IndexNames(names)) + multiset(OtherNames(names)) == multiset(names)
    decreases |names|
  {
    if names != [] {
      PartitionNames(names[1..]);
      assert names == [names[0]] + names[1..];
    }
  }

  /** Object.keys lists every property exactly as often as it was created. */
  lemma OwnKeyOrderPermutes(names: seq<string>)
    ensures multiset(OwnKeyOrder(names)) == multiset(names)
    ensures |OwnKeyOrder(names)| == |names|
  {
    PartitionNames(names);
    assert |multiset(OwnKeyOrder(names))| == |multiset(names)|;
  }

  lemma {:induction false} OtherNamesOfPlain(names: seq<string>)
    requires forall k :: k in names ==> !IsArrayIndex(k)
    ensures IndexNames(names) == [] && OtherNames(names) == names
    decreases |names|
  {
    if names != [] {
      OtherNamesOfPlain(names[1..]);
    }
  }

  /** Without array-index names, Object.keys is creation order. */
  lemma OwnKeyOrderPlain(names: seq<string>)
    requires forall k :: k in names ==> !IsArrayIndex(k)
    ensures OwnKeyOrder(names) == names
  {
    OtherNamesOfPlain(names);
  }

  /** Names that do not start with a digit enumerate in creation order. */
  lemma PlainNames(names: seq<string>)
    requires forall k :: k in names ==> |k| > 0 && !IsDigit(k[0])
    ensures OwnKeyOrder(names) == names
  {
    OwnKeyOrderPlain(names);
  }

  lemma InsertIndexMembers(k: string, sorted: seq<string>)
    requires IsArrayIndex(k) && forall x :: x in sorted ==> IsArrayIndex(x)
    ensures forall x :: x in InsertIndex(k, sorted) ==> x == k || x in sorted
  {
    var r := InsertIndex(k, sorted);
    forall x | x in r ensures x == k || x in sorted {
      assert x in multiset(r);
    }
  }

  lemma {:induction false} InsertIndexSorted(k: string, sorted: seq<string>)
    requires IsArrayIndex(k) && SortedIndices(sorted)
    ensures SortedIndices(InsertIndex(k, sorted))
    decreases |sorted|
  {
    if sorted != [] && IndexValue(k) > IndexValue(sorted[0]) {
      InsertIndexSorted(k, sorted[1..]);
      var r := InsertIndex(k, sorted);
      var tail := InsertIndex(k, sorted[1..]);
      assert r == [sorted[0]] + tail;
      InsertIndexMembers(k, sorted[1..]);
      forall x | x in tail ensures IndexValue(sorted[0]) <= IndexValue(x) {
        if x != k {
          var j :| 0 <= j < |sorted[1..]| && sorted[1..][j] == x;
          assert sorted[j + 1] == x;
        }
      }
      ConsSorted(sorted[0], tail);
    }
  }

  lemma ConsSorted(h: string, tail: seq<string>)
    requires IsArrayIndex(h) && SortedIndices(tail)
    requires forall x :: x in tail ==> IndexValue(h) <= IndexValue(x)
    ensures SortedIndices([h] + tail)
  {
    var r := [h] + tail;
    forall i, j | 0 <= i < j < |r| ensures IndexValue(r[i]) <= IndexValue(r[j]) {
      if i > 0 {
        assert r[i] == tail[i - 1] && r[j] == tail[j - 1];
      } else {
        assert r[j] == tail[j - 1] && r[j] in tail;
      }
    }
  }

  lemma {:induction false} SortIndicesSorted(s: seq<string>)
    requires forall x :: x in s ==> IsArrayIndex(x)
    ensures SortedIndices(SortIndices(s))
    decreases |s|
  {
    if s != [] {
      SortIndicesSorted(s[1..]);
      InsertIndexSorted(s[0], SortIndices(s[1..]));
    }
  }

  /** Sorting a list already in ascending order changes nothing. */
  lemma {:induction false} SortIndicesOfSorted(s: seq<string>)
    requires SortedIndices(s)
    ensures SortIndices(s) == s
    decreases |s|
  {
    if s != [] {
      assert SortedIndices(s[1..]);
      SortIndicesOfSorted(s[1..]);
      assert s == [s[0]] + s[1..];
    }
  }

  lemma {:induction false} SplitIndexOther(a: seq<string>, b: seq<string>)
    requires forall k :: k in a ==> IsArrayIndex(k)
    requires forall k :: k in b ==> !IsArrayIndex(k)
    ensures IndexNames(a + b) == a && OtherNames(a + b) == b
    decreases |a|
  {
    if a == [] {
      assert a + b == b;
      OtherNamesOfPlain(b);
    } else {
      SplitIndexOther(a[1..], b);
      assert (a + b)[1..] == a[1..] + b;
      assert a == [a[0]] + a[1..];
    }
  }

  /** Enumerating the keys of an object created in Object.keys order gives the same order. */
  lemma OwnKeyOrderIdempotent(names: seq<string>)
    ensures OwnKeyOrder(OwnKeyOrder(names)) == OwnKeyOrder(names)
  {
    var sorted := SortIndices(IndexNames(names));
    SortIndicesSorted(IndexNames(names));
    SplitIndexOther(sorted, OtherNames(names));
    SortIndicesOfSorted(sorted);
  }

  // ---------------------------------------------------------------------------
  // Dates

  /** new Date(s) for an ISO calendar date "YYYY-MM-DD", as the number yyyymmdd, whose
      integer order is the chronological order; None is an Invalid Date. */
  function IsoDate(s: string): Option<int>
  {
    if |s| == 10 && s[4] == '-' && s[7] == '-'
       && AllDigits(s[..4]) && AllDigits(s[5..7]) && AllDigits(s[8..])
    then
      var y, m, d := DigitsValue(s[..4]), DigitsValue(s[5..7]), DigitsValue(s[8..]);
      if 1 <= m <= 12 && 1 <= d <= 31 then Some(y * 10000 + m * 100 + d) else None
    else None
  }

  /** The date number orders valid dates by year, then month, then day. */
  lemma IsoDateChronological(y1: nat, m1: nat, d1: nat, y2: nat, m2: nat, d2: nat)
    requires 1 <= m1 <= 12 && 1 <= d1 <= 31 && 1 <= m2 <= 12 && 1 <= d2 <= 31
    ensures y1 * 10000 + m1 * 100 + d1 <= y2 * 10000 + m2 * 100 + d2 <==>
      (y1 < y2 || (y1 == y2 && (m1 < m2 || (m1 == m2 && d1 <= d2))))
  {
  }
}
