/**
Canonical pre-images.  Both stable identities of the catalog hash a text built from
length-prefixed pieces: `vehicle_identity_hash` prefixes each field with its UTF-8 byte
count, `dataset_sha256` sorts one line per record and prefixes each with its character count.
Hash functions are left uninterpreted; everything here is about the text that is hashed.
*/
module Canonical {
  import opened Wrappers

  // ---------------------------------------------------------------- decimal numbers

  function Digit(n: nat): (c: char)
    requires n < 10
    ensures c != ':' && c != '-'
  {
    ['0', '1', '2', '3', '4', '5', '6', '7', '8', '9'][n]
  }

  /** `str(n)` for a number that is not negative. */
  function Decimal(n: nat): (s: string)
    ensures |s| > 0 && ':' !in s && '-' !in s
  {
    if n < 10 then [Digit(n)] else Decimal(n / 10) + [Digit(n % 10)]
  }

  /** `str(n)` for any integer. */
  function Str(n: int): string {
    if n < 0 then "-" + Decimal(-n) else Decimal(n)
  }

  lemma {:induction false} DecimalInjective(m: nat, n: nat)
    requires Decimal(m) == Decimal(n)
    ensures m == n
  {
    var a, b := Decimal(m), Decimal(n);
    assert a[|a| - 1] == b[|b| - 1];
    assert Digit(m % 10) == Digit(n % 10);
    if m >= 10 && n >= 10 {
      assert a[..|a| - 1] == Decimal(m / 10) && b[..|b| - 1] == Decimal(n / 10);
      DecimalInjective(m / 10, n / 10);
    }
  }

  /** The number that decimal digits denote. */
  function Denoted(s: string): int {
    if s == "" then 0 else 10 * Denoted(s[..|s| - 1]) + (s[|s| - 1] as int - '0' as int)
  }

  /** The print of a number denotes it, in digits and without a leading zero. */
  lemma {:induction false} DecimalDenotes(n: nat)
    ensures Denoted(Decimal(n)) == n && (forall c :: c in Decimal(n) ==> '0' <= c <= '9')
    ensures n > 0 ==> Decimal(n)[0] != '0'
    ensures n == 0 ==> Decimal(n) == "0"
  {
    DigitDenotes(n % 10);
    if n < 10 {
      assert Decimal(n) == [Digit(n)] && Denoted([]) == 0 && [Digit(n)][..0] == [];
    } else {
      DecimalDenotes(n / 10);
      assert Decimal(n)[..|Decimal(n)| - 1] == Decimal(n / 10);
    }
  }

  lemma DigitDenotes(n: nat)
    requires n < 10
    ensures Digit(n) as int == '0' as int + n
  {
  }

  lemma StrSign(n: int)
    ensures '-' in Str(n) <==> n < 0
  {
    if n < 0 { assert Str(n)[0] == '-'; }
  }

  lemma NegativeStrInjective(m: nat, n: nat)
    requires "-" + Decimal(m) == "-" + Decimal(n)
    ensures m == n
  {
    var a, b := "-" + Decimal(m), "-" + Decimal(n);
    assert a[1..] == Decimal(m) && b[1..] == Decimal(n);
    DecimalInjective(m, n);
  }

  lemma StrInjective(m: int, n: int)
    requires Str(m) == Str(n)
    ensures m == n
  {
    StrSign(m);
    StrSign(n);
    if m < 0 && n < 0 {
      NegativeStrInjective(-m, -n);
    } else if m >= 0 && n >= 0 {
      DecimalInjective(m, n);
    }
  }

  // ---------------------------------------------------------------- length-prefixed texts

  /** Bytes that UTF-8 spends on one character (section 3 of RFC 3629). */
  function Utf8Width(c: char): (n: nat)
    ensures 1 <= n <= 4
  {
    if c as int < 0x80 then 1 else if c as int < 0x800 then 2 else if c as int < 0x10000 then 3 else 4
  }

  /** The unit a prefix counts: `len(value.encode())` or `len(line)`. */
  datatype Unit = Bytes | Characters

  function Width(c: char, u: Unit): (n: nat)
    ensures n >= 1
  {
    if u.Bytes? then Utf8Width(c) else 1
  }

  function Size(s: string, u: Unit): nat {
    if s == "" then 0 else Width(s[0], u) + Size(s[1..], u)
  }

  /** The bytes of a character in UTF-8 (section 3 of RFC 3629). */
  function Utf8(c: char): (bytes: seq<int>)
    ensures forall b :: b in bytes ==> 0 <= b < 256
  {
    var n := c as int;
    if n <= 0x7F then [n]
    else if n <= 0x7FF then [0xC0 + n / 64, 0x80 + n % 64]
    else if n <= 0xFFFF then [0xE0 + n / 4096, 0x80 + n / 64 % 64, 0x80 + n % 64]
    else [0xF0 + n / 262144, 0x80 + n / 4096 % 64, 0x80 + n / 64 % 64, 0x80 + n % 64]
  }

  function Encoded(s: string): seq<int> { if s == "" then [] else Utf8(s[0]) + Encoded(s[1..]) }

  /** A prefix counts the bytes of the encoded text, or its characters. */
  lemma {:induction false} SizeCounts(s: string)
    ensures Size(s, Bytes) == |Encoded(s)| && Size(s, Characters) == |s|
  {
    if s != "" {
      SizeCounts(s[1..]);
      assert |Utf8(s[0])| == Utf8Width(s[0]);
    }
  }

  function Prefixed(s: string, u: Unit): string {
    Decimal(Size(s, u)) + ":" + s
  }

  function JoinPrefixed(items: seq<string>, u: Unit): string {
    if items == [] then "" else Prefixed(items[0], u) + JoinPrefixed(items[1..], u)
  }

  /** Concatenating two batches of prefixed pieces is prefixing the concatenated batch. */
  lemma {:induction false} JoinPrefixedAppend(a: seq<string>, b: seq<string>, u: Unit)
    ensures JoinPrefixed(a + b, u) == JoinPrefixed(a, u) + JoinPrefixed(b, u)
  {
    if a == [] {
      assert a + b == b;
    } else {
      assert (a + b)[1..] == a[1..] + b;
      JoinPrefixedAppend(a[1..], b, u);
    }
  }

  /** A text can be cut after a given size in one way only, whatever the width of its characters. */
  lemma {:induction false} CutIsUnique(s: string, x: string, t: string, y: string, u: Unit)
    requires s + x == t + y && Size(s, u) == Size(t, u)
    ensures s == t && x == y
  {
    if s == "" || t == "" {
      assert s == t == "";
      assert s + x == x && t + y == y;
    } else {
      assert s[0] == (s + x)[0] == (t + y)[0] == t[0];
      assert (s + x)[1..] == s[1..] + x && (t + y)[1..] == t[1..] + y;
      CutIsUnique(s[1..], x, t[1..], y, u);
      assert s == [s[0]] + s[1..] && t == [t[0]] + t[1..];
    }
  }

  lemma LongerHeadHoldsSeparator(a: string, x: string, b: string, y: string, sep: char)
    requires a + [sep] + x == b + [sep] + y && |a| > |b|
    ensures sep in a
  {
    assert (b + [sep] + y)[|b|] == sep == (a + [sep] + x)[|b|] == a[|b|];
  }

  lemma LongerTailHoldsSeparator(x: string, a: string, y: string, b: string, sep: char)
    requires x + [sep] + a == y + [sep] + b && |a| > |b|
    ensures sep in a
  {
    assert (y + [sep] + b)[|y|] == sep == (x + [sep] + a)[|y|] == a[|a| - |b| - 1];
  }

  /** What precedes the first separator, and what follows it, can be read back. */
  lemma SeparatorIsUnique(a: string, x: string, b: string, y: string, sep: char)
    requires a + [sep] + x == b + [sep] + y && sep !in a && sep !in b
    ensures a == b && x == y
  {
    if |a| > |b| { LongerHeadHoldsSeparator(a, x, b, y, sep); }
    if |b| > |a| { LongerHeadHoldsSeparator(b, y, a, x, sep); }
    var s, t := a + [sep] + x, b + [sep] + y;
    assert a == s[..|a|] && b == t[..|a|];
    assert x == s[|a| + 1..] && y == t[|a| + 1..];
  }

  lemma PrefixedIsUnique(s: string, x: string, t: string, y: string, u: Unit)
    requires Prefixed(s, u) + x == Prefixed(t, u) + y
    ensures s == t && x == y
  {
    var m, n := Size(s, u), Size(t, u);
    assert Prefixed(s, u) + x == Decimal(m) + [':'] + (s + x);
    assert Prefixed(t, u) + y == Decimal(n) + [':'] + (t + y);
    SeparatorIsUnique(Decimal(m), s + x, Decimal(n), t + y, ':');
    DecimalInjective(m, n);
    CutIsUnique(s, x, t, y, u);
  }

  lemma {:induction false} JoinPrefixedInjective(a: seq<string>, b: seq<string>, u: Unit)
    requires JoinPrefixed(a, u) == JoinPrefixed(b, u)
    ensures a == b
  {
    if a == [] || b == [] {
      assert a == b == [];
    } else {
      PrefixedIsUnique(a[0], JoinPrefixed(a[1..], u), b[0], JoinPrefixed(b[1..], u), u);
      JoinPrefixedInjective(a[1..], b[1..], u);
      assert a == [a[0]] + a[1..] && b == [b[0]] + b[1..];
    }
  }

  // ---------------------------------------------------------------- vehicle identity

  /** The columns of a parsed vehicle; `ssd`, `vid` and `url` are request tokens. */
  datatype VehicleRow = VehicleRow(
    modelCode: Option<string>, name: Option<string>, description: Option<string>,
    options: Option<string>, prodPeriod: Option<string>, grade: Option<string>,
    market: Option<string>, engine: Option<string>, transmission: Option<string>,
    bodyStyle: Option<string>, ssd: Option<string>, vid: Option<string>, url: Option<string>)

  function OrEmpty(field: Option<string>): string {
    if field.Some? then field.value else ""
  }

  /** The ten normalised fields that make up a vehicle's identity within its model. */
  function IdentityFields(v: VehicleRow): (fields: seq<string>)
    ensures |fields| == 10
  {
    [OrEmpty(v.modelCode), OrEmpty(v.name), OrEmpty(v.description), OrEmpty(v.options),
     OrEmpty(v.prodPeriod), OrEmpty(v.grade), OrEmpty(v.market), OrEmpty(v.engine),
     OrEmpty(v.transmission), OrEmpty(v.bodyStyle)]
  }

  function IdentityPreimage(modelId: int, fields: seq<string>): string {
    JoinPrefixed([Str(modelId)] + fields, Bytes)
  }

  /** The text whose digest `vehicle_identity_hash` returns. */
  function VehiclePreimage(modelId: int, v: VehicleRow): string { IdentityPreimage(modelId, IdentityFields(v)) }

  lemma IdentityPreimageIsInjective(m: int, v: seq<string>, n: int, w: seq<string>)
    ensures IdentityPreimage(m, v) == IdentityPreimage(n, w) <==> m == n && v == w
  {
    if IdentityPreimage(m, v) == IdentityPreimage(n, w) {
      var a, b := [Str(m)] + v, [Str(n)] + w;
      JoinPrefixedInjective(a, b, Bytes);
      assert a[0] == Str(m) && b[0] == Str(n) && a[1..] == v && b[1..] == w;
      StrInjective(m, n);
    }
  }

  /** Two vehicles share a pre-image exactly when model and normalised fields agree; the
      request tokens play no part, and no field can imitate its neighbour. */
  lemma VehicleIdentityIsInjective(m: int, v: VehicleRow, n: int, w: VehicleRow)
    ensures VehiclePreimage(m, v) == VehiclePreimage(n, w)
       <==> m == n && IdentityFields(v) == IdentityFields(w)
  {
    IdentityPreimageIsInjective(m, IdentityFields(v), n, IdentityFields(w));
  }

  // ---------------------------------------------------------------- sorting lines

  /** Python's order on strings: by code point, a proper prefix first. */
  predicate Leq(a: string, b: string) {
    a == "" || (b != "" && (a[0] < b[0] || (a[0] == b[0] && Leq(a[1..], b[1..]))))
  }

  lemma {:induction false} LeqAntisymmetric(a: string, b: string)
    requires Leq(a, b) && Leq(b, a)
    ensures a == b
  {
    if a != "" && b != "" {
      LeqAntisymmetric(a[1..], b[1..]);
      assert a == [a[0]] + a[1..] && b == [b[0]] + b[1..];
    }
  }

  lemma {:induction false} LeqTransitive(a: string, b: string, c: string)
    requires Leq(a, b) && Leq(b, c)
    ensures Leq(a, c)
  {
    if a != "" && a[0] == b[0] == c[0] {
      LeqTransitive(a[1..], b[1..], c[1..]);
    }
  }

  lemma {:induction false} LeqTotal(a: string, b: string)
    ensures Leq(a, b) || Leq(b, a)
  {
    if a != "" && b != "" && a[0] == b[0] {
      LeqTotal(a[1..], b[1..]);
    }
  }

  ghost predicate Sorted(lines: seq<string>) {
    forall i, j :: 0 <= i < j < |lines| ==> Leq(lines[i], lines[j])
  }

  function Insert(line: string, lines: seq<string>): seq<string> {
    if lines == [] || Leq(line, lines[0]) then [line] + lines
    else [lines[0]] + Insert(line, lines[1..])
  }

  /** `sorted(lines)`. */
  function Sort(lines: seq<string>): seq<string> {
    if lines == [] then [] else Insert(lines[0], Sort(lines[1..]))
  }

  lemma {:induction false} InsertKeeps(line: string, lines: seq<string>)
    requires Sorted(lines)
    ensures Sorted(Insert(line, lines))
    ensures multiset(Insert(line, lines)) == multiset{line} + multiset(lines)
  {
    if lines == [] {
    } else if Leq(line, lines[0]) {
      forall j | 0 <= j < |lines| ensures Leq(line, lines[j]) {
        if j > 0 { LeqTransitive(line, lines[0], lines[j]); }
      }
    } else {
      LeqTotal(line, lines[0]);
      var rest := Insert(line, lines[1..]);
      InsertKeeps(line, lines[1..]);
      assert lines == [lines[0]] + lines[1..];
      forall j | 0 <= j < |rest| ensures Leq(lines[0], rest[j]) {
        assert rest[j] in multiset(rest);
        assert rest[j] == line || rest[j] in lines[1..];
      }
    }
  }

  lemma {:induction false} SortKeeps(lines: seq<string>)
    ensures Sorted(Sort(lines)) && multiset(Sort(lines)) == multiset(lines)
  {
    if lines != [] {
      SortKeeps(lines[1..]);
      InsertKeeps(lines[0], Sort(lines[1..]));
      assert lines == [lines[0]] + lines[1..];
    }
  }

  lemma {:induction false} SortedIsUnique(a: seq<string>, b: seq<string>)
    requires Sorted(a) && Sorted(b) && multiset(a) == multiset(b)
    ensures a == b
  {
    if a == [] {
      assert |multiset(b)| == 0;
    } else {
      hide Leq, Sorted;
      assert |multiset(b)| == |a| > 0;
      assert a[0] in multiset(b) && b[0] in multiset(a);
      HeadIsLeast(a, b[0]);
      HeadIsLeast(b, a[0]);
      if a[0] != b[0] { LeqAntisymmetric(a[0], b[0]); }
      WithoutHead(a);
      WithoutHead(b);
      SortedIsUnique(a[1..], b[1..]);
    }
  }

  lemma HeadIsLeast(a: seq<string>, x: string)
    requires Sorted(a) && x in a
    ensures a[0] == x || Leq(a[0], x)
    ensures Sorted(a[1..])
  {
    var i :| 0 <= i < |a| && a[i] == x;
  }

  lemma WithoutHead(a: seq<string>)
    requires a != []
    ensures a == [a[0]] + a[1..] && multiset(a[1..]) == multiset(a) - multiset{a[0]}
  {
    assert a == [a[0]] + a[1..];
  }

  /** Sorting forgets the order and nothing else. */
  lemma SortEqualIffPermutation(a: seq<string>, b: seq<string>)
    ensures Sort(a) == Sort(b) <==> multiset(a) == multiset(b)
  {
    SortKeeps(a);
    SortKeeps(b);
    if multiset(a) == multiset(b) { SortedIsUnique(Sort(a), Sort(b)); }
  }

  // ---------------------------------------------------------------- record sets

  datatype RecordType =
    | Brand | Model | Vehicle | Category | Group | Part | QuarantinePart | Unknown(name: string)

  function TypeName(t: RecordType): string {
    match t
    case Brand => "brand"
    case Model => "model"
    case Vehicle => "vehicle"
    case Category => "category"
    case Group => "group"
    case Part => "part"
    case QuarantinePart => "quarantine_part"
    case Unknown(name) => name
  }

  /** `Unknown` is kept for the names that no parser produces. */
  predicate Canonical(t: RecordType) {
    t.Unknown? ==> t.name !in {"brand", "model", "vehicle", "category", "group", "part", "quarantine_part"}
  }

  lemma TypeNameInjective(t: RecordType, u: RecordType)
    requires Canonical(t) && Canonical(u) && TypeName(t) == TypeName(u)
    ensures t == u
  {
    assert |TypeName(t)| == |TypeName(u)|;
    if !t.Unknown? && !u.Unknown? { assert TypeName(t)[0] == TypeName(u)[0]; }
  }

  /** The stable identity and payload hashes of one parsed source record. */
  datatype RecordEvidence = RecordEvidence(
    recordType: RecordType, naturalKey: string, recordSha: string, parent: Option<string>)

  /** Every hash field holds a digest: no separator in it, and a parent is never the empty text. */
  predicate Digested(r: RecordEvidence) {
    && Canonical(r.recordType)
    && ':' !in r.naturalKey && ':' !in r.recordSha
    && (r.parent.Some? ==> r.parent.value != "" && ':' !in r.parent.value)
  }

  /** The line that stands for a record in the dataset digest. */
  function Line(r: RecordEvidence): string {
    TypeName(r.recordType) + ":" + r.naturalKey + ":" + OrEmpty(r.parent) + ":" + r.recordSha
  }

  function Mapped<T, U>(f: T -> U, items: seq<T>): seq<U> {
    seq(|items|, i requires 0 <= i < |items| => f(items[i]))
  }

  function Lines(records: seq<RecordEvidence>): seq<string> {
    Mapped(Line, records)
  }

  /** The text whose digest `dataset_sha256` returns. */
  function DatasetPreimage(records: seq<RecordEvidence>): string {
    JoinPrefixed(Sort(Lines(records)), Characters)
  }

  /** The last separator can be read back as the first one can: the record type may contain
      separators, the three hashes may not. */
  lemma LastSeparatorIsUnique(x: string, a: string, y: string, b: string)
    requires x + ":" + a == y + ":" + b && ':' !in a && ':' !in b
    ensures a == b && x == y
  {
    if |a| > |b| { LongerTailHoldsSeparator(x, a, y, b, ':'); }
    if |b| > |a| { LongerTailHoldsSeparator(y, b, x, a, ':'); }
    var s, t := x + ":" + a, y + ":" + b;
    assert x == s[..|x|] && y == t[..|x|];
    assert a == s[|x| + 1..] && b == t[|x| + 1..];
  }

  lemma LineInjective(r: RecordEvidence, q: RecordEvidence)
    requires Digested(r) && Digested(q) && Line(r) == Line(q)
    ensures r == q
  {
    var t, u := TypeName(r.recordType), TypeName(q.recordType);
    var a, b := t + ":" + r.naturalKey, u + ":" + q.naturalKey;
    LastSeparatorIsUnique(a + ":" + OrEmpty(r.parent), r.recordSha, b + ":" + OrEmpty(q.parent), q.recordSha);
    LastSeparatorIsUnique(a, OrEmpty(r.parent), b, OrEmpty(q.parent));
    LastSeparatorIsUnique(t, r.naturalKey, u, q.naturalKey);
    TypeNameInjective(r.recordType, q.recordType);
  }

  lemma LinesStep(first: RecordEvidence, rest: seq<RecordEvidence>)
    ensures multiset(Lines([first] + rest)) == multiset{Line(first)} + multiset(Lines(rest))
  {
    assert Lines([first] + rest) == [Line(first)] + Lines(rest);
  }

  lemma {:induction false} LinesCount(records: seq<RecordEvidence>, r: RecordEvidence)
    requires Digested(r) && forall q :: q in records ==> Digested(q)
    ensures multiset(Lines(records))[Line(r)] == multiset(records)[r]
  {
    if records != [] {
      var rest := records[1..];
      LinesCount(rest, r);
      assert records == [records[0]] + rest;
      LinesStep(records[0], rest);
      assert multiset(records) == multiset{records[0]} + multiset(rest);
      if Line(records[0]) == Line(r) { LineInjective(records[0], r); }
    }
  }

  lemma MappedMiddle<T, U>(f: T -> U, x: seq<T>, item: T, y: seq<T>)
    ensures multiset(Mapped(f, x + [item] + y)) == multiset{f(item)} + multiset(Mapped(f, x + y))
  {
    assert Mapped(f, x + [item] + y) == Mapped(f, x) + [f(item)] + Mapped(f, y);
    assert Mapped(f, x + y) == Mapped(f, x) + Mapped(f, y);
  }

  lemma {:induction false} MappedPermutes<T, U>(f: T -> U, a: seq<T>, b: seq<T>)
    requires multiset(a) == multiset(b)
    ensures multiset(Mapped(f, a)) == multiset(Mapped(f, b))
  {
    if a == [] {
      assert |multiset(b)| == 0;
    } else {
      assert a == [] + [a[0]] + a[1..];
      assert a[0] in multiset(b);
      var i :| 0 <= i < |b| && b[i] == a[0];
      var x, y := b[..i], b[i + 1..];
      assert b == x + [a[0]] + y;
      assert multiset(b) == multiset(x) + multiset{a[0]} + multiset(y);
      assert a == [a[0]] + a[1..];
      assert multiset(a) == multiset{a[0]} + multiset(a[1..]);
      assert multiset(x + y) == multiset(x) + multiset(y) == multiset(b) - multiset{a[0]};
      MappedPermutes(f, a[1..], x + y);
      MappedMiddle(f, [], a[0], a[1..]);
      assert [] + a[1..] == a[1..];
      MappedMiddle(f, x, a[0], y);
    }
  }

  /** The dataset pre-image is equal for two lists of digested records exactly when they are
      equal as multisets: it depends on no crawl order and confuses no two datasets. */
  lemma DatasetPreimageIsMultiset(a: seq<RecordEvidence>, b: seq<RecordEvidence>)
    requires forall r :: r in a ==> Digested(r)
    requires forall r :: r in b ==> Digested(r)
    ensures DatasetPreimage(a) == DatasetPreimage(b) <==> multiset(a) == multiset(b)
  {
    if DatasetPreimage(a) == DatasetPreimage(b) {
      JoinPrefixedInjective(Sort(Lines(a)), Sort(Lines(b)), Characters);
      SortEqualIffPermutation(Lines(a), Lines(b));
      forall r ensures multiset(a)[r] == multiset(b)[r] {
        if r in a || r in b {
          LinesCount(a, r);
          LinesCount(b, r);
        } else {
          assert r !in multiset(a) && r !in multiset(b);
        }
      }
    } else if multiset(a) == multiset(b) {
      DatasetOrderIrrelevant(a, b);
    }
  }

  /** Crawl order never shows, digested or not. */
  lemma DatasetOrderIrrelevant(a: seq<RecordEvidence>, b: seq<RecordEvidence>)
    requires multiset(a) == multiset(b)
    ensures DatasetPreimage(a) == DatasetPreimage(b)
  {
    MappedPermutes(Line, a, b);
    SortEqualIffPermutation(Lines(a), Lines(b));
  }
}
