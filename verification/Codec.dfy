/** Decimal integers as the standard library prints and parses them. */
module Decimal {
  import opened Ints
  import opened Options
  import opened Fields

  predicate IsDigit(b: Byte) { 48 <= b <= 57 }

  function PrintNat(n: nat): (r: Bytes)
    ensures r != []
    ensures forall i | 0 <= i < |r| :: IsDigit(r[i])
  {
    if n < 10 then [48 + n] else PrintNat(n / 10) + [48 + n % 10]
  }

  function FormatInt(v: int): Bytes { if v < 0 then [45] + PrintNat(-v) else PrintNat(v) }

  /** The value of a string of digits. */
  function ParseDigits(s: Bytes): Option<nat> {
    if s == [] || !IsDigit(s[|s| - 1]) then None
    else
      var d := s[|s| - 1] - 48;
      if |s| == 1 then Some(d)
      else
        var high := ParseDigits(s[..|s| - 1]);
        if high.None? then None else Some(10 * high.value + d)
  }

  /** A sign, digits, and the 64-bit range. */
  function ParseInt(s: Bytes): Option<int> {
    if s == [] then None
    else
      var signed := s[0] == 43 || s[0] == 45;
      var n := ParseDigits(if signed then s[1..] else s);
      if n.None? then None
      else
        var v: int := if s[0] == 45 then -(n.value as int) else n.value;
        if IsInt64(v) then Some(v) else None
  }

  lemma {:induction false} DigitsRoundTrip(n: nat)
    ensures ParseDigits(PrintNat(n)) == Some(n)
  {
    if n >= 10 {
      DigitsRoundTrip(n / 10);
      assert PrintNat(n)[..|PrintNat(n)| - 1] == PrintNat(n / 10);
    }
  }

  lemma IntRoundTrip(v: int)
    requires IsInt64(v)
    ensures ParseInt(FormatInt(v)) == Some(v)
  {
    if v < 0 {
      DigitsRoundTrip(-v);
      assert FormatInt(v)[1..] == PrintNat(-v);
    } else {
      DigitsRoundTrip(v);
      assert IsDigit(FormatInt(v)[0]);
    }
  }
}

/** Base 16, printed in lower case and read in either case. */
module Base16 {
  import opened Options
  import opened Fields

  function HexDigit(d: int): Byte
    requires 0 <= d < 16
  {
    if d < 10 then 48 + d else 87 + d
  }

  function HexValue(b: Byte): Option<int> {
    if 48 <= b <= 57 then Some(b - 48)
    else if 97 <= b <= 102 then Some(b - 87)
    else if 65 <= b <= 70 then Some(b - 55)
    else None
  }

  function Encode(s: Bytes): (r: Bytes)
    ensures |r| == 2 * |s|
    ensures forall i | 0 <= i < |r| :: 48 <= r[i] <= 57 || 97 <= r[i] <= 102
  {
    if s == [] then [] else [HexDigit(s[0] / 16), HexDigit(s[0] % 16)] + Encode(s[1..])
  }

  function Decode(s: Bytes): Option<Bytes> {
    if s == [] then Some([])
    else if |s| == 1 then None
    else
      var hi, lo, rest := HexValue(s[0]), HexValue(s[1]), Decode(s[2..]);
      if hi.None? || lo.None? || rest.None? then None else Some([hi.value * 16 + lo.value] + rest.value)
  }

  lemma {:induction false} RoundTrip(s: Bytes)
    ensures Decode(Encode(s)) == Some(s)
  {
    if s != [] {
      RoundTrip(s[1..]);
      assert Encode(s)[2..] == Encode(s[1..]);
      assert s == [s[0]] + s[1..];
    }
  }

  lemma Injective(s: Bytes, t: Bytes)
    requires Encode(s) == Encode(t)
    ensures s == t
  {
    RoundTrip(s);
    RoundTrip(t);
  }
}

/** Objects of strings and booleans, without escapes (sections 4 and 7 of RFC 8259). */
module FlatJson {
  import opened Options
  import opened Fields
  import opened RoutingKeys

  datatype Value = Str(text: Bytes) | Bool(truth: bool)
  datatype Member = Member(key: Bytes, value: Value)

  const QUOTE: Byte := 34
  const COLON: Byte := 58
  const COMMA: Byte := 44
  const OPEN: Byte := 123
  const CLOSE: Byte := 125

  /** Characters that stand for themselves inside a string. */
  predicate Plain(s: Bytes) { forall i | 0 <= i < |s| :: s[i] >= 32 && s[i] != 34 && s[i] != 92 }

  predicate PlainMember(m: Member) { Plain(m.key) && (m.value.Str? ==> Plain(m.value.text)) }

  // ------------------------------------------------------- printing

  function PrintString(s: Bytes): Bytes { [QUOTE] + s + [QUOTE] }

  function PrintValue(v: Value): Bytes {
    match v
    case Str(s) => PrintString(s)
    case Bool(b) => if b then Text("true") else Text("false")
  }

  function PrintMember(m: Member): Bytes { PrintString(m.key) + [COLON] + PrintValue(m.value) }

  /** Members separated by commas and closed by a brace. */
  function PrintMembers(ms: seq<Member>): Bytes
    requires ms != []
  {
    if |ms| == 1 then PrintMember(ms[0]) + [CLOSE] else PrintMember(ms[0]) + [COMMA] + PrintMembers(ms[1..])
  }

  function PrintObject(ms: seq<Member>): Bytes { if ms == [] then [OPEN, CLOSE] else [OPEN] + PrintMembers(ms) }

  // ------------------------------------------------------- parsing

  datatype Parsed<T> = Fail | Got(value: T, rest: Bytes)

  predicate IsSpace(b: Byte) { b == 32 || b == 9 || b == 10 || b == 13 }

  function Skip(s: Bytes): (r: Bytes)
    ensures |r| <= |s|
  {
    if s != [] && IsSpace(s[0]) then Skip(s[1..]) else s
  }

  /** The rest of a string whose opening quote has been read. */
  function ParseRest(s: Bytes): (r: Parsed<Bytes>)
    ensures r.Got? ==> |r.rest| < |s|
  {
    if s == [] || s[0] < 32 || s[0] == 92 then Fail
    else if s[0] == QUOTE then Got([], s[1..])
    else
      var tail := ParseRest(s[1..]);
      if tail.Fail? then Fail else Got([s[0]] + tail.value, tail.rest)
  }

  function ParseString(s: Bytes): (r: Parsed<Bytes>)
    ensures r.Got? ==> |r.rest| < |s|
  {
    if s == [] || s[0] != QUOTE then Fail else ParseRest(s[1..])
  }

  function ParseValue(s: Bytes): (r: Parsed<Value>)
    ensures r.Got? ==> |r.rest| < |s|
  {
    if Text("true") <= s then Got(Bool(true), s[4..])
    else if Text("false") <= s then Got(Bool(false), s[5..])
    else
      var t := ParseString(s);
      if t.Fail? then Fail else Got(Str(t.value), t.rest)
  }

  function ParseMember(s: Bytes): (r: Parsed<Member>)
    ensures r.Got? ==> |r.rest| < |s|
  {
    var key := ParseString(Skip(s));
    if key.Fail? then Fail
    else
      var colon := Skip(key.rest);
      if colon == [] || colon[0] != COLON then Fail
      else
        var v := ParseValue(Skip(colon[1..]));
        if v.Fail? then Fail else Got(Member(key.value, v.value), v.rest)
  }

  function ParseMembers(s: Bytes): Parsed<seq<Member>>
    decreases |s|
  {
    var m := ParseMember(s);
    if m.Fail? then Fail
    else
      var after := Skip(m.rest);
      if after == [] then Fail
      else if after[0] == CLOSE then Got([m.value], after[1..])
      else if after[0] != COMMA then Fail
      else
        var tail := ParseMembers(after[1..]);
        if tail.Fail? then Fail else Got([m.value] + tail.value, tail.rest)
  }

  /** The members in order; only white space may follow the object. */
  function ParseObject(s: Bytes): Option<seq<Member>> {
    var body := Skip(s);
    if body == [] || body[0] != OPEN then None
    else
      var inner := Skip(body[1..]);
      var ms := if inner != [] && inner[0] == CLOSE then Got([], inner[1..]) else ParseMembers(inner);
      if ms.Fail? || Skip(ms.rest) != [] then None else Some(ms.value)
  }

  // ------------------------------------------------------- the round trip

  lemma {:induction false} RestRoundTrip(s: Bytes, rest: Bytes)
    requires Plain(s)
    ensures ParseRest(s + [QUOTE] + rest) == Got(s, rest)
  {
    var all := s + [QUOTE] + rest;
    if s == [] {
      assert all[1..] == rest;
    } else {
      RestRoundTrip(s[1..], rest);
      assert all[1..] == s[1..] + [QUOTE] + rest;
      assert s == [s[0]] + s[1..];
    }
  }

  lemma StringRoundTrip(s: Bytes, rest: Bytes)
    requires Plain(s)
    ensures ParseString(PrintString(s) + rest) == Got(s, rest)
  {
    RestRoundTrip(s, rest);
    assert (PrintString(s) + rest)[1..] == s + [QUOTE] + rest;
  }

  lemma ValueRoundTrip(v: Value, rest: Bytes)
    requires v.Str? ==> Plain(v.text)
    ensures ParseValue(PrintValue(v) + rest) == Got(v, rest)
  {
    var s := PrintValue(v) + rest;
    var t, f := Text("true"), Text("false");
    assert t[0] == 116 && f[0] == 102;
    match v
    case Str(x) => StringRoundTrip(x, rest); assert s[0] == QUOTE;
    case Bool(b) => if b { assert s[4..] == rest; } else { assert s[0] == f[0]; assert s[5..] == rest; }
  }

  lemma MemberRoundTrip(m: Member, rest: Bytes)
    requires PlainMember(m)
    ensures ParseMember(PrintMember(m) + rest) == Got(m, rest)
  {
    hide Plain, ParseString, ParseValue, PrintValue;
    var value := PrintValue(m.value) + rest;
    var s := PrintMember(m) + rest;
    assert s == PrintString(m.key) + ([COLON] + value);
    assert s[0] == QUOTE;
    StringRoundTrip(m.key, [COLON] + value);
    assert ([COLON] + value)[1..] == value;
    ValueRoundTrip(m.value, rest);
    ValueStarts(m.value, rest);
  }

  lemma ValueStarts(v: Value, rest: Bytes)
    ensures Skip(PrintValue(v) + rest) == PrintValue(v) + rest
  {
    var t, f := Text("true"), Text("false");
    assert t[0] == 116 && f[0] == 102;
    match v
    case Str(x) => assert (PrintValue(v) + rest)[0] == QUOTE;
    case Bool(b) => if b { assert (PrintValue(v) + rest)[0] == t[0]; } else { assert (PrintValue(v) + rest)[0] == f[0]; }
  }

  lemma {:induction false} MembersRoundTrip(ms: seq<Member>)
    requires ms != [] && forall i | 0 <= i < |ms| :: PlainMember(ms[i])
    ensures ParseMembers(PrintMembers(ms)) == Got(ms, [])
    decreases |ms|
  {
    hide PlainMember, ParseMember, PrintMember;
    if |ms| == 1 {
      MemberRoundTrip(ms[0], [CLOSE]);
      assert ms == [ms[0]] && [CLOSE][1..] == [];
    } else {
      var tail := PrintMembers(ms[1..]);
      MembersRoundTrip(ms[1..]);
      MemberRoundTrip(ms[0], [COMMA] + tail);
      assert PrintMembers(ms) == PrintMember(ms[0]) + ([COMMA] + tail);
      assert ([COMMA] + tail)[1..] == tail;
      assert ms == [ms[0]] + ms[1..];
    }
  }

  lemma ObjectRoundTrip(ms: seq<Member>)
    requires forall i | 0 <= i < |ms| :: PlainMember(ms[i])
    ensures ParseObject(PrintObject(ms)) == Some(ms)
  {
    hide ParseMembers, PlainMember;
    var s := PrintObject(ms);
    if ms == [] {
      assert s[1..] == [CLOSE] && s[1..][1..] == [];
    } else {
      MembersRoundTrip(ms);
      MembersStart(ms);
      assert s[1..] == PrintMembers(ms);
    }
  }

  lemma MembersStart(ms: seq<Member>)
    requires ms != []
    ensures PrintMembers(ms) != [] && PrintMembers(ms)[0] == QUOTE
  {}
}

/** The stored form of a continuation binding. */
module Wire {
  import opened Ints
  import opened Options
  import opened Fields
  import opened RoutingKeys
  import opened Decimal
  import Base16
  import opened FlatJson

  datatype Binding = Binding(account: int, fingerprint: Bytes, revision: int)

  /** The decoded record, before its texts are read. */
  datatype Record = Record(account: Bytes, fingerprint: Bytes, revision: Bytes, acked: bool)

  predicate IsZero(s: Bytes) { forall i | 0 <= i < |s| :: s[i] == 0 }

  /** What every binding that is written satisfies. */
  predicate Valid(b: Binding) {
    0 < b.account <= MAX_INT64 && 0 < b.revision <= MAX_INT64 && |b.fingerprint| == 32 && !IsZero(b.fingerprint)
  }

  function RecordOf(b: Binding): Record {
    Record(FormatInt(b.account), Base16.Encode(b.fingerprint), FormatInt(b.revision), true)
  }

  function MembersOf(w: Record): seq<Member> {
    [Member(Text("account_id"), Str(w.account)), Member(Text("fingerprint"), Str(w.fingerprint)),
     Member(Text("identity_revision"), Str(w.revision)), Member(Text("redis_acked"), Bool(w.acked))]
  }

  function EncodeWire(b: Binding): Bytes { PrintObject(MembersOf(RecordOf(b))) }

  /** The object as a map; a repeated key keeps its last value. */
  function AsMap(ms: seq<Member>): map<Bytes, Value> {
    if ms == [] then map[] else AsMap(ms[..|ms| - 1])[ms[|ms| - 1].key := ms[|ms| - 1].value]
  }

  function TextAt(m: map<Bytes, Value>, key: Bytes): Option<Bytes> {
    if key in m && m[key].Str? then Some(m[key].text) else None
  }

  /** Exactly the four fields, each of its type. */
  function DecodeRecord(data: Bytes): Option<Record> {
    var ms := ParseObject(data);
    if ms.None? then None
    else
      var m := AsMap(ms.value);
      var a, f, r := TextAt(m, Text("account_id")), TextAt(m, Text("fingerprint")), TextAt(m, Text("identity_revision"));
      if |m| != 4 || a.None? || f.None? || r.None? || Text("redis_acked") !in m || !m[Text("redis_acked")].Bool? then None
      else Some(Record(a.value, f.value, r.value, m[Text("redis_acked")].truth))
  }

  /** A positive integer in its one spelling. */
  function ParsePositive(s: Bytes): Option<int> {
    var v := ParseInt(s);
    if v.None? || v.value <= 0 || FormatInt(v.value) != s then None else v
  }

  /** The checks on a decoded record, ending with the comparison of the bytes. */
  function CheckRecord(w: Record, data: Bytes): Option<Binding> {
    if !w.acked then None
    else
      var acc, rev := ParsePositive(w.account), ParsePositive(w.revision);
      if acc.None? || rev.None? || |w.fingerprint| != 64 then None
      else
        var fp := Base16.Decode(w.fingerprint);
        if fp.None? || |fp.value| != 32 || IsZero(fp.value) then None
        else
          var b := Binding(acc.value, fp.value, rev.value);
          if EncodeWire(b) != data then None else Some(b)
  }

  /** Parsing with a given reading of the JSON text. */
  function ParseWith(decode: Bytes -> Option<Record>, data: Bytes): Option<Binding> {
    var w := decode(data);
    if w.None? then None else CheckRecord(w.value, data)
  }

  function ParseBinding(data: Bytes): Option<Binding> { ParseWith(DecodeRecord, data) }

  // ------------------------------------------------------- what the parser accepts

  lemma PositiveRoundTrip(v: int)
    requires 0 < v <= MAX_INT64
    ensures ParsePositive(FormatInt(v)) == Some(v)
  {
    IntRoundTrip(v);
  }

  lemma PositiveOnly(s: Bytes)
    ensures ParsePositive(s).Some? ==> 0 < ParsePositive(s).value <= MAX_INT64
  {}

  /** The record of a valid binding passes every check. */
  lemma CheckAccepts(b: Binding)
    requires Valid(b)
    ensures CheckRecord(RecordOf(b), EncodeWire(b)) == Some(b)
  {
    hide EncodeWire, ParsePositive, FormatInt, Base16.Encode, Base16.Decode;
    PositiveRoundTrip(b.account);
    PositiveRoundTrip(b.revision);
    Base16.RoundTrip(b.fingerprint);
  }

  /** Whatever record was read, an accepted binding is valid and the bytes are its encoding. */
  lemma CheckSound(w: Record, data: Bytes)
    ensures CheckRecord(w, data).Some? ==> Valid(CheckRecord(w, data).value) && EncodeWire(CheckRecord(w, data).value) == data
  {
    hide EncodeWire, ParsePositive, Base16.Decode;
    PositiveOnly(w.account);
    PositiveOnly(w.revision);
  }

  lemma DigitsPlain(v: int)
    ensures Plain(FormatInt(v))
  {}

  lemma HexPlain(s: Bytes)
    ensures Plain(Base16.Encode(s))
  {}

  predicate IsName(s: string) { forall i | 0 <= i < |s| :: s[i] == '_' || 'a' <= s[i] <= 'z' }

  lemma NamePlain(s: string)
    requires IsName(s)
    ensures Plain(Text(s))
  {}

  lemma KeysPlain()
    ensures Plain(Text("account_id")) && Plain(Text("fingerprint")) && Plain(Text("identity_revision")) && Plain(Text("redis_acked"))
  {
    hide Plain, Text;
    NamePlain("account_id");
    NamePlain("fingerprint");
    NamePlain("identity_revision");
    NamePlain("redis_acked");
  }

  lemma KeysDistinct()
    ensures |Text("account_id")| == 10 && |Text("fingerprint")| == 11 && |Text("identity_revision")| == 17
    ensures Text("fingerprint") != Text("redis_acked") && |Text("redis_acked")| == 11
  {
    assert Text("fingerprint")[0] != Text("redis_acked")[0];
  }

  lemma MapOfMembers(w: Record)
    ensures var m := AsMap(MembersOf(w));
            && |m| == 4
            && TextAt(m, Text("account_id")) == Some(w.account) && TextAt(m, Text("fingerprint")) == Some(w.fingerprint)
            && TextAt(m, Text("identity_revision")) == Some(w.revision)
            && Text("redis_acked") in m && m[Text("redis_acked")] == Bool(w.acked)
  {
    hide Text;
    KeysDistinct();
    var ms := MembersOf(w);
    var k0, k1, k2, k3 := Text("account_id"), Text("fingerprint"), Text("identity_revision"), Text("redis_acked");
    assert ms[..3][..2] == ms[..2] && ms[..2][..1] == ms[..1] && ms[..1][..0] == [];
    assert AsMap(ms[..1]) == map[k0 := Str(w.account)];
    assert AsMap(ms[..2]) == map[k0 := Str(w.account), k1 := Str(w.fingerprint)];
    assert AsMap(ms[..3]) == map[k0 := Str(w.account), k1 := Str(w.fingerprint), k2 := Str(w.revision)];
    assert AsMap(ms) == AsMap(ms[..3])[k3 := Bool(w.acked)];
    assert AsMap(ms).Keys == {k0, k1, k2, k3};
  }

  lemma StrMember(key: Bytes, v: Bytes)
    ensures PrintMember(Member(key, Str(v))) == [34] + key + [34, 58, 34] + v + [34]
  {}

  lemma Joined(first: Member, rest: seq<Member>)
    requires rest != []
    ensures PrintMembers([first] + rest) == PrintMember(first) + [44] + PrintMembers(rest)
  {
    hide PrintMember;
    assert ([first] + rest)[1..] == rest;
  }

  /** The stored text: an object of the four members in this order, without white space (34, 44, 58, 123 and 125 are the quote, comma,
      colon and braces). */
  lemma WireText(b: Binding)
    ensures EncodeWire(b)
         == [123] + ([34] + Text("account_id") + [34, 58, 34] + FormatInt(b.account) + [34])
            + ([44] + ([34] + Text("fingerprint") + [34, 58, 34] + Base16.Encode(b.fingerprint) + [34]))
            + ([44] + ([34] + Text("identity_revision") + [34, 58, 34] + FormatInt(b.revision) + [34]))
            + ([44] + ([34] + Text("redis_acked") + [34, 58] + Text("true")) + [125])
  {
    hide PrintMember, Text, FormatInt, Base16.Encode;
    var ms := MembersOf(RecordOf(b));
    StrMember(ms[0].key, ms[0].value.text);
    StrMember(ms[1].key, ms[1].value.text);
    StrMember(ms[2].key, ms[2].value.text);
    TrueMember(ms[3].key);
    assert ms == [ms[0]] + ([ms[1]] + ([ms[2]] + [ms[3]]));
    Joined(ms[0], [ms[1]] + ([ms[2]] + [ms[3]]));
    Joined(ms[1], [ms[2]] + [ms[3]]);
    Joined(ms[2], [ms[3]]);
    Nested(PrintMember(ms[0]), PrintMember(ms[1]), PrintMember(ms[2]), PrintMember(ms[3]));
  }

  lemma TrueMember(key: Bytes)
    ensures PrintMember(Member(key, Bool(true))) == [34] + key + [34, 58] + Text("true")
  {
    hide Text;
  }

  lemma Nested(a: Bytes, b: Bytes, c: Bytes, d: Bytes)
    ensures [123] + (a + [44] + (b + [44] + (c + [44] + (d + [125])))) == [123] + a + ([44] + b) + ([44] + c) + ([44] + d + [125])
  {}

  lemma DecodeAccepts(b: Binding)
    ensures DecodeRecord(EncodeWire(b)) == Some(RecordOf(b))
  {
    hide ParseObject, PrintObject, AsMap, TextAt, Text, FormatInt, Base16.Encode, Plain;
    var w := RecordOf(b);
    KeysPlain();
    DigitsPlain(b.account);
    DigitsPlain(b.revision);
    HexPlain(b.fingerprint);
    ObjectRoundTrip(MembersOf(w));
    MapOfMembers(w);
  }

  /** Parsing the encoding of any valid binding returns it. */
  lemma WireRoundTrip(b: Binding)
    requires Valid(b)
    ensures ParseBinding(EncodeWire(b)) == Some(b)
  {
    hide DecodeRecord, EncodeWire, CheckRecord, RecordOf;
    DecodeAccepts(b);
    CheckAccepts(b);
  }

  /** Any bytes the parser accepts are exactly the encoding of the binding it returns. */
  lemma WireCanonical(data: Bytes)
    requires ParseBinding(data).Some?
    ensures Valid(ParseBinding(data).value) && EncodeWire(ParseBinding(data).value) == data
  {
    hide DecodeRecord, EncodeWire, CheckRecord;
    CheckSound(DecodeRecord(data).value, data);
  }

  lemma WireInjective(b: Binding, c: Binding)
    requires Valid(b) && Valid(c) && EncodeWire(b) == EncodeWire(c)
    ensures b == c
  {
    hide ParseBinding, EncodeWire;
    WireRoundTrip(b);
    WireRoundTrip(c);
  }

  /** How a JSON reader treats all other texts (white space, order, repeated keys, escapes, numbers, nesting) does not matter:
      any reader that reads canonical texts gives the same parser on all bytes. */
  lemma AnyReaderWillDo(decode: Bytes -> Option<Record>, data: Bytes)
    requires forall b: Binding :: Valid(b) ==> decode(EncodeWire(b)) == Some(RecordOf(b))
    ensures ParseWith(decode, data) == ParseBinding(data)
  {
    hide DecodeRecord, EncodeWire, CheckRecord, RecordOf, Valid;
    if decode(data).Some? { CheckSound(decode(data).value, data); }
    if DecodeRecord(data).Some? { CheckSound(DecodeRecord(data).value, data); }
    if ParseWith(decode, data).Some? { WireRoundTrip(ParseWith(decode, data).value); }
    if ParseBinding(data).Some? { CheckAccepts(ParseBinding(data).value); }
  }
}
