/** Decimal texts of integers of any size: `BigInt.prototype.toString` and `BigInt(text)`. */
module Decimal {
  import opened Options

  function Digit(d: nat): char
    requires d < 10
  {
    '0' + d as char
  }

  predicate IsDigit(c: char) {
    '0' <= c <= '9'
  }

  function PrintNat(n: nat): (s: string)
    ensures |s| > 0 && forall i | 0 <= i < |s| :: IsDigit(s[i])
  {
    if n < 10 then [Digit(n)] else PrintNat(n / 10) + [Digit(n % 10)]
  }

  function Print(n: int): string {
    if n < 0 then "-" + PrintNat(-n) else PrintNat(n)
  }

  function ParseNat(s: string): Option<nat> {
    if |s| == 0 then None
    else if !IsDigit(s[|s| - 1]) then None
    else
      var last: nat := s[|s| - 1] as int - '0' as int;
      if |s| == 1 then Some(last) else
        match ParseNat(s[..|s| - 1])
        case None => None
        case Some(high) => Some(high * 10 + last)
  }

  function Parse(s: string): Option<int> {
    if |s| > 0 && s[0] == '-' then
      match ParseNat(s[1..])
      case None => None
      case Some(n) => Some(-(n as int))
    else
      match ParseNat(s)
      case None => None
      case Some(n) => Some(n)
  }

  lemma {:induction false} ParsePrintNat(n: nat)
    ensures ParseNat(PrintNat(n)) == Some(n)
  {
    if n >= 10 {
      ParsePrintNat(n / 10);
      assert PrintNat(n)[..|PrintNat(n)| - 1] == PrintNat(n / 10);
    }
  }

  /** Reading back what was printed gives the same integer, whatever its size and sign. */
  lemma ParsePrint(n: int)
    ensures Parse(Print(n)) == Some(n)
  {
    if n < 0 {
      ParsePrintNat(-n);
      assert Print(n)[1..] == PrintNat(-n);
    } else {
      ParsePrintNat(n);
    }
  }

  /** A decimal text as it should be: digits without a leading zero, or a single zero. */
  predicate Canonical(s: string) {
    |s| > 0 && (forall i | 0 <= i < |s| :: IsDigit(s[i])) && (|s| > 1 ==> s[0] != '0')
  }

  lemma {:induction false} PrintsCanonical(s: string)
    requires Canonical(s)
    ensures ParseNat(s).Some? && PrintNat(ParseNat(s).value) == s
    ensures |s| > 1 ==> ParseNat(s).value >= 10
  {
    var n := |s| - 1;
    if n > 0 {
      PrintsCanonical(s[..n]);
      assert s[..n] + [s[n]] == s;
      if n == 1 {
        assert ParseNat(s[..1]).value > 0;
      }
    }
  }

  /** And printing undoes reading: what is written is the one text without a leading zero. */
  lemma PrintParse(s: string)
    requires if |s| > 0 && s[0] == '-' then Canonical(s[1..]) && s != "-0" else Canonical(s)
    ensures Parse(s).Some? && Print(Parse(s).value) == s
  {
    if s[0] == '-' {
      PrintsCanonical(s[1..]);
      assert "-" + s[1..] == s;
      if |s| == 2 { assert s[1..] == [s[1]]; }
    } else {
      PrintsCanonical(s);
    }
  }
}

/**
 The JSON codec of stored envelopes. JSON has no big integers, so an integer is written as an object under a sentinel
 key; an object of the payload's own that carries one of the sentinel keys is written as a list of entries under the
 other one. Encoding works from the root down, decoding from the leaves up.
 */
module Codec {
  import opened Options
  import opened Decimal

  const BIGINT_SENTINEL := "__monitorBigInt"
  const ESCAPED_JSON_SENTINEL := "__causalOrderMonitorInternalEscapedJsonV1__"

  /** A JSON value that may also hold big integers; a number is kept as its text. */
  datatype Json =
    | Null
    | Bool(value: bool)
    | Number(text: string)
    | Str(chars: string)
    | Big(integer: int)
    | Arr(items: seq<Json>)
    | Obj(members: seq<Member>)

  datatype Member = Member(key: string, value: Json)

  predicate HasKey(ms: seq<Member>, key: string) {
    |ms| > 0 && (ms[|ms| - 1].key == key || HasKey(ms[..|ms| - 1], key))
  }

  /** Object keys are distinct. */
  predicate DistinctKeys(ms: seq<Member>) {
    |ms| == 0 || (DistinctKeys(ms[..|ms| - 1]) && !HasKey(ms[..|ms| - 1], ms[|ms| - 1].key))
  }

  /** A value the language can hold: no object has a key twice. */
  predicate Holdable(t: Json) {
    match t
    case Arr(items) => forall i | 0 <= i < |items| :: Holdable(items[i])
    case Obj(ms) => DistinctKeys(ms) && forall i | 0 <= i < |ms| :: Holdable(ms[i].value)
    case _ => true
  }

  /** A value JSON text can hold: no big integer anywhere. */
  predicate Plain(t: Json) {
    match t
    case Big(n) => false
    case Arr(items) => forall i | 0 <= i < |items| :: Plain(items[i])
    case Obj(ms) => forall i | 0 <= i < |ms| :: Plain(ms[i].value)
    case _ => true
  }

  // ---------------------------------------------------------------- writing

  function Pair(key: string, value: Json): Json {
    Arr([Str(key), value])
  }

  function Encode(t: Json): Json
    decreases t
  {
    match t
    case Big(n) => Obj([Member(BIGINT_SENTINEL, Str(Print(n)))])
    case Arr(items) => Arr(seq(|items|, i requires 0 <= i < |items| => Encode(items[i])))
    case Obj(ms) =>
      if HasKey(ms, BIGINT_SENTINEL) || HasKey(ms, ESCAPED_JSON_SENTINEL) then
        Obj([Member(ESCAPED_JSON_SENTINEL,
                    Arr(seq(|ms|, i requires 0 <= i < |ms| => Pair(ms[i].key, Encode(ms[i].value)))))])
      else
        Obj(seq(|ms|, i requires 0 <= i < |ms| => Member(ms[i].key, Encode(ms[i].value))))
    case _ => t
  }

  // ---------------------------------------------------------------- reading

  function Replace(ms: seq<Member>, key: string, value: Json): seq<Member> {
    seq(|ms|, i requires 0 <= i < |ms| => if ms[i].key == key then Member(key, value) else ms[i])
  }

  /** Setting a property: an existing key keeps its place and takes the new value, a new one goes last. */
  function Put(ms: seq<Member>, key: string, value: Json): seq<Member> {
    if HasKey(ms, key) then Replace(ms, key, value) else ms + [Member(key, value)]
  }

  /** `Object.fromEntries` on a list of [key, value] pairs. */
  function FromEntries(entries: seq<Json>): Option<seq<Member>> {
    if |entries| == 0 then Some([])
    else
      var rest := FromEntries(entries[..|entries| - 1]);
      var entry := entries[|entries| - 1];
      if rest.None? || !entry.Arr? || |entry.items| < 2 || !entry.items[0].Str? then None
      else Some(Put(rest.value, entry.items[0].chars, entry.items[1]))
  }

  function ValueOf(ms: seq<Member>, key: string): Option<Json> {
    if |ms| == 0 then None
    else if ms[|ms| - 1].key == key then Some(ms[|ms| - 1].value)
    else ValueOf(ms[..|ms| - 1], key)
  }

  /** What the reviver makes of an object whose members it has already revived. */
  function Revive(ms: seq<Member>): Option<Json> {
    if |ms| == 1 && ms[0].key == ESCAPED_JSON_SENTINEL && ms[0].value.Arr? then
      match FromEntries(ms[0].value.items)
      case None => None
      case Some(members) => Some(Obj(members))
    else
      match ValueOf(ms, BIGINT_SENTINEL)
      case Some(Str(text)) =>
        (match Parse(text)
         case None => None
         case Some(n) => Some(Big(n)))
      case _ => Some(Obj(ms))
  }

  function Decode(t: Json): Option<Json>
    decreases t
  {
    match t
    case Arr(items) =>
      if exists i | 0 <= i < |items| :: Decode(items[i]).None? then None
      else Some(Arr(seq(|items|, i requires 0 <= i < |items| => Decode(items[i]).value)))
    case Obj(ms) =>
      if exists i | 0 <= i < |ms| :: Decode(ms[i].value).None? then None
      else Revive(seq(|ms|, i requires 0 <= i < |ms| => Member(ms[i].key, Decode(ms[i].value).value)))
    case _ => Some(t)
  }

  // ---------------------------------------------------------------- objects as lists of entries

  /** The entries of an object, with other values. */
  function Entries(ms: seq<Member>, values: seq<Json>): seq<Json>
    requires |values| == |ms|
  {
    seq(|ms|, i requires 0 <= i < |ms| => Pair(ms[i].key, values[i]))
  }

  function Values(ms: seq<Member>): (values: seq<Json>)
    ensures |values| == |ms|
  {
    seq(|ms|, i requires 0 <= i < |ms| => ms[i].value)
  }

  lemma FromEntriesSnoc(entries: seq<Json>, members: seq<Member>, m: Member)
    requires FromEntries(entries) == Some(members) && !HasKey(members, m.key)
    ensures FromEntries(entries + [Pair(m.key, m.value)]) == Some(members + [m])
  {
    assert (entries + [Pair(m.key, m.value)])[..|entries|] == entries;
  }

  lemma EntriesSnoc(ms: seq<Member>)
    requires |ms| > 0
    ensures var front, last := ms[..|ms| - 1], ms[|ms| - 1];
            Entries(ms, Values(ms)) == Entries(front, Values(front)) + [Pair(last.key, last.value)]
  {
  }

  /** `Object.fromEntries` undoes `Object.entries`. */
  lemma {:induction false} FromEntriesOfEntries(ms: seq<Member>)
    requires DistinctKeys(ms)
    ensures FromEntries(Entries(ms, Values(ms))) == Some(ms)
  {
    if |ms| > 0 {
      var front, last := ms[..|ms| - 1], ms[|ms| - 1];
      FromEntriesOfEntries(front);
      EntriesSnoc(ms);
      FromEntriesSnoc(Entries(front, Values(front)), front, last);
      assert ms == front + [last];
    }
  }

  lemma {:induction false} NoValue(ms: seq<Member>, key: string)
    requires !HasKey(ms, key)
    ensures ValueOf(ms, key) == None
  {
    if |ms| > 0 {
      NoValue(ms[..|ms| - 1], key);
    }
  }

  /** Encoding the values of an object changes none of its keys. */
  lemma {:induction false} SameKeys(a: seq<Member>, b: seq<Member>, key: string)
    requires |a| == |b| && forall i | 0 <= i < |a| :: a[i].key == b[i].key
    ensures HasKey(a, key) <==> HasKey(b, key)
    ensures DistinctKeys(a) <==> DistinctKeys(b)
  {
    if |a| > 0 {
      SameKeys(a[..|a| - 1], b[..|b| - 1], key);
      SameKeys(a[..|a| - 1], b[..|b| - 1], a[|a| - 1].key);
    }
  }

  // ---------------------------------------------------------------- the round trip

  lemma DecodeItems(items: seq<Json>, values: seq<Json>)
    requires |items| == |values| && forall i | 0 <= i < |items| :: Decode(items[i]) == Some(values[i])
    ensures Decode(Arr(items)) == Some(Arr(values))
  {
    assert seq(|items|, i requires 0 <= i < |items| => Decode(items[i]).value) == values;
  }

  lemma DecodeMembers(ms: seq<Member>, values: seq<Member>)
    requires |ms| == |values|
    requires forall i | 0 <= i < |ms| :: ms[i].key == values[i].key && Decode(ms[i].value) == Some(values[i].value)
    ensures Decode(Obj(ms)) == Revive(values)
  {
    assert seq(|ms|, i requires 0 <= i < |ms| => Member(ms[i].key, Decode(ms[i].value).value)) == values;
  }

  lemma DecodeInteger(n: int)
    ensures Decode(Encode(Big(n))) == Some(Big(n))
  {
    var wrapper := [Member(BIGINT_SENTINEL, Str(Print(n)))];
    DecodeMembers(wrapper, wrapper);
    ParsePrint(n);
    assert BIGINT_SENTINEL[2] != ESCAPED_JSON_SENTINEL[2];
  }

  lemma DecodePair(key: string, encoded: Json, value: Json)
    requires Decode(encoded) == Some(value)
    ensures Decode(Pair(key, encoded)) == Some(Pair(key, value))
  {
    DecodeItems([Str(key), encoded], [Str(key), value]);
  }

  lemma DecodeEscapedObject(ms: seq<Member>, encoded: seq<Json>)
    requires |encoded| == |ms| && DistinctKeys(ms)
    requires forall i | 0 <= i < |ms| :: Decode(encoded[i]) == Some(ms[i].value)
    ensures Decode(Obj([Member(ESCAPED_JSON_SENTINEL, Arr(Entries(ms, encoded)))])) == Some(Obj(ms))
  {
    var written, read := Arr(Entries(ms, encoded)), Arr(Entries(ms, Values(ms)));
    assert Decode(written) == Some(read) by {
      forall i | 0 <= i < |ms| ensures Decode(Entries(ms, encoded)[i]) == Some(Entries(ms, Values(ms))[i]) {
        DecodePair(ms[i].key, encoded[i], ms[i].value);
      }
      DecodeItems(Entries(ms, encoded), Entries(ms, Values(ms)));
    }
    DecodeMembers([Member(ESCAPED_JSON_SENTINEL, written)], [Member(ESCAPED_JSON_SENTINEL, read)]);
    FromEntriesOfEntries(ms);
  }

  lemma DecodePlainObject(ms: seq<Member>, encoded: seq<Member>)
    requires |encoded| == |ms| && !HasKey(ms, BIGINT_SENTINEL) && !HasKey(ms, ESCAPED_JSON_SENTINEL)
    requires forall i | 0 <= i < |ms| ::
               encoded[i].key == ms[i].key && Decode(encoded[i].value) == Some(ms[i].value)
    ensures Decode(Obj(encoded)) == Some(Obj(ms))
  {
    DecodeMembers(encoded, ms);
    NoValue(ms, BIGINT_SENTINEL);
  }

  /**
   Whatever the payload, decoding what was encoded gives it back: big integers of any size, and objects whose own keys
   are either sentinel, at any depth.
   */
  lemma {:induction false} RoundTrip(t: Json)
    requires Holdable(t)
    ensures Decode(Encode(t)) == Some(t)
    decreases t
  {
    match t
    case Big(n) => DecodeInteger(n);
    case Arr(items) =>
      forall i | 0 <= i < |items| ensures Decode(Encode(items[i])) == Some(items[i]) { RoundTrip(items[i]); }
      DecodeItems(seq(|items|, i requires 0 <= i < |items| => Encode(items[i])), items);
    case Obj(ms) =>
      forall i | 0 <= i < |ms| ensures Decode(Encode(ms[i].value)) == Some(ms[i].value) { RoundTrip(ms[i].value); }
      if HasKey(ms, BIGINT_SENTINEL) || HasKey(ms, ESCAPED_JSON_SENTINEL) {
        var encoded := seq(|ms|, i requires 0 <= i < |ms| => Encode(ms[i].value));
        DecodeEscapedObject(ms, encoded);
        assert seq(|ms|, i requires 0 <= i < |ms| => Pair(ms[i].key, Encode(ms[i].value))) == Entries(ms, encoded);
      } else {
        DecodePlainObject(ms, seq(|ms|, i requires 0 <= i < |ms| => Member(ms[i].key, Encode(ms[i].value))));
      }
    case _ =>
  }

  /** So no two payloads are stored alike. */
  lemma EncodeIsInjective(a: Json, b: Json)
    requires Holdable(a) && Holdable(b) && Encode(a) == Encode(b)
    ensures a == b
  {
    RoundTrip(a);
    RoundTrip(b);
  }

  lemma PairIsPlain(key: string, value: Json)
    requires Plain(value) && Holdable(value)
    ensures Plain(Pair(key, value)) && Holdable(Pair(key, value))
  {
    assert [Str(key), value][1] == value;
  }

  /** What is written is JSON: no big integer is left in it and no object has a key twice. */
  lemma {:induction false} EncodeIsPlain(t: Json)
    requires Holdable(t)
    ensures Plain(Encode(t)) && Holdable(Encode(t))
    decreases t
  {
    match t
    case Arr(items) =>
      forall i | 0 <= i < |items| ensures Plain(Encode(items[i])) && Holdable(Encode(items[i])) {
        EncodeIsPlain(items[i]);
      }
    case Obj(ms) =>
      forall i | 0 <= i < |ms| ensures Plain(Encode(ms[i].value)) && Holdable(Encode(ms[i].value)) {
        EncodeIsPlain(ms[i].value);
      }
      SameKeys(ms, seq(|ms|, i requires 0 <= i < |ms| => Member(ms[i].key, Encode(ms[i].value))), "");
      var entries := seq(|ms|, i requires 0 <= i < |ms| => Pair(ms[i].key, Encode(ms[i].value)));
      forall i | 0 <= i < |ms| ensures Plain(entries[i]) && Holdable(entries[i]) {
        PairIsPlain(ms[i].key, Encode(ms[i].value));
      }
      var escaped := [Member(ESCAPED_JSON_SENTINEL, Arr(entries))];
      assert Plain(Arr(entries)) && Holdable(Arr(entries));
      assert escaped[0].value == Arr(entries) && DistinctKeys(escaped[..0]);
    case _ =>
  }

  /** No big integer, and no own key equal to a sentinel, at any depth. */
  predicate Ordinary(t: Json) {
    match t
    case Big(_) => false
    case Arr(items) => forall i | 0 <= i < |items| :: Ordinary(items[i])
    case Obj(ms) =>
      !HasKey(ms, BIGINT_SENTINEL) && !HasKey(ms, ESCAPED_JSON_SENTINEL) &&
      forall i | 0 <= i < |ms| :: Ordinary(ms[i].value)
    case _ => true
  }

  /** What needs no escape is stored as it is. */
  lemma {:induction false} StoredAsIs(t: Json)
    requires Ordinary(t)
    ensures Encode(t) == t
    decreases t
  {
    match t
    case Arr(items) =>
      forall i | 0 <= i < |items| ensures Encode(items[i]) == items[i] { StoredAsIs(items[i]); }
      assert seq(|items|, i requires 0 <= i < |items| => Encode(items[i])) == items;
    case Obj(ms) =>
      forall i | 0 <= i < |ms| ensures Encode(ms[i].value) == ms[i].value { StoredAsIs(ms[i].value); }
      assert seq(|ms|, i requires 0 <= i < |ms| => Member(ms[i].key, Encode(ms[i].value))) == ms;
    case _ =>
  }

  /** An object is stored as a list of entries exactly if one of its own keys is a sentinel, else under its keys. */
  lemma EscapedExactly(ms: seq<Member>)
    ensures var stored := Encode(Obj(ms)).members;
            if exists i :: 0 <= i < |ms| && ms[i].key in {BIGINT_SENTINEL, ESCAPED_JSON_SENTINEL} then
              |stored| == 1 && stored[0].key == ESCAPED_JSON_SENTINEL
            else
              |stored| == |ms| && forall i | 0 <= i < |ms| :: stored[i].key == ms[i].key
  {
    KeyAtSomePlace(ms, BIGINT_SENTINEL);
    KeyAtSomePlace(ms, ESCAPED_JSON_SENTINEL);
  }

  lemma {:induction false} KeyAtSomePlace(ms: seq<Member>, key: string)
    ensures HasKey(ms, key) <==> exists i :: 0 <= i < |ms| && ms[i].key == key
  {
    if |ms| > 0 {
      var front := ms[..|ms| - 1];
      KeyAtSomePlace(front, key);
      assert forall i | 0 <= i < |front| :: front[i] == ms[i];
    }
  }

  /** The two forms on disk, by example. */
  lemma StoredForms()
    ensures Encode(Big(-1)) == Obj([Member("__monitorBigInt", Str("-1"))])
    ensures Encode(Obj([Member("__monitorBigInt", Null)])) ==
            Obj([Member("__causalOrderMonitorInternalEscapedJsonV1__", Arr([Arr([Str("__monitorBigInt"), Null])]))])
  {
    assert Print(-1) == "-1";
    var ms := [Member("__monitorBigInt", Null)];
    assert HasKey(ms, BIGINT_SENTINEL);
    assert seq(|ms|, i requires 0 <= i < |ms| => Pair(ms[i].key, Encode(ms[i].value))) ==
           [Pair("__monitorBigInt", Null)];
  }

  // ---------------------------------------------------------------- reading what was not written here

  /** The value of the last entry with a key. */
  function LastEntry(entries: seq<Json>, key: string): Option<Json> {
    if |entries| == 0 then None else
      var entry := entries[|entries| - 1];
      if entry.Arr? && |entry.items| >= 2 && entry.items[0] == Str(key) then Some(entry.items[1])
      else LastEntry(entries[..|entries| - 1], key)
  }

  lemma {:induction false} PutFinds(ms: seq<Member>, key: string, value: Json, other: string)
    ensures ValueOf(Replace(ms, key, value), other) ==
            if HasKey(ms, key) && other == key then Some(value) else ValueOf(ms, other)
    ensures HasKey(Replace(ms, key, value), other) <==> HasKey(ms, other)
    ensures DistinctKeys(ms) ==> DistinctKeys(Replace(ms, key, value))
  {
    if |ms| > 0 {
      var front := ms[..|ms| - 1];
      PutFinds(front, key, value, other);
      PutFinds(front, key, value, ms[|ms| - 1].key);
      assert Replace(ms, key, value)[..|ms| - 1] == Replace(front, key, value);
    }
  }

  lemma {:induction false} NoValueExactly(ms: seq<Member>, key: string)
    ensures ValueOf(ms, key) == None <==> !HasKey(ms, key)
  {
    if |ms| > 0 {
      NoValueExactly(ms[..|ms| - 1], key);
    }
  }

  lemma PutSets(ms: seq<Member>, key: string, value: Json, other: string)
    requires DistinctKeys(ms)
    ensures DistinctKeys(Put(ms, key, value))
    ensures ValueOf(Put(ms, key, value), other) == if other == key then Some(value) else ValueOf(ms, other)
  {
    PutFinds(ms, key, value, other);
    assert (ms + [Member(key, value)])[..|ms|] == ms;
  }

  /** An object read from a list of entries has every key once, with the value of its last entry. */
  lemma {:induction false} LastEntryWins(entries: seq<Json>, ms: seq<Member>, key: string)
    requires FromEntries(entries) == Some(ms)
    ensures DistinctKeys(ms) && ValueOf(ms, key) == LastEntry(entries, key)
  {
    if |entries| > 0 {
      var rest, entry := FromEntries(entries[..|entries| - 1]), entries[|entries| - 1];
      LastEntryWins(entries[..|entries| - 1], rest.value, key);
      PutSets(rest.value, entry.items[0].chars, entry.items[1], key);
    }
  }

  lemma ReviveInteger(values: seq<Member>, text: string)
    requires ValueOf(values, BIGINT_SENTINEL) == Some(Str(text))
    ensures Revive(values) == if Parse(text) == None then None else Some(Big(Parse(text).value))
  {
    if |values| == 1 {
      assert values[0].key == BIGINT_SENTINEL;
      assert BIGINT_SENTINEL[2] != ESCAPED_JSON_SENTINEL[2];
    }
  }

  /** An object with a text under the integer key is read as that integer, whatever else it holds, or not at all. */
  lemma IntegerKeyDecides(ms: seq<Member>, values: seq<Member>, text: string)
    requires |ms| == |values|
    requires forall i | 0 <= i < |ms| :: ms[i].key == values[i].key && Decode(ms[i].value) == Some(values[i].value)
    requires ValueOf(values, BIGINT_SENTINEL) == Some(Str(text))
    ensures Decode(Obj(ms)) == if Parse(text) == None then None else Some(Big(Parse(text).value))
  {
    DecodeMembers(ms, values);
    ReviveInteger(values, text);
  }
}
