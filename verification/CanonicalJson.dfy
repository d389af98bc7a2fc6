/**
 The canonical text of a JSON value: the input of every plan and review hash
 (packages/plugin-installer/src/execution.ts:237-259, packages/plugin-manager/src/manager.ts:128-143).

 Strings are UTF-16 code units. Numbers are integers. `None` in a member stands for the value
 `undefined`, which the canonical text drops.
 */
module CanonicalJson {
  import opened Results
  import opened Sorting

  type CodeUnit = n: int | 0 <= n < 0x1_0000

  type Text = seq<CodeUnit>

  const QUOTE: CodeUnit := 0x22
  const COMMA: CodeUnit := 0x2C
  const MINUS: CodeUnit := 0x2D
  const ZERO: CodeUnit := 0x30
  const COLON: CodeUnit := 0x3A
  const LEFT_BRACKET: CodeUnit := 0x5B
  const BACKSLASH: CodeUnit := 0x5C
  const RIGHT_BRACKET: CodeUnit := 0x5D
  const LOWER_A: CodeUnit := 0x61
  const LOWER_B: CodeUnit := 0x62
  const LOWER_F: CodeUnit := 0x66
  const LOWER_N: CodeUnit := 0x6E
  const LOWER_R: CodeUnit := 0x72
  const LOWER_T: CodeUnit := 0x74
  const LOWER_U: CodeUnit := 0x75
  const LEFT_BRACE: CodeUnit := 0x7B
  const RIGHT_BRACE: CodeUnit := 0x7D

  const NULL_TEXT: Text := [0x6E, 0x75, 0x6C, 0x6C]
  const TRUE_TEXT: Text := [0x74, 0x72, 0x75, 0x65]
  const FALSE_TEXT: Text := [0x66, 0x61, 0x6C, 0x73, 0x65]

  datatype Json =
    | Null
    | Bool(flag: bool)
    | Num(number: int)
    | Str(text: Text)
    | Arr(items: seq<Json>)
    | Obj(members: seq<Member>)

  datatype Member = Member(key: Text, value: Option<Json>)

  // ---------------------------------------------------------------- strings

  predicate IsHighSurrogate(c: CodeUnit) { 0xD800 <= c <= 0xDBFF }

  predicate IsLowSurrogate(c: CodeUnit) { 0xDC00 <= c <= 0xDFFF }

  function HexDigit(d: int): CodeUnit
    requires 0 <= d < 16
  {
    if d < 10 then 0x30 + d else 0x57 + d
  }

  function HexEscape(c: CodeUnit): Text
  {
    [BACKSLASH, LOWER_U, HexDigit(c / 0x1000), HexDigit(c / 0x100 % 16), HexDigit(c / 16 % 16), HexDigit(c % 16)]
  }

  /** The escape of one code unit that is not half of a surrogate pair (section 7 of RFC 8259). */
  function EscapeUnit(c: CodeUnit): Text
  {
    if c == QUOTE || c == BACKSLASH then [BACKSLASH, c]
    else if c == 0x08 then [BACKSLASH, LOWER_B]
    else if c == 0x0C then [BACKSLASH, LOWER_F]
    else if c == 0x0A then [BACKSLASH, LOWER_N]
    else if c == 0x0D then [BACKSLASH, LOWER_R]
    else if c == 0x09 then [BACKSLASH, LOWER_T]
    else if c < 0x20 || IsHighSurrogate(c) || IsLowSurrogate(c) then HexEscape(c)
    else [c]
  }

  predicate StartsWithPair(s: Text)
  {
    |s| >= 2 && IsHighSurrogate(s[0]) && IsLowSurrogate(s[1])
  }

  function Escape(s: Text): Text
  {
    if s == [] then []
    else if StartsWithPair(s) then s[..2] + Escape(s[2..])
    else EscapeUnit(s[0]) + Escape(s[1..])
  }

  /** `JSON.stringify` of a string. */
  function Quote(s: Text): Text
  {
    [QUOTE] + Escape(s) + [QUOTE]
  }

  // ---------------------------------------------------------------- numbers

  function Digits(n: nat): (r: Text)
    ensures |r| > 0 && forall i :: 0 <= i < |r| ==> ZERO <= r[i] <= ZERO + 9
  {
    if n < 10 then [ZERO + n] else Digits(n / 10) + [ZERO + n % 10]
  }

  function Decimal(n: int): Text
  {
    if n < 0 then [MINUS] + Digits(-n) else Digits(n)
  }

  // ---------------------------------------------------------------- values

  function Join(parts: seq<Text>): Text
  {
    if parts == [] then []
    else if |parts| == 1 then parts[0]
    else parts[0] + [COMMA] + Join(parts[1..])
  }

  function DefinedKeys(members: seq<Member>): (r: seq<Text>)
    ensures forall k :: k in r <==> exists i :: 0 <= i < |members| && members[i].key == k && members[i].value.Some?
  {
    if members == [] then []
    else
      assert members == [members[0]] + members[1..];
      (if members[0].value.Some? then [members[0].key] else []) + DefinedKeys(members[1..])
  }

  /** `record[key]` for a key whose value is not `undefined`. */
  function Lookup(members: seq<Member>, key: Text): (r: Json)
    requires key in DefinedKeys(members)
    ensures exists i :: 0 <= i < |members| && members[i] == Member(key, Some(r))
  {
    if members[0].key == key && members[0].value.Some? then members[0].value.value
    else
      assert members == [members[0]] + members[1..];
      Lookup(members[1..], key)
  }

  /** Keys sort by their code units. */
  function KeyCode(key: Text): seq<int> { key }

  function SortedKeys(members: seq<Member>): (r: seq<Text>)
    ensures forall k :: k in r <==> k in DefinedKeys(members)
  {
    MembersOfSort(KeyCode, DefinedKeys(members));
    Sort(KeyCode, DefinedKeys(members))
  }

  function Canonical(j: Json): Text
  {
    match j
    case Null => NULL_TEXT
    case Bool(flag) => if flag then TRUE_TEXT else FALSE_TEXT
    case Num(number) => Decimal(number)
    case Str(text) => Quote(text)
    case Arr(items) =>
      [LEFT_BRACKET] + Join(seq(|items|, i requires 0 <= i < |items| => Canonical(items[i]))) + [RIGHT_BRACKET]
    case Obj(members) =>
      var keys := SortedKeys(members);
      [LEFT_BRACE]
      + Join(seq(|keys|, i requires 0 <= i < |keys| =>
          assert keys[i] in keys;
          Quote(keys[i]) + [COLON] + Canonical(Lookup(members, keys[i]))))
      + [RIGHT_BRACE]
  }

  // ---------------------------------------------------------------- what a value means

  /** A JSON value with key order and undefined members forgotten. */
  datatype Value =
    | VNull
    | VBool(flag: bool)
    | VNum(number: int)
    | VStr(text: Text)
    | VArr(items: seq<Value>)
    | VObj(fields: map<Text, Value>)

  ghost function Meaning(j: Json): Value
  {
    match j
    case Null => VNull
    case Bool(flag) => VBool(flag)
    case Num(number) => VNum(number)
    case Str(text) => VStr(text)
    case Arr(items) => VArr(seq(|items|, i requires 0 <= i < |items| => Meaning(items[i])))
    case Obj(members) => VObj(map k | k in DefinedKeys(members) :: Meaning(Lookup(members, k)))
  }

  /** No object repeats a key, as no JavaScript object can. */
  ghost predicate IsValue(j: Json)
  {
    match j
    case Arr(items) => forall i :: 0 <= i < |items| ==> IsValue(items[i])
    case Obj(members) =>
      && (forall i, k :: 0 <= i < k < |members| ==> members[i].key != members[k].key)
      && (forall i :: 0 <= i < |members| && members[i].value.Some? ==> IsValue(members[i].value.value))
    case _ => true
  }

  // ---------------------------------------------------------------- UTF-16

  function Units(c: char): (r: Text)
    ensures r != []
  {
    var n := c as int;
    if n < 0x1_0000 then [n] else
      var m := (n - 0x1_0000) % 0x10_0000;
      [0xD800 + m / 0x400, 0xDC00 + m % 0x400]
  }

  function Utf16(s: string): Text
  {
    if s == [] then [] else Units(s[0]) + Utf16(s[1..])
  }
}
