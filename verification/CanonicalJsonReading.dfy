/**
 A reader of JSON texts without white space (sections 3 to 7 of RFC 8259), and the proof that it reads every
 canonical text back as the value that was written.
 */
module CanonicalJsonReading {
  import opened Results
  import opened Sorting
  import opened CanonicalJson
  import opened CanonicalJsonProofs

  predicate Is(c: CodeUnit, d: char)
  {
    c == d as int
  }

  predicate StartsWith(t: Text, d: char)
  {
    t != [] && Is(t[0], d)
  }

  /** What was read, and what is left of the text. */
  type Read<A> = Option<(A, Text)>

  // ---------------------------------------------------------------- strings

  function HexValue(c: CodeUnit): Option<int>
  {
    if '0' as int <= c <= '9' as int then Some(c - '0' as int)
    else if 'a' as int <= c <= 'f' as int then Some(c - 'a' as int + 10)
    else if 'A' as int <= c <= 'F' as int then Some(c - 'A' as int + 10)
    else None
  }

  function FourHex(t: Text): Option<CodeUnit>
    requires |t| >= 4
  {
    var a, b, c, d := HexValue(t[0]), HexValue(t[1]), HexValue(t[2]), HexValue(t[3]);
    if a.None? || b.None? || c.None? || d.None? then None
    else
      var n := ((a.value * 16 + b.value) * 16 + c.value) * 16 + d.value;
      if 0 <= n < 0x1_0000 then Some(n) else None
  }

  /** What the character behind a backslash stands for. */
  function ShortEscape(c: CodeUnit): Option<CodeUnit>
  {
    if Is(c, '"') then Some(0x22)
    else if Is(c, '\\') then Some(0x5C)
    else if Is(c, '/') then Some(0x2F)
    else if Is(c, 'b') then Some(0x08)
    else if Is(c, 'f') then Some(0x0C)
    else if Is(c, 'n') then Some(0x0A)
    else if Is(c, 'r') then Some(0x0D)
    else if Is(c, 't') then Some(0x09)
    else None
  }

  function Before(c: CodeUnit, rest: Read<Text>): (r: Read<Text>)
    ensures r.Some? <==> rest.Some?
    ensures r.Some? ==> r.value.1 == rest.value.1
  {
    if rest.None? then None else Some(([c] + rest.value.0, rest.value.1))
  }

  /** The string up to the closing quotation mark. */
  function ReadString(t: Text): (r: Read<Text>)
    ensures r.Some? ==> |r.value.1| < |t|
  {
    if t == [] || t[0] < 0x20 then None
    else if Is(t[0], '"') then Some(([], t[1..]))
    else if !Is(t[0], '\\') then Before(t[0], ReadString(t[1..]))
    else if |t| >= 2 && ShortEscape(t[1]).Some? then Before(ShortEscape(t[1]).value, ReadString(t[2..]))
    else if |t| >= 6 && Is(t[1], 'u') && FourHex(t[2..]).Some? then Before(FourHex(t[2..]).value, ReadString(t[6..]))
    else None
  }

  lemma HexIsRead(d: int)
    requires 0 <= d < 16
    ensures HexValue(HexDigit(d)) == Some(d)
  {
  }

  lemma FourHexOfEscape(c: CodeUnit, t: Text)
    ensures FourHex((HexEscape(c) + t)[2..]) == Some(c)
  {
    hide HexDigit, HexValue;
    FourDigits(c);
    HexIsRead(c / 0x1000);
    HexIsRead(c / 0x100 % 16);
    HexIsRead(c / 16 % 16);
    HexIsRead(c % 16);
  }

  lemma HexEscapeIsRead(c: CodeUnit, t: Text)
    ensures ReadString(HexEscape(c) + t) == Before(c, ReadString(t))
  {
    hide FourHex, HexDigit;
    FourHexOfEscape(c, t);
    assert (HexEscape(c) + t)[6..] == t;
  }

  lemma UnitIsRead(c: CodeUnit, t: Text)
    ensures ReadString(EscapeUnit(c) + t) == Before(c, ReadString(t))
  {
    hide HexEscape, FourHex;
    var text := EscapeUnit(c) + t;
    if EscapeUnit(c) == HexEscape(c) {
      HexEscapeIsRead(c, t);
    } else if |EscapeUnit(c)| == 2 {
      assert text[2..] == t;
    } else {
      assert text[1..] == t;
    }
  }

  lemma PlainIsRead(c: CodeUnit, t: Text)
    requires IsHighSurrogate(c) || IsLowSurrogate(c)
    ensures ReadString([c] + t) == Before(c, ReadString(t))
  {
    assert ([c] + t)[1..] == t;
  }

  lemma QuoteEnds(t: Text)
    ensures ReadString([QUOTE] + t) == Some(([], t))
  {
    assert ([QUOTE] + t)[1..] == t;
  }

  lemma HalvesOfPair(s: Text)
    requires StartsWithPair(s)
    ensures |s| >= 2 && IsHighSurrogate(s[0]) && IsLowSurrogate(s[1])
  {
  }

  lemma TwoAhead(s: Text, rest: Text, t: Text)
    requires |s| >= 2
    ensures (s[..2] + rest) + t == [s[0]] + ([s[1]] + (rest + t))
    ensures s == [s[0]] + ([s[1]] + s[2..])
  {
    assert s[..2] == [s[0]] + [s[1]];
  }

  lemma PairUnfolds(s: Text, t: Text)
    requires StartsWithPair(s)
    ensures Escape(s) + t == [s[0]] + ([s[1]] + (Escape(s[2..]) + t)) && s == [s[0]] + ([s[1]] + s[2..])
  {
    hide EscapeUnit;
    TwoAhead(s, Escape(s[2..]), t);
  }

  lemma UnitUnfolds(s: Text, t: Text)
    requires s != [] && !StartsWithPair(s)
    ensures Escape(s) + t == EscapeUnit(s[0]) + (Escape(s[1..]) + t) && s == [s[0]] + s[1..]
  {
    hide EscapeUnit;
    Assoc(EscapeUnit(s[0]), Escape(s[1..]), t);
  }

  /** Up to its closing mark a written string is read back as it was. */
  lemma {:induction false} StringIsReadBack(s: Text, t: Text)
    ensures ReadString(Escape(s) + ([QUOTE] + t)) == Some((s, t))
  {
    hide EscapeUnit, ReadString, StartsWithPair;
    if s == [] {
      assert Escape(s) + ([QUOTE] + t) == [QUOTE] + t;
      QuoteEnds(t);
    } else if StartsWithPair(s) {
      HalvesOfPair(s);
      StringIsReadBack(s[2..], t);
      var rest := Escape(s[2..]) + ([QUOTE] + t);
      PairUnfolds(s, [QUOTE] + t);
      PlainIsRead(s[1], rest);
      PlainIsRead(s[0], [s[1]] + rest);
    } else {
      StringIsReadBack(s[1..], t);
      UnitUnfolds(s, [QUOTE] + t);
      UnitIsRead(s[0], Escape(s[1..]) + ([QUOTE] + t));
    }
  }

  // ---------------------------------------------------------------- numbers

  /** The number a row of decimal digits stands for. */
  function DecimalValue(t: Text): int
  {
    if t == [] then 0 else 10 * DecimalValue(t[..|t| - 1]) + (t[|t| - 1] - '0' as int)
  }

  /** How many digits a text starts with. */
  function DigitCount(t: Text): (n: nat)
    ensures n <= |t|
  {
    if t != [] && '0' as int <= t[0] <= '9' as int then 1 + DigitCount(t[1..]) else 0
  }

  /** Digits without a leading zero. */
  function ReadDigits(t: Text): (r: Read<int>)
    ensures r.Some? ==> |r.value.1| < |t|
  {
    var n := DigitCount(t);
    if n == 0 || (n > 1 && StartsWith(t, '0')) then None else Some((DecimalValue(t[..n]), t[n..]))
  }

  function ReadNumber(t: Text): (r: Read<int>)
    ensures r.Some? ==> |r.value.1| < |t|
  {
    if StartsWith(t, '-') then
      var digits := ReadDigits(t[1..]);
      if digits.None? then None else Some((-digits.value.0, digits.value.1))
    else ReadDigits(t)
  }

  lemma {:induction false} DigitsMean(n: nat)
    ensures DecimalValue(Digits(n)) == n
    ensures |Digits(n)| > 1 ==> !StartsWith(Digits(n), '0')
  {
    if n >= 10 {
      DigitsMean(n / 10);
      assert Digits(n)[..|Digits(n)| - 1] == Digits(n / 10);
      FirstDigit(n / 10);
    } else {
      assert Digits(n)[..0] == [];
    }
  }

  lemma FirstDigit(n: nat)
    ensures 0 < n < 10 ==> Digits(n)[0] != ZERO
  {
  }

  lemma {:induction false} CountOfDigits(d: Text, s: Text)
    requires Delimits(s) && forall i :: 0 <= i < |d| ==> '0' as int <= d[i] <= '9' as int
    ensures DigitCount(d + s) == |d|
  {
    if d == [] {
      assert d + s == s;
    } else {
      assert (d + s)[1..] == d[1..] + s;
      CountOfDigits(d[1..], s);
    }
  }

  lemma DigitsAreReadBack(n: nat, s: Text)
    requires Delimits(s)
    ensures ReadDigits(Digits(n) + s) == Some((n, s))
  {
    var t := Digits(n) + s;
    CountOfDigits(Digits(n), s);
    DigitsMean(n);
    assert t[..|Digits(n)|] == Digits(n) && t[|Digits(n)|..] == s && t[0] == Digits(n)[0];
  }

  lemma NumberIsReadBack(n: int, s: Text)
    requires Delimits(s)
    ensures ReadNumber(Decimal(n) + s) == Some((n, s))
  {
    hide ReadDigits, Digits;
    if n < 0 {
      CutHead(MINUS, Digits(-n) + s);
      assert Decimal(n) + s == [MINUS] + (Digits(-n) + s);
      DigitsAreReadBack(-n, s);
    } else {
      Head(Digits(n), s);
      DigitsAreReadBack(n, s);
    }
  }

  // ---------------------------------------------------------------- values

  function ReadValue(t: Text): (r: Read<Value>)
    ensures r.Some? ==> |r.value.1| < |t|
    decreases |t|, 0
  {
    if |t| >= 4 && Is(t[0], 'n') && Is(t[1], 'u') && Is(t[2], 'l') && Is(t[3], 'l') then Some((VNull, t[4..]))
    else if |t| >= 4 && Is(t[0], 't') && Is(t[1], 'r') && Is(t[2], 'u') && Is(t[3], 'e') then Some((VBool(true), t[4..]))
    else if |t| >= 5 && Is(t[0], 'f') && Is(t[1], 'a') && Is(t[2], 'l') && Is(t[3], 's') && Is(t[4], 'e') then
      Some((VBool(false), t[5..]))
    else if StartsWith(t, '"') then
      var text := ReadString(t[1..]);
      if text.None? then None else Some((VStr(text.value.0), text.value.1))
    else if StartsWith(t, '[') then
      var items := if StartsWith(t[1..], ']') then Some(([], t[2..])) else ReadItems(t[1..]);
      if items.None? then None else Some((VArr(items.value.0), items.value.1))
    else if StartsWith(t, '{') then
      var fields := if StartsWith(t[1..], '}') then Some((map[], t[2..])) else ReadMembers(t[1..]);
      if fields.None? then None else Some((VObj(fields.value.0), fields.value.1))
    else
      var number := ReadNumber(t);
      if number.None? then None else Some((VNum(number.value.0), number.value.1))
  }

  /** One value or more, separated by commas, up to the closing bracket. */
  function ReadItems(t: Text): (r: Read<seq<Value>>)
    ensures r.Some? ==> |r.value.1| < |t|
    decreases |t|, 1
  {
    var first := ReadValue(t);
    if first.None? then None
    else if StartsWith(first.value.1, ']') then Some(([first.value.0], first.value.1[1..]))
    else if StartsWith(first.value.1, ',') then
      var rest := ReadItems(first.value.1[1..]);
      if rest.None? then None else Some(([first.value.0] + rest.value.0, rest.value.1))
    else None
  }

  /** One member or more, separated by commas, up to the closing brace; of members with one key the last counts. */
  function ReadMembers(t: Text): (r: Read<map<Text, Value>>)
    ensures r.Some? ==> |r.value.1| < |t|
    decreases |t|, 1
  {
    if !StartsWith(t, '"') then None
    else
      var key := ReadString(t[1..]);
      if key.None? || !StartsWith(key.value.1, ':') then None
      else
        var value := ReadValue(key.value.1[1..]);
        if value.None? then None
        else if StartsWith(value.value.1, '}') then Some((map[key.value.0 := value.value.0], value.value.1[1..]))
        else if StartsWith(value.value.1, ',') then
          var rest := ReadMembers(value.value.1[1..]);
          if rest.None? then None else Some((map[key.value.0 := value.value.0] + rest.value.0, rest.value.1))
        else None
  }

  // ---------------------------------------------------------------- reading back

  lemma WordIsReadBack(j: Json, s: Text)
    requires j.Null? || j.Bool?
    ensures ReadValue(Canonical(j) + s) == Some((Meaning(j), s))
  {
    assert (Canonical(j) + s)[|Canonical(j)|..] == s;
  }

  lemma StrIsReadBack(text: Text, s: Text)
    ensures ReadValue(Canonical(Str(text)) + s) == Some((VStr(text), s))
  {
    hide ReadString;
    StringIsReadBack(text, s);
    var t := Canonical(Str(text)) + s;
    assert t[0] == QUOTE && t[1..] == Escape(text) + ([QUOTE] + s);
  }

  lemma NumIsReadBack(n: int, s: Text)
    requires Delimits(s)
    ensures ReadValue(Canonical(Num(n)) + s) == Some((VNum(n), s))
  {
    hide ReadNumber;
    NumberIsReadBack(n, s);
    CanonicalHead(Num(n), s);
  }

  ghost function MeaningsFrom(items: seq<Json>, k: nat): seq<Value>
    requires k <= |items|
  {
    seq(|items| - k, i requires 0 <= i < |items| - k => Meaning(items[k + i]))
  }

  ghost function FieldsFrom(members: seq<Member>, k: nat): map<Text, Value>
    requires k <= |SortedKeys(members)|
  {
    map key | key in SortedKeys(members)[k..] :: Meaning(Lookup(members, key))
  }

  /** What is read after a list's first part has been. */
  lemma ItemsUnfold(t: Text, first: Value, rest: Text)
    requires ReadValue(t) == Some((first, rest))
    ensures StartsWith(rest, ']') ==> ReadItems(t) == Some(([first], rest[1..]))
    ensures StartsWith(rest, ',') && ReadItems(rest[1..]).Some? ==>
              ReadItems(t) == Some(([first] + ReadItems(rest[1..]).value.0, ReadItems(rest[1..]).value.1))
  {
  }

  /** The text of an object's member starts with its key and a colon. */
  lemma MembersUnfold(key: Text, t: Text, value: Value, rest: Text)
    requires ReadValue(t) == Some((value, rest))
    ensures var text := Quote(key) + ([COLON] + t);
            && (StartsWith(rest, '}') ==> ReadMembers(text) == Some((map[key := value], rest[1..])))
            && (StartsWith(rest, ',') && ReadMembers(rest[1..]).Some? ==>
                  ReadMembers(text) == Some((map[key := value] + ReadMembers(rest[1..]).value.0, ReadMembers(rest[1..]).value.1)))
  {
    hide ReadString, ReadValue;
    var text := Quote(key) + ([COLON] + t);
    StringIsReadBack(key, [COLON] + t);
    assert text[0] == QUOTE && text[1..] == Escape(key) + ([QUOTE] + ([COLON] + t));
    assert ([COLON] + t)[1..] == t;
  }

  /** Every canonical text is read back as the value it was written for, whatever may follow it. */
  lemma {:induction false} CanonicalIsReadBack(j: Json, s: Text)
    requires Delimits(s)
    ensures ReadValue(Canonical(j) + s) == Some((Meaning(j), s))
    decreases j, 1, 0
  {
    hide ReadValue, Canonical;
    match j {
      case Num(n) => NumIsReadBack(n, s);
      case Str(text) => StrIsReadBack(text, s);
      case Arr(items) =>
        ArrayUnfolds(items, s);
        if items != [] {
          ItemsAreReadBack(j, 0, s);
        }
        assert MeaningsFrom(items, 0) == seq(|items|, i requires 0 <= i < |items| => Meaning(items[i]));
      case Obj(members) =>
        ObjectUnfolds(members, s);
        if SortedKeys(members) != [] {
          MembersAreReadBack(j, 0, s);
        }
        FieldsFromStart(members);
      case _ => WordIsReadBack(j, s);
    }
  }

  lemma FieldsFromStart(members: seq<Member>)
    ensures VObj(FieldsFrom(members, 0)) == Meaning(Obj(members))
  {
    hide Lookup, SortedKeys;
    assert SortedKeys(members)[0..] == SortedKeys(members);
    FieldsAreDefined(members);
  }

  lemma FieldsAreDefined(members: seq<Member>)
    ensures forall key :: key in SortedKeys(members) <==> key in DefinedKeys(members)
  {
  }

  lemma ArrayUnfolds(items: seq<Json>, s: Text)
    ensures var rest := Join(ItemTexts(items)) + ([RIGHT_BRACKET] + s);
            if items == [] then ReadValue(Canonical(Arr(items)) + s) == Some((VArr([]), s))
            else ReadItems(rest).Some? ==>
                   ReadValue(Canonical(Arr(items)) + s) == Some((VArr(ReadItems(rest).value.0), ReadItems(rest).value.1))
  {
    hide ReadItems, Canonical, ItemTexts, ReadString, ReadNumber;
    var rest := Join(ItemTexts(items)) + ([RIGHT_BRACKET] + s);
    CanonicalArray(items, s);
    ItemTextsOpen(items);
    JoinHead(ItemTexts(items), RIGHT_BRACKET, s);
    var t := [LEFT_BRACKET] + rest;
    assert t[1..] == rest;
    if items == [] {
      assert rest == [RIGHT_BRACKET] + s && t[2..] == s;
    }
  }

  lemma ObjectUnfolds(members: seq<Member>, s: Text)
    ensures var rest := Join(MemberTexts(members)) + ([RIGHT_BRACE] + s);
            if SortedKeys(members) == [] then ReadValue(Canonical(Obj(members)) + s) == Some((VObj(map[]), s))
            else ReadMembers(rest).Some? ==>
                   ReadValue(Canonical(Obj(members)) + s) == Some((VObj(ReadMembers(rest).value.0), ReadMembers(rest).value.1))
  {
    hide ReadMembers, Canonical, MemberTexts, SortedKeys, ReadString, ReadNumber;
    var rest := Join(MemberTexts(members)) + ([RIGHT_BRACE] + s);
    CanonicalObject(members, s);
    MemberTextsOpen(members);
    JoinHead(MemberTexts(members), RIGHT_BRACE, s);
    var t := [LEFT_BRACE] + rest;
    assert t[1..] == rest;
    if SortedKeys(members) == [] {
      assert rest == [RIGHT_BRACE] + s && t[2..] == s;
    }
  }

  lemma {:induction false} ItemsAreReadBack(a: Json, k: nat, s: Text)
    requires a.Arr? && k < |a.items|
    ensures ReadItems(Join(ItemTexts(a.items)[k..]) + ([RIGHT_BRACKET] + s)) == Some((MeaningsFrom(a.items, k), s))
    decreases a, 0, |a.items| - k
  {
    hide ReadItems, ReadValue, Canonical, Meaning;
    var items, parts := a.items, ItemTexts(a.items)[k..];
    ItemTextsOpen(items);
    JoinUnfolds(parts, RIGHT_BRACKET, s);
    JoinHead(parts, RIGHT_BRACKET, s);
    var rest := After(parts, RIGHT_BRACKET, s);
    CanonicalIsReadBack(items[k], rest);
    ItemsUnfold(parts[0] + rest, Meaning(items[k]), rest);
    if k + 1 < |items| {
      ItemsAreReadBack(a, k + 1, s);
      assert parts[1..] == ItemTexts(items)[k + 1..];
      assert rest[1..] == Join(parts[1..]) + ([RIGHT_BRACKET] + s);
      assert MeaningsFrom(items, k) == [Meaning(items[k])] + MeaningsFrom(items, k + 1);
    } else {
      assert rest[1..] == s;
      assert MeaningsFrom(items, k) == [Meaning(items[k])];
    }
  }

  /** An object's members are written in ascending order of their keys. */
  lemma KeysAscend(members: seq<Member>)
    requires IsValue(Obj(members))
    ensures forall i, j :: 0 <= i < j < |SortedKeys(members)| ==> LexLess(SortedKeys(members)[i], SortedKeys(members)[j])
  {
    DefinedKeysDistinct(members);
    SortSorts(KeyCode, DefinedKeys(members));
    assert StrictlySorted(KeyCode, SortedKeys(members));
  }

  lemma FieldsStep(members: seq<Member>, k: nat)
    requires k < |SortedKeys(members)| && SortedKeys(members)[k] in SortedKeys(members)
    ensures var keys := SortedKeys(members);
            var field := map[keys[k] := Meaning(Lookup(members, keys[k]))];
            FieldsFrom(members, k) == if k + 1 < |keys| then field + FieldsFrom(members, k + 1) else field
  {
    hide Meaning, Lookup, SortedKeys;
    var keys := SortedKeys(members);
    assert keys[k..] == [keys[k]] + keys[k + 1..];
  }

  lemma MemberTextStep(members: seq<Member>, k: nat, s: Text)
    requires k < |SortedKeys(members)| && SortedKeys(members)[k] in SortedKeys(members)
    ensures var keys, parts := SortedKeys(members), MemberTexts(members)[k..];
            var rest := After(parts, RIGHT_BRACE, s);
            && Join(parts) + ([RIGHT_BRACE] + s) == Quote(keys[k]) + ([COLON] + (Canonical(Lookup(members, keys[k])) + rest))
            && Delimits(rest)
            && (if k + 1 < |keys| then rest == [COMMA] + (Join(MemberTexts(members)[k + 1..]) + ([RIGHT_BRACE] + s))
                else rest == [RIGHT_BRACE] + s)
  {
    hide Canonical, Quote, SortedKeys, Lookup, Join, MemberTexts;
    var keys, parts := SortedKeys(members), MemberTexts(members)[k..];
    MemberTextsOpen(members);
    JoinUnfolds(parts, RIGHT_BRACE, s);
    JoinHead(parts, RIGHT_BRACE, s);
    MemberUnfolds(Quote(keys[k]), Canonical(Lookup(members, keys[k])), After(parts, RIGHT_BRACE, s));
    assert parts[1..] == MemberTexts(members)[k + 1..];
  }

  lemma {:induction false} MembersAreReadBack(a: Json, k: nat, s: Text)
    requires a.Obj? && k < |SortedKeys(a.members)|
    ensures ReadMembers(Join(MemberTexts(a.members)[k..]) + ([RIGHT_BRACE] + s)) == Some((FieldsFrom(a.members, k), s))
    decreases a, 0, |SortedKeys(a.members)| - k
  {
    hide ReadMembers, ReadValue, Canonical, Meaning, SortedKeys, Quote, Lookup, Join, MemberTexts, FieldsFrom, After;
    var members, keys := a.members, SortedKeys(a.members);
    var rest := After(MemberTexts(members)[k..], RIGHT_BRACE, s);
    assert keys[k] in keys;
    LookupIsSmaller(a, keys[k]);
    MemberTextStep(members, k, s);
    FieldsStep(members, k);
    var value := Lookup(members, keys[k]);
    CanonicalIsReadBack(value, rest);
    MembersUnfold(keys[k], Canonical(value) + rest, Meaning(value), rest);
    if k + 1 < |keys| {
      MembersAreReadBack(a, k + 1, s);
      CutHead(COMMA, Join(MemberTexts(members)[k + 1..]) + ([RIGHT_BRACE] + s));
    } else {
      CutHead(RIGHT_BRACE, s);
    }
  }

  lemma CutHead(c: CodeUnit, t: Text)
    ensures ([c] + t)[0] == c && ([c] + t)[1..] == t
  {
  }

  /** The code units of a character are UTF-16: itself, or a surrogate pair (section 2 of RFC 2781). */
  lemma UnitsMean(c: char)
    ensures if |Units(c)| == 1 then Units(c)[0] == c as int
            else
              && |Units(c)| == 2 && StartsWithPair(Units(c))
              && var high: int, low: int := Units(c)[0], Units(c)[1];
                 c as int == 0x1_0000 + (high - 0xD800) * 0x400 + (low - 0xDC00)
  {
  }

  /** Reading the canonical text of a value gives the value up to key order and undefined members. */
  lemma ReadingInvertsWriting(j: Json)
    ensures ReadValue(Canonical(j)) == Some((Meaning(j), []))
  {
    CanonicalIsReadBack(j, []);
    assert Canonical(j) + [] == Canonical(j);
  }
}
