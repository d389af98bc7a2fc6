/**
 `canonicalJson` is a canonical form: two values have the same canonical text exactly when they are
 equal up to the order of object keys and undefined members.

 The hard half is that no two meanings share a text. Every printed value delimits itself: it is
 never continued by what may follow it in a larger text, so the text can be taken apart again.
 */
module CanonicalJsonProofs {
  import opened Sorting
  import opened CanonicalJson

  // ---------------------------------------------------------------- concatenation

  lemma Cancel(p: Text, s: Text, q: Text, t: Text)
    requires |p| == |q| && p + s == q + t
    ensures p == q && s == t
  {
    assert p == (p + s)[..|p|] && q == (q + t)[..|q|];
    assert s == (p + s)[|p|..] && t == (q + t)[|q|..];
  }

  lemma CancelHead(x: CodeUnit, s: Text, y: CodeUnit, t: Text)
    requires [x] + s == [y] + t
    ensures x == y && s == t
  {
    Cancel([x], s, [y], t);
    assert [x][0] == [y][0];
  }

  lemma Assoc(a: Text, b: Text, c: Text)
    ensures (a + b) + c == a + (b + c)
  {
  }

  lemma Head(p: Text, s: Text)
    requires p != []
    ensures p + s != [] && (p + s)[0] == p[0]
  {
  }

  // ---------------------------------------------------------------- strings

  lemma HexDigitInjective(d: int, e: int)
    requires 0 <= d < 16 && 0 <= e < 16 && HexDigit(d) == HexDigit(e)
    ensures d == e
  {
  }

  lemma FourDigits(c: CodeUnit)
    ensures c == c / 0x1000 * 0x1000 + c / 0x100 % 16 * 0x100 + c / 16 % 16 * 16 + c % 16
  {
    var a := c / 16;
    var b := a / 16;
    assert c / 0x100 == b && c / 0x1000 == b / 16;
  }

  lemma HexEscapeInjective(c: CodeUnit, d: CodeUnit)
    requires HexEscape(c) == HexEscape(d)
    ensures c == d
  {
    var x, y := HexEscape(c), HexEscape(d);
    assert x[2] == y[2] && x[3] == y[3] && x[4] == y[4] && x[5] == y[5];
    HexDigitInjective(c / 0x1000, d / 0x1000);
    HexDigitInjective(c / 0x100 % 16, d / 0x100 % 16);
    HexDigitInjective(c / 16 % 16, d / 16 % 16);
    HexDigitInjective(c % 16, d % 16);
    FourDigits(c);
    FourDigits(d);
  }

  ghost function FirstWidth(s: Text): (n: nat)
    requires s != []
    ensures n <= |s|
  {
    if StartsWithPair(s) then 2 else 1
  }

  /** The escape of the first code unit, or of the first surrogate pair. */
  ghost function FirstPiece(s: Text): Text
    requires s != []
  {
    if StartsWithPair(s) then s[..2] else EscapeUnit(s[0])
  }

  lemma EscapeUnfolds(s: Text)
    requires s != []
    ensures Escape(s) == FirstPiece(s) + Escape(s[FirstWidth(s)..])
    ensures FirstPiece(s) != [] && FirstPiece(s)[0] != QUOTE
  {
  }

  /** How long a piece is can be read off its first two code units. */
  ghost function PieceLength(first: CodeUnit, second: CodeUnit): nat
  {
    if first == BACKSLASH then if second == LOWER_U then 6 else 2
    else if IsHighSurrogate(first) then 2
    else 1
  }

  lemma PieceLengthIsRead(s: Text)
    requires s != []
    ensures var p := FirstPiece(s);
            |p| >= 1 && |p| == PieceLength(p[0], if |p| > 1 then p[1] else 0)
    ensures var p := FirstPiece(s); |p| == 1 <==> p[0] != BACKSLASH && !IsHighSurrogate(p[0])
  {
  }

  lemma PieceInjective(a: Text, b: Text)
    requires a != [] && b != [] && FirstPiece(a) == FirstPiece(b)
    ensures FirstWidth(a) == FirstWidth(b) && a[..FirstWidth(a)] == b[..FirstWidth(b)]
  {
    var p := FirstPiece(a);
    PieceLengthIsRead(a);
    PieceLengthIsRead(b);
    if |p| == 6 {
      HexEscapeInjective(a[0], b[0]);
    }
  }

  /** Neither piece is a proper prefix of the other. */
  lemma PieceSelfDelimiting(a: Text, b: Text, s: Text, t: Text)
    requires a != [] && b != []
    requires FirstPiece(a) + s == FirstPiece(b) + t
    ensures FirstPiece(a) == FirstPiece(b) && s == t
  {
    var p, q := FirstPiece(a), FirstPiece(b);
    PieceLengthIsRead(a);
    PieceLengthIsRead(b);
    Head(p, s);
    Head(q, t);
    if |p| > 1 {
      assert (p + s)[1] == p[1] && (q + t)[1] == q[1];
    }
    Cancel(p, s, q, t);
  }

  lemma EscapeHead(a: Text, s: Text)
    ensures var r := Escape(a) + ([QUOTE] + s); r != [] && (r[0] == QUOTE <==> a == [])
  {
    if a != [] {
      EscapeUnfolds(a);
    }
  }

  lemma {:induction false} EscapeSelfDelimiting(a: Text, b: Text, s: Text, t: Text)
    requires Escape(a) + ([QUOTE] + s) == Escape(b) + ([QUOTE] + t)
    ensures a == b && s == t
    decreases |a|
  {
    EscapeHead(a, s);
    EscapeHead(b, t);
    if a == [] {
      assert Escape(a) + ([QUOTE] + s) == [QUOTE] + s && Escape(b) + ([QUOTE] + t) == [QUOTE] + t;
      CancelHead(QUOTE, s, QUOTE, t);
    } else {
      var i, j := FirstWidth(a), FirstWidth(b);
      EscapeUnfolds(a);
      EscapeUnfolds(b);
      Assoc(FirstPiece(a), Escape(a[i..]), [QUOTE] + s);
      Assoc(FirstPiece(b), Escape(b[j..]), [QUOTE] + t);
      PieceSelfDelimiting(a, b, Escape(a[i..]) + ([QUOTE] + s), Escape(b[j..]) + ([QUOTE] + t));
      PieceInjective(a, b);
      EscapeSelfDelimiting(a[i..], b[j..], s, t);
      assert a == a[..i] + a[i..] && b == b[..j] + b[j..];
    }
  }

  lemma QuoteSelfDelimiting(a: Text, b: Text, s: Text, t: Text)
    requires Quote(a) + s == Quote(b) + t
    ensures a == b && s == t
  {
    assert Quote(a) + s == [QUOTE] + (Escape(a) + ([QUOTE] + s));
    assert Quote(b) + t == [QUOTE] + (Escape(b) + ([QUOTE] + t));
    CancelHead(QUOTE, Escape(a) + ([QUOTE] + s), QUOTE, Escape(b) + ([QUOTE] + t));
    EscapeSelfDelimiting(a, b, s, t);
  }

  // ---------------------------------------------------------------- numbers

  /** What may follow a printed value inside a larger text. */
  predicate Delimits(s: Text)
  {
    s == [] || s[0] == COMMA || s[0] == RIGHT_BRACKET || s[0] == RIGHT_BRACE
  }

  lemma {:induction false} DigitsInjective(m: nat, n: nat)
    requires Digits(m) == Digits(n)
    ensures m == n
  {
    var x, y := Digits(m), Digits(n);
    assert x[|x| - 1] == y[|y| - 1];
    assert |x| > 1 <==> m >= 10;
    assert |y| > 1 <==> n >= 10;
    if m >= 10 {
      Cancel(Digits(m / 10), [ZERO + m % 10], Digits(n / 10), [ZERO + n % 10]);
      DigitsInjective(m / 10, n / 10);
    }
  }

  /** How many digits a text starts with. */
  ghost function DigitRun(t: Text): nat
  {
    if t != [] && ZERO <= t[0] <= ZERO + 9 then 1 + DigitRun(t[1..]) else 0
  }

  lemma {:induction false} RunOfDigits(d: Text, s: Text)
    requires Delimits(s) && forall i :: 0 <= i < |d| ==> ZERO <= d[i] <= ZERO + 9
    ensures DigitRun(d + s) == |d|
  {
    if d == [] {
      assert d + s == s;
    } else {
      assert (d + s)[1..] == d[1..] + s;
      RunOfDigits(d[1..], s);
    }
  }

  lemma DigitsSelfDelimiting(m: nat, n: nat, s: Text, t: Text)
    requires Delimits(s) && Delimits(t) && Digits(m) + s == Digits(n) + t
    ensures m == n && s == t
  {
    RunOfDigits(Digits(m), s);
    RunOfDigits(Digits(n), t);
    Cancel(Digits(m), s, Digits(n), t);
    DigitsInjective(m, n);
  }

  lemma DecimalHead(n: int, s: Text)
    ensures Decimal(n) != [] && Decimal(n) + s != []
    ensures (Decimal(n) + s)[0] == MINUS <==> n < 0
    ensures n < 0 ==> Decimal(n) + s == [MINUS] + (Digits(-n) + s)
  {
    if n < 0 {
      Assoc([MINUS], Digits(-n), s);
    } else {
      Head(Digits(n), s);
    }
  }

  lemma DecimalSelfDelimiting(m: int, n: int, s: Text, t: Text)
    requires Delimits(s) && Delimits(t) && Decimal(m) + s == Decimal(n) + t
    ensures m == n && s == t
  {
    DecimalHead(m, s);
    DecimalHead(n, t);
    if m < 0 {
      CancelHead(MINUS, Digits(-m) + s, MINUS, Digits(-n) + t);
      DigitsSelfDelimiting(-m, -n, s, t);
    } else {
      DigitsSelfDelimiting(m, n, s, t);
    }
  }

  // ---------------------------------------------------------------- lists

  /** Two texts that no admissible continuation can confuse. */
  ghost predicate Apart(p: Text, q: Text)
  {
    forall s, t :: Delimits(s) && Delimits(t) && p + s == q + t ==> s == t && p == q
  }

  predicate Openings(parts: seq<Text>)
  {
    forall i :: 0 <= i < |parts| ==> parts[i] != [] && !Delimits(parts[i])
  }

  /** What follows the first part of a joined and closed list. */
  ghost function After(parts: seq<Text>, close: CodeUnit, s: Text): Text
    requires parts != []
  {
    if |parts| == 1 then [close] + s else [COMMA] + (Join(parts[1..]) + ([close] + s))
  }

  lemma JoinUnfolds(parts: seq<Text>, close: CodeUnit, s: Text)
    requires parts != []
    ensures Join(parts) + ([close] + s) == parts[0] + After(parts, close, s)
  {
    if |parts| > 1 {
      Assoc(parts[0] + [COMMA], Join(parts[1..]), [close] + s);
      Assoc(parts[0], [COMMA], Join(parts[1..]) + ([close] + s));
    }
  }

  lemma JoinHead(parts: seq<Text>, close: CodeUnit, s: Text)
    requires Openings(parts) && (close == RIGHT_BRACKET || close == RIGHT_BRACE)
    ensures var r := Join(parts) + ([close] + s); r != [] && (r[0] == close <==> parts == [])
    ensures parts != [] ==> Delimits(After(parts, close, s))
  {
    if parts != [] {
      JoinUnfolds(parts, close, s);
      Head(parts[0], After(parts, close, s));
    }
  }

  lemma {:induction false} JoinSelfDelimiting(p: seq<Text>, q: seq<Text>, close: CodeUnit, s: Text, t: Text)
    requires close == RIGHT_BRACKET || close == RIGHT_BRACE
    requires Openings(p) && Openings(q)
    requires forall i :: 0 <= i < |p| && i < |q| ==> Apart(p[i], q[i])
    requires Join(p) + ([close] + s) == Join(q) + ([close] + t)
    ensures p == q && s == t
    decreases |p|
  {
    JoinHead(p, close, s);
    JoinHead(q, close, t);
    if p == [] {
      assert Join(p) + ([close] + s) == [close] + s && Join(q) + ([close] + t) == [close] + t;
      CancelHead(close, s, close, t);
    } else {
      JoinUnfolds(p, close, s);
      JoinUnfolds(q, close, t);
      var u, v := After(p, close, s), After(q, close, t);
      assert u == v && p[0] == q[0] by { assert Apart(p[0], q[0]); }
      assert u[0] == v[0];
      if |p| == 1 {
        CancelHead(close, s, close, t);
      } else {
        CancelHead(COMMA, Join(p[1..]) + ([close] + s), COMMA, Join(q[1..]) + ([close] + t));
        JoinSelfDelimiting(p[1..], q[1..], close, s, t);
      }
      assert p == [p[0]] + p[1..] && q == [q[0]] + q[1..];
    }
  }

  // ---------------------------------------------------------------- values

  ghost function ItemTexts(items: seq<Json>): (r: seq<Text>)
    ensures |r| == |items|
  {
    seq(|items|, i requires 0 <= i < |items| => Canonical(items[i]))
  }

  ghost function MemberText(members: seq<Member>, key: Text): Text
    requires key in DefinedKeys(members)
  {
    Quote(key) + [COLON] + Canonical(Lookup(members, key))
  }

  ghost function MemberTexts(members: seq<Member>): (r: seq<Text>)
    ensures |r| == |SortedKeys(members)|
    ensures forall i :: 0 <= i < |r| ==>
              SortedKeys(members)[i] in SortedKeys(members) && r[i] == MemberText(members, SortedKeys(members)[i])
  {
    var keys := SortedKeys(members);
    seq(|keys|, i requires 0 <= i < |keys| => assert keys[i] in keys; MemberText(members, keys[i]))
  }

  lemma CanonicalArray(items: seq<Json>, s: Text)
    ensures Canonical(Arr(items)) + s == [LEFT_BRACKET] + (Join(ItemTexts(items)) + ([RIGHT_BRACKET] + s))
  {
    assert ItemTexts(items) == seq(|items|, i requires 0 <= i < |items| => Canonical(items[i]));
    Assoc([LEFT_BRACKET] + Join(ItemTexts(items)), [RIGHT_BRACKET], s);
    Assoc([LEFT_BRACKET], Join(ItemTexts(items)), [RIGHT_BRACKET] + s);
  }

  lemma CanonicalObject(members: seq<Member>, s: Text)
    ensures Canonical(Obj(members)) + s == [LEFT_BRACE] + (Join(MemberTexts(members)) + ([RIGHT_BRACE] + s))
  {
    var keys := SortedKeys(members);
    assert MemberTexts(members) ==
      seq(|keys|, i requires 0 <= i < |keys| => assert keys[i] in keys;
        Quote(keys[i]) + [COLON] + Canonical(Lookup(members, keys[i])));
    Assoc([LEFT_BRACE] + Join(MemberTexts(members)), [RIGHT_BRACE], s);
    Assoc([LEFT_BRACE], Join(MemberTexts(members)), [RIGHT_BRACE] + s);
  }

  /** The first code unit of a canonical text tells which kind of value it prints. */
  ghost function Kind(j: Json): int
  {
    match j
    case Null => 0
    case Bool(flag) => if flag then 1 else 2
    case Num(_) => 3
    case Str(_) => 4
    case Arr(_) => 5
    case Obj(_) => 6
  }

  ghost function KindOf(c: CodeUnit): int
  {
    if c == LOWER_N then 0
    else if c == LOWER_T then 1
    else if c == LOWER_F then 2
    else if c == QUOTE then 4
    else if c == LEFT_BRACKET then 5
    else if c == LEFT_BRACE then 6
    else 3
  }

  lemma CanonicalHead(j: Json, s: Text)
    ensures Canonical(j) != [] && !Delimits(Canonical(j))
    ensures Canonical(j) + s != [] && KindOf((Canonical(j) + s)[0]) == Kind(j)
  {
    match j {
      case Arr(items) => CanonicalArray(items, []);
      case Obj(members) => CanonicalObject(members, []);
      case Num(n) => DecimalHead(n, []);
      case Str(text) => Head([QUOTE], Escape(text) + [QUOTE]);
      case _ =>
    }
    Head(Canonical(j), s);
  }

  lemma ItemTextsOpen(items: seq<Json>)
    ensures Openings(ItemTexts(items))
  {
    forall i | 0 <= i < |items| ensures ItemTexts(items)[i] != [] && !Delimits(ItemTexts(items)[i]) {
      CanonicalHead(items[i], []);
    }
  }

  lemma MemberTextsOpen(members: seq<Member>)
    ensures Openings(MemberTexts(members))
  {
    var keys := SortedKeys(members);
    forall i | 0 <= i < |keys| ensures MemberTexts(members)[i] != [] && !Delimits(MemberTexts(members)[i]) {
      assert keys[i] in keys;
      assert MemberText(members, keys[i])[0] == QUOTE;
    }
  }

  lemma {:induction false} CanonicalSelfDelimiting(a: Json, b: Json, s: Text, t: Text)
    requires Delimits(s) && Delimits(t) && Canonical(a) + s == Canonical(b) + t
    ensures Meaning(a) == Meaning(b) && s == t
    decreases a
  {
    CanonicalHead(a, s);
    CanonicalHead(b, t);
    match a {
      case Null => Cancel(NULL_TEXT, s, NULL_TEXT, t);
      case Bool(flag) => Cancel(Canonical(a), s, Canonical(b), t);
      case Num(n) => DecimalSelfDelimiting(n, b.number, s, t);
      case Str(text) => QuoteSelfDelimiting(text, b.text, s, t);
      case Arr(_) => ArraySelfDelimiting(a, b, s, t);
      case Obj(_) => ObjectSelfDelimiting(a, b, s, t);
    }
  }

  lemma {:induction false} ArraySelfDelimiting(a: Json, b: Json, s: Text, t: Text)
    requires a.Arr? && b.Arr?
    requires Delimits(s) && Delimits(t) && Canonical(a) + s == Canonical(b) + t
    ensures Meaning(a) == Meaning(b) && s == t
    decreases a, 3
  {
    var xs, ys := a.items, b.items;
    var p, q := ItemTexts(xs), ItemTexts(ys);
    CanonicalArray(xs, s);
    CanonicalArray(ys, t);
    CancelHead(LEFT_BRACKET, Join(p) + ([RIGHT_BRACKET] + s), LEFT_BRACKET, Join(q) + ([RIGHT_BRACKET] + t));
    ItemTextsOpen(xs);
    ItemTextsOpen(ys);
    forall i | 0 <= i < |xs| && i < |ys| ensures Apart(p[i], q[i]) {
      ElementApart(a, xs[i], ys[i]);
    }
    JoinSelfDelimiting(p, q, RIGHT_BRACKET, s, t);
    forall i | 0 <= i < |xs| ensures Meaning(xs[i]) == Meaning(ys[i]) {
      assert p[i] + [] == q[i] + [];
      CanonicalSelfDelimiting(xs[i], ys[i], [], []);
    }
    assert Meaning(a).items == Meaning(b).items;
  }

  lemma {:induction false} ElementApart(parent: Json, x: Json, y: Json)
    requires parent.Arr? && x in parent.items
    ensures Apart(Canonical(x), Canonical(y))
    decreases parent, 0
  {
    forall s, t | Delimits(s) && Delimits(t) && Canonical(x) + s == Canonical(y) + t
      ensures s == t && Canonical(x) == Canonical(y)
    {
      CanonicalSelfDelimiting(x, y, s, t);
      Cancel(Canonical(x), s, Canonical(y), t);
    }
  }

  lemma LookupIsSmaller(a: Json, key: Text)
    requires a.Obj? && key in DefinedKeys(a.members)
    ensures Lookup(a.members, key) < a
  {
  }

  /** Two members with the same text and continuation have the same key and meaning. */
  lemma {:induction false} MemberSelfDelimiting(a: Json, b: Json, k: Text, l: Text, s: Text, t: Text)
    requires a.Obj? && b.Obj? && k in DefinedKeys(a.members) && l in DefinedKeys(b.members)
    requires Delimits(s) && Delimits(t)
    requires MemberText(a.members, k) + s == MemberText(b.members, l) + t
    ensures k == l && s == t && Meaning(Lookup(a.members, k)) == Meaning(Lookup(b.members, l))
    decreases a, 0
  {
    var u, v := Canonical(Lookup(a.members, k)), Canonical(Lookup(b.members, l));
    MemberUnfolds(Quote(k), u, s);
    MemberUnfolds(Quote(l), v, t);
    QuoteSelfDelimiting(k, l, [COLON] + (u + s), [COLON] + (v + t));
    CancelHead(COLON, u + s, COLON, v + t);
    LookupIsSmaller(a, k);
    CanonicalSelfDelimiting(Lookup(a.members, k), Lookup(b.members, l), s, t);
  }

  lemma MemberUnfolds(key: Text, value: Text, s: Text)
    ensures (key + [COLON] + value) + s == key + ([COLON] + (value + s))
  {
  }

  lemma {:induction false} ObjectSelfDelimiting(a: Json, b: Json, s: Text, t: Text)
    requires a.Obj? && b.Obj?
    requires Delimits(s) && Delimits(t) && Canonical(a) + s == Canonical(b) + t
    ensures Meaning(a) == Meaning(b) && s == t
    decreases a, 3
  {
    var p, q := MemberTexts(a.members), MemberTexts(b.members);
    CanonicalObject(a.members, s);
    CanonicalObject(b.members, t);
    CancelHead(LEFT_BRACE, Join(p) + ([RIGHT_BRACE] + s), LEFT_BRACE, Join(q) + ([RIGHT_BRACE] + t));
    MemberTextsOpen(a.members);
    MemberTextsOpen(b.members);
    MembersApart(a, b);
    JoinSelfDelimiting(p, q, RIGHT_BRACE, s, t);
    MembersAgree(a, b);
  }

  lemma {:induction false} MembersApart(a: Json, b: Json)
    requires a.Obj? && b.Obj?
    ensures var p, q := MemberTexts(a.members), MemberTexts(b.members);
            forall i :: 0 <= i < |p| && i < |q| ==> Apart(p[i], q[i])
    decreases a, 2
  {
    var kx, ky := SortedKeys(a.members), SortedKeys(b.members);
    forall i | 0 <= i < |kx| && i < |ky|
      ensures Apart(MemberTexts(a.members)[i], MemberTexts(b.members)[i])
    {
      MemberApart(a, b, kx[i], ky[i]);
    }
  }

  lemma {:induction false} MemberApart(a: Json, b: Json, k: Text, l: Text)
    requires a.Obj? && b.Obj? && k in SortedKeys(a.members) && l in SortedKeys(b.members)
    ensures Apart(MemberText(a.members, k), MemberText(b.members, l))
    decreases a, 1
  {
    var p, q := MemberText(a.members, k), MemberText(b.members, l);
    forall s, t | Delimits(s) && Delimits(t) && p + s == q + t ensures s == t && p == q {
      MemberSelfDelimiting(a, b, k, l, s, t);
      Cancel(p, s, q, t);
    }
  }

  lemma {:induction false} MembersAgree(a: Json, b: Json)
    requires a.Obj? && b.Obj? && MemberTexts(a.members) == MemberTexts(b.members)
    ensures Meaning(a) == Meaning(b)
    decreases a, 2
  {
    var p, q := MemberTexts(a.members), MemberTexts(b.members);
    var kx, ky := SortedKeys(a.members), SortedKeys(b.members);
    forall i | 0 <= i < |kx|
      ensures kx[i] == ky[i] && kx[i] in kx && ky[i] in ky
      ensures Meaning(Lookup(a.members, kx[i])) == Meaning(Lookup(b.members, ky[i]))
    {
      assert kx[i] in kx && ky[i] in ky;
      assert p[i] + [] == q[i] + [];
      MemberSelfDelimiting(a, b, kx[i], ky[i], [], []);
    }
    assert kx == ky;
    FieldsAgree(a, b);
  }

  lemma FieldsAgree(a: Json, b: Json)
    requires a.Obj? && b.Obj? && SortedKeys(a.members) == SortedKeys(b.members)
    requires forall k :: k in SortedKeys(a.members) ==> Meaning(Lookup(a.members, k)) == Meaning(Lookup(b.members, k))
    ensures Meaning(a) == Meaning(b)
  {
    var f, g := Meaning(a).fields, Meaning(b).fields;
    FieldKeys(a);
    FieldKeys(b);
    assert f.Keys == g.Keys;
    assert f == g;
  }

  lemma FieldKeys(a: Json)
    requires a.Obj?
    ensures forall k :: k in Meaning(a).fields <==> k in SortedKeys(a.members)
  {
    forall k ensures k in Meaning(a).fields <==> k in SortedKeys(a.members) {
      assert k in DefinedKeys(a.members) <==> k in SortedKeys(a.members);
    }
  }

  // ---------------------------------------------------------------- equal meanings print alike

  lemma {:induction false} DefinedKeysDistinct(members: seq<Member>)
    requires forall i, k :: 0 <= i < k < |members| ==> members[i].key != members[k].key
    ensures NoDuplicates(DefinedKeys(members))
  {
    if members != [] {
      DefinedKeysDistinct(members[1..]);
      if members[0].value.Some? {
        var keys := DefinedKeys(members[1..]);
        forall j | 0 <= j < |keys| ensures keys[j] != members[0].key {
          assert keys[j] in keys;
        }
      }
    }
  }

  lemma KeysAgree(a: Json, b: Json)
    requires IsValue(a) && IsValue(b) && a.Obj? && b.Obj? && Meaning(a) == Meaning(b)
    ensures SortedKeys(a.members) == SortedKeys(b.members)
  {
    var f, g := Meaning(a).fields, Meaning(b).fields;
    forall k ensures k in DefinedKeys(a.members) <==> k in DefinedKeys(b.members) {
      assert k in DefinedKeys(a.members) <==> k in f;
      assert k in DefinedKeys(b.members) <==> k in g;
    }
    DefinedKeysDistinct(a.members);
    DefinedKeysDistinct(b.members);
    SortIgnoresOrder(KeyCode, DefinedKeys(a.members), DefinedKeys(b.members));
  }

  lemma {:induction false} EqualMeaningsPrintAlike(a: Json, b: Json)
    requires IsValue(a) && IsValue(b) && Meaning(a) == Meaning(b)
    ensures Canonical(a) == Canonical(b)
    decreases a
  {
    match a {
      case Arr(items) => EqualArraysPrintAlike(a, b);
      case Obj(members) => EqualObjectsPrintAlike(a, b);
      case _ =>
    }
  }

  lemma {:induction false} EqualArraysPrintAlike(a: Json, b: Json)
    requires IsValue(a) && IsValue(b) && a.Arr? && Meaning(a) == Meaning(b)
    ensures Canonical(a) == Canonical(b)
    decreases a, 1
  {
    var xs, ys := Meaning(a).items, Meaning(b).items;
    forall i | 0 <= i < |a.items| ensures Canonical(a.items[i]) == Canonical(b.items[i]) {
      assert xs[i] == Meaning(a.items[i]) && ys[i] == Meaning(b.items[i]);
      EqualMeaningsPrintAlike(a.items[i], b.items[i]);
    }
    assert ItemTexts(a.items) == ItemTexts(b.items);
    CanonicalArray(a.items, []);
    CanonicalArray(b.items, []);
    assert Canonical(a) + [] == Canonical(a) && Canonical(b) + [] == Canonical(b);
  }

  lemma {:induction false} EqualObjectsPrintAlike(a: Json, b: Json)
    requires IsValue(a) && IsValue(b) && a.Obj? && Meaning(a) == Meaning(b)
    ensures Canonical(a) == Canonical(b)
    decreases a, 1
  {
    KeysAgree(a, b);
    var keys := SortedKeys(a.members);
    forall i | 0 <= i < |keys| ensures MemberTexts(a.members)[i] == MemberTexts(b.members)[i] {
      assert keys[i] in keys;
      EqualFieldsPrintAlike(a, b, keys[i]);
    }
    assert MemberTexts(a.members) == MemberTexts(b.members);
    CanonicalObject(a.members, []);
    CanonicalObject(b.members, []);
    assert Canonical(a) + [] == Canonical(a) && Canonical(b) + [] == Canonical(b);
  }

  lemma {:induction false} EqualFieldsPrintAlike(a: Json, b: Json, k: Text)
    requires IsValue(a) && IsValue(b) && a.Obj? && Meaning(a) == Meaning(b)
    requires k in DefinedKeys(a.members) && k in DefinedKeys(b.members)
    ensures Canonical(Lookup(a.members, k)) == Canonical(Lookup(b.members, k))
    decreases a, 0
  {
    assert Meaning(a).fields[k] == Meaning(Lookup(a.members, k));
    assert Meaning(b).fields[k] == Meaning(Lookup(b.members, k));
    LookupIsSmaller(a, k);
    EqualMeaningsPrintAlike(Lookup(a.members, k), Lookup(b.members, k));
  }

  /** The canonical text is a complete invariant of the meaning of a value. */
  lemma CanonicalForm(a: Json, b: Json)
    requires IsValue(a) && IsValue(b)
    ensures Canonical(a) == Canonical(b) <==> Meaning(a) == Meaning(b)
  {
    if Meaning(a) == Meaning(b) {
      EqualMeaningsPrintAlike(a, b);
    }
    if Canonical(a) == Canonical(b) {
      assert Canonical(a) + [] == Canonical(b) + [];
      CanonicalSelfDelimiting(a, b, [], []);
    }
  }

  // ---------------------------------------------------------------- UTF-16

  lemma UnitsSelfDelimiting(c: char, d: char, s: Text, t: Text)
    requires Units(c) + s == Units(d) + t
    ensures c == d && s == t
  {
    Head(Units(c), s);
    Head(Units(d), t);
    var m, n := c as int, d as int;
    assert m < 0x1_0000 <==> n < 0x1_0000;
    Cancel(Units(c), s, Units(d), t);
    if m >= 0x1_0000 {
      assert Units(c)[1] == Units(d)[1];
    }
  }

  lemma {:induction false} Utf16Injective(a: string, b: string)
    requires Utf16(a) == Utf16(b)
    ensures a == b
  {
    if a != [] && b != [] {
      UnitsSelfDelimiting(a[0], b[0], Utf16(a[1..]), Utf16(b[1..]));
      Utf16Injective(a[1..], b[1..]);
      assert a == [a[0]] + a[1..] && b == [b[0]] + b[1..];
    }
  }
}
