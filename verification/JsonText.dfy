/** The two JSON writers whose output is authenticated: serde_json on the writing side, Python's
    `json.dumps` (which keeps to ASCII) on the reading side. They differ only in string escapes. */
module JsonText {
  import opened Text

  function HexDigit(d: nat): char
    requires d < 16
  {
    ['0', '1', '2', '3', '4', '5', '6', '7', '8', '9', 'a', 'b', 'c', 'd', 'e', 'f'][d]
  }

  function UnicodeEscape(u: nat): string
    requires u < 0x10000
  {
    ['\\', 'u', HexDigit(u / 0x1000), HexDigit(u / 0x100 % 0x10), HexDigit(u / 0x10 % 0x10), HexDigit(u % 0x10)]
  }

  /** The escapes both writers share; none for a character without one. */
  function ShortEscape(c: char): string {
    if c == '"' then ['\\', '"']
    else if c == '\\' then ['\\', '\\']
    else if c as int == 8 then ['\\', 'b']
    else if c as int == 9 then ['\\', 't']
    else if c as int == 10 then ['\\', 'n']
    else if c as int == 12 then ['\\', 'f']
    else if c as int == 13 then ['\\', 'r']
    else []
  }

  datatype Writer = Serde | Python

  /** One character inside a JSON string. */
  function WriteChar(w: Writer, c: char): string {
    var u := c as int;
    if ShortEscape(c) != [] then ShortEscape(c)
    else if u < 0x20 then UnicodeEscape(u)
    else if w.Serde? || u <= 0x7E then [c]
    else if u < 0x10000 then UnicodeEscape(u)
    else UnicodeEscape(0xD800 + (u - 0x10000) / 0x400 % 0x400) + UnicodeEscape(0xDC00 + (u - 0x10000) % 0x400)
  }

  function WriteChars(w: Writer, s: string): string {
    if s == [] then [] else WriteChar(w, s[0]) + WriteChars(w, s[1..])
  }

  /** A document as its literal parts and its strings, in order. */
  datatype Token = Literal(text: string) | Str(value: string)

  function WriteToken(w: Writer, t: Token): string {
    match t
    case Literal(text) => text
    case Str(value) => ['"'] + WriteChars(w, value) + ['"']
  }

  function Write(w: Writer, doc: seq<Token>): string {
    if doc == [] then [] else WriteToken(w, doc[0]) + Write(w, doc[1..])
  }

  /** Characters that both writers print alike: everything up to the tilde. */
  predicate Portable(s: string) { forall i :: 0 <= i < |s| ==> s[i] as int <= 0x7E }

  predicate PortableDoc(doc: seq<Token>) {
    forall i :: 0 <= i < |doc| && doc[i].Str? ==> Portable(doc[i].value)
  }

  // ---------------------------------------------------------------- divergence

  /** The two texts have different characters at some common position. */
  ghost predicate Diverge(a: string, b: string) {
    exists i :: 0 <= i < |a| && i < |b| && a[i] != b[i]
  }

  lemma DivergeTail(a: string, x: string, b: string, y: string)
    requires Diverge(a, b)
    ensures Diverge(a + x, b + y)
  {
    var i :| 0 <= i < |a| && i < |b| && a[i] != b[i];
    assert (a + x)[i] != (b + y)[i];
  }

  lemma DivergeHead(p: string, a: string, b: string)
    requires Diverge(a, b)
    ensures Diverge(p + a, p + b)
  {
    var i :| 0 <= i < |a| && i < |b| && a[i] != b[i];
    assert (p + a)[|p| + i] != (p + b)[|p| + i];
  }

  lemma CharAgrees(c: char)
    ensures c as int <= 0x7E ==> WriteChar(Serde, c) == WriteChar(Python, c)
    ensures c as int > 0x7E ==> Diverge(WriteChar(Serde, c), WriteChar(Python, c))
  {
    if c as int > 0x7E {
      assert WriteChar(Serde, c)[0] == c;
      assert WriteChar(Python, c)[0] == '\\';
    }
  }

  lemma {:induction false} CharsAgree(s: string)
    ensures Portable(s) ==> WriteChars(Serde, s) == WriteChars(Python, s)
    ensures !Portable(s) ==> Diverge(WriteChars(Serde, s), WriteChars(Python, s))
  {
    if s != [] {
      CharAgrees(s[0]);
      CharsAgree(s[1..]);
      var a, b := WriteChar(Serde, s[0]), WriteChar(Python, s[0]);
      var x, y := WriteChars(Serde, s[1..]), WriteChars(Python, s[1..]);
      if s[0] as int > 0x7E {
        DivergeTail(a, x, b, y);
      } else if !Portable(s[1..]) {
        DivergeHead(a, x, y);
      }
      assert Portable(s) <==> s[0] as int <= 0x7E && Portable(s[1..]) by {
        assert forall i :: 1 <= i < |s| ==> s[i] == s[1..][i - 1];
      }
    }
  }

  lemma TokenAgrees(t: Token)
    ensures (t.Str? ==> Portable(t.value)) ==> WriteToken(Serde, t) == WriteToken(Python, t)
    ensures t.Str? && !Portable(t.value) ==> Diverge(WriteToken(Serde, t), WriteToken(Python, t))
  {
    if t.Str? {
      CharsAgree(t.value);
      if !Portable(t.value) {
        var x, y := WriteChars(Serde, t.value), WriteChars(Python, t.value);
        DivergeHead(['"'], x, y);
        DivergeTail(['"'] + x, ['"'], ['"'] + y, ['"']);
      }
    }
  }

  lemma {:induction false} DocAgrees(doc: seq<Token>)
    ensures PortableDoc(doc) ==> Write(Serde, doc) == Write(Python, doc)
    ensures !PortableDoc(doc) ==> Diverge(Write(Serde, doc), Write(Python, doc))
  {
    if doc != [] {
      TokenAgrees(doc[0]);
      DocAgrees(doc[1..]);
      var a, b := WriteToken(Serde, doc[0]), WriteToken(Python, doc[0]);
      var x, y := Write(Serde, doc[1..]), Write(Python, doc[1..]);
      if doc[0].Str? && !Portable(doc[0].value) {
        DivergeTail(a, x, b, y);
      } else if !PortableDoc(doc[1..]) {
        DivergeHead(a, x, y);
      }
      assert PortableDoc(doc) <==> (doc[0].Str? ==> Portable(doc[0].value)) && PortableDoc(doc[1..]) by {
        assert forall i :: 1 <= i < |doc| ==> doc[i] == doc[1..][i - 1];
      }
    }
  }

  /** The writers produce the same text exactly when no string has a character beyond the tilde. */
  lemma WritersAgreeIffPortable(doc: seq<Token>)
    ensures Write(Serde, doc) == Write(Python, doc) <==> PortableDoc(doc)
  {
    DocAgrees(doc);
  }

  // ---------------------------------------------------------------- reading strings back

  lemma SameHead<T>(a: seq<T>, x: seq<T>, y: seq<T>)
    requires a + x == a + y
    ensures x == y
  {
    assert x == (a + x)[|a|..] && y == (a + y)[|a|..];
  }

  lemma SameLength<T>(a: seq<T>, b: seq<T>, x: seq<T>, y: seq<T>)
    requires |a| == |b| && a + x == b + y
    ensures a == b && x == y
  {
    assert a == (a + x)[..|a|] && b == (b + y)[..|a|];
    assert x == (a + x)[|a|..] && y == (b + y)[|a|..];
  }

  lemma Regroup<T>(a: seq<T>, b: seq<T>, c: seq<T>)
    ensures (a + b) + c == a + (b + c)
  {
  }

  lemma HeadAndTail<T>(a: seq<T>, b: seq<T>)
    requires a != [] && b != [] && a[0] == b[0] && a[1..] == b[1..]
    ensures a == b
  {
    assert a == [a[0]] + a[1..] && b == [b[0]] + b[1..];
  }

  /** The first element of a concatenation. */
  lemma FirstOf<T>(a: seq<T>, x: seq<T>)
    requires a + x != []
    ensures (a + x)[0] == if a == [] then x[0] else a[0]
  {
  }

  lemma HexDigitInjective(a: nat, b: nat)
    requires a < 16 && b < 16 && HexDigit(a) == HexDigit(b)
    ensures a == b
  {
  }

  lemma HexValue(u: nat)
    requires u < 0x10000
    ensures u == u / 0x1000 * 0x1000 + u / 0x100 % 0x10 * 0x100 + u / 0x10 % 0x10 * 0x10 + u % 0x10
  {
    var high, low := u / 0x100, u % 0x100;
    assert u == high * 0x100 + low;
    assert high == high / 0x10 * 0x10 + high % 0x10 && low == low / 0x10 * 0x10 + low % 0x10;
    assert high / 0x10 == u / 0x1000;
    assert u / 0x10 == high * 0x10 + low / 0x10;
    assert (u / 0x10) % 0x10 == low / 0x10 && low % 0x10 == u % 0x10;
  }

  lemma EscapeInjective(u: nat, k: nat)
    requires u < 0x10000 && k < 0x10000 && UnicodeEscape(u) == UnicodeEscape(k)
    ensures u == k
  {
    var a, b := UnicodeEscape(u), UnicodeEscape(k);
    assert a[2] == b[2] && a[3] == b[3] && a[4] == b[4] && a[5] == b[5];
    HexDigitInjective(u / 0x1000, k / 0x1000);
    HexDigitInjective(u / 0x100 % 0x10, k / 0x100 % 0x10);
    HexDigitInjective(u / 0x10 % 0x10, k / 0x10 % 0x10);
    HexDigitInjective(u % 0x10, k % 0x10);
    HexValue(u);
    HexValue(k);
  }

  lemma HexCancels(u: nat, k: nat, x: string, y: string)
    requires u < 0x10000 && k < 0x10000 && UnicodeEscape(u) + x == UnicodeEscape(k) + y
    ensures u == k && x == y
  {
    SameLength(UnicodeEscape(u), UnicodeEscape(k), x, y);
    EscapeInjective(u, k);
  }

  /** How a writer writes a character. */
  datatype Form = Raw | Short | Unicode | Pair

  function FormOf(w: Writer, c: char): Form {
    if ShortEscape(c) != [] then Short
    else if c as int < 0x20 then Unicode
    else if w.Serde? || c as int <= 0x7E then Raw
    else if c as int < 0x10000 then Unicode
    else Pair
  }

  function High(c: char): nat
    requires c as int >= 0x10000
  {
    0xD800 + (c as int - 0x10000) / 0x400 % 0x400
  }

  function Low(c: char): nat
    requires c as int >= 0x10000
  {
    0xDC00 + (c as int - 0x10000) % 0x400
  }

  /** The number in the first escape, if there is one, and what follows it. */
  function Unit(w: Writer, c: char): nat { if FormOf(w, c).Pair? && c as int >= 0x10000 then High(c) else c as int }

  function AfterUnit(w: Writer, c: char, x: string): string {
    if FormOf(w, c).Pair? && c as int >= 0x10000 then UnicodeEscape(Low(c)) + x else x
  }

  lemma FormIs(w: Writer, c: char, x: string)
    ensures var t := WriteChar(w, c) + x;
            match FormOf(w, c)
            case Raw => t == [c] + x && c != '\\' && c != '"'
            case Short => t == ShortEscape(c) + x && |ShortEscape(c)| == 2 && ShortEscape(c)[0] == '\\' && ShortEscape(c)[1] != 'u'
            case Unicode => Unit(w, c) == c as int < 0x10000 && t == UnicodeEscape(Unit(w, c)) + x
            case Pair => c as int >= 0x10000 && Unit(w, c) == High(c) && t == UnicodeEscape(Unit(w, c)) + AfterUnit(w, c, x)
  {
    if FormOf(w, c).Pair? {
      Regroup(UnicodeEscape(High(c)), UnicodeEscape(Low(c)), x);
    }
  }

  /** The first two characters tell raw, short and long forms apart. */
  lemma HeadIs(w: Writer, c: char, x: string)
    ensures var t := WriteChar(w, c) + x;
            match FormOf(w, c)
            case Raw => t != [] && t[0] == c && c != '\\'
            case Short => |t| >= 2 && t[0] == '\\' && t[1] == ShortEscape(c)[1] != 'u'
            case Unicode => |t| >= 2 && t[0] == '\\' && t[1] == 'u'
            case Pair => |t| >= 2 && t[0] == '\\' && t[1] == 'u'
  {
    FormIs(w, c, x);
  }

  /** The second characters of the short escapes differ. */
  lemma ShortInjective(c: char, d: char)
    requires ShortEscape(c) != [] && ShortEscape(d) != [] && ShortEscape(c)[1] == ShortEscape(d)[1]
    ensures c == d
  {
  }

  lemma PairInjective(c: char, d: char)
    requires c as int >= 0x10000 && d as int >= 0x10000 && High(c) == High(d) && Low(c) == Low(d)
    ensures c == d
  {
    var a, b := c as int - 0x10000, d as int - 0x10000;
    TwentyBits(a);
    TwentyBits(b);
  }

  lemma TwentyBits(a: nat)
    requires a < 0x100000
    ensures a / 0x400 % 0x400 == a / 0x400 && a == a / 0x400 * 0x400 + a % 0x400
  {
  }

  /** Half of a pair is no character of its own. */
  lemma UnitsDiffer(c: char, d: char)
    requires d as int >= 0x10000
    ensures c as int != High(d)
  {
  }

  lemma LongCancels(w: Writer, v: Writer, c: char, d: char, x: string, y: string)
    requires FormOf(w, c).Unicode? || FormOf(w, c).Pair?
    requires FormOf(v, d).Unicode? || FormOf(v, d).Pair?
    requires WriteChar(w, c) + x == WriteChar(v, d) + y
    ensures c == d && x == y
  {
    FormIs(w, c, x);
    FormIs(v, d, y);
    HexCancels(Unit(w, c), Unit(v, d), AfterUnit(w, c, x), AfterUnit(v, d, y));
    if FormOf(w, c).Pair? && FormOf(v, d).Pair? {
      HexCancels(Low(c), Low(d), x, y);
      PairInjective(c, d);
    } else if FormOf(w, c).Pair? {
      UnitsDiffer(d, c);
    } else if FormOf(v, d).Pair? {
      UnitsDiffer(c, d);
    }
  }

  lemma ShortCancels(w: Writer, v: Writer, c: char, d: char, x: string, y: string)
    requires FormOf(w, c).Short? && FormOf(v, d).Short? && WriteChar(w, c) + x == WriteChar(v, d) + y
    ensures c == d && x == y
  {
    FormIs(w, c, x);
    FormIs(v, d, y);
    SameLength(ShortEscape(c), ShortEscape(d), x, y);
    ShortInjective(c, d);
  }

  lemma CharCancels(w: Writer, v: Writer, c: char, d: char, x: string, y: string)
    requires WriteChar(w, c) + x == WriteChar(v, d) + y
    ensures c == d && x == y
  {
    HeadIs(w, c, x);
    HeadIs(v, d, y);
    match FormOf(w, c)
    case Raw =>
      FormIs(w, c, x);
      FormIs(v, d, y);
      SameLength([c], [d], x, y);
    case Short => ShortCancels(w, v, c, d, x, y);
    case Unicode => LongCancels(w, v, c, d, x, y);
    case Pair => LongCancels(w, v, c, d, x, y);
  }

  /** A quotation mark ends the characters and begins none. */
  lemma NoBareQuote(w: Writer, s: string, x: string)
    ensures WriteChars(w, s) + (['"'] + x) != []
    ensures (WriteChars(w, s) + (['"'] + x))[0] == '"' <==> s == []
  {
    if s != [] {
      FormIs(w, s[0], WriteChars(w, s[1..]));
      FirstOf(WriteChars(w, s), ['"'] + x);
    }
  }

  lemma CharsSplit(w: Writer, s: string, x: string)
    requires s != []
    ensures WriteChars(w, s) + x == WriteChar(w, s[0]) + (WriteChars(w, s[1..]) + x)
  {
    Regroup(WriteChar(w, s[0]), WriteChars(w, s[1..]), x);
  }

  lemma {:induction false} CharsCancel(w: Writer, v: Writer, s: string, t: string, x: string, y: string)
    requires WriteChars(w, s) + (['"'] + x) == WriteChars(v, t) + (['"'] + y)
    ensures s == t && x == y
  {
    NoBareQuote(w, s, x);
    NoBareQuote(v, t, y);
    if s == [] {
      assert [] + (['"'] + x) == ['"'] + x && [] + (['"'] + y) == ['"'] + y;
      SameLength(['"'], ['"'], x, y);
    } else {
      CharsSplit(w, s, ['"'] + x);
      CharsSplit(v, t, ['"'] + y);
      CharCancels(w, v, s[0], t[0], WriteChars(w, s[1..]) + (['"'] + x), WriteChars(v, t[1..]) + (['"'] + y));
      CharsCancel(w, v, s[1..], t[1..], x, y);
      assert s == [s[0]] + s[1..] && t == [t[0]] + t[1..];
    }
  }

  lemma StringSplit(w: Writer, s: string, x: string)
    ensures WriteToken(w, Str(s)) + x == ['"'] + (WriteChars(w, s) + (['"'] + x))
  {
    Regroup(['"'] + WriteChars(w, s), ['"'], x);
    Regroup(['"'], WriteChars(w, s), ['"'] + x);
  }

  /** A written string can be read back, by whichever of the two it was written and whatever follows. */
  lemma StringCancels(w: Writer, v: Writer, s: string, t: string, x: string, y: string)
    requires WriteToken(w, Str(s)) + x == WriteToken(v, Str(t)) + y
    ensures s == t && x == y
  {
    StringSplit(w, s, x);
    StringSplit(v, t, y);
    SameHead(['"'], WriteChars(w, s) + (['"'] + x), WriteChars(v, t) + (['"'] + y));
    CharsCancel(w, v, s, t, x, y);
  }

  // ---------------------------------------------------------------- reading records back

  /** A field of a record: the literal before it, and its value. */
  datatype Field = TextField(before: string, text: string) | NumberField(before: string, number: nat)

  function FieldTokens(f: Field): seq<Token> {
    match f
    case TextField(before, text) => [Literal(before), Str(text)]
    case NumberField(before, number) => [Literal(before), Literal(Decimal(number))]
  }

  function FieldsTokens(fs: seq<Field>): seq<Token> {
    if fs == [] then [] else FieldTokens(fs[0]) + FieldsTokens(fs[1..])
  }

  function FieldText(w: Writer, f: Field): string {
    match f
    case TextField(before, text) => before + WriteToken(w, Str(text))
    case NumberField(before, number) => before + Decimal(number)
  }

  function FieldsText(w: Writer, fs: seq<Field>): string {
    if fs == [] then [] else FieldText(w, fs[0]) + FieldsText(w, fs[1..])
  }

  /** The same literals and kinds. */
  predicate Alike(fs: seq<Field>, gs: seq<Field>) {
    |fs| == |gs| && forall i :: 0 <= i < |fs| ==> fs[i].before == gs[i].before && (fs[i].TextField? <==> gs[i].TextField?)
  }

  /** No literal begins with a digit, so that numbers end where they end. */
  predicate NoDigitFirst(s: string) { s != [] && !IsDigit(s[0]) }

  predicate Separated(fs: seq<Field>) { forall i :: 0 <= i < |fs| ==> NoDigitFirst(fs[i].before) }

  lemma {:induction false} DigitsCancel(a: string, b: string, x: string, y: string)
    requires AllDigits(a) && AllDigits(b) && NoDigitFirst(x) && NoDigitFirst(y) && a + x == b + y
    ensures a == b && x == y
  {
    FirstOf(a, x);
    FirstOf(b, y);
    if a == [] {
      assert [] + x == x && [] + y == y;
    } else {
      assert (a + x)[1..] == a[1..] + x && (b + y)[1..] == b[1..] + y;
      DigitsCancel(a[1..], b[1..], x, y);
      assert a == [a[0]] + a[1..] && b == [b[0]] + b[1..];
    }
  }

  lemma DecimalCancels(k: nat, l: nat, x: string, y: string)
    requires NoDigitFirst(x) && NoDigitFirst(y) && Decimal(k) + x == Decimal(l) + y
    ensures k == l && x == y
  {
    DigitsCancel(Decimal(k), Decimal(l), x, y);
    ParseOfDecimal(k);
    ParseOfDecimal(l);
  }

  lemma FieldCancels(w: Writer, v: Writer, f: Field, g: Field, x: string, y: string)
    requires f.before == g.before && (f.TextField? <==> g.TextField?) && NoDigitFirst(x) && NoDigitFirst(y)
    requires FieldText(w, f) + x == FieldText(v, g) + y
    ensures f == g && x == y
  {
    match f
    case TextField(before, text) =>
      Regroup(before, WriteToken(w, Str(text)), x);
      Regroup(before, WriteToken(v, Str(g.text)), y);
      SameHead(before, WriteToken(w, Str(text)) + x, WriteToken(v, Str(g.text)) + y);
      StringCancels(w, v, text, g.text, x, y);
    case NumberField(before, number) =>
      Regroup(before, Decimal(number), x);
      Regroup(before, Decimal(g.number), y);
      SameHead(before, Decimal(number) + x, Decimal(g.number) + y);
      DecimalCancels(number, g.number, x, y);
  }

  lemma RestStarts(w: Writer, fs: seq<Field>, x: string)
    requires Separated(fs) && NoDigitFirst(x)
    ensures NoDigitFirst(FieldsText(w, fs) + x)
  {
    if fs != [] {
      assert FieldText(w, fs[0])[0] == fs[0].before[0];
    }
  }

  lemma FieldsSplit(w: Writer, fs: seq<Field>, x: string)
    requires fs != []
    ensures FieldsText(w, fs) + x == FieldText(w, fs[0]) + (FieldsText(w, fs[1..]) + x)
  {
    Regroup(FieldText(w, fs[0]), FieldsText(w, fs[1..]), x);
  }

  lemma TailsAlike(fs: seq<Field>, gs: seq<Field>)
    requires Alike(fs, gs) && Separated(fs) && fs != []
    ensures Separated(gs) && Separated(fs[1..]) && Separated(gs[1..]) && Alike(fs[1..], gs[1..])
  {
    assert forall i :: 0 <= i < |fs[1..]| ==> fs[1..][i] == fs[i + 1] && gs[1..][i] == gs[i + 1];
  }

  /** Records of one shape can be read back. */
  lemma {:induction false} FieldsCancel(w: Writer, v: Writer, fs: seq<Field>, gs: seq<Field>, x: string, y: string)
    requires Alike(fs, gs) && Separated(fs) && NoDigitFirst(x) && NoDigitFirst(y)
    requires FieldsText(w, fs) + x == FieldsText(v, gs) + y
    ensures fs == gs && x == y
  {
    if fs == [] {
      assert [] + x == x && [] + y == y;
    } else {
      FieldsSplit(w, fs, x);
      FieldsSplit(v, gs, y);
      TailsAlike(fs, gs);
      RestStarts(w, fs[1..], x);
      RestStarts(v, gs[1..], y);
      FieldCancels(w, v, fs[0], gs[0], FieldsText(w, fs[1..]) + x, FieldsText(v, gs[1..]) + y);
      FieldsCancel(w, v, fs[1..], gs[1..], x, y);
      HeadAndTail(fs, gs);
    }
  }

  lemma {:induction false} WriteAppend(w: Writer, a: seq<Token>, b: seq<Token>)
    ensures Write(w, a + b) == Write(w, a) + Write(w, b)
  {
    if a == [] {
      assert a + b == b;
    } else {
      assert (a + b)[1..] == a[1..] + b;
      WriteAppend(w, a[1..], b);
    }
  }
}
