/** Strings: the order in which both runtimes sort them, their UTF-8 length, and decimal numbers. */
module Text {
  // ---------------------------------------------------------------- order

  /** Code points compared one by one; a proper prefix comes first. */
  predicate Less(a: string, b: string) {
    b != [] && (a == [] || a[0] < b[0] || (a[0] == b[0] && Less(a[1..], b[1..])))
  }

  lemma {:induction false} LessTotal(a: string, b: string)
    ensures a == b || Less(a, b) || Less(b, a)
  {
    if a != [] && b != [] && a[0] == b[0] {
      LessTotal(a[1..], b[1..]);
      assert a == [a[0]] + a[1..] && b == [b[0]] + b[1..];
    }
  }

  lemma {:induction false} LessTransitive(a: string, b: string, c: string)
    requires Less(a, b) && Less(b, c)
    ensures Less(a, c)
  {
    if a != [] && a[0] == b[0] && b[0] == c[0] {
      LessTransitive(a[1..], b[1..], c[1..]);
    }
  }

  lemma {:induction false} LessIrreflexive(a: string)
    ensures !Less(a, a)
  {
    if a != [] {
      LessIrreflexive(a[1..]);
    }
  }

  predicate Ascending(keys: seq<string>) {
    forall i, j :: 0 <= i < j < |keys| ==> Less(keys[i], keys[j])
  }

  ghost function Elements<T>(s: seq<T>): set<T> {
    set x | x in s
  }

  lemma ElementsEmpty<T>(s: seq<T>)
    ensures Elements(s) == {} <==> s == []
  {
    if s != [] {
      assert s[0] in Elements(s);
    }
  }

  lemma ElementsAppend<T>(s: seq<T>, x: T)
    ensures Elements(s + [x]) == Elements(s) + {x}
  {
    forall y | y in Elements(s) + {x} ensures y in Elements(s + [x]) {
      if y == x {
        assert (s + [x])[|s|] == y;
      } else {
        assert y in s;
      }
    }
  }

  ghost predicate IsLeast(m: string, s: set<string>) {
    m in s && forall x :: x in s && x != m ==> Less(m, x)
  }

  lemma LeastOfMore(m: string, rest: set<string>, y: string)
    requires IsLeast(m, rest) && y !in rest
    ensures IsLeast(if Less(y, m) then y else m, rest + {y})
  {
    LessTotal(m, y);
    if Less(y, m) {
      forall x | x in rest && x != m ensures Less(y, x) {
        LessTransitive(y, m, x);
      }
    }
  }

  lemma {:induction false} LeastExists(s: set<string>)
    requires s != {}
    ensures exists m :: IsLeast(m, s)
  {
    var y :| y in s;
    var rest := s - {y};
    assert rest + {y} == s;
    if rest == {} {
      assert s == {y};
      assert IsLeast(y, s);
    } else {
      LeastExists(rest);
      var m :| IsLeast(m, rest);
      LeastOfMore(m, rest, y);
    }
  }

  ghost function Least(s: set<string>): (m: string)
    requires s != {}
    ensures IsLeast(m, s)
  {
    LeastExists(s);
    var m :| IsLeast(m, s);
    m
  }

  /** The elements of a set in ascending order: the order of a BTreeMap and of `sorted`. */
  ghost function Sorted(s: set<string>): (keys: seq<string>)
    ensures Ascending(keys) && Elements(keys) == s
  {
    if s == {} then []
    else
      var m := Least(s);
      var rest := Sorted(s - {m});
      assert forall x :: x in rest ==> x in Elements(rest);
      assert forall x :: x in s ==> x == m || x in Elements(rest);
      [m] + rest
  }

  /** Ascending order determines the sequence. */
  lemma {:induction false} SortedUnique(keys: seq<string>, s: set<string>)
    requires Ascending(keys) && Elements(keys) == s
    ensures keys == Sorted(s)
  {
    if s == {} {
      ElementsEmpty(keys);
    } else {
      var m := Least(s);
      assert m in Elements(keys) && keys[0] in keys && keys[0] in Elements(keys);
      var i :| 0 <= i < |keys| && keys[i] == m;
      if i > 0 {
        LessTransitive(keys[0], keys[i], keys[0]);
        LessIrreflexive(keys[0]);
      }
      assert forall j :: 1 <= j < |keys| ==> Less(keys[0], keys[j]);
      LessIrreflexive(m);
      assert Elements(keys[1..]) == s - {m} by {
        assert forall x :: x in keys[1..] ==> x in keys && x in Elements(keys);
        forall x | x in s - {m} ensures x in keys[1..] {
          assert x in Elements(keys);
        }
      }
      SortedUnique(keys[1..], s - {m});
      assert keys == [m] + keys[1..];
    }
  }

  lemma AscendingDistinct(keys: seq<string>, i: nat, j: nat)
    requires Ascending(keys) && i < j < |keys|
    ensures keys[i] != keys[j]
  {
    LessIrreflexive(keys[i]);
  }

  /** Selection of the least key, repeated: how a sorted view of a map's keys is produced. */
  method SortKeys(s: set<string>) returns (keys: seq<string>)
    ensures keys == Sorted(s)
  {
    keys := [];
    var rest := s;
    while rest != {}
      invariant rest <= s && Ascending(keys) && Elements(keys) == s - rest
      invariant forall i, x :: 0 <= i < |keys| && x in rest ==> Less(keys[i], x)
      decreases rest
    {
      LeastExists(rest);
      var least :| least in rest && forall x :: x in rest && x != least ==> Less(least, x);
      ElementsAppend(keys, least);
      keys := keys + [least];
      rest := rest - {least};
    }
    SortedUnique(keys, s);
  }

  // ---------------------------------------------------------------- length in bytes

  function Utf8Width(c: char): nat {
    if c as int < 0x80 then 1 else if c as int < 0x800 then 2 else if c as int < 0x10000 then 3 else 4
  }

  /** `String::len`: the number of UTF-8 bytes. */
  function ByteLen(s: string): nat {
    if s == [] then 0 else Utf8Width(s[0]) + ByteLen(s[1..])
  }

  lemma {:induction false} ByteLenAppend(a: string, b: string)
    ensures ByteLen(a + b) == ByteLen(a) + ByteLen(b)
  {
    if a == [] {
      assert a + b == b;
    } else {
      assert (a + b)[1..] == a[1..] + b;
      ByteLenAppend(a[1..], b);
    }
  }

  predicate IsAscii(s: string) { forall i :: 0 <= i < |s| ==> s[i] as int < 0x80 }

  lemma {:induction false} ByteLenAscii(s: string)
    requires IsAscii(s)
    ensures ByteLen(s) == |s|
  {
    if s != [] {
      ByteLenAscii(s[1..]);
    }
  }

  lemma {:induction false} ByteLenEmpty(s: string)
    ensures ByteLen(s) == 0 <==> s == []
    ensures |s| <= ByteLen(s) <= 4 * |s|
  {
    if s != [] {
      ByteLenEmpty(s[1..]);
    }
  }

  // ---------------------------------------------------------------- decimal numbers

  predicate IsDigit(c: char) { '0' <= c <= '9' }

  predicate AllDigits(s: string) { forall i :: 0 <= i < |s| ==> IsDigit(s[i]) }

  function DigitChar(d: nat): (c: char)
    requires d < 10
    ensures IsDigit(c)
  {
    ['0', '1', '2', '3', '4', '5', '6', '7', '8', '9'][d]
  }

  /** The decimal form of a number, without leading zeros. */
  function Decimal(n: nat): (s: string)
    ensures s != [] && AllDigits(s)
  {
    if n < 10 then [DigitChar(n)] else Decimal(n / 10) + [DigitChar(n % 10)]
  }

  function ParseDecimal(s: string): nat
    requires AllDigits(s)
  {
    if s == [] then 0
    else
      ParseDecimal(s[..|s| - 1]) * 10 + (s[|s| - 1] as int - '0' as int)
  }

  lemma {:induction false} ParseOfDecimal(n: nat)
    ensures ParseDecimal(Decimal(n)) == n
  {
    if n < 10 {
      assert Decimal(n)[..0] == [];
    } else {
      ParseOfDecimal(n / 10);
      ParseLast(Decimal(n / 10), n % 10);
    }
  }

  lemma ParseLast(s: string, d: nat)
    requires AllDigits(s) && d < 10
    ensures AllDigits(s + [DigitChar(d)]) && ParseDecimal(s + [DigitChar(d)]) == ParseDecimal(s) * 10 + d
  {
    assert (s + [DigitChar(d)])[..|s|] == s;
    assert DigitChar(d) as int - '0' as int == d;
  }

  // ---------------------------------------------------------------- splitting at the last separator

  lemma SeparatorAt(a: string, x: string, sep: char)
    requires sep !in x
    ensures var s := a + [sep] + x;
            s[|a|] == sep && forall i :: |a| < i < |s| ==> s[i] != sep
  {
    var s := a + [sep] + x;
    forall i | |a| < i < |s| ensures s[i] != sep {
      assert s[i] == x[i - |a| - 1] && x[i - |a| - 1] in x;
    }
  }

  /** Two ways to cut a text at its last separator are the same cut. */
  lemma LastSeparator(a: string, x: string, b: string, y: string, sep: char)
    requires a + [sep] + x == b + [sep] + y
    requires sep !in x && sep !in y
    ensures a == b && x == y
  {
    var s := a + [sep] + x;
    SeparatorAt(a, x, sep);
    SeparatorAt(b, y, sep);
    assert |a| == |b|;
    assert a == s[..|a|] && b == s[..|b|];
    assert x == s[|a| + 1..] && y == s[|b| + 1..];
  }

  /** Two ways to cut a text at its first separator are the same cut. */
  lemma FirstSeparator(a: string, x: string, b: string, y: string, sep: char)
    requires a + [sep] + x == b + [sep] + y
    requires sep !in a && sep !in b
    ensures a == b && x == y
  {
    var s := a + [sep] + x;
    assert s[|a|] == sep && s[|b|] == sep;
    assert forall i :: 0 <= i < |a| ==> s[i] == a[i];
    assert forall i :: 0 <= i < |b| ==> s[i] == b[i];
    assert a == s[..|a|] && b == s[..|b|];
    assert x == s[|a| + 1..] && y == s[|b| + 1..];
  }

  /** A text with a separator can be cut at its last one. */
  lemma {:induction false} CutAtLast(s: string, sep: char) returns (a: string, x: string)
    requires sep in s
    ensures s == a + [sep] + x && sep !in x
  {
    var n := |s| - 1;
    if s[n] == sep {
      a, x := s[..n], [];
    } else {
      a, x := CutAtLast(s[..n], sep);
      x := x + [s[n]];
      assert s == s[..n] + [s[n]];
    }
  }
}
