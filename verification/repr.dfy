/** Python's `repr` of decoded JSON values: `jsonschema` builds its error
    messages with `%r`, so this is the text a 400 body carries. */
module PyRepr {
  import opened Json
  import opened Text

  const HexDigits := "0123456789abcdef"

  /** The characters `repr` writes as `\xhh`: the C0 controls except the
      three with a letter escape, DEL, the C1 controls, NO-BREAK SPACE and
      SOFT HYPHEN (the non-printable code points below 0x100). */
  predicate IsHexEscaped(c: char)
  {
    (c as int < 0x20 && c != '\t' && c != '\n' && c != '\r')
    || (0x7f <= c as int <= 0xa0) || c as int == 0xad
  }

  /** How `repr` writes `c` inside a literal delimited by `q`. */
  function EscapeChar(c: char, q: char): string
  {
    if c == q || c == '\\' then ['\\', c]
    else if c == '\t' then "\\t"
    else if c == '\n' then "\\n"
    else if c == '\r' then "\\r"
    else if IsHexEscaped(c) then ['\\', 'x', HexDigits[c as int / 16], HexDigits[c as int % 16]]
    else [c]
  }

  function Escape(s: string, q: char): string
  {
    if |s| == 0 then "" else EscapeChar(s[0], q) + Escape(s[1..], q)
  }

  /** `repr` quotes with `'` unless the text holds `'` and no `"`. */
  function QuoteOf(s: string): char
  {
    if '\'' in s && '"' !in s then '"' else '\''
  }

  /** `repr(s)` for a `str`. */
  function StrRepr(s: string): (r: string)
    ensures |r| >= 2 && r[0] == r[|r| - 1] == QuoteOf(s)
  {
    var q := QuoteOf(s);
    [q] + Escape(s, q) + [q]
  }

  /** A character `repr` writes as itself. */
  predicate IsPlain(c: char)
  {
    c != '\'' && c != '\\' && c != '\t' && c != '\n' && c != '\r' && !IsHexEscaped(c)
  }

  /** Text of plain characters is quoted as it is: `repr('username')` is `'username'`. */
  lemma PlainStrRepr(s: string)
    requires forall i :: 0 <= i < |s| ==> IsPlain(s[i])
    ensures StrRepr(s) == "'" + s + "'"
  {
    PlainEscape(s, '\'');
  }

  lemma {:induction false} PlainEscape(s: string, q: char)
    requires forall i :: 0 <= i < |s| ==> IsPlain(s[i]) && s[i] != q
    ensures Escape(s, q) == s
  {
    if |s| > 0 {
      PlainEscape(s[1..], q);
      assert s == [s[0]] + s[1..];
    }
  }

  // ----- Reading a literal back -----

  function HexValue(c: char): int
  {
    if '0' <= c <= '9' then c as int - '0' as int
    else if 'a' <= c <= 'f' then c as int - 'a' as int + 10
    else 0
  }

  /** Undoes `Escape`: the reading of the inside of a Python string literal
      restricted to the escapes `repr` produces. */
  function Unescape(t: string): string
  {
    if |t| == 0 then ""
    else if t[0] != '\\' || |t| == 1 then [t[0]] + Unescape(t[1..])
    else if t[1] == 't' then "\t" + Unescape(t[2..])
    else if t[1] == 'n' then "\n" + Unescape(t[2..])
    else if t[1] == 'r' then "\r" + Unescape(t[2..])
    else if t[1] == 'x' && |t| >= 4 then
      [(HexValue(t[2]) * 16 + HexValue(t[3])) as char] + Unescape(t[4..])
    else [t[1]] + Unescape(t[2..])
  }

  lemma HexDigitValue(d: int)
    requires 0 <= d < 16
    ensures HexValue(HexDigits[d]) == d
  {
  }

  lemma UnescapeChar(c: char, q: char, rest: string)
    requires q != 't' && q != 'n' && q != 'r' && q != 'x'
    ensures Unescape(EscapeChar(c, q) + rest) == [c] + Unescape(rest)
  {
    var e := EscapeChar(c, q);
    if IsHexEscaped(c) && c != q && c != '\\' {
      HexDigitValue(c as int / 16);
      HexDigitValue(c as int % 16);
      assert (e + rest)[4..] == rest;
    } else if |e| == 2 {
      assert (e + rest)[2..] == rest;
    } else {
      assert (e + rest)[1..] == rest;
    }
  }

  /** `eval(repr(s)) == s`: the escaped text reads back as the original. */
  lemma {:induction false} EscapeRoundTrip(s: string, q: char)
    requires q == '\'' || q == '"'
    ensures Unescape(Escape(s, q)) == s
  {
    if |s| > 0 {
      EscapeRoundTrip(s[1..], q);
      UnescapeChar(s[0], q, Escape(s[1..], q));
      assert s == [s[0]] + s[1..];
    }
  }

  /** The literal `repr` gives a string, stripped of its quotes, reads back as the string. */
  lemma StrReprRoundTrip(s: string)
    ensures var r := StrRepr(s); Unescape(r[1..|r| - 1]) == s
  {
    var r := StrRepr(s);
    assert r[1..|r| - 1] == Escape(s, QuoteOf(s));
    EscapeRoundTrip(s, QuoteOf(s));
  }

  // ----- Integers -----

  function DigitChar(d: int): char
    requires 0 <= d < 10
  {
    HexDigits[d]
  }

  /** `str(n)` for a non-negative `int`: decimal, no leading zeros. */
  function NatRepr(n: nat): (r: string)
    ensures |r| >= 1 && forall i :: 0 <= i < |r| ==> '0' <= r[i] <= '9'
    ensures |r| > 1 ==> r[0] != '0'
  {
    if n < 10 then [DigitChar(n)] else NatRepr(n / 10) + [DigitChar(n % 10)]
  }

  /** `repr(n)` for an `int`. */
  function IntRepr(n: int): string
  {
    if n < 0 then "-" + NatRepr(-n) else NatRepr(n)
  }

  /** The value of a decimal numeral. */
  function ReadNat(s: string): int
  {
    if |s| == 0 then 0 else ReadNat(s[..|s| - 1]) * 10 + HexValue(s[|s| - 1])
  }

  function ReadInt(s: string): int
  {
    if |s| > 0 && s[0] == '-' then -ReadNat(s[1..]) else ReadNat(s)
  }

  lemma {:induction false} NatReprRoundTrip(n: nat)
    ensures ReadNat(NatRepr(n)) == n
  {
    if n >= 10 {
      var q, d := n / 10, n % 10;
      NatReprRoundTrip(q);
      var r := NatRepr(n);
      assert r == NatRepr(q) + [DigitChar(d)];
      assert r[..|r| - 1] == NatRepr(q);
      assert HexValue(r[|r| - 1]) == d by { HexDigitValue(d); }
      assert n == q * 10 + d;
    }
  }

  lemma ReadSigned(r: string)
    ensures ReadInt("-" + r) == -ReadNat(r)
  {
    assert ("-" + r)[1..] == r;
  }

  lemma ReadUnsigned(r: string)
    requires |r| > 0 && r[0] != '-'
    ensures ReadInt(r) == ReadNat(r)
  {
  }

  /** The decimal text of an integer reads back as the integer. */
  lemma IntReprRoundTrip(n: int)
    ensures ReadInt(IntRepr(n)) == n
  {
    if n < 0 {
      var r := NatRepr(-n);
      assert IntRepr(n) == "-" + r;
      ReadSigned(r);
      NatReprRoundTrip(-n);
    } else {
      var r := NatRepr(n);
      assert IntRepr(n) == r;
      ReadUnsigned(r);
      NatReprRoundTrip(n);
    }
  }

  // ----- Keys in a fixed order -----

  /** Code-point order on strings, a prefix first. */
  predicate StrLe(a: string, b: string)
  {
    |a| == 0 || (|b| > 0 && (a[0] < b[0] || (a[0] == b[0] && StrLe(a[1..], b[1..]))))
  }

  lemma StrLeTotal(a: string, b: string)
    ensures StrLe(a, b) || StrLe(b, a)
  {
  }

  lemma {:induction false} StrLeAntisymmetric(a: string, b: string)
    requires StrLe(a, b) && StrLe(b, a)
    ensures a == b
  {
    if |a| > 0 && |b| > 0 {
      StrLeAntisymmetric(a[1..], b[1..]);
      assert a == [a[0]] + a[1..] && b == [b[0]] + b[1..];
    }
  }

  lemma {:induction false} StrLeTransitive(a: string, b: string, c: string)
    requires StrLe(a, b) && StrLe(b, c)
    ensures StrLe(a, c)
  {
    if |a| > 0 && |b| > 0 && |c| > 0 && a[0] == b[0] == c[0] {
      StrLeTransitive(a[1..], b[1..], c[1..]);
    }
  }

  predicate IsLeast(k: string, ks: set<string>)
  {
    k in ks && forall x :: x in ks ==> StrLe(k, x)
  }

  lemma {:induction false} LeastExists(ks: set<string>)
    requires ks != {}
    ensures exists k :: IsLeast(k, ks)
    decreases |ks|
  {
    var x :| x in ks;
    if ks - {x} == {} {
      assert ks == {x};
      StrLeTotal(x, x);
      assert IsLeast(x, ks);
    } else {
      LeastExists(ks - {x});
      var m :| IsLeast(m, ks - {x});
      StrLeTotal(m, x);
      if StrLe(m, x) {
        assert IsLeast(m, ks);
      } else {
        forall y | y in ks ensures StrLe(x, y)
        {
          if y != x {
            StrLeTransitive(x, m, y);
          }
          StrLeTotal(x, x);
        }
        assert IsLeast(x, ks);
      }
    }
  }

  lemma LeastUnique(ks: set<string>)
    ensures forall a, b :: IsLeast(a, ks) && IsLeast(b, ks) ==> a == b
  {
    forall a, b | IsLeast(a, ks) && IsLeast(b, ks)
      ensures a == b
    {
      StrLeAntisymmetric(a, b);
    }
  }

  /** The keys of an object in ascending code-point order. */
  function SortedKeys(ks: set<string>): (r: seq<string>)
    ensures |r| == |ks|
    ensures forall k :: k in r <==> k in ks
    ensures forall i, j :: 0 <= i < j < |r| ==> StrLe(r[i], r[j]) && r[i] != r[j]
    decreases |ks|
  {
    if ks == {} then []
    else
      LeastExists(ks);
      LeastUnique(ks);
      var k :| IsLeast(k, ks);
      var rest := SortedKeys(ks - {k});
      var r := [k] + rest;
      assert forall i, j :: 0 <= i < j < |r| ==> StrLe(r[i], r[j]) && r[i] != r[j] by {
        forall i, j | 0 <= i < j < |r|
          ensures StrLe(r[i], r[j]) && r[i] != r[j]
        {
          assert r[j] == rest[j - 1];
          if i == 0 {
            assert rest[j - 1] in ks - {k};
          } else {
            assert r[i] == rest[i - 1];
          }
        }
      }
      r
  }

  // ----- Values -----

  /** `repr` of the Python object `json.loads` builds for `v`. */
  function ValueRepr(v: Value): string
    decreases v
  {
    match v
    case JNull => "None"
    case JBool(b) => if b then "True" else "False"
    case JNumber(n) => IntRepr(n)
    case JString(s) => StrRepr(s)
    case JArray(items) =>
      "[" + Join(seq(|items|, i requires 0 <= i < |items| => ValueRepr(items[i])), ", ") + "]"
    case JObject(fields) =>
      var ks := SortedKeys(fields.Keys);
      "{" + Join(seq(|ks|, i requires 0 <= i < |ks| => StrRepr(ks[i]) + ": " + ValueRepr(fields[ks[i]])), ", ") + "}"
  }
}
