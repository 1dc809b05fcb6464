/**
 The pieces of text formatting and scanning that the password hash format needs: decimal
 numbers, literal text, and splitting at a separator.
 */
module Text {
  import opened Wrappers

  // ---------- Decimal numbers ----------

  predicate IsDigit(c: char) {
    '0' <= c <= '9'
  }

  function Decimal(n: nat): string {
    if n < 10 then ['0' + n as char] else Decimal(n / 10) + ['0' + (n % 10) as char]
  }

  function FromDecimal(ds: string): nat
    requires forall c :: c in ds ==> IsDigit(c)
  {
    if ds == [] then 0
    else
      var last := ds[|ds| - 1];
      assert IsDigit(last);
      FromDecimal(ds[..|ds| - 1]) * 10 + (last as int - '0' as int)
  }

  function DigitsPrefix(s: string): (n: nat)
    ensures n <= |s| && forall c :: c in s[..n] ==> IsDigit(c)
  {
    if s == [] || !IsDigit(s[0]) then 0 else 1 + DigitsPrefix(s[1..])
  }

  /** The blanks that number scanning skips; a line feed stops it. */
  function SkipBlanks(s: string): string {
    if s != [] && s[0] in {' ', '\t', '\r', '\U{000B}', '\U{000C}'} then SkipBlanks(s[1..]) else s
  }

  /** Scan an unsigned decimal number; the text after its digits is left over. */
  function ScanNat(s: string): Option<(nat, string)> {
    var t := SkipBlanks(s);
    var n := DigitsPrefix(t);
    if n == 0 then None else Some((FromDecimal(t[..n]), t[n..]))
  }

  /** Scan a signed decimal number. */
  function ScanInt(s: string): Option<(int, string)> {
    var t := SkipBlanks(s);
    var signed := t != [] && (t[0] == '+' || t[0] == '-');
    var u := if signed then t[1..] else t;
    var n := DigitsPrefix(u);
    if n == 0 then None
    else
      var v: int := FromDecimal(u[..n]);
      Some((if signed && t[0] == '-' then -v else v, u[n..]))
  }

  /** Scan a number that must fit below `bound`. */
  function ScanBelow(s: string, bound: nat): Option<(nat, string)> {
    match ScanNat(s)
    case Some((n, rest)) => if n < bound then Some((n, rest)) else None
    case None => None
  }

  /** No number but zero is printed with a zero in front. */
  lemma {:induction false} NoLeadingZero(n: nat)
    requires n > 0
    ensures |Decimal(n)| > 0 && Decimal(n)[0] != '0'
  {
    if n >= 10 {
      NoLeadingZero(n / 10);
    }
  }

  lemma {:induction false} DecimalDigits(n: nat)
    ensures |Decimal(n)| > 0 && forall c :: c in Decimal(n) ==> IsDigit(c)
    ensures FromDecimal(Decimal(n)) == n
  {
    if n >= 10 {
      DecimalDigits(n / 10);
      assert Decimal(n)[..|Decimal(n)| - 1] == Decimal(n / 10);
    }
  }

  lemma {:induction false} DigitsPrefixAppend(ds: string, rest: string)
    requires forall c :: c in ds ==> IsDigit(c)
    requires rest == [] || !IsDigit(rest[0])
    ensures DigitsPrefix(ds + rest) == |ds|
  {
    if ds == [] {
      assert ds + rest == rest;
    } else {
      assert (ds + rest)[1..] == ds[1..] + rest;
      assert IsDigit(ds[0]);
      DigitsPrefixAppend(ds[1..], rest);
    }
  }

  /** Scanning a printed number gives it back, together with whatever follows it. */
  lemma ScanDecimal(n: nat, rest: string)
    requires rest == [] || !IsDigit(rest[0])
    ensures ScanNat(Decimal(n) + rest) == Some((n, rest))
    ensures ScanInt(Decimal(n) + rest) == Some((n, rest))
  {
    DecimalDigits(n);
    DigitsPrefixAppend(Decimal(n), rest);
    var s := Decimal(n) + rest;
    assert IsDigit(s[0]);
    assert s[..|Decimal(n)|] == Decimal(n) && s[|Decimal(n)|..] == rest;
  }

  // ---------- Literals and separators ----------

  /** The rest of `s` after the literal `lit`. */
  function After(s: string, lit: string): Option<string> {
    if lit <= s then Some(s[|lit|..]) else None
  }

  lemma AfterLiteral(lit: string, rest: string)
    ensures After(lit + rest, lit) == Some(rest)
  {
  }

  function Split(s: string, sep: char): (fields: seq<string>)
    ensures |fields| > 0
  {
    if s == [] then [[]]
    else
      var rest := Split(s[1..], sep);
      if s[0] == sep then [[]] + rest else [[s[0]] + rest[0]] + rest[1..]
  }

  function Join(fields: seq<string>, sep: char): string
    requires |fields| > 0
  {
    if |fields| == 1 then fields[0] else fields[0] + [sep] + Join(fields[1..], sep)
  }

  lemma {:induction false} SplitFirst(f: string, rest: string, sep: char)
    requires sep !in f
    ensures Split(f, sep) == [f]
    ensures Split(f + [sep] + rest, sep) == [f] + Split(rest, sep)
  {
    var s := f + [sep] + rest;
    if f == [] {
      assert s[1..] == rest;
    } else {
      SplitFirst(f[1..], rest, sep);
      assert s[1..] == f[1..] + [sep] + rest;
      assert f == [f[0]] + f[1..];
    }
  }

  lemma JoinCons(f: string, fields: seq<string>, sep: char)
    requires |fields| > 0
    ensures Join([f] + fields, sep) == f + [sep] + Join(fields, sep)
  {
  }

  /** Every text is its fields, joined, and no field holds the separator. */
  lemma {:induction false} SplitParts(s: string, sep: char)
    ensures Join(Split(s, sep), sep) == s
    ensures forall f :: f in Split(s, sep) ==> sep !in f
  {
    if s != [] {
      var rest := Split(s[1..], sep);
      SplitParts(s[1..], sep);
      assert s == [s[0]] + s[1..];
      if s[0] == sep {
        JoinCons([], rest, sep);
      } else {
        JoinFirst([s[0]], rest, sep);
        assert rest[0] in rest && forall f :: f in rest[1..] ==> f in rest;
      }
    }
  }

  lemma JoinFirst(x: string, fields: seq<string>, sep: char)
    requires |fields| > 0
    ensures Join([x + fields[0]] + fields[1..], sep) == x + Join(fields, sep)
  {
    if |fields| > 1 {
      JoinCons(x + fields[0], fields[1..], sep);
      assert fields == [fields[0]] + fields[1..];
    }
  }

  /** Splitting undoes joining when no field holds the separator. */
  lemma {:induction false} SplitJoin(fields: seq<string>, sep: char)
    requires |fields| > 0 && forall f :: f in fields ==> sep !in f
    ensures Split(Join(fields, sep), sep) == fields
  {
    if |fields| == 1 {
      SplitFirst(fields[0], [], sep);
    } else {
      SplitJoin(fields[1..], sep);
      SplitFirst(fields[0], Join(fields[1..], sep), sep);
    }
  }
}
