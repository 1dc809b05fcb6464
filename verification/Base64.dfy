/**
 Base 64 as in section 4 of RFC 4648, with the padding left out as its section 3.2 allows.
 Decoding skips line breaks and ignores the unused low bits of the last character, as the
 library the repository calls does.
 */
module Base64 {
  import opened Wrappers

  type Byte = b: int | 0 <= b < 256
  type Bytes = seq<Byte>

  function Symbol(v: int): char
    requires 0 <= v < 64
  {
    if v < 26 then 'A' + v as char
    else if v < 52 then 'a' + (v - 26) as char
    else if v < 62 then '0' + (v - 52) as char
    else if v == 62 then '+'
    else '/'
  }

  function Value(c: char): Option<int> {
    if 'A' <= c <= 'Z' then Some(c as int - 'A' as int)
    else if 'a' <= c <= 'z' then Some(c as int - 'a' as int + 26)
    else if '0' <= c <= '9' then Some(c as int - '0' as int + 52)
    else if c == '+' then Some(62)
    else if c == '/' then Some(63)
    else None
  }

  /** The two functions read the same table. */
  lemma SymbolValue(v: int)
    requires 0 <= v < 64
    ensures Value(Symbol(v)) == Some(v)
  {
  }

  /** The alphabet of the standard: A to Z, a to z, 0 to 9, + and /. */
  lemma Alphabet()
    ensures Symbol(0) == 'A' && Symbol(25) == 'Z' && Symbol(26) == 'a' && Symbol(51) == 'z'
    ensures Symbol(52) == '0' && Symbol(61) == '9' && Symbol(62) == '+' && Symbol(63) == '/'
    ensures forall v :: 0 <= v < 61 && v != 25 && v != 51 ==> Symbol(v + 1) as int == Symbol(v) as int + 1
  {
  }

  function Encode(bs: Bytes): string {
    if bs == [] then []
    else if |bs| == 1 then [Symbol(bs[0] / 4), Symbol(bs[0] % 4 * 16)]
    else if |bs| == 2 then [Symbol(bs[0] / 4), Symbol(bs[0] % 4 * 16 + bs[1] / 16), Symbol(bs[1] % 16 * 4)]
    else
      [Symbol(bs[0] / 4), Symbol(bs[0] % 4 * 16 + bs[1] / 16), Symbol(bs[1] % 16 * 4 + bs[2] / 64), Symbol(bs[2] % 64)]
      + Encode(bs[3..])
  }

  function WithoutBreaks(s: string): string {
    if s == [] then []
    else if s[0] == '\r' || s[0] == '\n' then WithoutBreaks(s[1..])
    else [s[0]] + WithoutBreaks(s[1..])
  }

  /** Decode characters without line breaks; `None` when the text is not base 64. */
  function DecodeQuanta(s: string): Option<Bytes> {
    if s == [] then Some([])
    else if |s| == 1 then None
    else
      match (Value(s[0]), Value(s[1])) {
        case (Some(a), Some(b)) =>
          if |s| == 2 then Some([a * 4 + b / 16])
          else
            match Value(s[2]) {
              case None => None
              case Some(c) =>
                if |s| == 3 then Some([a * 4 + b / 16, b % 16 * 16 + c / 4])
                else
                  match (Value(s[3]), DecodeQuanta(s[4..])) {
                    case (Some(d), Some(rest)) => Some([a * 4 + b / 16, b % 16 * 16 + c / 4, c % 4 * 64 + d] + rest)
                    case _ => None
                  }
            }
        case _ => None
      }
  }

  function Decode(s: string): Option<Bytes> {
    DecodeQuanta(WithoutBreaks(s))
  }

  lemma {:induction false} WithoutBreaksSame(s: string)
    requires forall c :: c in s ==> Value(c).Some?
    ensures WithoutBreaks(s) == s
  {
    if s != [] {
      assert Value(s[0]).Some?;
      WithoutBreaksSame(s[1..]);
    }
  }

  /** Every character of an encoding is one of the 64. */
  lemma {:induction false} EncodedSymbols(bs: Bytes)
    ensures forall c :: c in Encode(bs) ==> Value(c).Some?
  {
    if |bs| > 2 {
      EncodedSymbols(bs[3..]);
    }
  }

  lemma Regroup(x: Byte, y: Byte, z: Byte)
    ensures x / 4 * 4 + (x % 4 * 16 + y / 16) / 16 == x && x / 4 * 4 + (x % 4 * 16) / 16 == x
    ensures (x % 4 * 16 + y / 16) % 16 * 16 + (y % 16 * 4 + z / 64) / 4 == y
    ensures (x % 4 * 16 + y / 16) % 16 * 16 + (y % 16 * 4) / 4 == y
    ensures (y % 16 * 4 + z / 64) % 4 * 64 + z % 64 == z
  {
  }

  lemma EncodeTwo(x: Byte, y: Byte)
    ensures DecodeQuanta(Encode([x, y])) == Some([x, y])
  {
    SymbolValue(x / 4);
    SymbolValue(x % 4 * 16 + y / 16);
    SymbolValue(y % 16 * 4);
    Regroup(x, y, 0);
  }

  lemma DecodeFour(s: string, a: int, b: int, c: int, d: int, rest: Bytes)
    requires |s| >= 4
    requires Value(s[0]) == Some(a) && Value(s[1]) == Some(b) && Value(s[2]) == Some(c) && Value(s[3]) == Some(d)
    requires DecodeQuanta(s[4..]) == Some(rest)
    ensures DecodeQuanta(s) == Some([a * 4 + b / 16, b % 16 * 16 + c / 4, c % 4 * 64 + d] + rest)
  {
  }

  lemma EncodeThree(x: Byte, y: Byte, z: Byte, rest: Bytes)
    requires DecodeQuanta(Encode(rest)) == Some(rest)
    ensures DecodeQuanta(Encode([x, y, z] + rest)) == Some([x, y, z] + rest)
  {
    var a, b, c, d := x / 4, x % 4 * 16 + y / 16, y % 16 * 4 + z / 64, z % 64;
    SymbolValue(a);
    SymbolValue(b);
    SymbolValue(c);
    SymbolValue(d);
    var s := Encode([x, y, z] + rest);
    assert ([x, y, z] + rest)[3..] == rest;
    assert s == [Symbol(a), Symbol(b), Symbol(c), Symbol(d)] + Encode(rest);
    assert s[4..] == Encode(rest);
    DecodeFour(s, a, b, c, d, rest);
    Regroup(x, y, z);
  }

  lemma {:induction false} DecodeQuantaEncode(bs: Bytes)
    ensures DecodeQuanta(Encode(bs)) == Some(bs)
  {
    if |bs| == 1 {
      SymbolValue(bs[0] / 4);
      SymbolValue(bs[0] % 4 * 16);
      Regroup(bs[0], 0, 0);
      assert bs == [bs[0]];
    } else if |bs| == 2 {
      EncodeTwo(bs[0], bs[1]);
      assert bs == [bs[0], bs[1]];
    } else if |bs| > 2 {
      DecodeQuantaEncode(bs[3..]);
      EncodeThree(bs[0], bs[1], bs[2], bs[3..]);
      assert bs == [bs[0], bs[1], bs[2]] + bs[3..];
    }
  }

  lemma RoundTrip(bs: Bytes)
    ensures Decode(Encode(bs)) == Some(bs)
  {
    EncodedSymbols(bs);
    WithoutBreaksSame(Encode(bs));
    DecodeQuantaEncode(bs);
  }

  /** The test vectors of section 10 of RFC 4648, without their padding. */
  lemma StandardVectors()
    ensures Encode([]) == "" && Encode([102]) == "Zg" && Encode([102, 111]) == "Zm8" && Encode([102, 111, 111]) == "Zm9v"
    ensures Encode([102, 111, 111, 98]) == "Zm9vYg" && Encode([102, 111, 111, 98, 97]) == "Zm9vYmE"
    ensures Encode([102, 111, 111, 98, 97, 114]) == "Zm9vYmFy"
  {
    assert [102, 111, 111, 98][3..] == [98];
    assert [102, 111, 111, 98, 97][3..] == [98, 97];
    assert [102, 111, 111, 98, 97, 114][3..] == [98, 97, 114];
    assert [102, 111, 111][3..] == [];
    assert [98, 97, 114][3..] == [];
  }

  /** A character outside the alphabet that is no line break makes decoding fail. */
  lemma {:induction false} DecodeQuantaRejects(s: string)
    requires exists c :: c in s && Value(c) == None
    ensures DecodeQuanta(s) == None
  {
    if |s| > 4 && Value(s[0]).Some? && Value(s[1]).Some? && Value(s[2]).Some? && Value(s[3]).Some? {
      assert exists c :: c in s[4..] && Value(c) == None by {
        var c :| c in s && Value(c) == None;
        assert s == [s[0], s[1], s[2], s[3]] + s[4..];
      }
      DecodeQuantaRejects(s[4..]);
    }
  }

  lemma {:induction false} WithoutBreaksHas(s: string, c: char)
    requires c in s && c != '\r' && c != '\n'
    ensures c in WithoutBreaks(s)
  {
    if c != s[0] {
      WithoutBreaksHas(s[1..], c);
    }
  }

  lemma DecodeRejects(s: string, c: char)
    requires c in s && Value(c) == None && c != '\r' && c != '\n'
    ensures Decode(s) == None
  {
    WithoutBreaksHas(s, c);
    DecodeQuantaRejects(WithoutBreaks(s));
  }

  lemma {:induction false} EncodedLength(bs: Bytes)
    ensures |Encode(bs)| == |bs| / 3 * 4 + (|bs| % 3 * 8 + 5) / 6
  {
    if |bs| > 2 {
      EncodedLength(bs[3..]);
      assert |bs| / 3 == (|bs| - 3) / 3 + 1 && |bs| % 3 == (|bs| - 3) % 3;
    }
  }
}
