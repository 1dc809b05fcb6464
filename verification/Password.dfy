/**
 Password hashing of password.go: the printer and the parser of Argon2id hashes in PHC string
 format, and the comparison.  Argon2id itself (section 3 of RFC 9106) is any function of its
 inputs whose result has the requested length.
 */
module Password {
  import opened Wrappers
  import opened Base64
  import opened Text

  const UINT32 := 0x1_0000_0000
  const UINT8 := 0x100
  const INT64 := 0x8000_0000_0000_0000
  const VERSION := 19

  datatype Params = Params(memory: nat, iterations: nat, parallelism: nat, saltLen: nat, keyLen: nat) {
    // The ranges of the source's integer types.
    predicate InRange() {
      memory < UINT32 && iterations < UINT32 && parallelism < UINT8 && saltLen < UINT32 && keyLen < UINT32
    }

    // Argon2 panics without rounds, without threads, or when no key bytes are asked for.
    predicate Derivable() {
      iterations >= 1 && parallelism >= 1 && keyLen >= 1
    }
  }

  const DEFAULT_PARAMS := Params(64 * 1024, 3, 4, 16, 32)

  /** Password, salt, iterations, memory, parallelism, key length. */
  type Kdf = (Bytes, Bytes, nat, nat, nat, nat) -> Bytes

  ghost predicate IsKdf(kdf: Kdf) {
    forall pw, salt, t, m, p, n :: |kdf(pw, salt, t, m, p, n)| == n
  }

  function Key(kdf: Kdf, p: Params, salt: Bytes, plain: Bytes): Bytes {
    kdf(plain, salt, p.iterations, p.memory, p.parallelism, p.keyLen)
  }

  function PrintParams(p: Params): string {
    "m=" + Decimal(p.memory) + ",t=" + Decimal(p.iterations) + ",p=" + Decimal(p.parallelism)
  }

  function Print(p: Params, salt: Bytes, hash: Bytes): string {
    "$argon2id$v=" + Decimal(VERSION) + "$" + PrintParams(p) + "$" + Base64.Encode(salt) + "$" + Base64.Encode(hash)
  }

  datatype DecodeError =
    | WrongSegments
    | Unsupported(algorithm: string)
    | VersionSyntax
    | Incompatible(version: int)
    | ParamsSyntax
    | SaltEncoding
    | HashEncoding

  datatype Decoded = Decoded(params: Params, salt: Bytes, hash: Bytes)

  const NO_PARAMS := Params(0, 0, 0, 0, 0)

  /** Scan `lit` and then a number below `bound`. */
  function ScanField(s: string, lit: string, bound: nat): Option<(nat, string)> {
    match After(s, lit)
    case None => None
    case Some(rest) => ScanBelow(rest, bound)
  }

  function ScanVersion(s: string): Option<int> {
    match After(s, "v=")
    case None => None
    case Some(rest) => match ScanInt(rest) case None => None case Some((v, _)) => if -INT64 <= v < INT64 then Some(v) else None
  }

  function ScanParams(s: string): Option<(nat, nat, nat)> {
    match ScanField(s, "m=", UINT32)
    case None => None
    case Some((m, s1)) =>
      match ScanField(s1, ",t=", UINT32)
      case None => None
      case Some((t, s2)) =>
        match ScanField(s2, ",p=", UINT8)
        case None => None
        case Some((p, _)) => Some((m, t, p))
  }

  /** What parsing a stored hash yields; the length of the key is that of the hash, in 32 bits. */
  function Decode(encoded: string): Result<Decoded, DecodeError> {
    var parts := Split(encoded, '$');
    if |parts| != 6 then Failure(WrongSegments)
    else if parts[1] != "argon2id" then Failure(Unsupported(parts[1]))
    else
      match ScanVersion(parts[2])
      case None => Failure(VersionSyntax)
      case Some(v) =>
        if v != VERSION then Failure(Incompatible(v))
        else
          match ScanParams(parts[3])
          case None => Failure(ParamsSyntax)
          case Some((m, t, p)) =>
            match Base64.Decode(parts[4])
            case None => Failure(SaltEncoding)
            case Some(salt) =>
              match Base64.Decode(parts[5])
              case None => Failure(HashEncoding)
              case Some(hash) => Success(Decoded(Params(m, t, p, 0, |hash| % UINT32), salt, hash))
  }

  /** Parsing, field by field; on an error no salt and no hash is returned. */
  method DecodeHash(encoded: string) returns (p: Params, salt: Bytes, hash: Bytes, err: Option<DecodeError>)
    ensures match Decode(encoded)
            case Success(d) => err == None && d == Decoded(p, salt, hash)
            case Failure(e) => err == Some(e) && salt == [] && hash == []
  {
    p, salt, hash, err := NO_PARAMS, [], [], None;
    var parts := Split(encoded, '$');
    if |parts| != 6 {
      return p, [], [], Some(WrongSegments);
    }
    if parts[1] != "argon2id" {
      return p, [], [], Some(Unsupported(parts[1]));
    }
    var version := ScanVersion(parts[2]);
    if version == None {
      return p, [], [], Some(VersionSyntax);
    }
    if version.value != VERSION {
      return p, [], [], Some(Incompatible(version.value));
    }
    var costs := ScanParams(parts[3]);
    if costs == None {
      return p, [], [], Some(ParamsSyntax);
    }
    p := p.(memory := costs.value.0, iterations := costs.value.1, parallelism := costs.value.2);
    var s := Base64.Decode(parts[4]);
    if s == None {
      return p, [], [], Some(SaltEncoding);
    }
    var h := Base64.Decode(parts[5]);
    if h == None {
      return p, [], [], Some(HashEncoding);
    }
    p := p.(keyLen := |h.value| % UINT32);
    return p, s.value, h.value, None;
  }

  function RandomBytes(random: nat -> Byte, n: nat): (bs: Bytes)
    ensures |bs| == n && forall i :: 0 <= i < n ==> bs[i] == random(i)
  {
    if n == 0 then [] else RandomBytes(random, n - 1) + [random(n - 1)]
  }

  /** Fill a salt from the random source, or fail with it, and print the derived key. */
  method HashPassword(kdf: Kdf, plain: Bytes, random: nat -> Byte, works: bool) returns (r: Result<string, ()>)
    ensures r.Success? <==> works
    ensures works ==>
              var salt := RandomBytes(random, 16);
              r.value == Print(Params(65536, 3, 4, 16, 32), salt, kdf(plain, salt, 3, 65536, 4, 32))
  {
    var salt := new Byte[DEFAULT_PARAMS.saltLen];
    if !works {
      return Failure(());
    }
    for i := 0 to salt.Length
      invariant forall k :: 0 <= k < i ==> salt[k] == random(k)
    {
      salt[i] := random(i);
    }
    assert salt[..] == RandomBytes(random, DEFAULT_PARAMS.saltLen);
    r := Success(Print(DEFAULT_PARAMS, salt[..], Key(kdf, DEFAULT_PARAMS, salt[..], plain)));
  }

  datatype Comparison = Match | Mismatch | Malformed(error: DecodeError) | Panic

  function Compare(kdf: Kdf, encoded: string, plain: Bytes): Comparison {
    match Decode(encoded)
    case Failure(e) => Malformed(e)
    case Success(Decoded(p, salt, hash)) =>
      if !p.Derivable() then Panic
      else if Key(kdf, p, salt, plain) == hash then Match
      else Mismatch
  }

  // ---------- Round trip ----------

  /** The separated fields of a printed hash; the first one, before the first `$`, is empty. */
  function Fields(p: Params, salt: Bytes, hash: Bytes): seq<string> {
    ["", "argon2id", "v=" + Decimal(VERSION), PrintParams(p), Base64.Encode(salt), Base64.Encode(hash)]
  }

  lemma JoinSix(a: string, b: string, c: string, d: string, e: string, f: string, x: char)
    ensures Join([a, b, c, d, e, f], x) == a + [x] + b + [x] + c + [x] + d + [x] + e + [x] + f
  {
    JoinCons(e, [f], x);
    JoinCons(d, [e] + [f], x);
    JoinCons(c, [d] + ([e] + [f]), x);
    JoinCons(b, [c] + ([d] + ([e] + [f])), x);
    JoinCons(a, [b] + ([c] + ([d] + ([e] + [f]))), x);
    assert [a, b, c, d, e, f] == [a] + ([b] + ([c] + ([d] + ([e] + [f]))));
    var j2 := e + [x] + f;
    assert d + [x] + j2 == d + [x] + e + [x] + f;
    assert c + [x] + (d + [x] + e + [x] + f) == c + [x] + d + [x] + e + [x] + f;
    assert b + [x] + (c + [x] + d + [x] + e + [x] + f) == b + [x] + c + [x] + d + [x] + e + [x] + f;
    assert a + [x] + (b + [x] + c + [x] + d + [x] + e + [x] + f) == a + [x] + b + [x] + c + [x] + d + [x] + e + [x] + f;
  }

  lemma PrintJoins(p: Params, salt: Bytes, hash: Bytes)
    ensures Print(p, salt, hash) == Join(Fields(p, salt, hash), '$')
  {
    var v, ps, s, h := Decimal(VERSION), PrintParams(p), Base64.Encode(salt), Base64.Encode(hash);
    JoinSix("", "argon2id", "v=" + v, ps, s, h, '$');
    assert "" + ['$'] + "argon2id" + ['$'] + ("v=" + v) == "$argon2id$v=" + v;
  }

  lemma FieldsClean(p: Params, salt: Bytes, hash: Bytes)
    ensures '$' !in Decimal(VERSION) && '$' !in PrintParams(p)
    ensures '$' !in Base64.Encode(salt) && '$' !in Base64.Encode(hash)
  {
    DecimalDigits(VERSION);
    DecimalDigits(p.memory);
    DecimalDigits(p.iterations);
    DecimalDigits(p.parallelism);
    EncodedSymbols(salt);
    EncodedSymbols(hash);
  }

  lemma ScanPrintedField(lit: string, n: nat, rest: string, bound: nat)
    requires n < bound && (rest == [] || !IsDigit(rest[0]))
    ensures ScanField(lit + Decimal(n) + rest, lit, bound) == Some((n, rest))
  {
    assert lit + Decimal(n) + rest == lit + (Decimal(n) + rest);
    AfterLiteral(lit, Decimal(n) + rest);
    ScanDecimal(n, rest);
  }

  lemma ScanPrintedParams(p: Params)
    requires p.InRange()
    ensures ScanParams(PrintParams(p)) == Some((p.memory, p.iterations, p.parallelism))
  {
    var s2 := ",p=" + Decimal(p.parallelism);
    var s1 := ",t=" + Decimal(p.iterations) + s2;
    assert PrintParams(p) == "m=" + Decimal(p.memory) + s1;
    ScanPrintedField("m=", p.memory, s1, UINT32);
    ScanPrintedField(",t=", p.iterations, s2, UINT32);
    assert s2 == s2 + [];
    ScanPrintedField(",p=", p.parallelism, [], UINT8);
  }

  /** Parsing a printed hash gives back its parameters, salt and key. */
  lemma RoundTrip(p: Params, salt: Bytes, hash: Bytes)
    requires p.InRange()
    ensures Decode(Print(p, salt, hash)) ==
            Success(Decoded(p.(saltLen := 0, keyLen := |hash| % UINT32), salt, hash))
  {
    PrintJoins(p, salt, hash);
    FieldsClean(p, salt, hash);
    SplitJoin(Fields(p, salt, hash), '$');
    AfterLiteral("v=", Decimal(VERSION));
    assert Decimal(VERSION) + [] == Decimal(VERSION);
    ScanDecimal(VERSION, []);
    ScanPrintedParams(p);
    Base64.RoundTrip(salt);
    Base64.RoundTrip(hash);
  }

  /** The printed form with any algorithm name, any version and any last two fields. */
  function Foreign(algorithm: string, version: nat, p: Params, salt: string, hash: string): string {
    Join(["", algorithm, "v=" + Decimal(version), PrintParams(p), salt, hash], '$')
  }

  lemma ForeignFields(algorithm: string, version: nat, p: Params, salt: string, hash: string)
    requires '$' !in algorithm && '$' !in salt && '$' !in hash
    ensures Split(Foreign(algorithm, version, p, salt, hash), '$') ==
            ["", algorithm, "v=" + Decimal(version), PrintParams(p), salt, hash]
  {
    DecimalDigits(version);
    FieldsClean(p, [], []);
    SplitJoin(["", algorithm, "v=" + Decimal(version), PrintParams(p), salt, hash], '$');
  }

  lemma ScanPrintedVersion(version: nat)
    ensures ScanVersion("v=" + Decimal(version)) == if version < INT64 then Some(version) else None
  {
    AfterLiteral("v=", Decimal(version));
    assert Decimal(version) + [] == Decimal(version);
    ScanDecimal(version, []);
  }

  lemma ScanWideField(lit: string, n: nat, rest: string, bound: nat)
    requires n >= bound && (rest == [] || !IsDigit(rest[0]))
    ensures ScanField(lit + Decimal(n) + rest, lit, bound) == None
  {
    assert lit + Decimal(n) + rest == lit + (Decimal(n) + rest);
    AfterLiteral(lit, Decimal(n) + rest);
    ScanDecimal(n, rest);
  }

  /** Printed cost parameters are read back exactly when they fit the source's integer types. */
  lemma ScanAnyParams(p: Params)
    ensures ScanParams(PrintParams(p)) ==
            if p.memory < UINT32 && p.iterations < UINT32 && p.parallelism < UINT8
            then Some((p.memory, p.iterations, p.parallelism)) else None
  {
    var s2 := ",p=" + Decimal(p.parallelism);
    var s1 := ",t=" + Decimal(p.iterations) + s2;
    assert PrintParams(p) == "m=" + Decimal(p.memory) + s1;
    assert s2 == s2 + [];
    if p.memory >= UINT32 {
      ScanWideField("m=", p.memory, s1, UINT32);
    } else {
      ScanPrintedField("m=", p.memory, s1, UINT32);
      if p.iterations >= UINT32 {
        ScanWideField(",t=", p.iterations, s2, UINT32);
      } else {
        ScanPrintedField(",t=", p.iterations, s2, UINT32);
        if p.parallelism >= UINT8 {
          ScanWideField(",p=", p.parallelism, [], UINT8);
        } else {
          ScanPrintedField(",p=", p.parallelism, [], UINT8);
        }
      }
    }
  }

  /** A text that is not six fields is refused. */
  lemma SegmentsRefused(fields: seq<string>)
    requires |fields| > 0 && |fields| != 6 && forall f :: f in fields ==> '$' !in f
    ensures Decode(Join(fields, '$')) == Failure(WrongSegments)
  {
    SplitJoin(fields, '$');
  }

  lemma DecodeFields(encoded: string, algorithm: string, version: string, costs: string, s: string, h: string, salt: Bytes, hash: Bytes)
    requires Split(encoded, '$') == ["", algorithm, version, costs, s, h]
    requires Base64.Decode(s) == Some(salt) && Base64.Decode(h) == Some(hash)
    ensures algorithm != "argon2id" ==> Decode(encoded) == Failure(Unsupported(algorithm))
    ensures algorithm == "argon2id" && ScanVersion(version) == None ==> Decode(encoded) == Failure(VersionSyntax)
    ensures algorithm == "argon2id" && ScanVersion(version).Some? && ScanVersion(version).value != VERSION ==>
              Decode(encoded) == Failure(Incompatible(ScanVersion(version).value))
    ensures algorithm == "argon2id" && ScanVersion(version) == Some(VERSION) ==>
              Decode(encoded) ==
              match ScanParams(costs)
              case None => Failure(ParamsSyntax)
              case Some((m, t, p)) => Success(Decoded(Params(m, t, p, 0, |hash| % UINT32), salt, hash))
  {
  }

  /** The parser refuses other algorithms, other versions and numbers out of range, in this order. */
  lemma ForeignRefused(algorithm: string, version: nat, p: Params, salt: Bytes, hash: Bytes)
    requires '$' !in algorithm
    ensures Decode(Foreign(algorithm, version, p, Base64.Encode(salt), Base64.Encode(hash))) ==
            if algorithm != "argon2id" then Failure(Unsupported(algorithm))
            else if version >= 0x8000_0000_0000_0000 then Failure(VersionSyntax)
            else if version != 19 then Failure(Incompatible(version))
            else if p.memory >= 0x1_0000_0000 || p.iterations >= 0x1_0000_0000 || p.parallelism >= 0x100 then Failure(ParamsSyntax)
            else Success(Decoded(Params(p.memory, p.iterations, p.parallelism, 0, |hash| % 0x1_0000_0000), salt, hash))
  {
    FieldsClean(p, salt, hash);
    ForeignFields(algorithm, version, p, Base64.Encode(salt), Base64.Encode(hash));
    ScanPrintedVersion(version);
    ScanAnyParams(p);
    Base64.RoundTrip(salt);
    Base64.RoundTrip(hash);
    DecodeFields(Foreign(algorithm, version, p, Base64.Encode(salt), Base64.Encode(hash)),
                 algorithm, "v=" + Decimal(version), PrintParams(p), Base64.Encode(salt), Base64.Encode(hash), salt, hash);
  }

  /** Then a salt that is not base 64 is refused, and then such a key. */
  lemma GarbledRefused(p: Params, salt: string, c: char, hash: string, bs: Bytes)
    requires p.InRange() && '$' !in salt && '$' !in hash
    requires c != '\r' && c != '\n' && Value(c) == None
    ensures c in salt ==> Decode(Foreign("argon2id", 19, p, salt, hash)) == Failure(SaltEncoding)
    ensures c in hash ==> Decode(Foreign("argon2id", 19, p, Base64.Encode(bs), hash)) == Failure(HashEncoding)
  {
    FieldsClean(p, bs, []);
    ScanPrintedVersion(19);
    ScanAnyParams(p);
    if c in salt {
      ForeignFields("argon2id", 19, p, salt, hash);
      DecodeRejects(salt, c);
    }
    if c in hash {
      ForeignFields("argon2id", 19, p, Base64.Encode(bs), hash);
      Base64.RoundTrip(bs);
      DecodeRejects(hash, c);
    }
  }

  /** What is accepted is six fields, the first of any content, with this algorithm and this version. */
  lemma Accepted(encoded: string)
    requires Decode(encoded).Success?
    ensures exists first, version, costs, salt, hash ::
              && encoded == Join([first, "argon2id", version, costs, salt, hash], '$')
              && ScanVersion(version) == Some(19)
              && Base64.Decode(salt) == Some(Decode(encoded).value.salt)
              && Base64.Decode(hash) == Some(Decode(encoded).value.hash)
  {
    var fs := Split(encoded, '$');
    SplitParts(encoded, '$');
    assert fs == [fs[0], "argon2id", fs[2], fs[3], fs[4], fs[5]];
  }

  /** The printed form, written out. */
  lemma PrintedForm(p: Params, salt: Bytes, hash: Bytes)
    ensures Print(p, salt, hash) ==
            "$argon2id$v=19$m=" + Decimal(p.memory) + ",t=" + Decimal(p.iterations) + ",p=" + Decimal(p.parallelism)
            + "$" + Base64.Encode(salt) + "$" + Base64.Encode(hash)
  {
    DecimalSamples();
    var m, t, q := Decimal(p.memory), Decimal(p.iterations), Decimal(p.parallelism);
    assert "$argon2id$v=" + "19" + "$" + "m=" == "$argon2id$v=19$m=";
    assert "$argon2id$v=" + "19" + "$" + ("m=" + m + ",t=" + t + ",p=" + q) == "$argon2id$v=19$m=" + m + ",t=" + t + ",p=" + q;
  }

  lemma DecimalSamples()
    ensures Decimal(19) == "19" && Decimal(3) == "3" && Decimal(4) == "4" && Decimal(65536) == "65536"
  {
    assert Decimal(65) == "65";
    assert Decimal(655) == "655";
    assert Decimal(6553) == "6553";
  }

  /** Different parameters, salts or keys have different printed forms. */
  lemma PrintInjective(p: Params, salt: Bytes, hash: Bytes, q: Params, salt': Bytes, hash': Bytes)
    requires p.InRange() && q.InRange() && Print(p, salt, hash) == Print(q, salt', hash')
    ensures salt == salt' && hash == hash'
    ensures p.memory == q.memory && p.iterations == q.iterations && p.parallelism == q.parallelism
  {
    RoundTrip(p, salt, hash);
    RoundTrip(q, salt', hash');
  }

  /**
   A stored hash is checked under the parameters it was made with, whatever the defaults are
   now: its own password matches, and another one exactly when it derives the same key.
   */
  lemma SelfDescribing(kdf: Kdf, p: Params, salt: Bytes, plain: Bytes, other: Bytes)
    requires IsKdf(kdf) && p.InRange() && p.Derivable()
    ensures var key := kdf(plain, salt, p.iterations, p.memory, p.parallelism, p.keyLen);
            && Compare(kdf, Print(p, salt, key), plain) == Match
            && Compare(kdf, Print(p, salt, key), other) ==
               if kdf(other, salt, p.iterations, p.memory, p.parallelism, p.keyLen) == key then Match else Mismatch
  {
    var hash := Key(kdf, p, salt, plain);
    RoundTrip(p, salt, hash);
    KeyLength(kdf, p, salt, plain);
    CompareDecoded(kdf, Print(p, salt, hash), p, salt, hash, plain);
    CompareDecoded(kdf, Print(p, salt, hash), p, salt, hash, other);
  }

  /** What comparison answers for any stored text. */
  lemma Compared(kdf: Kdf, encoded: string, plain: Bytes)
    ensures match Decode(encoded)
            case Failure(e) => Compare(kdf, encoded, plain) == Malformed(e)
            case Success(d) =>
              if d.params.iterations == 0 || d.params.parallelism == 0 || d.params.keyLen == 0 then Compare(kdf, encoded, plain) == Panic
              else
                Compare(kdf, encoded, plain) ==
                if kdf(plain, d.salt, d.params.iterations, d.params.memory, d.params.parallelism, d.params.keyLen) == d.hash
                then Match else Mismatch
  {
  }

  lemma KeyLength(kdf: Kdf, p: Params, salt: Bytes, plain: Bytes)
    requires IsKdf(kdf) && p.keyLen < UINT32
    ensures |Key(kdf, p, salt, plain)| % UINT32 == p.keyLen
  {
  }

  lemma CompareDecoded(kdf: Kdf, encoded: string, p: Params, salt: Bytes, hash: Bytes, plain: Bytes)
    requires Decode(encoded) == Success(Decoded(p.(saltLen := 0), salt, hash)) && p.Derivable()
    ensures Compare(kdf, encoded, plain) == if Key(kdf, p, salt, plain) == hash then Match else Mismatch
  {
  }

  // ---------- Length of stored hashes ----------

  lemma DecimalLength(n: nat)
    ensures n < 10 ==> |Decimal(n)| == 1
    ensures 10 <= n < 100 ==> |Decimal(n)| == 2
    ensures 10000 <= n < 100000 ==> |Decimal(n)| == 5
  {
    if 10000 <= n < 100000 {
      assert |Decimal(n)| == |Decimal(n / 10)| + 1;
      assert |Decimal(n / 10)| == |Decimal(n / 10 / 10)| + 1;
      assert |Decimal(n / 10 / 10)| == |Decimal(n / 10 / 10 / 10)| + 1;
      assert |Decimal(n / 10 / 10 / 10)| == |Decimal(n / 10 / 10 / 10 / 10)| + 1;
    }
  }

  lemma PrintLength(p: Params, salt: Bytes, hash: Bytes)
    ensures |Print(p, salt, hash)| == 23 + |Decimal(VERSION)| + |Decimal(p.memory)| + |Decimal(p.iterations)|
                                      + |Decimal(p.parallelism)| + |Base64.Encode(salt)| + |Base64.Encode(hash)|
  {
    assert |PrintParams(p)| == 8 + |Decimal(p.memory)| + |Decimal(p.iterations)| + |Decimal(p.parallelism)|;
    assert |"$argon2id$v="| == 12;
  }

  lemma DefaultDigits()
    ensures |Decimal(VERSION)| == 2 && |Decimal(DEFAULT_PARAMS.memory)| == 5
    ensures |Decimal(DEFAULT_PARAMS.iterations)| == 1 && |Decimal(DEFAULT_PARAMS.parallelism)| == 1
  {
    DecimalLength(VERSION);
    DecimalLength(DEFAULT_PARAMS.memory);
    DecimalLength(DEFAULT_PARAMS.iterations);
    DecimalLength(DEFAULT_PARAMS.parallelism);
  }

  /** Hashes made with the default parameters have 97 characters, and the column holds 255. */
  lemma DefaultLength(salt: Bytes, hash: Bytes)
    requires |salt| == DEFAULT_PARAMS.saltLen && |hash| == DEFAULT_PARAMS.keyLen
    ensures |Print(DEFAULT_PARAMS, salt, hash)| == 97
  {
    PrintLength(DEFAULT_PARAMS, salt, hash);
    DefaultDigits();
    assert |Base64.Encode(salt)| == 22 by {
      EncodedLength(salt);
    }
    assert |Base64.Encode(hash)| == 43 by {
      EncodedLength(hash);
    }
  }
}
