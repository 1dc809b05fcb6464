/**
 Input validation of auth.schema.go.  Lower-casing and the white space that is trimmed come
 from a table of the characters, of which only two laws are needed.
 */
module Schema {
  import opened Wrappers
  import opened Base64

  datatype CharTable = CharTable(lower: char -> char, space: char -> bool)

  // Lower-casing twice is lower-casing once, and it does not change what is a space.
  ghost predicate Lawful(t: CharTable) {
    forall c: char :: t.lower(t.lower(c)) == t.lower(c) && t.space(t.lower(c)) == t.space(c)
  }

  function AsciiLower(c: char): char {
    if 'A' <= c <= 'Z' then c + 'a' - 'A' else c
  }

  predicate AsciiSpace(c: char) {
    c == ' ' || '\t' <= c <= '\r'
  }

  lemma AsciiLawful()
    ensures Lawful(CharTable(AsciiLower, AsciiSpace))
  {
  }

  // ---------- Normal form ----------

  function Lower(t: CharTable, s: string): string {
    if s == [] then [] else [t.lower(s[0])] + Lower(t, s[1..])
  }

  function TrimLeft(t: CharTable, s: string): string {
    if s != [] && t.space(s[0]) then TrimLeft(t, s[1..]) else s
  }

  function TrimRight(t: CharTable, s: string): string {
    if s != [] && t.space(s[|s| - 1]) then TrimRight(t, s[..|s| - 1]) else s
  }

  function Trim(t: CharTable, s: string): string {
    TrimRight(t, TrimLeft(t, s))
  }

  /** The form in which an email address is stored and looked up. */
  function Normal(t: CharTable, email: string): string {
    Trim(t, Lower(t, email))
  }

  ghost predicate Blank(t: CharTable, s: string) {
    forall c :: c in s ==> t.space(c)
  }

  /** Neither end is a space. */
  predicate Trimmed(t: CharTable, s: string) {
    s == [] || (!t.space(s[0]) && !t.space(s[|s| - 1]))
  }

  lemma {:induction false} LowerAt(t: CharTable, s: string)
    ensures |Lower(t, s)| == |s| && forall i :: 0 <= i < |s| ==> Lower(t, s)[i] == t.lower(s[i])
  {
    if s != [] {
      LowerAt(t, s[1..]);
    }
  }

  lemma {:induction false} TrimLeftParts(t: CharTable, s: string) returns (l: string)
    ensures s == l + TrimLeft(t, s) && Blank(t, l)
    ensures TrimLeft(t, s) == [] || !t.space(TrimLeft(t, s)[0])
  {
    l := [];
    if s != [] && t.space(s[0]) {
      l := TrimLeftParts(t, s[1..]);
      l := [s[0]] + l;
    }
  }

  lemma {:induction false} TrimRightParts(t: CharTable, s: string) returns (r: string)
    ensures s == TrimRight(t, s) + r && Blank(t, r)
    ensures TrimRight(t, s) == [] || !t.space(TrimRight(t, s)[|TrimRight(t, s)| - 1])
  {
    r := [];
    if s != [] && t.space(s[|s| - 1]) {
      r := TrimRightParts(t, s[..|s| - 1]);
      r := r + [s[|s| - 1]];
    }
  }

  /** `core` is what is left of `s` without the blanks at its ends. */
  ghost predicate Strips(t: CharTable, s: string, core: string) {
    Trimmed(t, core) && exists l, r :: Blank(t, l) && Blank(t, r) && s == l + core + r
  }

  /** Trimming splits off blanks at both ends and leaves none there. */
  lemma TrimParts(t: CharTable, s: string) returns (l: string, r: string)
    ensures s == l + Trim(t, s) + r && Blank(t, l) && Blank(t, r)
    ensures Trimmed(t, Trim(t, s))
  {
    l := TrimLeftParts(t, s);
    r := TrimRightParts(t, TrimLeft(t, s));
    assert Trim(t, s) != [] ==> Trim(t, s)[0] == TrimLeft(t, s)[0];
  }

  lemma {:induction false} TrimLeftBlank(t: CharTable, l: string, s: string)
    requires Blank(t, l)
    ensures TrimLeft(t, l + s) == TrimLeft(t, s)
  {
    if l == [] {
      assert l + s == s;
    } else {
      assert t.space(l[0]) && (l + s)[1..] == l[1..] + s;
      TrimLeftBlank(t, l[1..], s);
    }
  }

  lemma {:induction false} TrimRightBlank(t: CharTable, s: string, r: string)
    requires Blank(t, r)
    ensures TrimRight(t, s + r) == TrimRight(t, s)
  {
    if r == [] {
      assert s + r == s;
    } else {
      assert r[|r| - 1] in r && (s + r)[..|s + r| - 1] == s + r[..|r| - 1];
      TrimRightBlank(t, s, r[..|r| - 1]);
    }
  }

  lemma {:induction false} TrimLeftAppend(t: CharTable, s: string, r: string)
    requires TrimLeft(t, s) != []
    ensures TrimLeft(t, s + r) == TrimLeft(t, s) + r
  {
    if t.space(s[0]) {
      assert (s + r)[1..] == s[1..] + r;
      TrimLeftAppend(t, s[1..], r);
    }
  }

  lemma {:induction false} TrimLeftAllBlank(t: CharTable, s: string)
    requires TrimLeft(t, s) == []
    ensures Blank(t, s)
  {
    if s != [] {
      TrimLeftAllBlank(t, s[1..]);
    }
  }

  /** Blanks around an email address do not change its normal form. */
  lemma TrimPadded(t: CharTable, l: string, s: string, r: string)
    requires Blank(t, l) && Blank(t, r)
    ensures Trim(t, l + s + r) == Trim(t, s)
  {
    assert l + s + r == l + (s + r);
    TrimLeftBlank(t, l, s + r);
    if TrimLeft(t, s) == [] {
      TrimLeftAllBlank(t, s);
      TrimLeftBlank(t, s + r, []);
      assert s + r + [] == s + r;
    } else {
      TrimLeftAppend(t, s, r);
      TrimRightBlank(t, TrimLeft(t, s), r);
    }
  }

  lemma {:induction false} LowerAppend(t: CharTable, s: string, r: string)
    ensures Lower(t, s + r) == Lower(t, s) + Lower(t, r)
  {
    if s == [] {
      assert s + r == r;
    } else {
      assert (s + r)[1..] == s[1..] + r;
      LowerAppend(t, s[1..], r);
    }
  }

  lemma LowerBlank(t: CharTable, s: string)
    requires Lawful(t) && Blank(t, s)
    ensures Blank(t, Lower(t, s))
  {
    LowerAt(t, s);
  }

  /** Two spellings that differ in blanks around the address and in case have one normal form. */
  lemma SpellingsAgree(t: CharTable, l: string, s: string, r: string, s': string)
    requires Lawful(t) && Blank(t, l) && Blank(t, r)
    requires Lower(t, s) == Lower(t, s')
    ensures Normal(t, l + s + r) == Normal(t, s')
  {
    LowerAppend(t, l + s, r);
    LowerAppend(t, l, s);
    LowerBlank(t, l);
    LowerBlank(t, r);
    TrimPadded(t, Lower(t, l), Lower(t, s), Lower(t, r));
  }

  /** A normal form is its own normal form. */
  lemma NormalIdempotent(t: CharTable, s: string)
    requires Lawful(t)
    ensures Normal(t, Normal(t, s)) == Normal(t, s)
  {
    var low := Lower(t, s);
    LowerAt(t, s);
    var l, r := TrimParts(t, low);
    var n := Trim(t, low);
    assert Lower(t, n) == n by {
      LowerAt(t, n);
      forall i | 0 <= i < |n| ensures t.lower(n[i]) == n[i] {
        assert n[i] == low[|l| + i] == t.lower(s[|l| + i]);
      }
    }
    assert Trim(t, n) == n;
  }

  /** Trimming strips the blanks, and nothing else. */
  lemma TrimStrips(t: CharTable, s: string)
    ensures Strips(t, s, Trim(t, s))
  {
    var l, r := TrimParts(t, s);
  }

  /** A normal form is the address in lower case, stripped of the blanks around it. */
  lemma NormalKeepsAddress(t: CharTable, email: string)
    ensures Strips(t, Lower(t, email), Normal(t, email))
    ensures |Lower(t, email)| == |email| && forall i :: 0 <= i < |email| ==> Lower(t, email)[i] == t.lower(email[i])
  {
    TrimStrips(t, Lower(t, email));
    LowerAt(t, email);
  }

  // ---------- Validation ----------

  datatype Problem = FirstNameRequired | ValidEmailRequired | PasswordTooShort | EmailRequired | PasswordRequired

  function RegisterProblem(firstName: string, email: string, password: Bytes): Option<Problem> {
    if firstName == "" then Some(FirstNameRequired)
    else if email == "" || '@' !in email then Some(ValidEmailRequired)
    else if |password| < 8 then Some(PasswordTooShort)
    else None
  }

  function LoginProblem(email: string, password: Bytes): Option<Problem> {
    if email == "" then Some(EmailRequired)
    else if password == [] then Some(PasswordRequired)
    else None
  }

  class RegisterInput {
    var firstName: string
    var lastName: string
    var email: string
    var password: Bytes

    /** Normalise the fields in place, then look for the first problem. */
    method Validate(t: CharTable) returns (err: Option<Problem>)
      modifies this
      ensures email == Normal(t, old(email)) && firstName == Trim(t, old(firstName)) && lastName == Trim(t, old(lastName))
      ensures Strips(t, Lower(t, old(email)), email) && Strips(t, old(firstName), firstName) && Strips(t, old(lastName), lastName)
      ensures password == old(password)
      ensures err == RegisterProblem(firstName, email, password)
      ensures err == None <==> firstName != "" && '@' in email && |password| >= 8
      ensures err == Some(ValidEmailRequired) <==> firstName != "" && '@' !in email
      ensures err == Some(PasswordTooShort) <==> firstName != "" && '@' in email && |password| < 8
    {
      NormalKeepsAddress(t, email);
      TrimStrips(t, firstName);
      TrimStrips(t, lastName);
      email := Trim(t, Lower(t, email));
      firstName := Trim(t, firstName);
      lastName := Trim(t, lastName);
      if firstName == "" {
        return Some(FirstNameRequired);
      }
      if email == "" || '@' !in email {
        return Some(ValidEmailRequired);
      }
      if |password| < 8 {
        return Some(PasswordTooShort);
      }
      return None;
    }
  }

  class LoginInput {
    var email: string
    var password: Bytes

    method Validate(t: CharTable) returns (err: Option<Problem>)
      modifies this
      ensures email == Normal(t, old(email)) && password == old(password)
      ensures Strips(t, Lower(t, old(email)), email)
      ensures err == LoginProblem(email, password)
      ensures err == None <==> email != "" && password != []
      ensures err == Some(PasswordRequired) <==> email != "" && password == []
    {
      NormalKeepsAddress(t, email);
      email := Trim(t, Lower(t, email));
      if email == "" {
        return Some(EmailRequired);
      }
      if password == [] {
        return Some(PasswordRequired);
      }
      return None;
    }
  }

  /** Whoever passes registration passes the checks of login with the same credentials. */
  lemma RegisteredCanLogIn(firstName: string, email: string, password: Bytes)
    requires RegisterProblem(firstName, email, password) == None
    ensures LoginProblem(email, password) == None
  {
  }
}
