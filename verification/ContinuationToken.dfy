/** The continuation token of event queries, printed as two decimal numbers joined by a dash. */
module ContinuationToken {
  import opened Primitives
  import opened Bytes

  datatype Token = Token(blockN: U64, eventN: U64)

  datatype ParseTokenError = WrongToken | ParseFailed

  // ----- Decimal numbers

  function Digit(d: nat): char
    requires d < 10
  {
    '0' + d as char
  }

  predicate IsDigit(c: char) {
    '0' <= c <= '9'
  }

  predicate AllDigits(s: string) {
    forall k | 0 <= k < |s| :: IsDigit(s[k])
  }

  function PrintNat(n: nat): (s: string)
    ensures s != [] && AllDigits(s)
  {
    if n < 10 then [Digit(n)] else PrintNat(n / 10) + [Digit(n % 10)]
  }

  function Value(s: string): nat
    requires AllDigits(s)
  {
    if s == [] then 0
    else
      assert IsDigit(s[|s| - 1]);
      10 * Value(s[..|s| - 1]) + (s[|s| - 1] - '0') as nat
  }

  /** Unsigned parsing: an optional plus sign, at least one digit, nothing else, and no overflow. */
  function ParseU64(s: string): Option<U64> {
    var digits := if |s| > 1 && s[0] == '+' then s[1..] else s;
    if digits == [] || !AllDigits(digits) then None
    else if Value(digits) < 0x1_0000_0000_0000_0000 then Some(Value(digits))
    else None
  }

  lemma {:induction false} ValueOfPrint(n: nat)
    ensures Value(PrintNat(n)) == n
  {
    if n >= 10 {
      ValueOfPrint(n / 10);
      assert PrintNat(n)[..|PrintNat(n)| - 1] == PrintNat(n / 10);
    }
  }

  lemma ParsePrint(n: U64)
    ensures ParseU64(PrintNat(n)) == Some(n)
  {
    assert IsDigit(PrintNat(n)[0]);
    ValueOfPrint(n);
  }

  // ----- Splitting at dashes

  function Split(s: string): (r: seq<string>)
    ensures r != []
  {
    if s == [] then
      [""]
    else if s[0] == '-' then
      [""] + Split(s[1..])
    else
      var rest := Split(s[1..]);
      [[s[0]] + rest[0]] + rest[1..]
  }

  function Join(parts: seq<string>): string
    requires parts != []
  {
    if |parts| == 1 then parts[0] else parts[0] + "-" + Join(parts[1..])
  }

  predicate NoDash(s: string) {
    forall k | 0 <= k < |s| :: s[k] != '-'
  }

  lemma {:induction false} SplitPrefix(a: string, b: string)
    requires NoDash(a)
    ensures Split(a + "-" + b) == [a] + Split(b)
  {
    var s := a + "-" + b;
    if a == [] {
      assert s[1..] == b;
    } else {
      SplitPrefix(a[1..], b);
      assert s[1..] == a[1..] + "-" + b;
      assert [s[0]] + a[1..] == a;
    }
  }

  lemma {:induction false} SplitNoDash(a: string)
    requires NoDash(a)
    ensures Split(a) == [a]
  {
    if a != [] {
      SplitNoDash(a[1..]);
      assert [a[0]] + a[1..] == a;
    }
  }

  /** Nothing is lost: the parts, joined again, are the text, and no part has a dash. */
  lemma {:induction false} JoinSplit(s: string)
    ensures Join(Split(s)) == s
    ensures forall k | 0 <= k < |Split(s)| :: NoDash(Split(s)[k])
  {
    if s != [] {
      JoinSplit(s[1..]);
      var rest := Split(s[1..]);
      if s[0] == '-' {
        assert Split(s)[1..] == rest;
      } else {
        assert Split(s)[1..] == rest[1..];
      }
    }
  }

  // ----- Tokens

  function Print(t: Token): string {
    PrintNat(t.blockN) + "-" + PrintNat(t.eventN)
  }

  function Parse(s: string): Result<Token, ParseTokenError> {
    var parts := Split(s);
    if |parts| != 2 then Err(WrongToken)
    else
      var blockN := ParseU64(parts[0]);
      if blockN.None? then Err(ParseFailed) else
      var eventN := ParseU64(parts[1]);
      if eventN.None? then Err(ParseFailed) else
      Ok(Token(blockN.value, eventN.value))
  }

  lemma ParseOfPrint(t: Token)
    ensures Parse(Print(t)) == Ok(t)
  {
    var a, b := PrintNat(t.blockN), PrintNat(t.eventN);
    assert AllDigits(a) && AllDigits(b);
    SplitPrefix(a, b);
    SplitNoDash(b);
    ParsePrint(t.blockN);
    ParsePrint(t.eventN);
  }

  /** The accepted texts: two numbers, and one dash between them. */
  lemma ParseAccepts(s: string, t: Token)
    ensures Parse(s) == Ok(t)
       <==> exists a: string, b: string ::
              s == a + "-" + b && ParseU64(a) == Some(t.blockN) && ParseU64(b) == Some(t.eventN)
  {
    JoinSplit(s);
    if Parse(s) == Ok(t) {
      var a, b := Split(s)[0], Split(s)[1];
      assert Split(s)[1..] == [b];
      assert s == a + "-" + b && ParseU64(a) == Some(t.blockN) && ParseU64(b) == Some(t.eventN);
    }
    if a: string, b: string :| s == a + "-" + b && ParseU64(a) == Some(t.blockN) && ParseU64(b) == Some(t.eventN) {
      NumbersHaveNoDash(a);
      NumbersHaveNoDash(b);
      SplitPrefix(a, b);
      SplitNoDash(b);
    }
  }

  lemma NumbersHaveNoDash(a: string)
    requires ParseU64(a).Some?
    ensures NoDash(a)
  {
    var digits := if |a| > 1 && a[0] == '+' then a[1..] else a;
    assert AllDigits(digits);
    if digits != a {
      assert forall k | 1 <= k < |a| :: a[k] == digits[k - 1];
    }
  }
}
