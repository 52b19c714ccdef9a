/** The few string operations of Go's standard library that the modelled code relies on. */
module Strings {

  datatype Option<+T> = None | Some(value: T)

  datatype Error = InvalidInput | UnsupportedOperator | NotFound | NonUnique | DatabaseFailure

  datatype Result<+T> = Ok(value: T) | Err(error: Error) {
    predicate IsFailure() { Err? }

    function PropagateFailure<U>(): Result<U>
      requires Err?
    {
      Err(error)
    }

    function Extract(): T
      requires Ok?
    {
      value
    }
  }

  // ASCII white space plus NEL and NBSP, as unicode.IsSpace has it for Latin-1.
  predicate IsSpace(c: char) {
    9 <= c as int <= 13 || c == ' ' || c as int == 0x85 || c as int == 0xA0
  }

  function TrimLeft(s: string): string {
    if s != [] && IsSpace(s[0]) then TrimLeft(s[1..]) else s
  }

  function TrimRight(s: string): string {
    if s != [] && IsSpace(s[|s| - 1]) then TrimRight(s[..|s| - 1]) else s
  }

  function TrimSpace(s: string): string {
    TrimRight(TrimLeft(s))
  }

  function UpperChar(c: char): char {
    if 'a' <= c <= 'z' then c - 'a' + 'A' else c
  }

  function LowerChar(c: char): char {
    if 'A' <= c <= 'Z' then c - 'A' + 'a' else c
  }

  function ToUpper(s: string): string {
    seq(|s|, i requires 0 <= i < |s| => UpperChar(s[i]))
  }

  function ToLower(s: string): string {
    seq(|s|, i requires 0 <= i < |s| => LowerChar(s[i]))
  }

  // strings.Split with a one-character separator.
  function Split(s: string, sep: char): seq<string> {
    if s == [] then [""]
    else
      var rest := Split(s[1..], sep);
      if s[0] == sep then [""] + rest
      else if rest == [] then [[s[0]]]
      else [[s[0]] + rest[0]] + rest[1..]
  }

  lemma {:induction false} SplitWhole(s: string, sep: char)
    requires sep !in s
    ensures Split(s, sep) == [s]
  {
    if s != [] {
      SplitWhole(s[1..], sep);
      assert s[0] in s && [s[0]] + s[1..] == s;
    }
  }

  lemma {:induction false} SplitFirst(a: string, sep: char, b: string)
    requires sep !in a
    ensures Split(a + [sep] + b, sep) == [a] + Split(b, sep)
  {
    if a == [] {
      assert a + [sep] + b == [sep] + b;
    } else {
      SplitFirst(a[1..], sep, b);
      assert a[0] in a && [a[0]] + a[1..] == a;
      assert (a + [sep] + b)[1..] == a[1..] + [sep] + b;
    }
  }

  predicate IdentStart(c: char) {
    'A' <= c <= 'Z' || 'a' <= c <= 'z' || c == '_'
  }

  predicate IdentChar(c: char) {
    IdentStart(c) || '0' <= c <= '9'
  }

  // identRegex: ^[A-Za-z_][A-Za-z0-9_]*$
  predicate IsIdent(s: string) {
    && s != []
    && IdentStart(s[0])
    && forall i :: 0 <= i < |s| ==> IdentChar(s[i])
  }

  function ValidIdentifier(name: string): Result<string> {
    var t := TrimSpace(name);
    if IsIdent(t) then Ok(t) else Err(InvalidInput)
  }

  lemma IdentIsTrimmed(s: string)
    requires IsIdent(s)
    ensures TrimSpace(s) == s && ValidIdentifier(s) == Ok(s)
  {
    assert IdentChar(s[|s| - 1]) && IdentChar(s[0]);
  }

  // ---------------------------------------------------------------- numbers in text

  predicate IsDigit(c: char) {
    '0' <= c <= '9'
  }

  function Itoa(n: nat): string {
    (if n < 10 then "" else Itoa(n / 10)) + ['0' + (n % 10) as char]
  }

  function DigitsValue(s: string): nat
    requires forall i :: 0 <= i < |s| ==> IsDigit(s[i])
  {
    if s == [] then 0
    else
      var c := s[|s| - 1];
      assert IsDigit(c);
      10 * DigitsValue(s[..|s| - 1]) + (c as nat - '0' as nat)
  }

  lemma {:induction false} ItoaDigits(n: nat)
    ensures Itoa(n) != [] && forall i :: 0 <= i < |Itoa(n)| ==> IsDigit(Itoa(n)[i])
    ensures DigitsValue(Itoa(n)) == n
  {
    if n >= 10 {
      ItoaDigits(n / 10);
      assert Itoa(n)[..|Itoa(n)| - 1] == Itoa(n / 10);
    }
  }
}
