/** Numbers as decimal text: std::to_string and std::stoi. */
module DecimalText {
  import opened Words

  datatype Error = NotANumber | OutOfRange | NoEncoding

  datatype Result<T> = Ok(value: T) | Err(error: Error) {
    predicate IsFailure() { Err? }

    function PropagateFailure<U>(): Result<U>
      requires Err?
    {
      Err(error)
    }

    function Extract(): T
      requires Ok?
    {
      value
    }
  }

  predicate IsDigit(c: char) { '0' <= c <= '9' }

  predicate IsSpace(c: char) { c == ' ' || '\t' <= c <= '\r' }

  function Digits(n: nat): string {
    var last := ('0' as int + n % 10) as char;
    if n < 10 then [last] else Digits(n / 10) + [last]
  }

  function ToString(v: int): string {
    if v < 0 then "-" + Digits(-v) else Digits(v)
  }

  /** The length of the longest prefix of digits, and the number it denotes. */
  function DigitRun(s: string): nat {
    if s == "" || !IsDigit(s[0]) then 0 else 1 + DigitRun(s[1..])
  }

  function DigitsValue(s: string): nat
    requires forall i :: 0 <= i < |s| ==> IsDigit(s[i])
  {
    if s == "" then 0
    else
      assert IsDigit(s[|s| - 1]);
      10 * DigitsValue(s[..|s| - 1]) + (s[|s| - 1] as int - '0' as int)
  }

  lemma {:induction false} DigitRunIsDigits(s: string)
    ensures DigitRun(s) <= |s| && forall i :: 0 <= i < DigitRun(s) ==> IsDigit(s[i])
  {
    if s != "" && IsDigit(s[0]) {
      DigitRunIsDigits(s[1..]);
      assert forall i :: 0 < i < DigitRun(s) ==> s[i] == s[1..][i - 1];
    }
  }

  function SkipSpace(s: string): string {
    if s != "" && IsSpace(s[0]) then SkipSpace(s[1..]) else s
  }

  /** The number the leading digits denote. */
  function Magnitude(u: string): Result<int> {
    var k := DigitRun(u);
    DigitRunIsDigits(u);
    if k == 0 then Err(NotANumber) else Ok(DigitsValue(u[..k]))
  }

  function InRange(v: int): Result<int> {
    if MIN32 <= v < -MIN32 then Ok(v) else Err(OutOfRange)
  }

  /** Leading space and one sign are skipped, text after the digits is ignored, and a value
      outside a 32-bit int is refused. */
  function Stoi(s: string): Result<int> {
    var t := SkipSpace(s);
    if t != "" && t[0] == '-' then
      var n :- Magnitude(t[1..]);
      InRange(-n)
    else
      var n :- Magnitude(if t != "" && t[0] == '+' then t[1..] else t);
      InRange(n)
  }

  // ----- reading back what was printed -----

  lemma {:induction false} DigitsAreDigits(n: nat)
    ensures Digits(n) != "" && (forall i :: 0 <= i < |Digits(n)| ==> IsDigit(Digits(n)[i]))
  {
    if n >= 10 { DigitsAreDigits(n / 10); }
  }

  lemma {:induction false} DigitsDenote(n: nat)
    ensures (forall i :: 0 <= i < |Digits(n)| ==> IsDigit(Digits(n)[i])) && DigitsValue(Digits(n)) == n
  {
    DigitsAreDigits(n);
    var s := Digits(n);
    if n >= 10 {
      DigitsDenote(n / 10);
      assert s[..|s| - 1] == Digits(n / 10);
    } else {
      assert s[..0] == "";
    }
  }

  lemma {:induction false} AllDigitsRun(s: string)
    requires forall i :: 0 <= i < |s| ==> IsDigit(s[i])
    ensures DigitRun(s) == |s|
  {
    if s != "" { AllDigitsRun(s[1..]); }
  }

  lemma PrintedMagnitude(n: nat)
    ensures Magnitude(Digits(n)) == Ok(n)
    ensures Digits(n) != "" && IsDigit(Digits(n)[0])
  {
    DigitsAreDigits(n);
    DigitsDenote(n);
    AllDigitsRun(Digits(n));
    assert Digits(n)[..|Digits(n)|] == Digits(n);
  }

  /** Printed numbers read back as themselves, exactly when they fit a 32-bit int. */
  lemma PrintedNumberReads(v: int)
    ensures Stoi(ToString(v)) == if MIN32 <= v < -MIN32 then Ok(v) else Err(OutOfRange)
  {
    hide Magnitude, Digits;
    if v < 0 {
      PrintedMagnitude(-v);
      assert ToString(v)[1..] == Digits(-v);
    } else {
      PrintedMagnitude(v);
    }
  }
}
