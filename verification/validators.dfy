/** The dashboard's per-field validators (static/dashboard.js, validatePatient*): each
    reads one form input and either accepts it or rejects it with a fixed message. */
module Validators {
  import opened Text
  import opened Records

  datatype Verdict = Accept | Reject(message: string)

  const NameRequired := "Name is required."
  const NameHasDigits := "Name cannot contain numbers."
  const AgeNotPositive := "Age must be a positive number."
  const AgeTooHigh := "Age cannot exceed 120 years."
  const GenderRequired := "Gender is required."
  const DepartmentRequired := "Department is required."
  const PhoneInvalid := "Please enter a valid 10-digit phone number."
  const EmailInvalid := "Please enter a valid email address."

  /** validatePatientName: the trimmed name must be non-empty (checked first) and hold
      no ASCII digit. */
  function ValidateName(input: string): (v: Verdict)
    ensures v.Accept? <==> Trim(input) != "" && !HasDigit(Trim(input))
    ensures v.Reject? ==> v.message == (if Trim(input) == "" then NameRequired else NameHasDigits)
  {
    var name := Trim(input);
    if name == "" then Reject(NameRequired)
    else if HasDigit(name) then Reject(NameHasDigits)
    else Accept
  }

  /** A name with a digit anywhere is rejected, whatever surrounds it. */
  lemma NameWithDigitRejected(pre: string, d: char, post: string)
    requires IsDigit(d)
    ensures ValidateName(pre + [d] + post) == Reject(NameHasDigits)
  {
    var s := pre + [d] + post;
    TrimKeepsNonSpace(s, |pre|);
    var k := |s| - |TrimStart(s)|;
    assert Trim(s)[|pre| - k] == d;
  }

  /** The length of the longest prefix of s made of characters accepted by the
      digit predicate of the given radix. */
  function DigitRun(s: string, hex: bool): (n: nat)
    ensures n <= |s|
    ensures forall i :: 0 <= i < n ==> (if hex then IsHexDigit(s[i]) else IsDigit(s[i]))
    ensures n < |s| ==> !(if hex then IsHexDigit(s[n]) else IsDigit(s[n]))
  {
    if s != [] && (if hex then IsHexDigit(s[0]) else IsDigit(s[0])) then 1 + DigitRun(s[1..], hex) else 0
  }

  /** parseInt(s) without a radix: leading whitespace is skipped, then an optional sign;
      "0x" or "0X" selects hexadecimal; the longest run of digits that follows is read,
      and None stands for NaN when that run is empty. */
  function ParseInt(s: string): Option<int> {
    var t := TrimStart(s);
    var u := if t != [] && (t[0] == '-' || t[0] == '+') then t[1..] else t;
    match ParseMagnitude(u)
    case None => None
    case Some(m) => var v: int := m; Some(if t != [] && t[0] == '-' then -v else v)
  }

  /** The unsigned part of parseInt: "0x" or "0X" selects hexadecimal, otherwise decimal;
      None when no digit of the chosen radix follows. */
  function ParseMagnitude(u: string): Option<nat> {
    if |u| >= 2 && u[0] == '0' && (u[1] == 'x' || u[1] == 'X') then
      var n := DigitRun(u[2..], true);
      if n == 0 then None else Some(HexValue(u[2..][..n]))
    else
      var n := DigitRun(u, false);
      if n == 0 then None else Some(DigitsValue(u[..n]))
  }

  /** Whitespace, an optional sign, a run of decimal digits and then anything that does
      not continue the number: parseInt reads the signed value of the digit run. */
  lemma ParseIntDecimal(ws: string, sign: string, digits: string, rest: string)
    requires AllSpaces(ws) && (sign == "" || sign == "+" || sign == "-")
    requires digits != [] && AllDigits(digits)
    requires rest == [] || !IsDigit(rest[0])
    requires !(digits == "0" && rest != [] && (rest[0] == 'x' || rest[0] == 'X'))
    ensures ParseInt(ws + sign + digits + rest) == Some(if sign == "-" then -(DigitsValue(digits) as int) else DigitsValue(digits) as int)
  {
    assert ws + sign + digits + rest == ws + (sign + (digits + rest));
    ParseIntAfterSpaces(ws, sign, digits + rest);
    MagnitudeOfDecimal(digits, rest);
  }

  /** Past the leading whitespace and the sign, parseInt reads the magnitude. */
  lemma ParseIntAfterSpaces(ws: string, sign: string, u: string)
    requires AllSpaces(ws) && (sign == "" || sign == "+" || sign == "-")
    requires u == [] || !(IsJsSpace(u[0]) || u[0] == '+' || u[0] == '-')
    ensures ParseInt(ws + (sign + u)) ==
      match ParseMagnitude(u)
      case None => None
      case Some(m) => Some(if sign == "-" then -(m as int) else m as int)
  {
    var x := sign + u;
    if x == [] {
      assert ws + x == ws;
      TrimStartSuffix(ws);
    } else {
      TrimStartPastSpaces(ws, x);
      assert u == if x[0] == '-' || x[0] == '+' then x[1..] else x;
    }
  }

  lemma MagnitudeOfDecimal(digits: string, rest: string)
    requires digits != [] && AllDigits(digits)
    requires rest == [] || !IsDigit(rest[0])
    requires !(digits == "0" && rest != [] && (rest[0] == 'x' || rest[0] == 'X'))
    ensures ParseMagnitude(digits + rest) == Some(DigitsValue(digits))
  {
    var u := digits + rest;
    assert |digits| >= 2 ==> u[1] == digits[1];
    assert |digits| == 1 ==> u[1..] == rest && (digits[0] == '0' ==> digits == "0");
    DigitRunOfDigits(digits, rest);
    assert u[..|digits|] == digits;
  }

  /** The decimal digit run of digits followed by a non-digit is exactly those digits. */
  lemma {:induction false} DigitRunOfDigits(digits: string, rest: string)
    requires AllDigits(digits) && (rest == [] || !IsDigit(rest[0]))
    ensures DigitRun(digits + rest, false) == |digits|
    decreases |digits|
  {
    if digits == [] {
      assert digits + rest == rest;
    } else {
      assert (digits + rest)[1..] == digits[1..] + rest;
      DigitRunOfDigits(digits[1..], rest);
    }
  }

  /** Whitespace and an optional sign followed by no digit at all: parseInt yields NaN. */
  lemma ParseIntNaN(ws: string, sign: string, rest: string)
    requires AllSpaces(ws) && (sign == "" || sign == "+" || sign == "-")
    requires rest == [] || !(IsDigit(rest[0]) || IsJsSpace(rest[0]) || rest[0] == '+' || rest[0] == '-')
    ensures ParseInt(ws + sign + rest).None?
  {
    assert ws + sign + rest == ws + (sign + rest);
    ParseIntAfterSpaces(ws, sign, rest);
  }

  /** parseInt reads back every integer that String(n) writes. */
  lemma ParseIntOfString(n: int)
    ensures ParseInt(IntToString(n)) == Some(n)
  {
    var d := NatToString(if n < 0 then -n else n);
    assert DigitRun(d, false) == |d|;
    assert d[..|d|] == d;
    NatToStringValue(if n < 0 then -n else n);
    if n < 0 {
      assert ("-" + d)[1..] == d;
    }
  }

  /** validatePatientAge: parseInt of the input must be a number in 1..120. */
  function ValidateAge(input: string): (v: Verdict)
    ensures v.Accept? <==> ParseInt(input).Some? && 1 <= ParseInt(input).value <= 120
    ensures v.Reject? ==> v.message == (if ParseInt(input).Some? && ParseInt(input).value > 120 then AgeTooHigh else AgeNotPositive)
  {
    match ParseInt(input)
    case None => Reject(AgeNotPositive)
    case Some(age) =>
      if age <= 0 then Reject(AgeNotPositive)
      else if age > 120 then Reject(AgeTooHigh)
      else Accept
  }

  /** An age written as a number is accepted exactly when it lies in 1..120. */
  lemma AgeOfNumber(age: int)
    ensures ValidateAge(IntToString(age)).Accept? <==> 1 <= age <= 120
    ensures age > 120 ==> ValidateAge(IntToString(age)) == Reject(AgeTooHigh)
    ensures age <= 0 ==> ValidateAge(IntToString(age)) == Reject(AgeNotPositive)
  {
    ParseIntOfString(age);
  }

  /** validatePatientGender: the selection must be non-empty (it is not trimmed). */
  function ValidateGender(input: string): (v: Verdict)
    ensures v.Accept? <==> input != ""
    ensures v.Reject? ==> v.message == GenderRequired
  {
    if input == "" then Reject(GenderRequired) else Accept
  }

  /** validatePatientDepartment: the trimmed department must be non-empty. */
  function ValidateDepartment(input: string): (v: Verdict)
    ensures v.Accept? <==> Trim(input) != ""
    ensures v.Reject? ==> v.message == DepartmentRequired
  {
    if Trim(input) == "" then Reject(DepartmentRequired) else Accept
  }

  /** The regular expression ^\d{10,}$: ten or more ASCII digits. */
  predicate IsPhoneNumber(s: string) {
    |s| >= 10 && AllDigits(s)
  }

  /** validatePatientPhone: an empty trimmed value is accepted; otherwise it must be ten
      or more digits (longer numbers pass, despite the message). */
  function ValidatePhone(input: string): (v: Verdict)
    ensures v.Accept? <==> Trim(input) == "" || (|Trim(input)| >= 10 && AllDigits(Trim(input)))
    ensures v.Reject? ==> v.message == PhoneInvalid
  {
    var phone := Trim(input);
    if phone != "" && !IsPhoneNumber(phone) then Reject(PhoneInvalid) else Accept
  }

  /** A character of the class [^\s@]. */
  predicate IsEmailChar(c: char) {
    !IsJsSpace(c) && c != '@'
  }

  predicate AllEmailChars(s: string) {
    forall i :: 0 <= i < |s| ==> IsEmailChar(s[i])
  }

  /** s splits as a + "@" + b + "." + c, with '@' at index at and '.' at index dot and
      a, b, c non-empty runs of [^\s@]. */
  predicate EmailSplit(s: string, at: int, dot: int) {
    && 0 < at && at + 1 < dot && dot + 1 < |s|
    && s[at] == '@' && s[dot] == '.'
    && AllEmailChars(s[..at]) && AllEmailChars(s[at + 1..dot]) && AllEmailChars(s[dot + 1..])
  }

  /** The language of the regular expression ^[^\s@]+@[^\s@]+\.[^\s@]+$. */
  predicate MatchesEmailPattern(s: string) {
    exists at, dot | 0 <= at < |s| && 0 <= dot < |s| :: EmailSplit(s, at, dot)
  }

  /** validatePatientEmail: an empty trimmed value is accepted; otherwise it must match
      the address pattern. */
  function ValidateEmail(input: string): (v: Verdict)
    ensures v.Accept? <==> Trim(input) == "" || MatchesEmailPattern(Trim(input))
    ensures v.Reject? ==> v.message == EmailInvalid
  {
    var email := Trim(input);
    if email != "" && !MatchesEmailPattern(email) then Reject(EmailInvalid) else Accept
  }

  /** The pattern in plain words: no whitespace, exactly one '@' (at index at) with a
      non-empty local part before it, and a '.' in the domain that is neither the
      domain's first nor its last character. */
  predicate EmailShape(s: string, at: int) {
    && 0 < at < |s| && s[at] == '@'
    && (forall i :: 0 <= i < |s| ==> !IsJsSpace(s[i]) && (s[i] == '@' ==> i == at))
    && exists dot | at + 1 < dot < |s| - 1 :: s[dot] == '.'
  }

  lemma EmailPatternIsShape(s: string, at: int, dot: int)
    requires EmailSplit(s, at, dot)
    ensures EmailShape(s, at)
  {
    forall i | 0 <= i < |s| ensures !IsJsSpace(s[i]) && (s[i] == '@' ==> i == at) {
      if i < at {
        assert s[..at][i] == s[i];
      } else if at < i < dot {
        assert s[at + 1..dot][i - at - 1] == s[i];
      } else if dot < i {
        assert s[dot + 1..][i - dot - 1] == s[i];
      }
    }
  }

  lemma EmailShapeIsPattern(s: string, at: int, dot: int)
    requires EmailShape(s, at) && at + 1 < dot < |s| - 1 && s[dot] == '.'
    ensures EmailSplit(s, at, dot)
  {
    assert AllEmailChars(s[..at]) by {
      forall i | 0 <= i < at ensures IsEmailChar(s[..at][i]) {
        assert s[..at][i] == s[i];
      }
    }
    var b := s[at + 1..dot];
    assert AllEmailChars(b) by {
      forall i | 0 <= i < |b| ensures IsEmailChar(b[i]) {
        assert b[i] == s[at + 1 + i];
      }
    }
    var c := s[dot + 1..];
    assert AllEmailChars(c) by {
      forall i | 0 <= i < |c| ensures IsEmailChar(c[i]) {
        assert c[i] == s[dot + 1 + i];
      }
    }
  }

  /** The email pattern accepts exactly the strings of that shape. */
  lemma EmailPatternCharacterized(s: string)
    ensures MatchesEmailPattern(s) <==> exists at | 0 <= at < |s| :: EmailShape(s, at)
  {
    if MatchesEmailPattern(s) {
      var at, dot :| 0 <= at < |s| && 0 <= dot < |s| && EmailSplit(s, at, dot);
      EmailPatternIsShape(s, at, dot);
    }
    if exists at | 0 <= at < |s| :: EmailShape(s, at) {
      var at :| 0 <= at < |s| && EmailShape(s, at);
      var dot :| at + 1 < dot < |s| - 1 && s[dot] == '.';
      EmailShapeIsPattern(s, at, dot);
    }
  }
}
