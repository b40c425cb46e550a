/**
 * Password validation: every rule is checked, and each failed rule adds one
 * parameter to a single "Password is invalid" error.  Lengths are UTF-8 byte
 * counts, as a Rust `str` measures them.
 */
module Validation {
  import opened Wrappers

  const MIN_PASSWORD_LENGTH := 8
  const MAX_PASSWORD_LENGTH := 128

  const PASSWORD_INVALID := "Password is invalid"
  const MUST_UPPERCASE := "Must contain at least one uppercase letter"
  const MUST_LOWERCASE := "Must contain at least one lowercase letter"
  const MUST_DIGIT := "Must contain at least one digit"
  const MUST_SPECIAL := "Must contain at least one special character"

  /** The special characters: the euro and section signs and 20 ASCII marks. */
  const SPECIAL_CHARACTERS := "\U{20AC}\U{00A7}!@#$%^&*(),.?\":{}|<>"

  /** The parameter names a failed rule adds; `Name` is the key the error carries. */
  datatype ParamKey = Min | Max | Uppercase | Lowercase | Digit | SpecialCharacter {
    function Name(): string {
      match this
      case Min => "min"
      case Max => "max"
      case Uppercase => "uppercase"
      case Lowercase => "lowercase"
      case Digit => "digit"
      case SpecialCharacter => "special_character"
    }
  }

  datatype ParamValue = Number(n: nat) | Text(s: string)

  datatype ValidationError = ValidationError(code: string, params: map<ParamKey, ParamValue>)

  /** Bytes of one character in UTF-8. */
  function Utf8Width(c: char): (w: nat)
    ensures 1 <= w <= 4
    ensures w == 1 <==> c as int < 0x80
  {
    if c as int < 0x80 then 1
    else if c as int < 0x800 then 2
    else if c as int < 0x1_0000 then 3
    else 4
  }

  function ByteLength(s: string): (n: nat)
    ensures |s| <= n <= 4 * |s|
  {
    if s == [] then 0 else Utf8Width(s[0]) + ByteLength(s[1..])
  }

  lemma {:induction false} ByteLengthAppend(a: string, b: string)
    ensures ByteLength(a + b) == ByteLength(a) + ByteLength(b)
  {
    if a == [] {
      assert a + b == b;
    } else {
      assert (a + b)[0] == a[0] && (a + b)[1..] == a[1..] + b;
      ByteLengthAppend(a[1..], b);
    }
  }

  /** An ASCII-only password has as many bytes as characters. */
  lemma {:induction false} AsciiByteLength(s: string)
    requires forall i :: 0 <= i < |s| ==> s[i] as int < 0x80
    ensures ByteLength(s) == |s|
  {
    if s != [] {
      AsciiByteLength(s[1..]);
    }
  }

  /** The character classes the rules search for: `[A-Z]`, `[a-z]`, digits and the special set. */
  datatype CharClass = UppercaseLetter | LowercaseLetter | DecimalDigit | Special

  predicate InClass(c: char, cls: CharClass) {
    match cls
    case UppercaseLetter => 'A' <= c <= 'Z'
    case LowercaseLetter => 'a' <= c <= 'z'
    case DecimalDigit => '0' <= c <= '9'
    case Special => c in SPECIAL_CHARACTERS
  }

  /** A class regex matches somewhere in `s`. */
  predicate Matches(s: string, cls: CharClass) {
    s != [] && (InClass(s[0], cls) || Matches(s[1..], cls))
  }

  /** A match is a position holding a character of the class. */
  lemma {:induction false} MatchesIff(s: string, cls: CharClass)
    ensures Matches(s, cls) <==> exists i :: 0 <= i < |s| && InClass(s[i], cls)
  {
    if s != [] {
      MatchesIff(s[1..], cls);
      if Matches(s[1..], cls) {
        var i :| 0 <= i < |s[1..]| && InClass(s[1..][i], cls);
        assert InClass(s[i + 1], cls);
      }
      if !InClass(s[0], cls) && exists i :: 0 <= i < |s| && InClass(s[i], cls) {
        var i :| 0 <= i < |s| && InClass(s[i], cls);
        assert i > 0 && s[1..][i - 1] == s[i];
      }
    }
  }

  predicate HasUppercase(s: string) { Matches(s, UppercaseLetter) }
  predicate HasLowercase(s: string) { Matches(s, LowercaseLetter) }
  predicate HasDigit(s: string) { Matches(s, DecimalDigit) }
  predicate HasSpecial(s: string) { Matches(s, Special) }

  /** The password meets every rule. */
  predicate Acceptable(password: string) {
    var n := ByteLength(password);
    && MIN_PASSWORD_LENGTH <= n <= MAX_PASSWORD_LENGTH
    && HasUppercase(password) && HasLowercase(password)
    && HasDigit(password) && HasSpecial(password)
  }

  /** `validate_password`. */
  method ValidatePassword(password: string) returns (r: Result<(), ValidationError>)
    ensures r.Ok? <==> Acceptable(password)
    ensures r.Err? ==> r.error.code == PASSWORD_INVALID
    ensures r.Err? ==> var p := r.error.params; var n := ByteLength(password);
      && (Min in p <==> n < MIN_PASSWORD_LENGTH)
      && (Max in p <==> n > MAX_PASSWORD_LENGTH)
      && (Uppercase in p <==> !HasUppercase(password))
      && (Lowercase in p <==> !HasLowercase(password))
      && (Digit in p <==> !HasDigit(password))
      && (SpecialCharacter in p <==> !HasSpecial(password))
    ensures r.Err? ==> var p := r.error.params;
      && (Min in p ==> p[Min] == Number(MIN_PASSWORD_LENGTH))
      && (Max in p ==> p[Max] == Number(MAX_PASSWORD_LENGTH))
      && (Uppercase in p ==> p[Uppercase] == Text(MUST_UPPERCASE))
      && (Lowercase in p ==> p[Lowercase] == Text(MUST_LOWERCASE))
      && (Digit in p ==> p[Digit] == Text(MUST_DIGIT))
      && (SpecialCharacter in p ==> p[SpecialCharacter] == Text(MUST_SPECIAL))
  {
    var error := ValidationError(PASSWORD_INVALID, map[]);
    var n := ByteLength(password);
    if n < MIN_PASSWORD_LENGTH {
      error := error.(params := error.params[Min := Number(MIN_PASSWORD_LENGTH)]);
    }
    if n > MAX_PASSWORD_LENGTH {
      error := error.(params := error.params[Max := Number(MAX_PASSWORD_LENGTH)]);
    }
    if !HasUppercase(password) {
      error := error.(params := error.params[Uppercase := Text(MUST_UPPERCASE)]);
    }
    if !HasLowercase(password) {
      error := error.(params := error.params[Lowercase := Text(MUST_LOWERCASE)]);
    }
    if !HasDigit(password) {
      error := error.(params := error.params[Digit := Text(MUST_DIGIT)]);
    }
    if !HasSpecial(password) {
      error := error.(params := error.params[SpecialCharacter := Text(MUST_SPECIAL)]);
    }
    if error.params != map[] {
      return Err(error);
    }
    return Ok(());
  }

  /** A character of the class at any position makes the class match. */
  lemma MatchAt(s: string, i: nat, cls: CharClass)
    requires i < |s| && InClass(s[i], cls)
    ensures Matches(s, cls)
  {
    MatchesIff(s, cls);
  }

  const ASCII_PART := "Aa1"
  const EURO := "\U{20AC}"
  const SHORT_EURO := ASCII_PART + EURO
  const LONG_EURO := SHORT_EURO + EURO

  /** The euro sign takes three bytes: four characters fall short of the minimum, five reach it. */
  lemma EuroCountsThree()
    ensures ByteLength(SHORT_EURO) == 6 < MIN_PASSWORD_LENGTH
    ensures Acceptable(LONG_EURO)
  {
    AsciiByteLength(ASCII_PART);
    assert ByteLength(EURO) == 3;
    ByteLengthAppend(ASCII_PART, EURO);
    ByteLengthAppend(SHORT_EURO, EURO);
    assert LONG_EURO[0] == 'A' && LONG_EURO[1] == 'a' && LONG_EURO[2] == '1';
    MatchAt(LONG_EURO, 0, UppercaseLetter);
    MatchAt(LONG_EURO, 1, LowercaseLetter);
    MatchAt(LONG_EURO, 2, DecimalDigit);
    assert LONG_EURO[3] == SPECIAL_CHARACTERS[0];
    MatchAt(LONG_EURO, 3, Special);
  }

  const LETTERS := "Abcd"
  const EIGHT_CHARACTERS := LETTERS + "ef1!"
  const SEVEN_CHARACTERS := LETTERS + "e1!"

  /** Eight ASCII characters meeting the other rules pass. */
  lemma EightCharactersPass()
    ensures Acceptable(EIGHT_CHARACTERS)
  {
    var s := EIGHT_CHARACTERS;
    AsciiByteLength(LETTERS);
    AsciiByteLength("ef1!");
    ByteLengthAppend(LETTERS, "ef1!");
    assert s[0] == 'A' && s[1] == 'b' && s[6] == '1' && s[7] == SPECIAL_CHARACTERS[2];
    MatchAt(s, 0, UppercaseLetter);
    MatchAt(s, 1, LowercaseLetter);
    MatchAt(s, 6, DecimalDigit);
    MatchAt(s, 7, Special);
  }

  /** Seven are one byte short, whatever else they contain. */
  lemma SevenCharactersFail()
    ensures !Acceptable(SEVEN_CHARACTERS)
  {
    AsciiByteLength(LETTERS);
    AsciiByteLength("e1!");
    ByteLengthAppend(LETTERS, "e1!");
  }
}
