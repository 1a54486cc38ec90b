/**
 * The field validators of the banking program: `User.validate_firstname`,
 * `validate_lastname`, `validate_gender`, `validate_age`, `validate_phone`
 * and `Bank.validate_balance`. Each is a pure predicate; the diagnostic it
 * prints on failure is not modelled.
 */
module Validators {
  import opened Wrappers
  import opened PyText
  import opened PyNumbers

  predicate LettersPlus(s: string) {
    s != [] && AllLetters(s)
  }

  predicate EndsWithNewline(s: string) {
    s != [] && s[|s| - 1] == '\n'
  }

  /** `re.match(r"^[a-zA-Z]+$", s)`; Python's `$` also matches just before a final newline. */
  predicate MatchesLettersRegex(s: string) {
    LettersPlus(s) || (EndsWithNewline(s) && LettersPlus(s[..|s| - 1]))
  }

  predicate ValidateFirstname(firstname: string) {
    MatchesLettersRegex(firstname)
  }

  predicate ValidateLastname(lastname: string) {
    MatchesLettersRegex(lastname)
  }

  const GenderOptions: seq<string> := ["Male", "Female"]

  /** The input must be letters only and its title-cased form one of the options. */
  predicate ValidateGender(gender: string) {
    var formatted := Title(gender);
    MatchesLettersRegex(gender) && formatted in GenderOptions
  }

  /** `int(age)` must succeed and lie in 1..100 (the source rejects `<= 0` and `> 100`). */
  predicate ValidateAge(age: string) {
    match ParseInt(age)
    case None => false
    case Some(a) => !(a <= 0 || a > 100)
  }

  predicate AllZeros(s: string) {
    forall i :: 0 <= i < |s| ==> s[i] == '0'
  }

  /** The body of `^0+\d{9}$`: one or more '0', then exactly nine digits. */
  predicate ZerosThenNineDigits(s: string) {
    exists k :: 1 <= k <= |s| && AllZeros(s[..k]) && |s| - k == 9 && AllDigits(s[k..])
  }

  /** `re.match(r"^0+\d{9}$", phone)`. */
  predicate ValidatePhone(phone: string) {
    ZerosThenNineDigits(phone) || (EndsWithNewline(phone) && ZerosThenNineDigits(phone[..|phone| - 1]))
  }

  /** `float(balance) > 0`, where `float()` failing with ValueError means rejection. */
  predicate ValidateBalance(balance: Scalar) {
    match ToFloat(balance)
    case None => false
    case Some(x) => !(x <= 0.0)
  }

  // ---- names ----

  /** A stripped line never ends in a newline, so the `$` quirk never arises for prompted input. */
  lemma StrippedHasNoFinalNewline(line: string)
    ensures !EndsWithNewline(Strip(line))
  {
    var s := Strip(line);
    StripSpec(line);
    if s != [] {
      assert IsSpace('\n');
    }
  }

  /** On a line as the prompt delivers it (stripped), a name is accepted iff it is non-empty and all ASCII letters. */
  lemma NameAcceptsIff(line: string)
    ensures ValidateFirstname(Strip(line)) <==> LettersPlus(Strip(line))
    ensures ValidateLastname(Strip(line)) <==> LettersPlus(Strip(line))
  {
    StrippedHasNoFinalNewline(line);
  }

  /** A name with a character that is neither a letter nor the one final newline is rejected: digits, symbols,
      spaces, and a newline anywhere but at the end. */
  lemma NameRejectsNonLetter(s: string, k: nat)
    requires k < |s| && !IsAsciiLetter(s[k]) && (s[k] != '\n' || k < |s| - 1)
    ensures !ValidateFirstname(s) && !ValidateLastname(s)
  {
    if EndsWithNewline(s) {
      assert s[..|s| - 1][k] == s[k];
    }
  }

  lemma NameRejectsEmpty()
    ensures !ValidateFirstname("") && !ValidateLastname("")
  {
  }

  // ---- gender ----

  lemma LowerOfLettersIsLetters(s: string)
    requires LettersPlus(Lower(s))
    ensures LettersPlus(s)
  {
    forall i | 0 <= i < |s|
      ensures IsAsciiLetter(s[i])
    {
      assert Lower(s)[i] == ToLower(s[i]);
    }
  }

  /** Title-casing depends only on the lower-cased letters of a word. */
  lemma TitleOfCaseVariant(s: string, word: string)
    requires LettersPlus(word) && Lower(s) == word
    ensures Title(s) == [ToUpper(word[0])] + word[1..]
  {
    LowerOfLettersIsLetters(s);
    TitleOfWord(s);
    assert ToLower(s[0]) == word[0];
    assert Lower(s[1..]) == word[1..];
  }

  /** The gender validator accepts only "male" and "female", in any mix of cases. */
  lemma GenderAcceptedIsMaleOrFemale(gender: string)
    requires ValidateGender(gender)
    ensures Lower(gender) == "male" || Lower(gender) == "female"
  {
    assert Lower(Title(gender)) == Lower(gender);
    assert Lower("Male") == "male";
    assert Lower("Female") == "female";
  }

  /** Every mix of cases of "male" or "female" is accepted. */
  lemma GenderAcceptsAnyCase(gender: string)
    requires Lower(gender) == "male" || Lower(gender) == "female"
    ensures ValidateGender(gender)
  {
    LowerOfLettersIsLetters(gender);
    if Lower(gender) == "male" {
      TitleOfCaseVariant(gender, "male");
      assert Title(gender) == "Male";
    } else {
      TitleOfCaseVariant(gender, "female");
      assert Title(gender) == "Female";
    }
  }

  /** The gender validator accepts exactly "male" and "female" in any mix of cases. */
  lemma GenderAcceptsIff(gender: string)
    ensures ValidateGender(gender) <==> Lower(gender) in ["male", "female"]
  {
    if ValidateGender(gender) {
      GenderAcceptedIsMaleOrFemale(gender);
    }
    if Lower(gender) in ["male", "female"] {
      GenderAcceptsAnyCase(gender);
    }
  }

  /** A gender that passes, title-cased as the profile stores it, is "Male" or "Female". */
  lemma StoredGenderIsOption(gender: string)
    requires ValidateGender(gender)
    ensures Title(gender) == "Male" || Title(gender) == "Female"
  {
  }

  // ---- age ----

  /** For a whole number written out, the age validator accepts iff 1 <= a <= 100. */
  lemma AgeAcceptsIff(a: int)
    ensures ValidateAge(IntToString(a)) <==> 1 <= a <= 100
  {
    ParseIntRoundTrip(a);
  }

  /** Text containing a letter is rejected as an age (the ValueError is caught, not raised). */
  lemma AgeRejectsLetters(age: string, k: nat)
    requires k < |age| && IsAsciiLetter(age[k])
    ensures !ValidateAge(age)
  {
    ParseIntRejectsLetters(age, k);
  }

  // ---- phone ----

  /** Without a final newline, a phone passes iff it has at least ten digits and all but the last nine are '0'. */
  lemma PhoneAcceptsIff(phone: string)
    requires !EndsWithNewline(phone)
    ensures ValidatePhone(phone) <==> |phone| >= 10 && AllDigits(phone) && AllZeros(phone[..|phone| - 9])
  {
    if ValidatePhone(phone) {
      var k :| 1 <= k <= |phone| && AllZeros(phone[..k]) && |phone| - k == 9 && AllDigits(phone[k..]);
      forall i | 0 <= i < |phone|
        ensures IsDigit(phone[i])
      {
        if i < k {
          assert phone[..k][i] == phone[i];
        } else {
          assert phone[k..][i - k] == phone[i];
        }
      }
    }
    if |phone| >= 10 && AllDigits(phone) && AllZeros(phone[..|phone| - 9]) {
      var k := |phone| - 9;
      assert AllZeros(phone[..k]) && AllDigits(phone[k..]);
    }
  }

  /** Every accepted phone starts with '0' and has at least ten characters. */
  lemma PhoneShape(phone: string)
    requires ValidatePhone(phone)
    ensures phone[0] == '0' && |phone| >= 10
  {
    if ZerosThenNineDigits(phone) {
      var k :| 1 <= k <= |phone| && AllZeros(phone[..k]) && |phone| - k == 9 && AllDigits(phone[k..]);
      assert phone[..k][0] == '0';
    } else {
      var p := phone[..|phone| - 1];
      var k :| 1 <= k <= |p| && AllZeros(p[..k]) && |p| - k == 9 && AllDigits(p[k..]);
      assert p[..k][0] == '0';
    }
  }

  /** The ten-digit number is accepted; a wrong first digit or a short number is not; eleven digits with two leading zeros are. */
  lemma PhoneExamples()
    ensures ValidatePhone("0771234567")
    ensures !ValidatePhone("1771234567")
    ensures !ValidatePhone("077123456")
    ensures ValidatePhone("00123456789")
  {
    PhoneAcceptsIff("0771234567");
    PhoneAcceptsIff("1771234567");
    PhoneAcceptsIff("077123456");
    PhoneAcceptsIff("00123456789");
    assert "1771234567"[..1][0] == '1';
    assert "0771234567"[..1] == "0";
    assert "00123456789"[..2] == "00";
  }

  // ---- amounts ----

  /** For an amount written as a whole number, `validate_balance` accepts iff it is positive. */
  lemma BalanceAcceptsIff(n: int)
    ensures ValidateBalance(Str(IntToString(n))) <==> n > 0
  {
    ParseFloatOfIntString(n);
  }

  /** For an amount written with a decimal point, `validate_balance` accepts iff some digit is non-zero. */
  lemma BalanceAcceptsDecimal(w: string, f: string)
    requires AllDigits(w) && AllDigits(f) && |w| + |f| > 0
    ensures ValidateBalance(Str(w + "." + f)) <==> DigitsValue(w) > 0 || DigitsValue(f) > 0
  {
    ParseFloatOfDecimal(w, f);
    DecimalValuePositive(w, f);
  }

  /** Text containing a letter is rejected as an amount by the modelled `float()`, which has no exponent or inf/nan forms. */
  lemma BalanceRejectsLetters(s: string, k: nat)
    requires k < |s| && IsAsciiLetter(s[k])
    ensures !ValidateBalance(Str(s))
  {
    ParseFloatRejectsLetters(s, k);
  }
}
