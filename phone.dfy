/**
  Phone-number normalisation (`normalizePhone`, WhatsAppController.php lines 20-31).

  Every non-digit character is removed; a 10-digit result that starts with `3`
  (a Colombian mobile number written locally) gets the country code `57` in front.
  The function is total: input without digits gives the empty string.
 */
module Phone {

  /** The Colombian country code prepended to local mobile numbers. */
  const CountryCode: string := "57"

  predicate IsDigit(c: char) {
    '0' <= c <= '9'
  }

  predicate AllDigits(s: string) {
    forall i :: 0 <= i < |s| ==> IsDigit(s[i])
  }

  /**
    `preg_replace('/[^0-9]/', '', $s)`: the digits of `s`, in their order.
    Each digit character keeps its number of occurrences; every other character is gone.
   */
  function StripNonDigits(s: string): (d: string)
    ensures AllDigits(d)
    ensures |d| <= |s|
  {
    if s == [] then []
    else
      (if IsDigit(s[0]) then [s[0]] else []) + StripNonDigits(s[1..])
  }

  /** The local mobile pattern that receives the country code. */
  predicate IsLocalMobile(d: string) {
    |d| == 10 && d[0] == '3'
  }

  /** `normalizePhone`: strip non-digits, then prefix `57` to a local mobile number. */
  function Normalize(raw: string): (r: string)
    ensures AllDigits(r)
  {
    var d := StripNonDigits(raw);
    if IsLocalMobile(d) then CountryCode + d else d
  }

  /** Stripping keeps every digit as often as it occurs and drops every other character. */
  lemma {:induction false} StripKeepsDigitOccurrences(s: string)
    ensures forall c :: multiset(StripNonDigits(s))[c] == if IsDigit(c) then multiset(s)[c] else 0
  {
    if s != [] {
      StripKeepsDigitOccurrences(s[1..]);
      assert s == [s[0]] + s[1..];
    }
  }

  /** A string made only of digits is left alone by the stripping step. */
  lemma {:induction false} StripKeepsDigitStrings(s: string)
    requires AllDigits(s)
    ensures StripNonDigits(s) == s
  {
    if s != [] {
      StripKeepsDigitStrings(s[1..]);
      assert s == [s[0]] + s[1..];
    }
  }

  /** Stripping works piecewise: it commutes with concatenation. */
  lemma {:induction false} StripConcat(a: string, b: string)
    ensures StripNonDigits(a + b) == StripNonDigits(a) + StripNonDigits(b)
  {
    if a == [] {
      assert a + b == b;
    } else {
      assert (a + b)[1..] == a[1..] + b;
      StripConcat(a[1..], b);
    }
  }

  /** Normalising twice is normalising once: a `57`-prefixed number is never prefixed again. */
  lemma NormalizeIdempotent(raw: string)
    ensures Normalize(Normalize(raw)) == Normalize(raw)
  {
    var r := Normalize(raw);
    StripKeepsDigitStrings(r);
    assert StripNonDigits(r) == r;
    if IsLocalMobile(StripNonDigits(raw)) {
      assert |r| == 12;
    }
  }

  /**
    The fixed points of `Normalize` are exactly the digit strings that are not
    local mobile numbers: the values `Normalize` can return.
   */
  lemma NormalizeFixedPoints(s: string)
    ensures Normalize(s) == s <==> AllDigits(s) && !IsLocalMobile(s)
  {
    if AllDigits(s) {
      StripKeepsDigitStrings(s);
    }
  }

  /** Separators do not matter: removing one non-digit character anywhere leaves the result unchanged. */
  lemma NormalizeIgnoresSeparator(a: string, c: char, b: string)
    requires !IsDigit(c)
    ensures Normalize(a + [c] + b) == Normalize(a + b)
  {
    StripConcat(a + [c], b);
    StripConcat(a, [c]);
    StripConcat(a, b);
    assert StripNonDigits([c]) == [];
    assert StripNonDigits(a + [c]) == StripNonDigits(a);
  }

  /**
    A phone accepted by the send form (`digits_between:10,15`: only digits,
    10 to 15 of them) still has 10 to 15 digits after normalisation.
   */
  lemma NormalizeKeepsFormLength(phone: string)
    requires AllDigits(phone) && 10 <= |phone| <= 15
    ensures AllDigits(Normalize(phone)) && 10 <= |Normalize(phone)| <= 15
    ensures Normalize(phone) == if IsLocalMobile(phone) then CountryCode + phone else phone
  {
    StripKeepsDigitStrings(phone);
  }

  /** Input without any digit normalises to the empty string. */
  lemma NoDigitsNormalizeToEmpty(s: string)
    requires forall i :: 0 <= i < |s| ==> !IsDigit(s[i])
    ensures Normalize(s) == ""
  {
    var d := StripNonDigits(s);
    StripKeepsDigitOccurrences(s);
    forall c ensures multiset(d)[c] == 0 {
      if IsDigit(c) {
        assert c !in s;
      }
    }
    assert multiset(d) == multiset{};
  }

  lemma LocalMobileExample()
    ensures Normalize("3001234567") == "573001234567"
  {
    NormalizeKeepsFormLength("3001234567");
  }

  lemma InternationalExample()
    ensures Normalize("573001234567") == "573001234567"
  {
    StripKeepsDigitStrings("573001234567");
  }

  lemma LettersDroppedExample()
    ensures Normalize("abc123") == "123"
  {
    assert StripNonDigits("abc123") == StripNonDigits("123");
    StripKeepsDigitStrings("123");
  }

  lemma NoDigitsExample()
    ensures Normalize("+() -") == ""
  {
  }
}
