/**
 * The contact form's phone rules (src/components/contactform.tsx): the validator
 * `/^\d{10}$/` and the shaping applied while the user types, which keeps only the
 * ASCII digits and cuts the result to ten characters.
 */
module PhoneInput {
  import opened Seqs

  const PhoneLength: nat := 10

  /** `\d` of a JavaScript regular expression: one of '0'..'9' and nothing else. */
  predicate IsAsciiDigit(c: char) {
    '0' <= c <= '9'
  }

  predicate AllDigits(s: string) {
    forall i :: 0 <= i < |s| ==> IsAsciiDigit(s[i])
  }

  /** The shape the phone field is kept in: digits only, at most ten of them. */
  predicate PhoneShaped(s: string) {
    AllDigits(s) && |s| <= PhoneLength
  }

  /** `s` matches `\d{n}$`: exactly `n` digits and then the end of the text. */
  predicate MatchesDigits(s: string, n: nat)
    decreases n
  {
    if n == 0 then s == [] else s != [] && IsAsciiDigit(s[0]) && MatchesDigits(s[1..], n - 1)
  }

  /** `validatePhone`: `/^\d{10}$/.test(phone)`. */
  predicate ValidatePhone(phone: string) {
    MatchesDigits(phone, PhoneLength)
  }

  lemma {:induction false} MatchesDigitsIff(s: string, n: nat)
    ensures MatchesDigits(s, n) <==> |s| == n && AllDigits(s)
    decreases n
  {
    if n != 0 && s != [] {
      MatchesDigitsIff(s[1..], n - 1);
      if AllDigits(s) {
        assert forall i :: 0 <= i < |s[1..]| ==> s[1..][i] == s[i + 1];
      }
      if IsAsciiDigit(s[0]) && AllDigits(s[1..]) {
        assert forall i :: 1 <= i < |s| ==> s[i] == s[1..][i - 1];
      }
    }
  }

  /** The phone validates exactly when it is ten ASCII digits. */
  lemma ValidatePhoneIff(phone: string)
    ensures ValidatePhone(phone) <==> |phone| == PhoneLength && AllDigits(phone)
  {
    MatchesDigitsIff(phone, PhoneLength);
  }

  /** `value.replace(/\D/g, '')`. */
  function DigitsOnly(value: string): (r: string)
    ensures AllDigits(r)
    ensures |r| <= |value|
  {
    var r := Filter(value, IsAsciiDigit);
    assert forall i :: 0 <= i < |r| ==> r[i] in r;
    r
  }

  /** The phone branch of `handleChange`: digits only, then `.slice(0, 10)`. */
  function Sanitize(value: string): (r: string)
    ensures PhoneShaped(r)
  {
    var r := Take(DigitsOnly(value), PhoneLength);
    assert forall i :: 0 <= i < |r| ==> r[i] == DigitsOnly(value)[i];
    r
  }

  /**
   * The shaped phone is the first min(10, n) of the n digits typed, in their
   * original order: every digit occurrence is kept up to the cut and nothing else is.
   */
  lemma SanitizeKeepsFirstDigits(value: string)
    ensures IsSubsequence(DigitsOnly(value), value)
    ensures IsSubsequence(Sanitize(value), value)
    ensures Sanitize(value) <= DigitsOnly(value)
    ensures |Sanitize(value)| == Min(PhoneLength, |DigitsOnly(value)|)
    ensures forall c :: multiset(DigitsOnly(value))[c] == if IsAsciiDigit(c) then multiset(value)[c] else 0
  {
    FilterIsSubsequence(value, IsAsciiDigit);
    FilterMultiplicity(value, IsAsciiDigit);
    SubsequencePrefix(DigitsOnly(value), value, |Sanitize(value)|);
  }

  /** Shaping leaves a value alone exactly when it is already in shape. */
  lemma SanitizeFixedPointIff(value: string)
    ensures Sanitize(value) == value <==> PhoneShaped(value)
  {
    if PhoneShaped(value) {
      FilterUnchangedIff(value, IsAsciiDigit);
    }
  }

  /** Shaping twice is shaping once. */
  lemma SanitizeIdempotent(value: string)
    ensures Sanitize(Sanitize(value)) == Sanitize(value)
  {
    SanitizeFixedPointIff(Sanitize(value));
  }

  /** After a phone edit the field validates exactly when at least ten digits were typed. */
  lemma SanitizedValidIff(value: string)
    ensures ValidatePhone(Sanitize(value)) <==> |DigitsOnly(value)| >= PhoneLength
  {
    ValidatePhoneIff(Sanitize(value));
  }
}
