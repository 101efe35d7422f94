/**
 * The WhatsApp number normalisation done before each message dispatch:
 * every non-digit is stripped, and a national number with a leading `0`
 * is rewritten to the Indonesian country code `62`.
 */
module Phone {
  import opened Seqs
  import opened Text

  /** `phone.replace(/\D/g, '')`: the digits of `phone` in order. */
  function DigitsOf(phone: string): (d: string)
    ensures AllDigits(d)
    ensures forall c :: c in d <==> c in phone && IsDigit(c)
  {
    Filter(IsDigit, phone)
  }

  predicate HasLeadingZero(d: string) {
    |d| > 0 && d[0] == '0'
  }

  /** The number the message is sent to. */
  function NormalizePhone(phone: string): (r: string)
    ensures AllDigits(r)
    ensures !HasLeadingZero(r)
    ensures HasLeadingZero(DigitsOf(phone)) ==> r == "62" + DigitsOf(phone)[1..]
    ensures !HasLeadingZero(DigitsOf(phone)) ==> r == DigitsOf(phone)
  {
    var d := DigitsOf(phone);
    if HasLeadingZero(d) then "62" + d[1..] else d
  }

  /** The three dispatch paths reassign a local: first the stripped digits, then, on a leading `0`, the `62` form. */
  method FormatPhone(phone: string) returns (formattedPhone: string)
    ensures formattedPhone == NormalizePhone(phone)
  {
    formattedPhone := Filter(IsDigit, phone);
    if |formattedPhone| > 0 && formattedPhone[0] == '0' {
      formattedPhone := "62" + formattedPhone[1..];
    }
  }

  /** A string of digits only has nothing to strip. */
  lemma {:induction false} DigitsOfDigits(d: string)
    requires AllDigits(d)
    ensures DigitsOf(d) == d
  {
    FilterKeepsAll(IsDigit, d);
  }

  /** Normalising an already normalised number changes nothing. */
  lemma {:induction false} NormalizeIdempotent(phone: string)
    ensures NormalizePhone(NormalizePhone(phone)) == NormalizePhone(phone)
  {
    DigitsOfDigits(NormalizePhone(phone));
  }

  /** Stripping keeps every digit in its place: the digits of `a + b` are those of `a` followed by those of `b`. */
  lemma {:induction false} DigitsOfAppend(a: string, b: string)
    ensures DigitsOf(a + b) == DigitsOf(a) + DigitsOf(b)
  {
    FilterAppend(IsDigit, a, b);
  }
}
