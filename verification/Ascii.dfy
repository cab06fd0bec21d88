// Digits and letters by their places in ASCII.
module Ascii {
  const DIGITS := "0123456789"
  const LARGE := "ABCDEFGHIJKLMNOPQRSTUVWXYZ"
  const SMALL := "abcdefghijklmnopqrstuvwxyz"

  lemma Alphabets()
    ensures |DIGITS| == 10 && |LARGE| == 26 && |SMALL| == 26
    ensures forall j :: 0 <= j < 10 ==> DIGITS[j] as int == 48 + j
    ensures forall j :: 0 <= j < 26 ==> LARGE[j] as int == 65 + j && SMALL[j] as int == 97 + j
  {
  }
}
