/** Character classes of the C locale. */
module Chars {

  predicate IsAlpha(c: char) { 'a' <= c <= 'z' || 'A' <= c <= 'Z' }

  predicate IsDigit(c: char) { '0' <= c <= '9' }

  predicate IsSpace(c: char) { c == ' ' || 9 as char <= c <= 13 as char }

  // The six white space characters of C, the ten digits, and the letters.
  lemma {:induction false} ClassesAre(c: char)
    ensures IsSpace(c) <==>
            c == ' ' || c == '\t' || c == '\n' || c == 11 as char || c == 12 as char || c == '\r'
    ensures IsDigit(c) <==> 48 <= c as int < 58
    ensures IsAlpha(c) <==> 65 <= c as int < 91 || 97 <= c as int < 123
  {
  }
}
