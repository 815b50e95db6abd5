/** Characters that several texts speak of. */
module Characters {

  predicate IsAscii(c: char) { c < '\U{80}' }

  function HexChar(n: nat): char
    requires n < 16
  {
    if n < 10 then ('0' as int + n) as char else ('a' as int + n - 10) as char
  }
}
