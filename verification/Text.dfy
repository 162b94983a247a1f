/** Splitting text and printing numbers. */
module Text {

  function Split(s: string, sep: char): (parts: seq<string>)
    ensures parts != []
  {
    if s == [] then [[]]
    else
      var rest := Split(s[1..], sep);
      if s[0] == sep then [[]] + rest else [[s[0]] + rest[0]] + rest[1..]
  }

  predicate IsDigit(c: char) {
    '0' <= c <= '9'
  }

  function PrintNat(n: nat): string {
    (if n < 10 then [] else PrintNat(n / 10)) + [('0' as int + n % 10) as char]
  }

  function PrintInt(n: int): string {
    if n < 0 then "-" + PrintNat(-n) else PrintNat(n)
  }

  lemma {:induction false} PrintedDigitsAreDigits(n: nat)
    ensures PrintNat(n) != [] && forall i :: 0 <= i < |PrintNat(n)| ==> IsDigit(PrintNat(n)[i])
  {
    if n >= 10 { PrintedDigitsAreDigits(n / 10); }
  }

  /** Text without the separator joins the first part. */
  lemma {:induction false} SplitAfter(b: string, s: string, sep: char)
    requires sep !in b
    ensures Split(b + s, sep) == [b + Split(s, sep)[0]] + Split(s, sep)[1..]
  {
    if b == [] {
      assert b + s == s && b + Split(s, sep)[0] == Split(s, sep)[0];
    } else {
      assert (b + s)[1..] == b[1..] + s;
      SplitAfter(b[1..], s, sep);
      var rest := Split(b[1..] + s, sep);
      assert [b[0]] + (b[1..] + Split(s, sep)[0]) == b + Split(s, sep)[0];
      assert rest[1..] == Split(s, sep)[1..];
    }
  }

  predicate StartsWith(s: string, prefix: string) {
    |prefix| <= |s| && s[..|prefix|] == prefix
  }
}
