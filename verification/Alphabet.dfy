/** Letters and digits, spelled out: what character ranges in checks and encodings amount to. */
module Alphabet {
  const LOWER := "abcdefghijklmnopqrstuvwxyz"
  const UPPER := "ABCDEFGHIJKLMNOPQRSTUVWXYZ"
  const DIGITS := "0123456789"

  /** Consecutive characters from `first` on. */
  predicate Run(s: string, first: char) {
    first as int + |s| < 128 && forall i :: 0 <= i < |s| ==> s[i] as int == first as int + i
  }

  lemma Runs()
    ensures Run(LOWER, 'a') && |LOWER| == 26
    ensures Run(UPPER, 'A') && |UPPER| == 26
    ensures Run(DIGITS, '0') && |DIGITS| == 10
  {
  }

  lemma InRun(s: string, first: char, c: char)
    requires Run(s, first)
    ensures c in s <==> first as int <= c as int < first as int + |s|
  {
    if first as int <= c as int < first as int + |s| {
      assert s[c as int - first as int] == c;
    }
  }

  /** The range checks, on the spelled-out alphabets. */
  lemma Ranges(c: char)
    ensures 'a' <= c <= 'z' <==> c in LOWER
    ensures 'A' <= c <= 'Z' <==> c in UPPER
    ensures '0' <= c <= '9' <==> c in DIGITS
  {
    Runs();
    InRun(LOWER, 'a', c);
    InRun(UPPER, 'A', c);
    InRun(DIGITS, '0', c);
  }
}
