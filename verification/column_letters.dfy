/**
 * Spreadsheet column letters: "A" is column 0, "Z" column 25, "AA" column 26.
 * Letters are a bijective base-26 numeral (digits 1..26, no zero digit),
 * read case-insensitively.
 */
module ColumnLetters {
  import opened Wrappers
  import opened Text

  predicate AllLetters(s: string) {
    forall i :: 0 <= i < |s| ==> IsAsciiLetter(s[i])
  }

  /** Digit value of one letter: A or a is 1, Z or z is 26. */
  function LetterValue(c: char): (v: nat)
    requires IsAsciiLetter(c)
    ensures 1 <= v <= 26
  {
    UpperChar(c) as int - 'A' as int + 1
  }

  /** Value of the numeral in bijective base 26, most significant letter first. */
  function Bijective(s: string): nat
    requires AllLetters(s)
  {
    if s == [] then 0 else Bijective(s[..|s| - 1]) * 26 + LetterValue(s[|s| - 1])
  }

  /** `column_letter_to_index`: `None` for an empty or non-alphabetic reference. */
  function ColumnIndex(s: string): (r: Option<nat>)
    ensures r.Some? <==> s != [] && AllLetters(s)
  {
    if s != [] && AllLetters(s) then Some(Bijective(s) - 1) else None
  }

  function Letter(d: nat): (c: char)
    requires d < 26
    ensures 'A' <= c <= 'Z'
  {
    ('A' as int + d) as char
  }

  /** The column letters of a zero-based column index, in upper case. */
  function ColumnName(n: nat): (s: string)
    ensures s != [] && AllLetters(s)
    ensures forall i :: 0 <= i < |s| ==> 'A' <= s[i] <= 'Z'
    decreases n
  {
    if n < 26 then [Letter(n)] else ColumnName(n / 26 - 1) + [Letter(n % 26)]
  }

  lemma {:induction false} BijectiveIgnoresCase(s: string)
    requires AllLetters(s)
    ensures AllLetters(Upper(s)) && Bijective(Upper(s)) == Bijective(s)
  {
    if s != [] {
      var p := s[..|s| - 1];
      BijectiveIgnoresCase(p);
      assert Upper(s)[..|s| - 1] == Upper(p);
    }
  }

  /** Decoding is case-insensitive: "aa" and "AA" name the same column. */
  lemma ColumnIndexIgnoresCase(s: string)
    ensures ColumnIndex(Upper(s)) == ColumnIndex(s)
  {
    if s != [] && AllLetters(s) {
      BijectiveIgnoresCase(s);
    } else if s != [] {
      var i :| 0 <= i < |s| && !IsAsciiLetter(s[i]);
      assert !IsAsciiLetter(Upper(s)[i]);
    }
  }

  lemma {:induction false} BijectiveOfColumnName(n: nat)
    ensures Bijective(ColumnName(n)) == n + 1
    decreases n
  {
    if n >= 26 {
      var s := ColumnName(n);
      BijectiveOfColumnName(n / 26 - 1);
      assert s[..|s| - 1] == ColumnName(n / 26 - 1);
    }
  }

  /** Every column index is named by some letters, which decode back to it. */
  lemma ColumnIndexOfColumnName(n: nat)
    ensures ColumnIndex(ColumnName(n)) == Some(n)
  {
    BijectiveOfColumnName(n);
  }

  /** Decoding then encoding gives the upper-case form of the reference. */
  lemma {:induction false} ColumnNameOfColumnIndex(s: string)
    requires ColumnIndex(s).Some?
    ensures ColumnName(ColumnIndex(s).value) == Upper(s)
    decreases |s|
  {
    var p, c := s[..|s| - 1], s[|s| - 1];
    var v, b, n := LetterValue(c), Bijective(p), ColumnIndex(s).value;
    UpperSnoc(s);
    LetterOfValue(c);
    assert n == b * 26 + v - 1;
    if p == [] {
      assert b == 0 && Upper(p) == [];
      assert ColumnName(n) == [Letter(v - 1)];
    } else {
      ColumnNameOfColumnIndex(p);
      assert ColumnIndex(p).value == b - 1;
      ColumnNameStep(n, b, v);
      SnocBoth(ColumnName(b - 1), Upper(p), Letter(v - 1), UpperChar(c));
    }
  }

  /** Appending a letter to a numeral appends its letter to the column name. */
  lemma ColumnNameStep(n: nat, b: nat, v: nat)
    requires b >= 1 && 1 <= v <= 26 && n == b * 26 + v - 1
    ensures ColumnName(n) == ColumnName(b - 1) + [Letter(v - 1)]
  {
    LastDigit(b, v);
  }

  /** Equal strings with equal last characters appended stay equal. */
  lemma SnocBoth(x: string, y: string, l: char, u: char)
    requires x == y && l == u
    ensures x + [l] == y + [u]
  {
  }

  /** The upper-case form of a reference is that of all but its last letter, then the last letter upper-cased. */
  lemma UpperSnoc(s: string)
    requires s != []
    ensures Upper(s) == Upper(s[..|s| - 1]) + [UpperChar(s[|s| - 1])]
  {
    var p, c := s[..|s| - 1], s[|s| - 1];
    var u := Upper(p) + [UpperChar(c)];
    forall i | 0 <= i < |s| ensures Upper(s)[i] == u[i] {
      UpperAt(s, i);
      if i < |p| {
        UpperAt(p, i);
        assert u[i] == Upper(p)[i] && p[i] == s[i];
      } else {
        assert i == |s| - 1 && u[i] == UpperChar(c);
      }
    }
    assert |Upper(s)| == |u|;
  }

  /** Each character of the upper-case form is its source character upper-cased. */
  lemma UpperAt(s: string, i: nat)
    requires i < |s|
    ensures Upper(s)[i] == UpperChar(s[i])
  {
  }

  /** The letter of a digit value is the upper-case letter it was read from. */
  lemma LetterOfValue(c: char)
    requires IsAsciiLetter(c)
    ensures Letter(LetterValue(c) - 1) == UpperChar(c)
  {
  }

  /** Division by 26 recovers the prefix value and the last digit of a numeral. */
  lemma LastDigit(b: nat, v: nat)
    requires 1 <= v <= 26
    ensures (b * 26 + v - 1) % 26 == v - 1 && (b * 26 + v - 1) / 26 == b
  {
  }

  /** The largest bijective value of a numeral with `n` letters ("ZZ…Z"). */
  function MaxValue(n: nat): nat {
    if n == 0 then 0 else MaxValue(n - 1) * 26 + 26
  }

  lemma {:induction false} BijectiveBounds(s: string)
    requires s != [] && AllLetters(s)
    ensures MaxValue(|s| - 1) < Bijective(s) <= MaxValue(|s|)
    decreases |s|
  {
    var p := s[..|s| - 1];
    if p != [] {
      BijectiveBounds(p);
    }
  }

  lemma {:induction false} MaxValueMonotonic(m: nat, n: nat)
    requires m <= n
    ensures MaxValue(m) <= MaxValue(n)
    decreases n - m
  {
    if m < n {
      MaxValueMonotonic(m, n - 1);
    }
  }

  /** A shorter reference always names an earlier column: "Z" < "AA" < "ZZ" < "AAA". */
  lemma ShorterIsEarlier(s: string, t: string)
    requires ColumnIndex(s).Some? && ColumnIndex(t).Some?
    requires |s| < |t|
    ensures ColumnIndex(s).value < ColumnIndex(t).value
  {
    BijectiveBounds(s);
    BijectiveBounds(t);
    MaxValueMonotonic(|s|, |t| - 1);
  }

  /** The values asserted by the data-processor tests. */
  lemma TestVectors()
    ensures ColumnIndex("A") == Some(0) && ColumnIndex("B") == Some(1)
    ensures ColumnIndex("Z") == Some(25)
    ensures ColumnIndex("AA") == Some(26) && ColumnIndex("AB") == Some(27)
    ensures ColumnIndex("AZ") == Some(51)
    ensures ColumnIndex("a") == Some(0) && ColumnIndex("aa") == Some(26)
  {
    assert "AA"[..1] == "A" && "AB"[..1] == "A" && "AZ"[..1] == "A" && "aa"[..1] == "a";
  }
}
