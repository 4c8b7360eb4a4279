/** Character classes, decimal numerals, `str::split` and `str::replace`
    on single characters, as the program's string handling uses them. */
module Strings {

  predicate IsDigit(c: char) { '0' <= c <= '9' }

  predicate IsUpper(c: char) { 'A' <= c <= 'Z' }

  predicate AllDigits(s: string) { forall i :: 0 <= i < |s| ==> IsDigit(s[i]) }

  predicate AllUpper(s: string) { forall i :: 0 <= i < |s| ==> IsUpper(s[i]) }

  function DigitChar(d: nat): (c: char)
    requires d < 10
    ensures IsDigit(c)
  {
    ['0', '1', '2', '3', '4', '5', '6', '7', '8', '9'][d]
  }

  function DigitValue(c: char): (d: nat)
    requires IsDigit(c)
    ensures d < 10
  {
    (c as int - '0' as int) as nat
  }

  lemma DigitCharValue(d: nat)
    requires d < 10
    ensures DigitValue(DigitChar(d)) == d
  {
  }

  /** The decimal numeral of `n`, without leading zeros (Rust's `{}` on an integer). */
  function NatToDecimal(n: nat): (s: string)
    ensures |s| >= 1 && AllDigits(s)
  {
    if n < 10 then [DigitChar(n)] else NatToDecimal(n / 10) + [DigitChar(n % 10)]
  }

  /** The value of a numeral of decimal digits, read most significant digit first. */
  function DecimalValue(s: string): nat
    requires AllDigits(s)
  {
    if s == [] then 0 else 10 * DecimalValue(s[..|s| - 1]) + DigitValue(s[|s| - 1])
  }

  /** Reading back a formatted numeral gives the number. */
  lemma {:induction false} DecimalRoundTrip(n: nat)
    ensures DecimalValue(NatToDecimal(n)) == n
  {
    var s := NatToDecimal(n);
    if n < 10 {
      DigitCharValue(n);
    } else {
      DecimalRoundTrip(n / 10);
      assert s[..|s| - 1] == NatToDecimal(n / 10);
      DigitCharValue(n % 10);
    }
  }

  /** Rust's `s.split(sep)` for a single-character separator: the pieces
      between separators, in order; an empty string gives one empty piece. */
  function Split(s: string, sep: char): (pieces: seq<string>)
    ensures |pieces| >= 1
  {
    if s == [] then [[]]
    else
      var rest := Split(s[1..], sep);
      if s[0] == sep then [[]] + rest else [[s[0]] + rest[0]] + rest[1..]
  }

  /** Inverse of `Split`: the pieces joined with the separator between them. */
  function Join(pieces: seq<string>, sep: char): string
    requires |pieces| >= 1
  {
    if |pieces| == 1 then pieces[0] else pieces[0] + [sep] + Join(pieces[1..], sep)
  }

  /** Splitting loses nothing: joining the pieces rebuilds the string, and no
      piece contains the separator. */
  lemma {:induction false} SplitJoin(s: string, sep: char)
    ensures Join(Split(s, sep), sep) == s
    ensures forall k :: 0 <= k < |Split(s, sep)| ==> sep !in Split(s, sep)[k]
  {
    if s != [] {
      var rest := Split(s[1..], sep);
      SplitJoin(s[1..], sep);
      if s[0] == sep {
        assert Split(s, sep)[1..] == rest;
      } else {
        var p := Split(s, sep);
        assert p[0] == [s[0]] + rest[0];
        assert p[1..] == rest[1..];
        if |rest| > 1 {
          assert Join(rest, sep) == rest[0] + [sep] + Join(rest[1..], sep);
        }
        assert forall k :: 1 <= k < |p| ==> p[k] == rest[k];
      }
    }
  }

  /** The string has more than one piece exactly when it contains the separator. */
  lemma {:induction false} SplitCount(s: string, sep: char)
    ensures |Split(s, sep)| > 1 <==> sep in s
  {
    if s != [] {
      SplitCount(s[1..], sep);
      assert sep in s <==> s[0] == sep || sep in s[1..];
    }
  }

  /** The first piece is the longest separator-free prefix: it is followed by
      the separator when there is one. */
  lemma {:induction false} SplitFirst(s: string, sep: char)
    ensures |Split(s, sep)[0]| <= |s| && s[..|Split(s, sep)[0]|] == Split(s, sep)[0]
    ensures sep in s ==>
              (|Split(s, sep)[0]| < |s| && s[|Split(s, sep)[0]|] == sep
               && Split(s, sep)[1..] == Split(s[|Split(s, sep)[0]| + 1..], sep))
  {
    if s != [] && s[0] != sep {
      SplitFirst(s[1..], sep);
      var rest := Split(s[1..], sep);
      var k := |rest[0]|;
      assert s[..k + 1] == [s[0]] + s[1..][..k];
      if sep in s {
        assert sep in s[1..];
        assert s[1..][k + 1..] == s[k + 2..];
      }
    }
  }

  /** The first piece, by position: the prefix up to the first separator, or
      the whole string when there is none. */
  lemma SplitFirstPiece(s: string, sep: char)
    ensures var m := |Split(s, sep)[0]|;
            m <= |s| && s[..m] == Split(s, sep)[0] && sep !in s[..m] && (m == |s| || s[m] == sep)
  {
    SplitFirst(s, sep);
    SplitJoin(s, sep);
    SplitCount(s, sep);
    if sep !in s {
      assert Split(s, sep) == [Split(s, sep)[0]];
    }
  }

  /** Two separator-free prefixes that each end at a separator or at the end
      of the string are the same prefix. */
  lemma FirstSeparatorUnique(s: string, sep: char, a: nat, b: nat)
    requires a <= |s| && b <= |s|
    requires sep !in s[..a] && (a == |s| || s[a] == sep)
    requires sep !in s[..b] && (b == |s| || s[b] == sep)
    ensures a == b
  {
  }

  /** Rust's `s.replace(from, to)` for single characters. */
  function Replace(s: string, from: char, to: char): (r: string)
    ensures |r| == |s|
    ensures forall i :: 0 <= i < |s| ==> r[i] == if s[i] == from then to else s[i]
  {
    if s == [] then [] else [if s[0] == from then to else s[0]] + Replace(s[1..], from, to)
  }

  /** After replacing every `from` by a different character, no `from` remains. */
  lemma ReplaceRemoves(s: string, from: char, to: char)
    requires from != to
    ensures from !in Replace(s, from, to)
  {
  }
}
