/** Column labels: zero-based column index <-> alphabetic label in
    bijective base 26 (A = 0, ..., Z = 25, AA = 26, ...). */
module ColumnCodec {
  import opened Outcomes
  import Arithmetic

  const Radix: nat := 26

  predicate IsUpper(c: char) {
    'A' <= c <= 'Z'
  }

  predicate IsLower(c: char) {
    'a' <= c <= 'z'
  }

  predicate IsLetter(c: char) {
    IsUpper(c) || IsLower(c)
  }

  predicate AllLetters(s: string) {
    forall k :: 0 <= k < |s| ==> IsLetter(s[k])
  }

  predicate AllUpper(s: string) {
    forall k :: 0 <= k < |s| ==> IsUpper(s[k])
  }

  /** A column label: one or more letters, in either case. */
  predicate IsLabel(s: string) {
    |s| >= 1 && AllLetters(s)
  }

  /** Zero-based place of a letter in the alphabet, ignoring case. */
  function LetterValue(c: char): (d: nat)
    requires IsLetter(c)
    ensures d < Radix
  {
    if IsUpper(c) then c as int - 'A' as int else c as int - 'a' as int
  }

  /** The upper-case letter at a zero-based place of the alphabet. */
  function Letter(d: nat): (c: char)
    requires d < Radix
    ensures IsUpper(c) && LetterValue(c) == d
  {
    ('A' as int + d) as char
  }

  function ToUpper(c: char): (u: char)
    requires IsLetter(c)
    ensures IsUpper(u) && LetterValue(u) == LetterValue(c)
    ensures IsUpper(c) ==> u == c
  {
    Letter(LetterValue(c))
  }

  function UpperLabel(s: string): (u: string)
    requires AllLetters(s)
    ensures |u| == |s| && AllUpper(u)
    ensures forall k :: 0 <= k < |s| ==> u[k] == ToUpper(s[k])
  {
    seq(|s|, k requires 0 <= k < |s| => ToUpper(s[k]))
  }

  /** The value of a letter string read as a numeral with digits 1..26
      (A = 1, ..., Z = 26), most significant first: "" = 0, "AA" = 27. */
  function Numeral(s: string): nat
    requires AllLetters(s)
  {
    if |s| == 0 then 0 else Numeral(s[..|s| - 1]) * Radix + LetterValue(s[|s| - 1]) + 1
  }

  /** The label of a zero-based column index. Always succeeds. */
  function EncodeColumn(index: nat): (letters: string)
    ensures |letters| >= 1 && AllUpper(letters)
    decreases index
  {
    if index < Radix then [Letter(index)]
    else EncodeColumn(index / Radix - 1) + [Letter(index % Radix)]
  }

  /** The zero-based column index of a label; FormatError for the empty
      string or a character that is not a letter. */
  function DecodeColumn(letters: string): (r: Result<nat>)
    ensures r.Ok? <==> IsLabel(letters)
    ensures r.Err? ==> r.error == FormatError
  {
    if IsLabel(letters) then Ok(Numeral(letters) - 1) else Err(FormatError)
  }

  lemma {:induction false} NumeralOfEncode(index: nat)
    ensures AllLetters(EncodeColumn(index))
    ensures Numeral(EncodeColumn(index)) == index + 1
    decreases index
  {
    var letters := EncodeColumn(index);
    if index >= Radix {
      var prefix := EncodeColumn(index / Radix - 1);
      NumeralOfEncode(index / Radix - 1);
      assert letters[..|letters| - 1] == prefix;
    }
  }

  /** Decoding inverts encoding, for every column index. */
  lemma DecodeEncode(index: nat)
    ensures DecodeColumn(EncodeColumn(index)) == Ok(index)
  {
    NumeralOfEncode(index);
  }

  /** Encoding inverts decoding up to letter case: every label is the
      label of exactly the column it decodes to. */
  lemma {:induction false} EncodeDecode(letters: string)
    requires IsLabel(letters)
    ensures DecodeColumn(letters).Ok?
    ensures EncodeColumn(DecodeColumn(letters).value) == UpperLabel(letters)
    decreases |letters|
  {
    var n := |letters|;
    var prefix := letters[..n - 1];
    var d := LetterValue(letters[n - 1]);
    if n == 1 {
      assert Numeral(letters) - 1 == d;
    } else {
      EncodeDecode(prefix);
      var p := Numeral(prefix);
      assert p >= 1;
      var index := Numeral(letters) - 1;
      assert index == p * Radix + d;
      assert index >= Radix;
      assert index / Radix == p && index % Radix == d by {
        Arithmetic.DivModUnique(p, d, Radix);
      }
      assert UpperLabel(letters) == UpperLabel(prefix) + [ToUpper(letters[n - 1])];
    }
  }

  /** Distinct columns have distinct labels. */
  lemma EncodeInjective(i: nat, j: nat)
    requires EncodeColumn(i) == EncodeColumn(j)
    ensures i == j
  {
    DecodeEncode(i);
    DecodeEncode(j);
  }
}
