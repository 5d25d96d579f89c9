/**
 * Display labels of the creation form: specimens and slides are numbered from
 * one, blocks are lettered in bijective base 26 (A ... Z, AA ... ZZ, AAA ...).
 */
module CaseLabels {
  import opened Strings

  const Alphabet: string := "ABCDEFGHIJKLMNOPQRSTUVWXYZ"
  const SpecimenPrefix: string := "Prélèvement "
  const BlockPrefix: string := "Bloc "
  const SlidePrefix: string := "Lame "

  predicate IsUpperLetter(c: char) {
    'A' <= c <= 'Z'
  }

  predicate IsLetterWord(s: string) {
    s != [] && forall i :: 0 <= i < |s| ==> IsUpperLetter(s[i])
  }

  lemma AlphabetAt(k: nat)
    requires k < 26
    ensures |Alphabet| == 26 && Alphabet[k] == ('A' as int + k) as char
  {
  }

  /**
   * The letter part of a block label: the last letter is `index % 26` and the
   * letters before it number `index / 26 - 1`, until that carry is negative.
   */
  function Letters(index: nat): (r: string)
    ensures IsLetterWord(r)
  {
    AlphabetAt(index % 26);
    (if index < 26 then [] else Letters(index / 26 - 1)) + [Alphabet[index % 26]]
  }

  /** Reads a word of capital letters in bijective base 26, with A = 1 ... Z = 26. */
  function LetterValue(s: string): (n: nat)
  {
    if s == [] then 0
    else
      var d := s[|s| - 1] as int - 'A' as int + 1;
      LetterValue(s[..|s| - 1]) * 26 + (if 1 <= d <= 26 then d else 0)
  }

  /** Reading the letters back and subtracting one recovers the index. */
  lemma {:induction false} LettersValue(index: nat)
    ensures LetterValue(Letters(index)) == index + 1
  {
    var r := Letters(index);
    AlphabetAt(index % 26);
    if index < 26 {
      assert r[..|r| - 1] == [];
    } else {
      assert r[..|r| - 1] == Letters(index / 26 - 1);
      LettersValue(index / 26 - 1);
    }
  }

  /** Distinct indices get distinct letters. */
  lemma LettersInjective(i: nat, j: nat)
    requires Letters(i) == Letters(j)
    ensures i == j
  {
    LettersValue(i);
    LettersValue(j);
  }

  lemma DivideBy26(v: int, q: nat, d: int)
    requires 0 <= d < 26 && v == q * 26 + d
    ensures v % 26 == d && v / 26 == q
  {
  }

  /** One step of the loop: the letters of the carry, then the last letter. */
  lemma LettersStep(v: nat)
    requires v >= 26
    ensures Letters(v) == Letters(v / 26 - 1) + [Alphabet[v % 26]]
  {
  }

  /** Every non-empty word of capital letters is the letter part of exactly one index. */
  lemma {:induction false} LettersOfValue(s: string)
    requires IsLetterWord(s)
    ensures LetterValue(s) >= 1 && Letters(LetterValue(s) - 1) == s
  {
    var p, c := s[..|s| - 1], s[|s| - 1];
    var d := c as int - 'A' as int;
    assert s == p + [c];
    assert IsUpperLetter(c);
    var q := LetterValue(p);
    assert LetterValue(s) == q * 26 + d + 1;
    var v := q * 26 + d;
    DivideBy26(v, q, d);
    AlphabetAt(d);
    assert Alphabet[d] == c;
    if p == [] {
      assert v == d;
      assert Letters(v) == [Alphabet[d]];
    } else {
      LettersOfValue(p);
      assert v >= 26;
      LettersStep(v);
      assert Letters(v) == p + [c];
    }
    assert Letters(v) == s && LetterValue(s) - 1 == v;
  }

  /** `formatBlockLabel`: builds the letters right to left, carrying `floor(cursor / 26) - 1`. */
  method FormatBlockLabel(index: int) returns (text: string)
    requires index >= 0
    ensures text == BlockPrefix + Letters(index)
  {
    var letters := "";
    var cursor := index;
    while true
      invariant cursor >= 0
      invariant Letters(index) == Letters(cursor) + letters
      decreases cursor
    {
      letters := [Alphabet[cursor % 26]] + letters;
      cursor := cursor / 26 - 1;
      if cursor < 0 {
        break;
      }
    }
    text := BlockPrefix + letters;
  }

  /** The labels the form shows for the first blocks and at the first carries. */
  lemma LettersExamples()
    ensures Letters(0) == "A" && Letters(25) == "Z"
    ensures Letters(26) == "AA" && Letters(27) == "AB"
    ensures Letters(701) == "ZZ" && Letters(702) == "AAA"
  {
    AlphabetAt(0);
    AlphabetAt(1);
    AlphabetAt(25);
    assert Letters(26) == Letters(0) + [Alphabet[0]];
    assert Letters(27) == Letters(0) + [Alphabet[1]];
    assert Letters(701) == Letters(25) + [Alphabet[25]];
    assert Letters(702) == Letters(26) + [Alphabet[0]];
  }

  /** `formatSpecimenLabel`: "Prélèvement " followed by the one-based number. */
  function FormatSpecimenLabel(index: int): (text: string)
    ensures StartsWith(text, SpecimenPrefix)
    ensures index >= 0 ==> DecimalValue(text[|SpecimenPrefix|..]) == index + 1
    ensures index >= 0 ==> text[|SpecimenPrefix|..] == NatToDecimal(index + 1)
  {
    DecimalRoundTrip(if index >= 0 then index + 1 else 0);
    SpecimenPrefix + IntToDecimal(index + 1)
  }

  /** `formatSlideLabel`: "Lame " followed by the one-based number. */
  function FormatSlideLabel(index: int): (text: string)
    ensures StartsWith(text, SlidePrefix)
    ensures index >= 0 ==> DecimalValue(text[|SlidePrefix|..]) == index + 1
    ensures index >= 0 ==> text[|SlidePrefix|..] == NatToDecimal(index + 1)
  {
    DecimalRoundTrip(if index >= 0 then index + 1 else 0);
    SlidePrefix + IntToDecimal(index + 1)
  }

  /** Distinct positions get distinct specimen and slide labels. */
  lemma NumberedLabelsInjective(i: int, j: int)
    ensures FormatSpecimenLabel(i) == FormatSpecimenLabel(j) ==> i == j
    ensures FormatSlideLabel(i) == FormatSlideLabel(j) ==> i == j
  {
    if FormatSpecimenLabel(i) == FormatSpecimenLabel(j) {
      assert FormatSpecimenLabel(i)[|SpecimenPrefix|..] == IntToDecimal(i + 1);
      assert FormatSpecimenLabel(j)[|SpecimenPrefix|..] == IntToDecimal(j + 1);
      IntToDecimalInjective(i + 1, j + 1);
    }
    if FormatSlideLabel(i) == FormatSlideLabel(j) {
      assert FormatSlideLabel(i)[|SlidePrefix|..] == IntToDecimal(i + 1);
      assert FormatSlideLabel(j)[|SlidePrefix|..] == IntToDecimal(j + 1);
      IntToDecimalInjective(i + 1, j + 1);
    }
  }
}
