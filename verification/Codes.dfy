/** Confirmation codes (app/codes.py): six characters a customer can read out or type. */
module Codes {

  const ALPHABET: string := "ACDEFGHJKMNPQRSTWXYZ2345679"
  const CODE_LENGTH := 6

  predicate Spellable(code: string) {
    forall i | 0 <= i < |code| :: code[i] in ALPHABET
  }

  /** What generate_code may return: any six characters of the alphabet. */
  predicate IsCode(code: string) {
    |code| == CODE_LENGTH && Spellable(code)
  }

  /**
   str.upper on one character, as far as codes are concerned. Besides the ASCII letters these are
   the five characters whose upper case is made of letters of the alphabet: sharp s, long s, and
   the ligatures ff, long-s-t and st. The upper case of any other character has a character
   outside the alphabet; such a character stands here for itself, which `UpperIsEnough` justifies.
   */
  function Upper(ch: char): string {
    if 'a' <= ch <= 'z' then [(ch as int - 32) as char]
    else if ch == '\U{DF}' then "SS"
    else if ch == '\U{17F}' then "S"
    else if ch == '\U{FB00}' then "FF"
    else if ch == '\U{FB05}' || ch == '\U{FB06}' then "ST"
    else [ch]
  }

  predicate IsSeparator(ch: char) {
    ch == '-' || ch == ' '
  }

  function Normalize(raw: string): string {
    if raw == "" then ""
    else (if IsSeparator(raw[0]) then "" else Upper(raw[0])) + Normalize(raw[1..])
  }

  predicate IsWellFormed(raw: string) {
    IsCode(Normalize(raw))
  }

  /** The form printed in messages: a dash after the third character. */
  function Printed(code: string): string {
    if |code| == CODE_LENGTH then code[..3] + "-" + code[3..] else code
  }

  // ----- what customers may type

  /** `a` is the letter or digit `c` as a customer may type it. */
  predicate SameLetter(a: char, c: char) {
    a == c || ('A' <= c <= 'Z' && a as int == c as int + 32) || (a == '\U{17F}' && c == 'S')
  }

  /** `a` is a single character for the two letters `pair`. */
  predicate Ligature(a: char, pair: string) {
    || (a == '\U{DF}' && pair == "SS")
    || (a == '\U{FB00}' && pair == "FF")
    || ((a == '\U{FB05}' || a == '\U{FB06}') && pair == "ST")
  }

  /** `raw` is `code` in any letter case, ligatures included, with dashes and spaces put in anywhere. */
  predicate Variant(raw: string, code: string) {
    if raw == "" then code == ""
    else if IsSeparator(raw[0]) then Variant(raw[1..], code)
    else
      || (code != "" && SameLetter(raw[0], code[0]) && Variant(raw[1..], code[1..]))
      || (|code| >= 2 && Ligature(raw[0], code[..2]) && Variant(raw[1..], code[2..]))
  }

  predicate InRange(c: char) {
    'A' <= c <= 'Z' || '2' <= c <= '9'
  }

  lemma {:induction false} AlphabetRange(c: char)
    requires c in ALPHABET
    ensures InRange(c)
  {
  }

  /** A character is typed for a capital or digit exactly if that is its upper case. */
  lemma {:induction false} UpperIsLetter(a: char, c: char)
    requires InRange(c)
    ensures SameLetter(a, c) <==> Upper(a) == [c]
  {
    if 'a' <= a <= 'z' {
      assert Upper(a)[0] as int == a as int - 32;
    }
  }

  /** A character is two letters of a code exactly if they are its upper case. */
  lemma {:induction false} UpperIsPair(a: char, pair: string)
    requires |pair| == 2
    ensures Ligature(a, pair) <==> Upper(a) == pair
  {
  }

  lemma {:induction false} StartsWith(up: string, rest: string, code: string)
    ensures up + rest == code <==> |up| <= |code| && up == code[..|up|] && rest == code[|up|..]
  {
    if up + rest == code {
      assert code[..|up|] == up && code[|up|..] == rest;
    }
  }

  lemma {:induction false} UpperLength(ch: char)
    ensures |Upper(ch)| == 1 || |Upper(ch)| == 2
  {
  }

  /** Normalising reaches a text of code letters from exactly its variants. */
  lemma {:induction false} NormalizeFindsVariants(raw: string, code: string)
    requires Spellable(code)
    ensures Normalize(raw) == code <==> Variant(raw, code)
  {
    if raw != "" && IsSeparator(raw[0]) {
      NormalizeFindsVariants(raw[1..], code);
      assert Normalize(raw) == Normalize(raw[1..]);
    } else if raw != "" {
      UpperLength(raw[0]);
      StartsWith(Upper(raw[0]), Normalize(raw[1..]), code);
      if code != "" {
        NormalizeFindsVariants(raw[1..], code[1..]);
        AlphabetRange(code[0]);
        UpperIsLetter(raw[0], code[0]);
        assert code[..1] == [code[0]];
      }
      if |code| >= 2 {
        NormalizeFindsVariants(raw[1..], code[2..]);
        UpperIsPair(raw[0], code[..2]);
      }
    }
  }

  lemma {:induction false} SpellableIsOwnVariant(code: string)
    requires Spellable(code)
    ensures Variant(code, code)
  {
    if code != "" {
      AlphabetRange(code[0]);
      SpellableIsOwnVariant(code[1..]);
    }
  }

  // ----- the upper case of all other characters

  /**
   What is assumed of the program's upper case: it takes the same characters to code letters as
   `Upper` does, upper case has itself as upper case, and separators come from separators only.
   */
  ghost predicate LikeUpper(upper: char -> string) {
    forall ch ::
      && (Spellable(upper(ch)) || Spellable(Upper(ch)) ==> upper(ch) == Upper(ch))
      && (IsSeparator(ch) ==> upper(ch) == [ch])
      && forall i | 0 <= i < |upper(ch)| ::
           upper(upper(ch)[i]) == [upper(ch)[i]] && (IsSeparator(upper(ch)[i]) ==> upper(ch)[i] == ch)
  }

  function WithoutSeparators(text: string): string {
    if text == "" then ""
    else (if IsSeparator(text[0]) then "" else [text[0]]) + WithoutSeparators(text[1..])
  }

  function UpperAll(upper: char -> string, raw: string): string {
    if raw == "" then "" else upper(raw[0]) + UpperAll(upper, raw[1..])
  }

  /** normalize_code, whatever the upper case of other characters is. */
  function NormalizeBy(upper: char -> string, raw: string): string {
    WithoutSeparators(UpperAll(upper, raw))
  }

  lemma {:induction false} WithoutSeparatorsJoins(a: string, b: string)
    ensures WithoutSeparators(a + b) == WithoutSeparators(a) + WithoutSeparators(b)
  {
    if a == "" {
      assert a + b == b;
    } else {
      assert (a + b)[1..] == a[1..] + b;
      WithoutSeparatorsJoins(a[1..], b);
    }
  }

  lemma {:induction false} NothingToLeaveOut(text: string)
    requires forall i | 0 <= i < |text| :: !IsSeparator(text[i])
    ensures WithoutSeparators(text) == text
  {
    if text != "" {
      NothingToLeaveOut(text[1..]);
      assert text == [text[0]] + text[1..];
    }
  }

  lemma {:induction false} NormalizeByStep(upper: char -> string, raw: string)
    requires LikeUpper(upper) && raw != ""
    ensures NormalizeBy(upper, raw)
         == (if IsSeparator(raw[0]) then "" else upper(raw[0])) + NormalizeBy(upper, raw[1..])
  {
    var up := upper(raw[0]);
    WithoutSeparatorsJoins(up, UpperAll(upper, raw[1..]));
    if IsSeparator(raw[0]) {
      assert up == [raw[0]] && up[1..] == "";
    } else {
      NothingToLeaveOut(up);
    }
  }

  /** As far as codes are concerned, `Upper` is all there is to know of the upper case. */
  lemma {:induction false} UpperIsEnough(upper: char -> string, raw: string, code: string)
    requires LikeUpper(upper) && Spellable(code)
    ensures NormalizeBy(upper, raw) == code <==> Normalize(raw) == code
  {
    if raw != "" {
      NormalizeByStep(upper, raw);
      if IsSeparator(raw[0]) {
        UpperIsEnough(upper, raw[1..], code);
        assert Normalize(raw) == Normalize(raw[1..]);
        assert NormalizeBy(upper, raw) == NormalizeBy(upper, raw[1..]);
      } else {
        var up, up' := upper(raw[0]), Upper(raw[0]);
        StartsWith(up, NormalizeBy(upper, raw[1..]), code);
        StartsWith(up', Normalize(raw[1..]), code);
        if (|up| <= |code| && up == code[..|up|]) || (|up'| <= |code| && up' == code[..|up'|]) {
          assert Spellable(up) || Spellable(up');
          UpperIsEnough(upper, raw[1..], code[|up|..]);
        }
      }
    }
  }

  /** Characters that normalising leaves as they are. */
  predicate Canonical(upper: char -> string, text: string) {
    forall i | 0 <= i < |text| :: !IsSeparator(text[i]) && upper(text[i]) == [text[i]]
  }

  lemma {:induction false} CanonicalStays(upper: char -> string, text: string)
    requires LikeUpper(upper) && Canonical(upper, text)
    ensures NormalizeBy(upper, text) == text
  {
    if text != "" {
      NormalizeByStep(upper, text);
      CanonicalStays(upper, text[1..]);
      assert text == [text[0]] + text[1..];
    }
  }

  lemma {:induction false} NormalizedIsCanonical(upper: char -> string, raw: string)
    requires LikeUpper(upper)
    ensures Canonical(upper, NormalizeBy(upper, raw))
  {
    if raw != "" {
      NormalizeByStep(upper, raw);
      NormalizedIsCanonical(upper, raw[1..]);
      if !IsSeparator(raw[0]) {
        assert Canonical(upper, upper(raw[0]));
      }
    }
  }

  /** Normalising twice is normalising once. */
  lemma {:induction false} NormalizeIdempotent(upper: char -> string, raw: string)
    requires LikeUpper(upper)
    ensures NormalizeBy(upper, NormalizeBy(upper, raw)) == NormalizeBy(upper, raw)
  {
    NormalizedIsCanonical(upper, raw);
    CanonicalStays(upper, NormalizeBy(upper, raw));
  }

  lemma {:induction false} UpperTwice(ch: char, i: nat)
    requires i < |Upper(ch)|
    ensures Upper(Upper(ch)[i]) == [Upper(ch)[i]] && (IsSeparator(Upper(ch)[i]) ==> Upper(ch)[i] == ch)
  {
    if 'a' <= ch <= 'z' {
      assert 'A' <= Upper(ch)[i] <= 'Z';
    }
  }

  /** The assumptions hold of `Upper` itself. */
  lemma {:induction false} UpperIsLikeUpper()
    ensures LikeUpper(Upper)
  {
    forall ch, i | 0 <= i < |Upper(ch)|
      ensures Upper(Upper(ch)[i]) == [Upper(ch)[i]] && (IsSeparator(Upper(ch)[i]) ==> Upper(ch)[i] == ch)
    {
      UpperTwice(ch, i);
    }
  }

  /** The syntax check accepts exactly the variants of codes. */
  lemma {:induction false} WellFormedIffVariant(raw: string)
    ensures IsWellFormed(raw) <==> exists code :: IsCode(code) && Variant(raw, code)
  {
    if IsWellFormed(raw) {
      NormalizeFindsVariants(raw, Normalize(raw));
    }
    forall code | IsCode(code) && Variant(raw, code)
      ensures IsWellFormed(raw)
    {
      NormalizeFindsVariants(raw, code);
    }
  }

  /** A code typed with a sharp s is well formed and stands for the code with two letters S. */
  lemma {:induction false} SharpSIsTwoLetters(rest: string)
    requires Spellable(rest) && |rest| == CODE_LENGTH - 2
    ensures IsWellFormed("\U{DF}" + rest) && Normalize("\U{DF}" + rest) == "SS" + rest
  {
    var raw, code := "\U{DF}" + rest, "SS" + rest;
    SpellableIsOwnVariant(rest);
    assert raw[1..] == rest && code[2..] == rest && code[..2] == "SS";
    assert Spellable(code);
    NormalizeFindsVariants(raw, code);
  }

  // ----- the printed form

  lemma {:induction false} VariantsJoin(raw1: string, code1: string, raw2: string, code2: string)
    requires Variant(raw1, code1) && Variant(raw2, code2)
    ensures Variant(raw1 + raw2, code1 + code2)
  {
    if raw1 == "" {
      assert raw1 + raw2 == raw2 && code1 + code2 == code2;
    } else {
      assert (raw1 + raw2)[1..] == raw1[1..] + raw2;
      if IsSeparator(raw1[0]) {
        VariantsJoin(raw1[1..], code1, raw2, code2);
      } else if SameLetter(raw1[0], code1[0]) && Variant(raw1[1..], code1[1..]) {
        assert (code1 + code2)[1..] == code1[1..] + code2;
        VariantsJoin(raw1[1..], code1[1..], raw2, code2);
      } else {
        assert (code1 + code2)[..2] == code1[..2] && (code1 + code2)[2..] == code1[2..] + code2;
        VariantsJoin(raw1[1..], code1[2..], raw2, code2);
      }
    }
  }

  lemma {:induction false} DashedIsVariant(head: string, tail: string)
    requires Spellable(head) && Spellable(tail)
    ensures Variant(head + "-" + tail, head + tail)
  {
    SpellableIsOwnVariant(head);
    SpellableIsOwnVariant(tail);
    var dashed := "-" + tail;
    assert dashed[1..] == tail;
    assert Variant(dashed, tail);
    VariantsJoin(head, head, dashed, tail);
    assert head + dashed == head + "-" + tail;
  }

  /** The printed form is one of the variants. */
  lemma {:induction false} PrintedIsVariant(code: string)
    requires IsCode(code)
    ensures Variant(Printed(code), code)
  {
    DashedIsVariant(code[..3], code[3..]);
    assert code[..3] + code[3..] == code;
  }

  /** The printed form is the first three characters, a dash and the last three. */
  lemma {:induction false} PrintedForm(code: string)
    requires IsCode(code)
    ensures Printed(code) == [code[0], code[1], code[2], '-', code[3], code[4], code[5]]
  {
  }

  predicate Unmistakable(c: char) {
    || ('A' <= c <= 'Z' && c != 'B' && c != 'I' && c != 'L' && c != 'O' && c != 'U' && c != 'V')
    || ('2' <= c <= '9' && c != '8')
  }

  lemma {:induction false} LettersOf(c: char, k: nat)
    requires k < |ALPHABET| && ALPHABET[k] == c
    ensures Unmistakable(c)
  {
  }

  lemma {:induction false} AlphabetSpelledOut(c: char)
    ensures c in ALPHABET <==> Unmistakable(c)
  {
    assert |ALPHABET| == 27;
    assert ALPHABET[0] == 'A' && ALPHABET[1] == 'C' && ALPHABET[2] == 'D' && ALPHABET[3] == 'E' && ALPHABET[4] == 'F';
    assert ALPHABET[5] == 'G' && ALPHABET[6] == 'H' && ALPHABET[7] == 'J' && ALPHABET[8] == 'K' && ALPHABET[9] == 'M';
    assert ALPHABET[10] == 'N' && ALPHABET[11] == 'P' && ALPHABET[12] == 'Q' && ALPHABET[13] == 'R';
    assert ALPHABET[14] == 'S' && ALPHABET[15] == 'T' && ALPHABET[16] == 'W' && ALPHABET[17] == 'X';
    assert ALPHABET[18] == 'Y' && ALPHABET[19] == 'Z' && ALPHABET[20] == '2' && ALPHABET[21] == '3';
    assert ALPHABET[22] == '4' && ALPHABET[23] == '5' && ALPHABET[24] == '6' && ALPHABET[25] == '7';
    assert ALPHABET[26] == '9';
    if c in ALPHABET {
      var k :| 0 <= k < |ALPHABET| && ALPHABET[k] == c;
      LettersOf(c, k);
    }
  }

  /** Codes are six capitals or digits, none of them easily mistaken for another. */
  lemma {:induction false} CodesSpelledOut(code: string)
    ensures IsCode(code) <==> |code| == 6 && forall i | 0 <= i < |code| :: Unmistakable(code[i])
  {
    forall i | 0 <= i < |code| ensures code[i] in ALPHABET <==> Unmistakable(code[i]) {
      AlphabetSpelledOut(code[i]);
    }
  }
}
