/** Code 11 (`jbarcodebean.Code11`): a 13-entry table and a dual weighted
    modulo-11 checksum. */
module Code11Symbology {
  import opened Common
  import opened CharacterCodes

  /** The characters of the table, in table order. */
  const CHARACTERS: string := "0123456789-*$"

  /** The characters a check value from 0 to 10 maps back to. */
  const CHECK_CHARACTERS: string := "0123456789-"

  const Codes: seq<CharacterCode> := [
    CharacterCode('0', [1, 1, 1, 1, 2, 1], 0),
    CharacterCode('1', [2, 1, 1, 1, 2, 1], 1),
    CharacterCode('2', [1, 2, 1, 1, 2, 1], 2),
    CharacterCode('3', [2, 2, 1, 1, 1, 1], 3),
    CharacterCode('4', [1, 1, 2, 1, 2, 1], 4),
    CharacterCode('5', [2, 1, 2, 1, 1, 1], 5),
    CharacterCode('6', [1, 2, 2, 1, 1, 1], 6),
    CharacterCode('7', [1, 1, 1, 2, 2, 1], 7),
    CharacterCode('8', [2, 1, 1, 2, 1, 1], 8),
    CharacterCode('9', [2, 1, 1, 1, 1, 1], 9),
    CharacterCode('-', [1, 1, 2, 1, 1, 1], 10),
    CharacterCode('*', [1, 1, 2, 2, 1, 1], 11),
    CharacterCode('$', [0, 1], 12)
  ]

  // The constant hooks.
  const MARGIN_WIDTH: Byte := 0
  const START_SENTINEL: char := '*'
  const STOP_SENTINEL: char := '*'
  const INTERLEAVED: bool := false
  const REQUIREMENT: ChecksumRequirement := OptionalChecksum

  /** Entry i holds the i-th character of CHARACTERS with check value i; `$` has
      the two widths 0 and 1; no entry is empty. */
  lemma TableContents()
    ensures |Codes| == |CHARACTERS| == 13
    ensures forall i | 0 <= i < 13 :: Codes[i].character == CHARACTERS[i] && Codes[i].check == i
    ensures Codes[12].character == '$' && Codes[12].widths == [0, 1]
    ensures NonEmptyWidths(Codes)
  {
  }

  /** Characters and check values are pairwise distinct, so both lookups are
      unambiguous. */
  lemma TableDistinct()
    ensures DistinctCharacters(Codes) && DistinctChecks(Codes)
  {
    TableContents();
    CharactersDistinct();
  }

  /** No character appears twice in CHARACTERS. */
  lemma CharactersDistinct()
    ensures forall i, k | 0 <= i < k < |CHARACTERS| :: CHARACTERS[i] != CHARACTERS[k]
  {
  }

  /** Each table character is found with its own check value. */
  lemma LookupByCharacter(i: int)
    requires 0 <= i < 13
    ensures Lookup(Codes, CHARACTERS[i]) == Some(Codes[i])
    ensures Lookup(Codes, CHARACTERS[i]).value.check == i
  {
    TableContents();
    TableDistinct();
    LookupFindsEntry(Codes, i);
  }

  /** A character is in the table exactly when it is one of CHARACTERS. */
  lemma InTableIff(c: char)
    ensures Lookup(Codes, c).Some? <==> c in CHARACTERS
  {
    TableContents();
    LookupFirst(Codes, c);
    if c in CHARACTERS {
      var i :| 0 <= i < 13 && CHARACTERS[i] == c;
      LookupByCharacter(i);
    }
  }

  /** Every check value from 0 to 10 resolves to a digit or `-`. */
  lemma CheckValuesResolve(v: int)
    requires 0 <= v <= 10
    ensures LookupCheck(Codes, v) == Some(Codes[v])
    ensures Codes[v].character == CHECK_CHARACTERS[v]
  {
    TableContents();
    TableDistinct();
    LookupCheckFindsEntry(Codes, v);
  }

  /** The check value of a table character, every one between 0 and 12; a
      character outside the table counts 0 here, though the checksum is never
      taken over such text. */
  function Check(c: char): (v: int)
    ensures 0 <= v <= 12
    ensures Lookup(Codes, c).Some? ==> v == Lookup(Codes, c).value.check
  {
    CheckRange();
    LookupFirst(Codes, c);
    match Lookup(Codes, c)
    case None => 0
    case Some(code) => code.check
  }

  lemma CheckRange()
    ensures forall i | 0 <= i < |Codes| :: 0 <= Codes[i].check <= 12
  {
  }

  /** The weighted sum of `text` taken right to left: the character p places
      from the right end (p = 0 for the last one) weighs p % cycle + 1, so the
      weights run 1, 2, ..., cycle, 1, 2, ... from the right. */
  function WeightedSum(text: string, cycle: nat): (sum: int)
    requires cycle > 0
    ensures sum >= 0
  {
    if text == [] then 0
    else
      var weight := Weight(cycle, |text| - 1);
      var check := Check(text[0]);
      ProductNonNegative(check, weight);
      check * weight + WeightedSum(text[1..], cycle)
  }

  /** The weight of the character p places from the right end. */
  function Weight(cycle: nat, p: nat): (w: int)
    requires cycle > 0
    ensures 1 <= w <= cycle
  {
    p % cycle + 1
  }

  /** The loop's wrap-around counter computes the weights: one more, or back to
      1 once it would pass the cycle length. */
  lemma WeightStep(cycle: nat, p: nat)
    requires cycle == 10 || cycle == 9
    ensures Weight(cycle, p + 1) == if Weight(cycle, p) + 1 > cycle then 1 else Weight(cycle, p) + 1
  {
    if cycle == 10 {
      assert (p + 1) % 10 == if p % 10 == 9 then 0 else p % 10 + 1;
    } else {
      assert (p + 1) % 9 == if p % 9 == 8 then 0 else p % 9 + 1;
    }
  }

  lemma ProductNonNegative(a: int, b: int)
    requires a >= 0 && b >= 0
    ensures a * b >= 0
  {
  }

  /** Check C: weights cycling 1..10, modulo 11.  The sum is never negative, so
      Java's `%` and Dafny's agree. */
  function CheckC(text: string): (c: int)
    requires Encodable(Codes, text)
    ensures 0 <= c <= 10
  {
    WeightedSum(text, 10) % 11
  }

  /** Check K: weights cycling 1..9, modulo 11, over the same text (C is not
      part of it). */
  function CheckK(text: string): (k: int)
    requires Encodable(Codes, text)
    ensures 0 <= k <= 10
  {
    WeightedSum(text, 9) % 11
  }

  /** The character whose check value is v. */
  function CheckCharacter(v: int): (c: char)
    requires 0 <= v <= 10
    ensures c == CHECK_CHARACTERS[v]
  {
    CheckValuesResolve(v);
    LookupCheck(Codes, v).value.character
  }

  /** `augmentWithChecksum`: the text followed by C, and by K as well when the
      text has at least 10 characters.  A character outside the table makes the
      unguarded `cc.check` throw a NullPointerException. */
  function WithChecksum(text: string): Result<string> {
    if !Encodable(Codes, text) then Err(RuntimeFault(NULL_POINTER))
    else if |text| >= 10 then Ok(text + [CheckCharacter(CheckC(text)), CheckCharacter(CheckK(text))])
    else Ok(text + [CheckCharacter(CheckC(text))])
  }

  /** What the checksum step promises: it fails exactly on text with a
      character outside the table, and otherwise keeps the text as a prefix and
      appends one (short text) or two (10 characters or more) check characters,
      each a digit or `-`. */
  lemma ChecksumAppends(text: string)
    ensures WithChecksum(text).Err? <==> exists i :: 0 <= i < |text| && text[i] !in CHARACTERS
    ensures WithChecksum(text).Ok? ==>
      var r := WithChecksum(text).value;
      && |r| == |text| + (if |text| >= 10 then 2 else 1)
      && r[..|text|] == text
      && (forall i | |text| <= i < |r| :: r[i] in CHECK_CHARACTERS)
  {
    if !Encodable(Codes, text) {
      var i :| 0 <= i < |text| && Lookup(Codes, text[i]).None?;
      InTableIff(text[i]);
    } else {
      forall i | 0 <= i < |text| ensures text[i] in CHARACTERS { InTableIff(text[i]); }
    }
  }

  /** The loop of `augmentWithChecksum`: right to left with two weight counters
      that wrap from 10 (C) and from 9 (K) back to 1, then the check
      characters are looked up by value and appended, and the result is copied
      character by character into a buffer. */
  method AugmentWithChecksum(text: string) returns (r: Result<string>)
    ensures r == WithChecksum(text)
  {
    var sums := ChecksumLoop(text);
    if sums.Err? {
      return Err(sums.error);
    }
    var (checksumC, checksumK) := sums.value;
    checksumC := checksumC % 11;
    checksumK := checksumK % 11;
    var augmented := AppendCheckCharacters(text, checksumC, checksumK);
    var buf := CopyToBuffer(augmented);
    return Ok(buf);
  }

  /** The loop of `augmentWithChecksum`, right to left: both running sums,
      with weight counters that wrap from 10 and from 9 back to 1.  The lookup
      of a character outside the table is dereferenced unchecked. */
  method ChecksumLoop(text: string) returns (r: Result<(int, int)>)
    ensures Encodable(Codes, text) ==> r == Ok((WeightedSum(text, 10), WeightedSum(text, 9)))
    ensures !Encodable(Codes, text) ==> r == Err(RuntimeFault(NULL_POINTER))
  {
    var checksumC := 0;
    var checksumK := 0;
    var weightC := 1;
    var weightK := 1;
    var i := |text| - 1;
    while i >= 0
      invariant -1 <= i < |text|
      invariant forall k | i < k < |text| :: Lookup(Codes, text[k]).Some?
      invariant checksumC == WeightedSum(text[i + 1..], 10)
      invariant checksumK == WeightedSum(text[i + 1..], 9)
      invariant weightC == Weight(10, |text| - (i + 1))
      invariant weightK == Weight(9, |text| - (i + 1))
    {
      var cc := GetCharacterCode(Codes, text[i]);
      if cc.None? {
        assert !Encodable(Codes, text) by {
          assert Lookup(Codes, text[i]).None?;
        }
        return Err(RuntimeFault(NULL_POINTER));
      }
      checksumC, checksumK, weightC, weightK :=
        AccumulateCharacter(text, i, checksumC, checksumK, weightC, weightK, cc.value.check);
      i := i - 1;
    }
    assert text[0..] == text;
    assert Encodable(Codes, text);
    return Ok((checksumC, checksumK));
  }

  /** The middle of `augmentWithChecksum`: C and K are looked up by check
      value, and C is appended, followed by K when the text has at least 10
      characters. */
  method AppendCheckCharacters(text: string, checksumC: int, checksumK: int) returns (augmented: string)
    requires 0 <= checksumC <= 10 && 0 <= checksumK <= 10
    ensures |text| < 10 ==> augmented == text + [CHECK_CHARACTERS[checksumC]]
    ensures |text| >= 10 ==> augmented == text + [CHECK_CHARACTERS[checksumC], CHECK_CHARACTERS[checksumK]]
  {
    var codeC := GetCharacterCodeByCheck(Codes, checksumC);
    var codeK := GetCharacterCodeByCheck(Codes, checksumK);
    CheckValuesResolve(checksumC);
    CheckValuesResolve(checksumK);
    if |text| >= 10 {
      augmented := text + [codeC.value.character, codeK.value.character];
    } else {
      augmented := text + [codeC.value.character];
    }
  }

  /** The closing loop of `augmentWithChecksum`: the text appended character
      by character to an empty `StringBuffer` is the text again. */
  method CopyToBuffer(text: string) returns (buf: string)
    ensures buf == text
  {
    buf := [];
    for k := 0 to |text|
      invariant buf == text[..k]
    {
      assert text[..k + 1] == text[..k] + [text[k]];
      buf := buf + [text[k]];
    }
    assert text[..|text|] == text;
  }

  /** One turn of the checksum loop: add the character's check value times
      each weight to the sums, then advance each weight, wrapping from 10 (C)
      or 9 (K) back to 1. The results are the sums and weights over one more
      character. */
  method AccumulateCharacter(text: string, i: int, sumC: int, sumK: int, weightC: int, weightK: int, check: int)
    returns (nextSumC: int, nextSumK: int, nextWeightC: int, nextWeightK: int)
    requires 0 <= i < |text| && Lookup(Codes, text[i]).Some?
    requires check == Lookup(Codes, text[i]).value.check
    requires sumC == WeightedSum(text[i + 1..], 10) && sumK == WeightedSum(text[i + 1..], 9)
    requires weightC == Weight(10, |text| - (i + 1)) && weightK == Weight(9, |text| - (i + 1))
    ensures nextSumC == WeightedSum(text[i..], 10) && nextSumK == WeightedSum(text[i..], 9)
    ensures nextWeightC == Weight(10, |text| - i) && nextWeightK == Weight(9, |text| - i)
  {
    SuffixStep(text, i, 10);
    SuffixStep(text, i, 9);
    WeightStep(10, |text| - (i + 1));
    WeightStep(9, |text| - (i + 1));
    nextSumC := sumC + check * weightC;
    nextSumK := sumK + check * weightK;
    nextWeightC := weightC + 1;
    if nextWeightC > 10 {
      nextWeightC := 1;
    }
    nextWeightK := weightK + 1;
    if nextWeightK > 9 {
      nextWeightK := 1;
    }
  }

  /** Extending the processed suffix by one character to the left adds that
      character's check value times its weight. */
  lemma SuffixStep(text: string, i: int, cycle: nat)
    requires 0 <= i < |text| && cycle > 0 && Lookup(Codes, text[i]).Some?
    ensures Lookup(Codes, text[i]).value.check == Check(text[i])
    ensures WeightedSum(text[i..], cycle) == Check(text[i]) * Weight(cycle, |text| - (i + 1)) + WeightedSum(text[i + 1..], cycle)
  {
    assert text[i..][0] == text[i] && text[i..][1..] == text[i + 1..];
  }


  /** The check value of each digit is the digit itself, and that of `-` is 10. */
  lemma DigitChecks()
    ensures forall i | 0 <= i < 11 :: Lookup(Codes, CHECK_CHARACTERS[i]).Some? && Check(CHECK_CHARACTERS[i]) == i
  {
    forall i | 0 <= i < 11
      ensures Lookup(Codes, CHECK_CHARACTERS[i]).Some? && Check(CHECK_CHARACTERS[i]) == i
    {
      DigitCheck(i);
    }
  }

  /** The check value of one digit or `-`. */
  lemma DigitCheck(i: int)
    requires 0 <= i < 11
    ensures Lookup(Codes, CHECK_CHARACTERS[i]).Some? && Check(CHECK_CHARACTERS[i]) == i
  {
    assert CHECK_CHARACTERS[i] == CHARACTERS[i];
    LookupByCharacter(i);
  }

  /** How a text's check characters follow from its two weighted sums. */
  lemma ChecksumFromSums(text: string, sumC: int, sumK: int)
    requires Encodable(Codes, text)
    requires WeightedSum(text, 10) == sumC && WeightedSum(text, 9) == sumK
    ensures |text| < 10 ==> WithChecksum(text) == Ok(text + [CHECK_CHARACTERS[sumC % 11]])
    ensures |text| >= 10 ==> WithChecksum(text) == Ok(text + [CHECK_CHARACTERS[sumC % 11], CHECK_CHARACTERS[sumK % 11]])
  {
    assert CheckC(text) == sumC % 11;
    assert CheckK(text) == sumK % 11;
  }

  /** A text of digits and dashes is encodable. */
  lemma CheckCharactersEncodable(text: string)
    requires forall i | 0 <= i < |text| :: text[i] in CHECK_CHARACTERS
    ensures Encodable(Codes, text)
  {
    forall i | 0 <= i < |text| ensures Lookup(Codes, text[i]).Some? {
      InTableIff(text[i]);
    }
  }

  /** The largest Java `int`, which the source's sums are declared as. */
  const INT_MAX: int := 0x7fff_ffff

  /** The longest text whose sums surely stay in `int` range: each character
      adds at most 12 · 10 to the C sum. */
  const MAX_UNWRAPPED_LENGTH: int := 17_895_697

  /** Each character adds at most 12 times the cycle length to a sum. */
  lemma {:induction false} WeightedSumBound(text: string, cycle: nat)
    requires cycle > 0
    ensures WeightedSum(text, cycle) <= 12 * cycle * |text|
  {
    if text != [] {
      WeightedSumBound(text[1..], cycle);
      var weight := Weight(cycle, |text| - 1);
      var check := Check(text[0]);
      assert check * weight <= 12 * cycle by {
        assert check * weight <= 12 * weight;
      }
      assert 12 * cycle * |text| == 12 * cycle * |text[1..]| + 12 * cycle;
    }
  }

  /** Up to `MAX_UNWRAPPED_LENGTH` characters, every sum the loop of
      `augmentWithChecksum` forms lies within Java's `int` range, so there the
      unbounded sums of the model are the source's. */
  lemma ChecksumsFitInInt(text: string)
    requires |text| <= MAX_UNWRAPPED_LENGTH
    ensures forall i | 0 <= i <= |text| :: WeightedSum(text[i..], 10) <= INT_MAX && WeightedSum(text[i..], 9) <= INT_MAX
  {
    forall i | 0 <= i <= |text|
      ensures WeightedSum(text[i..], 10) <= INT_MAX && WeightedSum(text[i..], 9) <= INT_MAX
    {
      WeightedSumBound(text[i..], 10);
      WeightedSumBound(text[i..], 9);
    }
  }

  /** One step of the right-to-left sum: the first character carries the weight
      of its distance from the right end. */
  lemma WeightedSumStep(text: string, cycle: nat, check: int)
    requires cycle > 0 && text != []
    requires Check(text[0]) == check
    ensures WeightedSum(text, cycle) == check * Weight(cycle, |text| - 1) + WeightedSum(text[1..], cycle)
  {
  }

  /** The same step while the text is no longer than the weight cycle: the
      first character then weighs the text's length. */
  lemma WeightedSumStepShort(text: string, cycle: nat, check: int)
    requires 0 < |text| <= 9 && (cycle == 10 || cycle == 9)
    requires Check(text[0]) == check
    ensures WeightedSum(text, cycle) == check * |text| + WeightedSum(text[1..], cycle)
  {
    WeightedSumStep(text, cycle, check);
    WeightSmall(cycle, |text| - 1);
  }

  /** A character with check value 0 adds nothing, whatever its weight. */
  lemma WeightedSumStepZero(text: string, cycle: nat)
    requires cycle > 0 && text != [] && Check(text[0]) == 0
    ensures WeightedSum(text, cycle) == WeightedSum(text[1..], cycle)
  {
    WeightedSumStep(text, cycle, 0);
  }

  /** Below the cycle length the weight is the distance from the right end
      plus one. */
  lemma WeightSmall(cycle: nat, p: nat)
    requires p < 9 && (cycle == 10 || cycle == 9)
    ensures Weight(cycle, p) == p + 1
  {
    if cycle == 10 {
      assert p % 10 == p;
    } else {
      assert p % 9 == p;
    }
  }

  /** The short example's sum: 1·6 + 2·5 + 3·4 + 10·3 + 4·2 + 5·1 = 71. */
  lemma ShortExampleSum(u: string)
    requires u == "123-45"
    ensures WeightedSum(u, 10) == 71
  {
    assert u[6..] == [];
    assert WeightedSum(u[5..], 10) == 5 by {
      DigitCheck(5);
      assert u[5] == CHECK_CHARACTERS[5] && u[5..][1..] == u[6..];
      WeightedSumStepShort(u[5..], 10, 5);
    }
    assert WeightedSum(u[4..], 10) == 13 by {
      DigitCheck(4);
      assert u[4] == CHECK_CHARACTERS[4] && u[4..][1..] == u[5..];
      WeightedSumStepShort(u[4..], 10, 4);
    }
    assert WeightedSum(u[3..], 10) == 43 by {
      DigitCheck(10);
      assert u[3] == CHECK_CHARACTERS[10] && u[3..][1..] == u[4..];
      WeightedSumStepShort(u[3..], 10, 10);
    }
    assert WeightedSum(u[2..], 10) == 55 by {
      DigitCheck(3);
      assert u[2] == CHECK_CHARACTERS[3] && u[2..][1..] == u[3..];
      WeightedSumStepShort(u[2..], 10, 3);
    }
    assert WeightedSum(u[1..], 10) == 65 by {
      DigitCheck(2);
      assert u[1] == CHECK_CHARACTERS[2] && u[1..][1..] == u[2..];
      WeightedSumStepShort(u[1..], 10, 2);
    }
    assert WeightedSum(u[0..], 10) == 71 by {
      DigitCheck(1);
      assert u[0] == CHECK_CHARACTERS[1] && u[0..][1..] == u[1..];
      WeightedSumStepShort(u[0..], 10, 1);
    }
    assert u[0..] == u;
  }

  /** "123-45" is encodable: it has only digits and `-`. */
  lemma ShortExampleEncodable(u: string)
    requires u == "123-45"
    ensures Encodable(Codes, u)
  {
    assert forall i | 0 <= i < |u| :: u[i] in CHECK_CHARACTERS;
    CheckCharactersEncodable(u);
  }

  /** A short example: 71 mod 11 = 5, so "123-45" gets the single check
      character '5'. */
  lemma ShortExample(t: string)
    requires t == "123-45"
    ensures WithChecksum(t) == Ok("123-455")
  {
    ShortExampleEncodable(t);
    ShortExampleSum(t);
    ChecksumFromSums(t, 71, WeightedSum(t, 9));
    assert 71 % 11 == 5 && CHECK_CHARACTERS[5] == '5';
    assert t + ['5'] == "123-455";
  }

  /** The last five digits of the long example: 5·5 + 6·4 + 7·3 + 8·2 + 9·1
      = 95 under either weighting. */
  lemma LongExampleTail(v: string)
    requires v == "56789"
    ensures WeightedSum(v, 10) == 95 && WeightedSum(v, 9) == 95
  {
    assert v[5..] == [] && v[0..] == v;
    assert WeightedSum(v[4..], 10) == 9 by {
      DigitCheck(9);
      assert v[4] == CHECK_CHARACTERS[9] && v[4..][1..] == v[5..];
      WeightedSumStepShort(v[4..], 10, 9);
    }
    assert WeightedSum(v[3..], 10) == 25 by {
      DigitCheck(8);
      assert v[3] == CHECK_CHARACTERS[8] && v[3..][1..] == v[4..];
      WeightedSumStepShort(v[3..], 10, 8);
    }
    assert WeightedSum(v[2..], 10) == 46 by {
      DigitCheck(7);
      assert v[2] == CHECK_CHARACTERS[7] && v[2..][1..] == v[3..];
      WeightedSumStepShort(v[2..], 10, 7);
    }
    assert WeightedSum(v[1..], 10) == 70 by {
      DigitCheck(6);
      assert v[1] == CHECK_CHARACTERS[6] && v[1..][1..] == v[2..];
      WeightedSumStepShort(v[1..], 10, 6);
    }
    assert WeightedSum(v[0..], 10) == 95 by {
      DigitCheck(5);
      assert v[0] == CHECK_CHARACTERS[5] && v[0..][1..] == v[1..];
      WeightedSumStepShort(v[0..], 10, 5);
    }
    assert WeightedSum(v[4..], 9) == 9 by {
      DigitCheck(9);
      assert v[4] == CHECK_CHARACTERS[9] && v[4..][1..] == v[5..];
      WeightedSumStepShort(v[4..], 9, 9);
    }
    assert WeightedSum(v[3..], 9) == 25 by {
      DigitCheck(8);
      assert v[3] == CHECK_CHARACTERS[8] && v[3..][1..] == v[4..];
      WeightedSumStepShort(v[3..], 9, 8);
    }
    assert WeightedSum(v[2..], 9) == 46 by {
      DigitCheck(7);
      assert v[2] == CHECK_CHARACTERS[7] && v[2..][1..] == v[3..];
      WeightedSumStepShort(v[2..], 9, 7);
    }
    assert WeightedSum(v[1..], 9) == 70 by {
      DigitCheck(6);
      assert v[1] == CHECK_CHARACTERS[6] && v[1..][1..] == v[2..];
      WeightedSumStepShort(v[1..], 9, 6);
    }
    assert WeightedSum(v[0..], 9) == 95 by {
      DigitCheck(5);
      assert v[0] == CHECK_CHARACTERS[5] && v[0..][1..] == v[1..];
      WeightedSumStepShort(v[0..], 9, 5);
    }
  }

  /** The long example's sum under either weighting: 95 + 4·6 + 3·7 + 2·8 +
      1·9 = 165, the leading '0' adding nothing whatever its weight. */
  lemma LongExampleSum(u: string)
    requires u == "0123456789"
    ensures WeightedSum(u, 10) == 165 && WeightedSum(u, 9) == 165
  {
    LongExampleTail(u[5..]);
    assert u[0..] == u;
    assert WeightedSum(u[4..], 10) == 119 by {
      DigitCheck(4);
      assert u[4] == CHECK_CHARACTERS[4] && u[4..][1..] == u[5..];
      WeightedSumStepShort(u[4..], 10, 4);
    }
    assert WeightedSum(u[3..], 10) == 140 by {
      DigitCheck(3);
      assert u[3] == CHECK_CHARACTERS[3] && u[3..][1..] == u[4..];
      WeightedSumStepShort(u[3..], 10, 3);
    }
    assert WeightedSum(u[2..], 10) == 156 by {
      DigitCheck(2);
      assert u[2] == CHECK_CHARACTERS[2] && u[2..][1..] == u[3..];
      WeightedSumStepShort(u[2..], 10, 2);
    }
    assert WeightedSum(u[1..], 10) == 165 by {
      DigitCheck(1);
      assert u[1] == CHECK_CHARACTERS[1] && u[1..][1..] == u[2..];
      WeightedSumStepShort(u[1..], 10, 1);
    }
    assert WeightedSum(u[0..], 10) == 165 by {
      DigitCheck(0);
      assert u[0] == CHECK_CHARACTERS[0] && u[0..][1..] == u[1..];
      WeightedSumStepZero(u[0..], 10);
    }
    assert WeightedSum(u[4..], 9) == 119 by {
      DigitCheck(4);
      assert u[4] == CHECK_CHARACTERS[4] && u[4..][1..] == u[5..];
      WeightedSumStepShort(u[4..], 9, 4);
    }
    assert WeightedSum(u[3..], 9) == 140 by {
      DigitCheck(3);
      assert u[3] == CHECK_CHARACTERS[3] && u[3..][1..] == u[4..];
      WeightedSumStepShort(u[3..], 9, 3);
    }
    assert WeightedSum(u[2..], 9) == 156 by {
      DigitCheck(2);
      assert u[2] == CHECK_CHARACTERS[2] && u[2..][1..] == u[3..];
      WeightedSumStepShort(u[2..], 9, 2);
    }
    assert WeightedSum(u[1..], 9) == 165 by {
      DigitCheck(1);
      assert u[1] == CHECK_CHARACTERS[1] && u[1..][1..] == u[2..];
      WeightedSumStepShort(u[1..], 9, 1);
    }
    assert WeightedSum(u[0..], 9) == 165 by {
      DigitCheck(0);
      assert u[0] == CHECK_CHARACTERS[0] && u[0..][1..] == u[1..];
      WeightedSumStepZero(u[0..], 9);
    }
  }

  /** "0123456789" is encodable: it has only digits. */
  lemma LongExampleEncodable(u: string)
    requires u == "0123456789"
    ensures Encodable(Codes, u)
  {
    assert forall i | 0 <= i < |u| :: u[i] in CHECK_CHARACTERS;
    CheckCharactersEncodable(u);
  }

  /** A ten-character example gets both check characters: C and K are both
      165 mod 11 = 0. */
  lemma LongExample(t: string)
    requires t == "0123456789"
    ensures WithChecksum(t) == Ok("012345678900")
  {
    LongExampleEncodable(t);
    LongExampleSum(t);
    ChecksumFromSums(t, 165, 165);
    assert 165 % 11 == 0 && CHECK_CHARACTERS[0] == '0';
    assert t + ['0', '0'] == "012345678900";
  }
}
