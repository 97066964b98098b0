/** The static per-symbology table: each encodable character with its module
    widths and the check value used in checksum arithmetic, and the two
    linear-scan lookups into it. */
module CharacterCodes {
  import opened Common

  /** `AbstractBarcodeStrategy.CharacterCode`. */
  datatype CharacterCode = CharacterCode(character: char, widths: seq<Byte>, check: int)

  /** `getCharacterCode(char)`: the first entry whose character is `c`, or null
      (LookupFirst states it). */
  function Lookup(codes: seq<CharacterCode>, c: char): Option<CharacterCode> {
    if codes == [] then None
    else if codes[0].character == c then Some(codes[0])
    else Lookup(codes[1..], c)
  }

  /** The lookup fails exactly when no entry has the character, and otherwise
      returns the first entry that has it. */
  lemma {:induction false} LookupFirst(codes: seq<CharacterCode>, c: char)
    ensures Lookup(codes, c).None? <==> forall i | 0 <= i < |codes| :: codes[i].character != c
    ensures Lookup(codes, c).Some? ==>
      exists i :: 0 <= i < |codes| && codes[i] == Lookup(codes, c).value && IsFirstCharacter(codes, i, c)
  {
    if codes != [] && codes[0].character != c {
      LookupFirst(codes[1..], c);
      var r := Lookup(codes[1..], c);
      if r.Some? {
        var i :| 0 <= i < |codes[1..]| && codes[1..][i] == r.value && IsFirstCharacter(codes[1..], i, c);
        assert IsFirstCharacter(codes, i + 1, c);
      } else {
        forall i | 0 <= i < |codes| ensures codes[i].character != c {
          if i > 0 {
            assert codes[i] == codes[1..][i - 1];
          }
        }
      }
    } else if codes != [] {
      assert IsFirstCharacter(codes, 0, c);
    }
  }

  /** Entry `i` is the first one in the table whose character is `c`. */
  predicate IsFirstCharacter(codes: seq<CharacterCode>, i: int, c: char)
    requires 0 <= i < |codes|
  {
    codes[i].character == c && forall k | 0 <= k < i :: codes[k].character != c
  }

  /** `getCharacterCode(int)`: the first entry whose check value is `check`, or
      null (LookupCheckFirst states it). */
  function LookupCheck(codes: seq<CharacterCode>, check: int): Option<CharacterCode> {
    if codes == [] then None
    else if codes[0].check == check then Some(codes[0])
    else LookupCheck(codes[1..], check)
  }

  /** The check lookup fails exactly when no entry has the value, and otherwise
      returns the first entry that has it. */
  lemma {:induction false} LookupCheckFirst(codes: seq<CharacterCode>, check: int)
    ensures LookupCheck(codes, check).None? <==> forall i | 0 <= i < |codes| :: codes[i].check != check
    ensures LookupCheck(codes, check).Some? ==>
      exists i :: 0 <= i < |codes| && codes[i] == LookupCheck(codes, check).value && IsFirstCheck(codes, i, check)
  {
    if codes != [] && codes[0].check != check {
      LookupCheckFirst(codes[1..], check);
      var r := LookupCheck(codes[1..], check);
      if r.Some? {
        var i :| 0 <= i < |codes[1..]| && codes[1..][i] == r.value && IsFirstCheck(codes[1..], i, check);
        assert IsFirstCheck(codes, i + 1, check);
      } else {
        forall i | 0 <= i < |codes| ensures codes[i].check != check {
          if i > 0 {
            assert codes[i] == codes[1..][i - 1];
          }
        }
      }
    } else if codes != [] {
      assert IsFirstCheck(codes, 0, check);
    }
  }

  /** Entry `i` is the first one in the table whose check value is `check`. */
  predicate IsFirstCheck(codes: seq<CharacterCode>, i: int, check: int)
    requires 0 <= i < |codes|
  {
    codes[i].check == check && forall k | 0 <= k < i :: codes[k].check != check
  }

  /** The linear scan of `getCharacterCode(char)`. */
  method GetCharacterCode(codes: seq<CharacterCode>, c: char) returns (r: Option<CharacterCode>)
    ensures r == Lookup(codes, c)
  {
    for i := 0 to |codes|
      invariant forall k | 0 <= k < i :: codes[k].character != c
    {
      if codes[i].character == c {
        FirstCharacterUnique(codes, i, c);
        return Some(codes[i]);
      }
    }
    LookupFirst(codes, c);
    return None;
  }

  /** The linear scan of `getCharacterCode(int)`. */
  method GetCharacterCodeByCheck(codes: seq<CharacterCode>, check: int) returns (r: Option<CharacterCode>)
    ensures r == LookupCheck(codes, check)
  {
    for i := 0 to |codes|
      invariant forall k | 0 <= k < i :: codes[k].check != check
    {
      if codes[i].check == check {
        FirstCheckUnique(codes, i, check);
        return Some(codes[i]);
      }
    }
    LookupCheckFirst(codes, check);
    return None;
  }

  /** Only the first matching entry can be the one found. */
  lemma FirstCharacterUnique(codes: seq<CharacterCode>, i: int, c: char)
    requires 0 <= i < |codes| && IsFirstCharacter(codes, i, c)
    ensures Lookup(codes, c) == Some(codes[i])
  {
    LookupFirst(codes, c);
    var r := Lookup(codes, c);
    var i' :| 0 <= i' < |codes| && codes[i'] == r.value && IsFirstCharacter(codes, i', c);
    assert codes[i'].character == c && codes[i].character == c;
    assert i' == i;
  }

  /** Only the first entry with the check value can be the one found. */
  lemma FirstCheckUnique(codes: seq<CharacterCode>, i: int, check: int)
    requires 0 <= i < |codes| && IsFirstCheck(codes, i, check)
    ensures LookupCheck(codes, check) == Some(codes[i])
  {
    LookupCheckFirst(codes, check);
    var r := LookupCheck(codes, check);
    var i' :| 0 <= i' < |codes| && codes[i'] == r.value && IsFirstCheck(codes, i', check);
    assert codes[i'].check == check && codes[i].check == check;
    assert i' == i;
  }

  /** Every character of `text` has an entry in the table. */
  predicate Encodable(codes: seq<CharacterCode>, text: string) {
    forall i | 0 <= i < |text| :: Lookup(codes, text[i]).Some?
  }

  /** The widths of a character known to be in the table. */
  function WidthsOf(codes: seq<CharacterCode>, c: char): seq<Byte>
    requires Lookup(codes, c).Some?
  {
    Lookup(codes, c).value.widths
  }

  predicate DistinctCharacters(codes: seq<CharacterCode>) {
    forall i, k | 0 <= i < k < |codes| :: codes[i].character != codes[k].character
  }

  predicate DistinctChecks(codes: seq<CharacterCode>) {
    forall i, k | 0 <= i < k < |codes| :: codes[i].check != codes[k].check
  }

  /** Every entry contributes at least one module. */
  predicate NonEmptyWidths(codes: seq<CharacterCode>) {
    forall i | 0 <= i < |codes| :: |codes[i].widths| > 0
  }

  /** Over a table without repeated characters the character lookup is
      unambiguous: it finds each entry by its own character. */
  lemma LookupFindsEntry(codes: seq<CharacterCode>, i: int)
    requires DistinctCharacters(codes) && 0 <= i < |codes|
    ensures Lookup(codes, codes[i].character) == Some(codes[i])
  {
    assert IsFirstCharacter(codes, i, codes[i].character);
    FirstCharacterUnique(codes, i, codes[i].character);
  }

  /** Over a table without repeated check values the check lookup finds each
      entry by its own check value. */
  lemma LookupCheckFindsEntry(codes: seq<CharacterCode>, i: int)
    requires DistinctChecks(codes) && 0 <= i < |codes|
    ensures LookupCheck(codes, codes[i].check) == Some(codes[i])
  {
    assert IsFirstCheck(codes, i, codes[i].check);
    FirstCheckUnique(codes, i, codes[i].check);
  }
}
