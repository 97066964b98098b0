/** Codabar with a 2:1 wide-to-narrow ratio (`jbarcodebean.Codabar_2to1`): an
    18-entry table that replaces the one of its superclass `Codabar`, whose other
    hooks it keeps.

    Every `2,1` in the table appears as the literal `3.0`, which is not a Java
    byte.  Two readings are kept.  LiteralCodes takes each `3.0` as one width
    of 3.  Codes reads it back as the two widths 2 and 1, which gives every
    character the same shape: 7 modules and a narrow gap; Codes is the table
    the rest of the model uses. */
module Codabar2to1Symbology {
  import opened Common
  import opened CharacterCodes

  /** The characters of the table, in table order. */
  const CHARACTERS: string := "0123456789-$:/.+AB"

  /** The table with each `3.0` read as one width of 3. */
  const LiteralCodes: seq<CharacterCode> := [
    CharacterCode('0', [1, 1, 1, 1, 1, 2, 3], 0),
    CharacterCode('1', [1, 1, 1, 1, 2, 3, 1], 1),
    CharacterCode('2', [1, 1, 1, 3, 1, 3], 2),
    CharacterCode('3', [2, 3, 1, 1, 1, 1, 1], 3),
    CharacterCode('4', [1, 1, 3, 1, 3, 1], 4),
    CharacterCode('5', [3, 1, 1, 1, 3, 1], 5),
    CharacterCode('6', [1, 3, 1, 1, 1, 3], 6),
    CharacterCode('7', [1, 3, 1, 3, 1, 1], 7),
    CharacterCode('8', [1, 2, 3, 1, 1, 1, 1], 8),
    CharacterCode('9', [3, 1, 3, 1, 1, 1], 9),
    CharacterCode('-', [1, 1, 1, 2, 3, 1, 1], 10),
    CharacterCode('$', [1, 1, 2, 3, 1, 1, 1], 11),
    CharacterCode(':', [3, 1, 1, 3, 3], 12),
    CharacterCode('/', [3, 3, 1, 1, 3], 13),
    CharacterCode('.', [3, 3, 3, 1, 1], 14),
    CharacterCode('+', [1, 1, 3, 3, 3], 15),
    CharacterCode('A', [1, 1, 2, 3, 3, 1], 16),
    CharacterCode('B', [1, 3, 3, 1, 3], 17)
  ]

  /** The table with each `3.0` read as the widths 2 and 1. */
  const Codes: seq<CharacterCode> := [
    CharacterCode('0', [1, 1, 1, 1, 1, 2, 2, 1], 0),
    CharacterCode('1', [1, 1, 1, 1, 2, 2, 1, 1], 1),
    CharacterCode('2', [1, 1, 1, 2, 1, 1, 2, 1], 2),
    CharacterCode('3', [2, 2, 1, 1, 1, 1, 1, 1], 3),
    CharacterCode('4', [1, 1, 2, 1, 1, 2, 1, 1], 4),
    CharacterCode('5', [2, 1, 1, 1, 1, 2, 1, 1], 5),
    CharacterCode('6', [1, 2, 1, 1, 1, 1, 2, 1], 6),
    CharacterCode('7', [1, 2, 1, 1, 2, 1, 1, 1], 7),
    CharacterCode('8', [1, 2, 2, 1, 1, 1, 1, 1], 8),
    CharacterCode('9', [2, 1, 1, 2, 1, 1, 1, 1], 9),
    CharacterCode('-', [1, 1, 1, 2, 2, 1, 1, 1], 10),
    CharacterCode('$', [1, 1, 2, 2, 1, 1, 1, 1], 11),
    CharacterCode(':', [2, 1, 1, 1, 2, 1, 2, 1], 12),
    CharacterCode('/', [2, 1, 2, 1, 1, 1, 2, 1], 13),
    CharacterCode('.', [2, 1, 2, 1, 2, 1, 1, 1], 14),
    CharacterCode('+', [1, 1, 2, 1, 2, 1, 2, 1], 15),
    CharacterCode('A', [1, 1, 2, 2, 1, 2, 1, 1], 16),
    CharacterCode('B', [1, 2, 1, 2, 1, 1, 2, 1], 17)
  ]

  /** The start and stop characters, as marked in the table. */
  const START_CHARACTER: char := 'A'
  const STOP_CHARACTER: char := 'B'

  /** Every width 3 becomes the two widths 2 and 1. */
  function Expand(widths: seq<Byte>): seq<Byte> {
    if widths == [] then []
    else (if widths[0] == 3 then [2, 1] else [widths[0]]) + Expand(widths[1..])
  }

  /** Both readings list the same characters with the check values 0..17 in
      order, `A` (16) marked as start and `B` (17) as stop. */
  lemma TableContents()
    ensures |Codes| == |LiteralCodes| == |CHARACTERS| == 18
    ensures forall i | 0 <= i < 18 ::
      && Codes[i].character == LiteralCodes[i].character == CHARACTERS[i]
      && Codes[i].check == LiteralCodes[i].check == i
    ensures Codes[16].character == START_CHARACTER && Codes[17].character == STOP_CHARACTER
  {
  }

  /** Characters and check values are pairwise distinct, so both lookups are
      unambiguous over either table. */
  lemma TablesDistinct()
    ensures DistinctCharacters(Codes) && DistinctChecks(Codes)
    ensures DistinctCharacters(LiteralCodes) && DistinctChecks(LiteralCodes)
  {
    TableContents();
    CharactersDistinct();
  }

  /** No character appears twice in CHARACTERS. */
  lemma CharactersDistinct()
    ensures forall i, k | 0 <= i < k < |CHARACTERS| :: CHARACTERS[i] != CHARACTERS[k]
  {
  }

  /** Each character and each check value finds its own entry. */
  lemma LookupsFindEntries(i: int)
    requires 0 <= i < 18
    ensures Lookup(Codes, CHARACTERS[i]) == Some(Codes[i])
    ensures LookupCheck(Codes, i) == Some(Codes[i])
  {
    TableContents();
    TablesDistinct();
    LookupFindsEntry(Codes, i);
    LookupCheckFindsEntry(Codes, i);
  }

  /** In the literal reading every entry has between 5 and 7 widths. */
  lemma LiteralWidthCounts()
    ensures NonEmptyWidths(LiteralCodes)
    ensures forall i | 0 <= i < 18 :: 5 <= |LiteralCodes[i].widths| <= 7
  {
  }

  /** The literal reading is irregular: '0' has 7 widths ending in a 3, '2' has
      6 and ':' has 5, and a width of 3 does not belong to a 2:1 code. */
  lemma LiteralTableIrregular()
    ensures |LiteralCodes[0].widths| == 7 && LiteralCodes[0].widths[6] == 3
    ensures |LiteralCodes[2].widths| == 6
    ensures |LiteralCodes[12].widths| == 5
  {
  }

  /** Entry 0 (`0`) of the reconstructed table is that of the literal one with every 3 expanded. */
  lemma ExpandEntry0()
    ensures Codes[0].widths == Expand(LiteralCodes[0].widths)
  {
    assert LiteralCodes[0].widths == [1, 1, 1, 1, 1, 2, 3];
    assert Codes[0].widths == [1, 1, 1, 1, 1, 2, 2, 1];
  }

  /** Entry 1 (`1`) of the reconstructed table is that of the literal one with every 3 expanded. */
  lemma ExpandEntry1()
    ensures Codes[1].widths == Expand(LiteralCodes[1].widths)
  {
    assert LiteralCodes[1].widths == [1, 1, 1, 1, 2, 3, 1];
    assert Codes[1].widths == [1, 1, 1, 1, 2, 2, 1, 1];
  }

  /** Entry 2 (`2`) of the reconstructed table is that of the literal one with every 3 expanded. */
  lemma ExpandEntry2()
    ensures Codes[2].widths == Expand(LiteralCodes[2].widths)
  {
    assert LiteralCodes[2].widths == [1, 1, 1, 3, 1, 3];
    assert Codes[2].widths == [1, 1, 1, 2, 1, 1, 2, 1];
  }

  /** Entry 3 (`3`) of the reconstructed table is that of the literal one with every 3 expanded. */
  lemma ExpandEntry3()
    ensures Codes[3].widths == Expand(LiteralCodes[3].widths)
  {
    assert LiteralCodes[3].widths == [2, 3, 1, 1, 1, 1, 1];
    assert Codes[3].widths == [2, 2, 1, 1, 1, 1, 1, 1];
  }

  /** Entry 4 (`4`) of the reconstructed table is that of the literal one with every 3 expanded. */
  lemma ExpandEntry4()
    ensures Codes[4].widths == Expand(LiteralCodes[4].widths)
  {
    assert LiteralCodes[4].widths == [1, 1, 3, 1, 3, 1];
    assert Codes[4].widths == [1, 1, 2, 1, 1, 2, 1, 1];
  }

  /** Entry 5 (`5`) of the reconstructed table is that of the literal one with every 3 expanded. */
  lemma ExpandEntry5()
    ensures Codes[5].widths == Expand(LiteralCodes[5].widths)
  {
    assert LiteralCodes[5].widths == [3, 1, 1, 1, 3, 1];
    assert Codes[5].widths == [2, 1, 1, 1, 1, 2, 1, 1];
  }

  /** Entry 6 (`6`) of the reconstructed table is that of the literal one with every 3 expanded. */
  lemma ExpandEntry6()
    ensures Codes[6].widths == Expand(LiteralCodes[6].widths)
  {
    assert LiteralCodes[6].widths == [1, 3, 1, 1, 1, 3];
    assert Codes[6].widths == [1, 2, 1, 1, 1, 1, 2, 1];
  }

  /** Entry 7 (`7`) of the reconstructed table is that of the literal one with every 3 expanded. */
  lemma ExpandEntry7()
    ensures Codes[7].widths == Expand(LiteralCodes[7].widths)
  {
    assert LiteralCodes[7].widths == [1, 3, 1, 3, 1, 1];
    assert Codes[7].widths == [1, 2, 1, 1, 2, 1, 1, 1];
  }

  /** Entry 8 (`8`) of the reconstructed table is that of the literal one with every 3 expanded. */
  lemma ExpandEntry8()
    ensures Codes[8].widths == Expand(LiteralCodes[8].widths)
  {
    assert LiteralCodes[8].widths == [1, 2, 3, 1, 1, 1, 1];
    assert Codes[8].widths == [1, 2, 2, 1, 1, 1, 1, 1];
  }

  /** Entry 9 (`9`) of the reconstructed table is that of the literal one with every 3 expanded. */
  lemma ExpandEntry9()
    ensures Codes[9].widths == Expand(LiteralCodes[9].widths)
  {
    assert LiteralCodes[9].widths == [3, 1, 3, 1, 1, 1];
    assert Codes[9].widths == [2, 1, 1, 2, 1, 1, 1, 1];
  }

  /** Entry 10 (`-`) of the reconstructed table is that of the literal one with every 3 expanded. */
  lemma ExpandEntry10()
    ensures Codes[10].widths == Expand(LiteralCodes[10].widths)
  {
    assert LiteralCodes[10].widths == [1, 1, 1, 2, 3, 1, 1];
    assert Codes[10].widths == [1, 1, 1, 2, 2, 1, 1, 1];
  }

  /** Entry 11 (`$`) of the reconstructed table is that of the literal one with every 3 expanded. */
  lemma ExpandEntry11()
    ensures Codes[11].widths == Expand(LiteralCodes[11].widths)
  {
    assert LiteralCodes[11].widths == [1, 1, 2, 3, 1, 1, 1];
    assert Codes[11].widths == [1, 1, 2, 2, 1, 1, 1, 1];
  }

  /** Entry 12 (`:`) of the reconstructed table is that of the literal one with every 3 expanded. */
  lemma ExpandEntry12()
    ensures Codes[12].widths == Expand(LiteralCodes[12].widths)
  {
    assert LiteralCodes[12].widths == [3, 1, 1, 3, 3];
    assert Codes[12].widths == [2, 1, 1, 1, 2, 1, 2, 1];
  }

  /** Entry 13 (`/`) of the reconstructed table is that of the literal one with every 3 expanded. */
  lemma ExpandEntry13()
    ensures Codes[13].widths == Expand(LiteralCodes[13].widths)
  {
    assert LiteralCodes[13].widths == [3, 3, 1, 1, 3];
    assert Codes[13].widths == [2, 1, 2, 1, 1, 1, 2, 1];
  }

  /** Entry 14 (`.`) of the reconstructed table is that of the literal one with every 3 expanded. */
  lemma ExpandEntry14()
    ensures Codes[14].widths == Expand(LiteralCodes[14].widths)
  {
    assert LiteralCodes[14].widths == [3, 3, 3, 1, 1];
    assert Codes[14].widths == [2, 1, 2, 1, 2, 1, 1, 1];
  }

  /** Entry 15 (`+`) of the reconstructed table is that of the literal one with every 3 expanded. */
  lemma ExpandEntry15()
    ensures Codes[15].widths == Expand(LiteralCodes[15].widths)
  {
    assert LiteralCodes[15].widths == [1, 1, 3, 3, 3];
    assert Codes[15].widths == [1, 1, 2, 1, 2, 1, 2, 1];
  }

  /** Entry 16 (`A`) of the reconstructed table is that of the literal one with every 3 expanded. */
  lemma ExpandEntry16()
    ensures Codes[16].widths == Expand(LiteralCodes[16].widths)
  {
    assert LiteralCodes[16].widths == [1, 1, 2, 3, 3, 1];
    assert Codes[16].widths == [1, 1, 2, 2, 1, 2, 1, 1];
  }

  /** Entry 17 (`B`) of the reconstructed table is that of the literal one with every 3 expanded. */
  lemma ExpandEntry17()
    ensures Codes[17].widths == Expand(LiteralCodes[17].widths)
  {
    assert LiteralCodes[17].widths == [1, 3, 3, 1, 3];
    assert Codes[17].widths == [1, 2, 1, 2, 1, 1, 2, 1];
  }

  /** The reconstructed table is the literal one with every 3 expanded. */
  lemma CodesExpandLiteral()
    ensures forall i | 0 <= i < 18 ::
      Codes[i] == CharacterCode(LiteralCodes[i].character, Expand(LiteralCodes[i].widths), LiteralCodes[i].check)
  {
    TableContents();
    forall i | 0 <= i < 18
      ensures Codes[i] == CharacterCode(LiteralCodes[i].character, Expand(LiteralCodes[i].widths), LiteralCodes[i].check)
    {
      if i == 0 {
        ExpandEntry0();
      } else if i == 1 {
        ExpandEntry1();
      } else if i == 2 {
        ExpandEntry2();
      } else if i == 3 {
        ExpandEntry3();
      } else if i == 4 {
        ExpandEntry4();
      } else if i == 5 {
        ExpandEntry5();
      } else if i == 6 {
        ExpandEntry6();
      } else if i == 7 {
        ExpandEntry7();
      } else if i == 8 {
        ExpandEntry8();
      } else if i == 9 {
        ExpandEntry9();
      } else if i == 10 {
        ExpandEntry10();
      } else if i == 11 {
        ExpandEntry11();
      } else if i == 12 {
        ExpandEntry12();
      } else if i == 13 {
        ExpandEntry13();
      } else if i == 14 {
        ExpandEntry14();
      } else if i == 15 {
        ExpandEntry15();
      } else if i == 16 {
        ExpandEntry16();
      } else {
        ExpandEntry17();
      }
    }
  }

  /** In the reconstructed table every character has exactly 8 widths of 1 or 2
      and ends with a narrow gap, as a 2:1 Codabar character should. */
  lemma ExpandedTableRegular()
    ensures NonEmptyWidths(Codes)
    ensures forall i | 0 <= i < 18 :: |Codes[i].widths| == 8 && Codes[i].widths[7] == 1
    ensures forall i, k | 0 <= i < 18 && 0 <= k < 8 :: Codes[i].widths[k] == 1 || Codes[i].widths[k] == 2
  {
  }

  /** `getCodes()` returns the table. */
  function GetCodes(): (codes: seq<CharacterCode>)
    ensures |codes| == 18
    ensures forall i | 0 <= i < 18 :: codes[i].character == CHARACTERS[i] && codes[i].check == i
  {
    TableContents();
    Codes
  }
}
