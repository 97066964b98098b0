/** What the encoding pipeline guarantees, proved about its functional
    description in Engine (and so, through `Engine.Encode`'s postcondition,
    about the loops themselves). */
module EngineProperties {
  import opened Common
  import opened CharacterCodes
  import opened BarcodeElements
  import opened Strategies
  import opened Engine

  // ---------------------------------------------------------------------------
  // The module widths of a text, and the count computeSize takes of them

  /** The widths of a character, none for one outside the table. */
  function WidthsOr(codes: seq<CharacterCode>, c: char): seq<Byte> {
    match Lookup(codes, c)
    case None => []
    case Some(code) => code.widths
  }

  /** The widths of all characters of a text, one character after the other. */
  function Flat(codes: seq<CharacterCode>, text: string): seq<Byte> {
    if text == [] then []
    else Flat(codes, text[..|text| - 1]) + WidthsOr(codes, text[|text| - 1])
  }

  /** `computeSize` counts exactly the widths of the text's characters. */
  lemma {:induction false} ModuleCountIsFlatLength(codes: seq<CharacterCode>, text: string)
    ensures ModuleCount(codes, text) == |Flat(codes, text)|
  {
    if text != [] {
      ModuleCountIsFlatLength(codes, text[..|text| - 1]);
    }
  }

  /** Taking one more character adds its widths. */
  lemma FlatSnoc(codes: seq<CharacterCode>, text: string, i: int)
    requires 0 <= i < |text|
    ensures Flat(codes, text[..i + 1]) == Flat(codes, text[..i]) + WidthsOr(codes, text[i])
  {
    assert text[..i + 1][..i] == text[..i];
  }

  /** `computeSize` succeeds exactly on text whose characters are all in the
      table, and then answers the module count plus the two margins. */
  lemma SizeIff(codes: seq<CharacterCode>, text: string)
    ensures Size(codes, text).Ok? <==> forall i | 0 <= i < |text| :: Lookup(codes, text[i]).Some?
    ensures Size(codes, text).Ok? ==> Size(codes, text).value == |Flat(codes, text)| + 2
    ensures Size(codes, text).Err? ==> Size(codes, text).error == BarcodeException(INVALID_CHARACTER)
  {
    ModuleCountIsFlatLength(codes, text);
  }

  // ---------------------------------------------------------------------------
  // The pipeline before the layout

  /** The stages run in order and stop at the first exception; without
      `checked` the checksum hook is never consulted. */
  lemma ProcessTextStages(h: Hooks, text: string, checked: bool)
    ensures h.preprocess(text).Err? ==> ProcessText(h, text, checked) == Err(h.preprocess(text).error)
    ensures h.preprocess(text).Ok? && !checked ==>
      ProcessText(h, text, checked) == Ok(h.postprocess(h.preprocess(text).value))
    ensures h.preprocess(text).Ok? && checked ==>
      var augmented := h.augmentWithChecksum(h.preprocess(text).value);
      ProcessText(h, text, checked) ==
        if augmented.Err? then Err(augmented.error) else Ok(h.postprocess(augmented.value))
  {
  }

  /** Without `checked`, replacing the checksum hook changes nothing. */
  lemma UncheckedIgnoresChecksum(h: Hooks, text: string, other: string -> Result<string>)
    ensures EncodeSpec(h, text, false) == EncodeSpec(h.(augmentWithChecksum := other), text, false)
  {
    var h' := h.(augmentWithChecksum := other);
    var p := ProcessText(h, text, false);
    if p.Ok? && !SentinelClash(h, p.value) && Size(h.codes, Wrap(h, p.value)).Ok? {
      var w := Wrap(h, p.value);
      var size := Size(h.codes, w).value;
      assert InitialCells(h, size) == InitialCells(h', size);
      LayoutOnlyReadsTable(h, h', w, 0, InitialCells(h, size), 1);
    }
  }

  /** The layout reads only the table, the interleaved flag and the sentinels. */
  lemma {:induction false} LayoutOnlyReadsTable(h: Hooks, h': Hooks, text: string, i: nat, cells: seq<Slot>, j: int)
    requires h.codes == h'.codes && h.interleaved == h'.interleaved
    requires h.startSentinel == h'.startSentinel && h.stopSentinel == h'.stopSentinel
    requires i <= |text|
    ensures LayoutFrom(h, text, i, cells, j) == LayoutFrom(h', text, i, cells, j)
    decreases |text| - i
  {
    if i < |text| && Lookup(h.codes, text[i]).Some? {
      var code := Lookup(h.codes, text[i]).value;
      var placed := PlaceCharacter(h, cells, j, i, text[i], code.widths);
      assert placed == PlaceCharacter(h', cells, j, i, text[i], code.widths);
      if placed.Ok? {
        LayoutOnlyReadsTable(h, h', text, i + 1, placed.value.0, placed.value.1);
      }
    }
  }

  /** Any exception of the text hooks becomes the result of `encode`. */
  lemma ProcessingErrorsPropagate(h: Hooks, text: string, checked: bool)
    requires ProcessText(h, text, checked).Err?
    ensures EncodeSpec(h, text, checked) == Err(ProcessText(h, text, checked).error)
  {
  }

  /** Processed text holding a sentinel is refused as an invalid character; a
      start sentinel of 0xffff is not looked for. */
  lemma SentinelInTextRefused(h: Hooks, text: string, checked: bool)
    requires ProcessText(h, text, checked).Ok?
    requires var p := ProcessText(h, text, checked).value;
      (h.startSentinel != NO_START && h.startSentinel in p) || h.stopSentinel in p
    ensures EncodeSpec(h, text, checked) == Err(BarcodeException(INVALID_CHARACTER))
  {
  }

  /** The wrapped text: the start sentinel in front unless it is 0xffff, then
      the text unchanged, then the stop sentinel. */
  lemma WrapShape(h: Hooks, text: string)
    ensures var w := Wrap(h, text); var front := if h.startSentinel != NO_START then 1 else 0;
      && |w| == front + |text| + 1
      && (h.startSentinel != NO_START ==> w[0] == h.startSentinel)
      && w[front..front + |text|] == text
      && w[|w| - 1] == h.stopSentinel
  {
  }

  /** With the text processed and free of sentinels, `encode` fails with an
      invalid character exactly when the wrapped text has a character outside
      the table. */
  lemma InvalidCharacterIff(h: Hooks, text: string, checked: bool)
    requires ProcessText(h, text, checked).Ok?
    requires !SentinelClash(h, ProcessText(h, text, checked).value)
    ensures var w := Wrap(h, ProcessText(h, text, checked).value);
      (exists i :: 0 <= i < |w| && Lookup(h.codes, w[i]).None?) <==>
      EncodeSpec(h, text, checked) == Err(BarcodeException(INVALID_CHARACTER))
  {
    var w := Wrap(h, ProcessText(h, text, checked).value);
    if forall i | 0 <= i < |w| :: Lookup(h.codes, w[i]).Some? {
      NoLayoutInvalidCharacter(h, w, 0, InitialCells(h, ModuleCount(h.codes, w) + 2), 1);
      var laid := LayoutFrom(h, w, 0, InitialCells(h, ModuleCount(h.codes, w) + 2), 1);
      if laid.Ok? {
        assert Close(h, ModuleCount(h.codes, w) + 2, laid.value, h.barcodeLabelText(text)).Err? ==>
          Close(h, ModuleCount(h.codes, w) + 2, laid.value, h.barcodeLabelText(text)).error != BarcodeException(INVALID_CHARACTER);
      }
    }
  }

  /** Over encodable text the layout never reports an invalid character. */
  lemma {:induction false} NoLayoutInvalidCharacter(h: Hooks, text: string, i: nat, cells: seq<Slot>, j: int)
    requires i <= |text|
    requires forall k | 0 <= k < |text| :: Lookup(h.codes, text[k]).Some?
    ensures LayoutFrom(h, text, i, cells, j).Err? ==>
      LayoutFrom(h, text, i, cells, j).error == RuntimeFault(INDEX_OUT_OF_BOUNDS)
    decreases |text| - i
  {
    if i < |text| {
      var code := Lookup(h.codes, text[i]).value;
      var woven := Woven(h, text[i]);
      var step := if woven then 2 else 1;
      PlaceWidthsErrors(cells, j, code.widths, step);
      var placed := PlaceCharacter(h, cells, j, i, text[i], code.widths);
      if placed.Ok? {
        NoLayoutInvalidCharacter(h, text, i + 1, placed.value.0, placed.value.1);
      }
    }
  }

  /** Writing widths can only fail with an index out of bounds. */
  lemma {:induction false} PlaceWidthsErrors(cells: seq<Slot>, j: int, widths: seq<Byte>, step: int)
    ensures PlaceWidths(cells, j, widths, step).Err? ==>
      PlaceWidths(cells, j, widths, step).error == RuntimeFault(INDEX_OUT_OF_BOUNDS)
    ensures PlaceWidths(cells, j, widths, step).Ok? ==> |PlaceWidths(cells, j, widths, step).value| == |cells|
    decreases |widths|
  {
    if widths != [] && 0 <= j < |cells| {
      PlaceWidthsErrors(cells[j := Some(BarcodeElement(j % 2 != 0, widths[0] as int))], j + step, widths[1..], step);
    }
  }

  // ---------------------------------------------------------------------------
  // Bars at odd indices

  /** Every written cell is a bar exactly when its index is odd. */
  ghost predicate Painted(cells: seq<Slot>) {
    forall k | 0 <= k < |cells| :: cells[k].Some? ==> (cells[k].value.bar <==> k % 2 == 1)
  }

  lemma {:induction false} PlaceWidthsPaints(cells: seq<Slot>, j: int, widths: seq<Byte>, step: int)
    requires Painted(cells)
    ensures PlaceWidths(cells, j, widths, step).Ok? ==> Painted(PlaceWidths(cells, j, widths, step).value)
    decreases |widths|
  {
    if widths != [] && 0 <= j < |cells| {
      var next := cells[j := Some(BarcodeElement(j % 2 != 0, widths[0] as int))];
      assert Painted(next);
      PlaceWidthsPaints(next, j + step, widths[1..], step);
    }
  }

  lemma {:induction false} LayoutPaints(h: Hooks, text: string, i: nat, cells: seq<Slot>, j: int)
    requires i <= |text| && Painted(cells)
    ensures LayoutFrom(h, text, i, cells, j).Ok? ==> Painted(LayoutFrom(h, text, i, cells, j).value.0)
    decreases |text| - i
  {
    if i < |text| && Lookup(h.codes, text[i]).Some? {
      var code := Lookup(h.codes, text[i]).value;
      var step := if Woven(h, text[i]) then 2 else 1;
      PlaceWidthsPaints(cells, j, code.widths, step);
      var placed := PlaceCharacter(h, cells, j, i, text[i], code.widths);
      if placed.Ok? {
        LayoutPaints(h, text, i + 1, placed.value.0, placed.value.1);
      }
    }
  }

  /** In every barcode `encode` returns, each element before the closing margin
      is a bar exactly when its index is odd (the opening margin, at index 0, is
      a space), and the closing margin is the last element. */
  lemma BarsAtOddIndices(h: Hooks, text: string, checked: bool)
    requires EncodeSpec(h, text, checked).Ok?
    ensures var e := EncodeSpec(h, text, checked).value.elements;
      && |e| >= 2
      && e[|e| - 1] == Some(Margin(h))
      && forall k | 0 <= k < |e| - 1 :: e[k].Some? ==> (e[k].value.bar <==> k % 2 == 1)
  {
    var p := ProcessText(h, text, checked).value;
    var w := Wrap(h, p);
    var size := Size(h.codes, w).value;
    var cells := InitialCells(h, size);
    assert Painted(cells);
    LayoutPaints(h, w, 0, cells, 1);
    var laid := LayoutFrom(h, w, 0, cells, 1).value;
    LayoutKeepsLength(h, w, 0, cells, 1);
    var e := EncodeSpec(h, text, checked).value.elements;
    assert e == laid.0[laid.1 := Some(Margin(h))];
    assert laid.1 == |e| - 1;
  }

  /** The layout keeps the array's length. */
  lemma {:induction false} LayoutKeepsLength(h: Hooks, text: string, i: nat, cells: seq<Slot>, j: int)
    requires i <= |text|
    ensures LayoutFrom(h, text, i, cells, j).Ok? ==> |LayoutFrom(h, text, i, cells, j).value.0| == |cells|
    decreases |text| - i
  {
    if i < |text| && Lookup(h.codes, text[i]).Some? {
      var code := Lookup(h.codes, text[i]).value;
      var step := if Woven(h, text[i]) then 2 else 1;
      PlaceWidthsErrors(cells, j, code.widths, step);
      var placed := PlaceCharacter(h, cells, j, i, text[i], code.widths);
      if placed.Ok? {
        LayoutKeepsLength(h, text, i + 1, placed.value.0, placed.value.1);
      }
    }
  }

  /** A successful barcode has computeSize's length, ends with the margin, and
      carries the label of the raw text, not of the processed one. */
  lemma SuccessShape(h: Hooks, text: string, checked: bool)
    requires EncodeSpec(h, text, checked).Ok?
    ensures var p := ProcessText(h, text, checked).value;
      && ProcessText(h, text, checked).Ok? && !SentinelClash(h, p)
      && Size(h.codes, Wrap(h, p)).Ok?
      && |EncodeSpec(h, text, checked).value.elements| == Size(h.codes, Wrap(h, p)).value
      && EncodeSpec(h, text, checked).value.barcodeLabelText == h.barcodeLabelText(text)
  {
    var p := ProcessText(h, text, checked).value;
    var w := Wrap(h, p);
    var size := Size(h.codes, w).value;
    LayoutKeepsLength(h, w, 0, InitialCells(h, size), 1);
  }

  // ---------------------------------------------------------------------------
  // The opening margin stays in place

  /** Writing from cursor j never touches a cell before j. */
  lemma {:induction false} PlaceWidthsKeepsBefore(cells: seq<Slot>, j: int, widths: seq<Byte>, step: int, q: int)
    requires step >= 1 && 0 <= q < j
    ensures PlaceWidths(cells, j, widths, step).Ok? ==>
      q < |PlaceWidths(cells, j, widths, step).value| ==> PlaceWidths(cells, j, widths, step).value[q] == (if q < |cells| then cells[q] else None)
    decreases |widths|
  {
    PlaceWidthsErrors(cells, j, widths, step);
    if widths != [] && 0 <= j < |cells| {
      PlaceWidthsKeepsBefore(cells[j := Some(BarcodeElement(j % 2 != 0, widths[0] as int))], j + step, widths[1..], step, q);
    }
  }

  /** Over a table whose entries all have widths, the cursor only moves
      forward, so the layout never writes the opening margin's cell. */
  lemma {:induction false} LayoutKeepsFirstCell(h: Hooks, text: string, i: nat, cells: seq<Slot>, j: int)
    requires i <= |text| && j >= 1 && |cells| >= 1
    requires NonEmptyWidths(h.codes)
    ensures LayoutFrom(h, text, i, cells, j).Ok? ==>
      |LayoutFrom(h, text, i, cells, j).value.0| == |cells| && LayoutFrom(h, text, i, cells, j).value.0[0] == cells[0]
    decreases |text| - i
  {
    LayoutKeepsLength(h, text, i, cells, j);
    if i < |text| && Lookup(h.codes, text[i]).Some? {
      var code := Lookup(h.codes, text[i]).value;
      LookupFirst(h.codes, text[i]);
      assert |code.widths| > 0;
      var step := if Woven(h, text[i]) then 2 else 1;
      PlaceWidthsErrors(cells, j, code.widths, step);
      PlaceWidthsKeepsBefore(cells, j, code.widths, step, 0);
      var placed := PlaceCharacter(h, cells, j, i, text[i], code.widths);
      if placed.Ok? {
        LayoutKeepsFirstCell(h, text, i + 1, placed.value.0, placed.value.1);
      }
    }
  }

  /** Over a table whose entries all have widths, a successful barcode opens
      and closes with a space of the strategy's margin width. */
  lemma MarginsAtBothEnds(h: Hooks, text: string, checked: bool)
    requires NonEmptyWidths(h.codes)
    requires EncodeSpec(h, text, checked).Ok?
    ensures var e := EncodeSpec(h, text, checked).value.elements;
      |e| >= 2 && e[0] == Some(Margin(h)) && e[|e| - 1] == Some(Margin(h))
  {
    var p := ProcessText(h, text, checked).value;
    var w := Wrap(h, p);
    var size := Size(h.codes, w).value;
    var cells := InitialCells(h, size);
    LayoutKeepsFirstCell(h, w, 0, cells, 1);
    BarsAtOddIndices(h, text, checked);
    var laid := LayoutFrom(h, w, 0, cells, 1).value;
    LayoutKeepsLength(h, w, 0, cells, 1);
    assert laid.1 == size - 1;
    assert laid.1 != 0 by {
      ModuleCountIsFlatLength(h.codes, w);
      assert w[|w| - 1] == h.stopSentinel;
      FlatSnoc(h.codes, w, |w| - 1);
      assert w[..|w|] == w;
      LookupFirst(h.codes, h.stopSentinel);
    }
  }

  // ---------------------------------------------------------------------------
  // Sequential layout

  /** The cells a run of widths occupies from index `base` on: consecutive, in
      order, each a bar exactly when its index is odd. */
  function Modules(widths: seq<Byte>, base: int): (cells: seq<Slot>)
    ensures |cells| == |widths|
  {
    seq(|widths|, k requires 0 <= k < |widths| => Some(BarcodeElement((base + k) % 2 != 0, widths[k] as int)))
  }

  lemma ModulesAppend(a: seq<Byte>, b: seq<Byte>, base: int)
    ensures Modules(a + b, base) == Modules(a, base) + Modules(b, base + |a|)
  {
    assert forall k | 0 <= k < |b| :: (a + b)[|a| + k] == b[k];
  }

  /** Step 1 writes the widths to consecutive cells from j on. */
  lemma {:induction false} PlaceWidthsSequential(cells: seq<Slot>, j: int, widths: seq<Byte>)
    requires 0 <= j && j + |widths| <= |cells|
    ensures PlaceWidths(cells, j, widths, 1) == Ok(cells[..j] + Modules(widths, j) + cells[j + |widths|..])
    decreases |widths|
  {
    if widths != [] {
      var next := cells[j := Some(BarcodeElement(j % 2 != 0, widths[0] as int))];
      PlaceWidthsSequential(next, j + 1, widths[1..]);
      assert next[..j + 1] == cells[..j] + [Some(BarcodeElement(j % 2 != 0, widths[0] as int))];
      forall k | 0 <= k < |widths|
        ensures Modules(widths, j)[k] == ([Some(BarcodeElement(j % 2 != 0, widths[0] as int))] + Modules(widths[1..], j + 1))[k]
      {
        if k > 0 {
          assert widths[k] == widths[1..][k - 1];
          assert j + k == (j + 1) + (k - 1);
        }
      }
      assert Modules(widths, j) == [Some(BarcodeElement(j % 2 != 0, widths[0] as int))] + Modules(widths[1..], j + 1);
      assert next[j + 1 + |widths[1..]|..] == cells[j + |widths|..];
      assert PlaceWidths(cells, j, widths, 1) == PlaceWidths(next, j + 1, widths[1..], 1);
      var x := [Some(BarcodeElement(j % 2 != 0, widths[0] as int))];
      assert cells[..j] + x + Modules(widths[1..], j + 1) + cells[j + |widths|..]
          == cells[..j] + (x + Modules(widths[1..], j + 1)) + cells[j + |widths|..];
    } else {
      assert cells[..j] + [] + cells[j..] == cells;
    }
  }

  /** Without weaving, the characters from index i on are laid out one after
      the other, each character's widths in order, right after those before. */
  lemma {:induction false} LayoutSequential(h: Hooks, text: string, i: nat, start: seq<Slot>, cells: seq<Slot>, j: int)
    requires !h.interleaved && i <= |text| && Encodable(h.codes, text)
    requires 1 + |Flat(h.codes, text)| <= |start|
    requires j == 1 + |Flat(h.codes, text[..i])| && j <= |start|
    requires cells == start[..1] + Modules(Flat(h.codes, text[..i]), 1) + start[j..]
    ensures LayoutFrom(h, text, i, cells, j) ==
      Ok((start[..1] + Modules(Flat(h.codes, text), 1) + start[1 + |Flat(h.codes, text)|..], 1 + |Flat(h.codes, text)|))
    decreases |text| - i
  {
    if i == |text| {
      assert text[..i] == text;
    } else {
      var code := Lookup(h.codes, text[i]).value;
      var done := Flat(h.codes, text[..i]);
      FlatSnoc(h.codes, text, i);
      FlatPrefixShorter(h.codes, text, i + 1);
      var next := start[..1] + Modules(done + code.widths, 1) + start[j + |code.widths|..];
      SequentialStep(start, cells, done, code.widths, j);
      assert LayoutFrom(h, text, i, cells, j) == LayoutFrom(h, text, i + 1, next, j + |code.widths|);
      LayoutSequential(h, text, i + 1, start, next, j + |code.widths|);
    }
  }

  /** One character of the sequential layout: its widths go right after the
      modules already written. */
  lemma SequentialStep(start: seq<Slot>, cells: seq<Slot>, done: seq<Byte>, widths: seq<Byte>, j: int)
    requires j == 1 + |done| && j + |widths| <= |start|
    requires cells == start[..1] + Modules(done, 1) + start[j..]
    ensures PlaceWidths(cells, j, widths, 1) == Ok(start[..1] + Modules(done + widths, 1) + start[j + |widths|..])
  {
    PlaceWidthsSequential(cells, j, widths);
    ModulesAppend(done, widths, 1);
    assert cells[..j] == start[..1] + Modules(done, 1);
    assert cells[j + |widths|..] == start[j + |widths|..];
    assert start[..1] + Modules(done, 1) + Modules(widths, j) + start[j + |widths|..]
        == start[..1] + (Modules(done, 1) + Modules(widths, j)) + start[j + |widths|..];
  }

  /** A prefix of the text has no more widths than the whole text. */
  lemma {:induction false} FlatPrefixShorter(codes: seq<CharacterCode>, text: string, i: int)
    requires 0 <= i <= |text|
    ensures |Flat(codes, text[..i])| <= |Flat(codes, text)|
    decreases |text| - i
  {
    if i < |text| {
      FlatSnoc(codes, text, i);
      FlatPrefixShorter(codes, text, i + 1);
    } else {
      assert text[..i] == text;
    }
  }

  /** For a symbology that is not interleaved, a text that passes the checks
      yields exactly: the margin, every module of the wrapped text in order
      with bars at odd indices, and the margin; no slot is left null. */
  lemma SequentialBarcode(h: Hooks, text: string, checked: bool)
    requires !h.interleaved
    requires ProcessText(h, text, checked).Ok?
    requires !SentinelClash(h, ProcessText(h, text, checked).value)
    requires Encodable(h.codes, Wrap(h, ProcessText(h, text, checked).value))
    ensures var w := Wrap(h, ProcessText(h, text, checked).value);
      EncodeSpec(h, text, checked) ==
        Ok(EncodedBarcode([Some(Margin(h))] + Modules(Flat(h.codes, w), 1) + [Some(Margin(h))], h.barcodeLabelText(text)))
  {
    var w := Wrap(h, ProcessText(h, text, checked).value);
    ModuleCountIsFlatLength(h.codes, w);
    var n := |Flat(h.codes, w)|;
    var start := InitialCells(h, n + 2);
    assert w[..0] == [];
    assert start == start[..1] + Modules(Flat(h.codes, w[..0]), 1) + start[1..];
    LayoutSequential(h, w, 0, start, start, 1);
    var laid := start[..1] + Modules(Flat(h.codes, w), 1) + start[1 + n..];
    assert laid[n + 1 := Some(Margin(h))] == [Some(Margin(h))] + Modules(Flat(h.codes, w), 1) + [Some(Margin(h))];
  }

  /** The same barcode element by element: its length, the two margins, and
      between them only written cells, a bar exactly at each odd index. */
  lemma SequentialBarcodeShape(h: Hooks, text: string, checked: bool)
    requires !h.interleaved
    requires ProcessText(h, text, checked).Ok?
    requires !SentinelClash(h, ProcessText(h, text, checked).value)
    requires Encodable(h.codes, Wrap(h, ProcessText(h, text, checked).value))
    ensures EncodeSpec(h, text, checked).Ok?
    ensures var w := Wrap(h, ProcessText(h, text, checked).value);
      var e := EncodeSpec(h, text, checked).value.elements;
      && |e| == |Flat(h.codes, w)| + 2
      && e[0] == e[|e| - 1] == Some(Margin(h))
      && (forall k | 1 <= k < |e| - 1 :: e[k].Some? && (e[k].value.bar <==> k % 2 == 1))
      && EncodeSpec(h, text, checked).value.barcodeLabelText == h.barcodeLabelText(text)
  {
    SequentialBarcode(h, text, checked);
    var w := Wrap(h, ProcessText(h, text, checked).value);
    var m := Modules(Flat(h.codes, w), 1);
    var e := EncodeSpec(h, text, checked).value.elements;
    assert forall k | 1 <= k < |e| - 1 :: e[k] == m[k - 1];
  }

  // ---------------------------------------------------------------------------
  // Interleaved layout

  /** Step 2 writes widths[k] at j + 2k and leaves every other cell alone. */
  lemma {:induction false} PlaceWidthsStride(cells: seq<Slot>, j: int, widths: seq<Byte>)
    requires 0 <= j && j + 2 * |widths| <= |cells| + 1
    ensures PlaceWidths(cells, j, widths, 2).Ok?
    ensures var r := PlaceWidths(cells, j, widths, 2).value;
      && |r| == |cells|
      && (forall k | 0 <= k < |widths| :: r[j + 2 * k] == Some(BarcodeElement((j + 2 * k) % 2 != 0, widths[k] as int)))
      && (forall q | 0 <= q < |cells| && (q < j || j + 2 * |widths| <= q || (q - j) % 2 == 1) :: r[q] == cells[q])
    decreases |widths|
  {
    if widths != [] {
      var next := cells[j := Some(BarcodeElement(j % 2 != 0, widths[0] as int))];
      PlaceWidthsStride(next, j + 2, widths[1..]);
      var r := PlaceWidths(cells, j, widths, 2).value;
      assert r == PlaceWidths(next, j + 2, widths[1..], 2).value;
      forall k | 0 <= k < |widths|
        ensures r[j + 2 * k] == Some(BarcodeElement((j + 2 * k) % 2 != 0, widths[k] as int))
      {
        if k > 0 {
          assert widths[k] == widths[1..][k - 1];
          assert j + 2 * k == (j + 2) + 2 * (k - 1);
        }
      }
    }
  }

  /** The cells a pair of woven characters shares from index `base` on: the
      widths of the first at even offsets, those of the second at odd ones. */
  function Weave(a: seq<Byte>, b: seq<Byte>, base: int): (cells: seq<Slot>)
    requires |a| == |b|
    ensures |cells| == 2 * |a|
  {
    seq(2 * |a|, q requires 0 <= q < 2 * |a| =>
      Some(BarcodeElement((base + q) % 2 != 0, (if q % 2 == 0 then a[q / 2] else b[q / 2]) as int)))
  }

  /** A woven character at an odd index of the wrapped text writes its widths at
      every second cell from the cursor, and leaves the cursor one cell on. */
  lemma WovenOddCharacter(h: Hooks, cells: seq<Slot>, j: int, i: int, c: char, widths: seq<Byte>)
    requires Woven(h, c) && i % 2 == 1
    requires 0 <= j && j + 2 * |widths| <= |cells| + 1
    ensures PlaceCharacter(h, cells, j, i, c, widths).Ok?
    ensures var (r, next) := PlaceCharacter(h, cells, j, i, c, widths).value;
      && next == j + 1
      && |r| == |cells|
      && (forall k | 0 <= k < |widths| :: r[j + 2 * k] == Some(BarcodeElement((j + 2 * k) % 2 != 0, widths[k] as int)))
      && (forall q | 0 <= q < |cells| && (q < j || j + 2 * |widths| <= q || (q - j) % 2 == 1) :: r[q] == cells[q])
  {
    PlaceWidthsStride(cells, j, widths);
  }

  /** A woven character at an even index of the wrapped text writes its widths at
      every second cell from the cursor, and leaves the cursor just past the
      last cell it wrote. */
  lemma WovenEvenCharacter(h: Hooks, cells: seq<Slot>, j: int, i: int, c: char, widths: seq<Byte>)
    requires Woven(h, c) && i % 2 == 0
    requires 0 <= j && j + 2 * |widths| <= |cells| + 1
    ensures PlaceCharacter(h, cells, j, i, c, widths).Ok?
    ensures var (r, next) := PlaceCharacter(h, cells, j, i, c, widths).value;
      && next == j + 2 * |widths| - 1
      && |r| == |cells|
      && (forall k | 0 <= k < |widths| :: r[j + 2 * k] == Some(BarcodeElement((j + 2 * k) % 2 != 0, widths[k] as int)))
      && (forall q | 0 <= q < |cells| && (q < j || j + 2 * |widths| <= q || (q - j) % 2 == 1) :: r[q] == cells[q])
  {
    PlaceWidthsStride(cells, j, widths);
  }

  /** Two woven characters of equal width count, the first at an odd index,
      fill the cells from the cursor on alternately, and leave the cursor just
      past the cells they share. */
  lemma WovenPair(h: Hooks, cells: seq<Slot>, j: int, i: int, c1: char, c2: char, a: seq<Byte>, b: seq<Byte>)
    requires Woven(h, c1) && Woven(h, c2) && i % 2 == 1 && |a| == |b|
    requires 0 <= j && j + 2 * |a| <= |cells|
    ensures PlaceCharacter(h, cells, j, i, c1, a).Ok?
    ensures var (m, mid) := PlaceCharacter(h, cells, j, i, c1, a).value;
      && mid == j + 1
      && PlaceCharacter(h, m, mid, i + 1, c2, b) == Ok((cells[..j] + Weave(a, b, j) + cells[j + 2 * |a|..], j + 2 * |a|))
  {
    PlaceWidthsStride(cells, j, a);
    var m := PlaceWidths(cells, j, a, 2).value;
    assert PlaceCharacter(h, cells, j, i, c1, a) == Ok((m, j + 1));
    PlaceWidthsStride(m, j + 1, b);
    var r := PlaceWidths(m, j + 1, b, 2).value;
    assert PlaceCharacter(h, m, j + 1, i + 1, c2, b) == Ok((r, j + 2 * |a|));
    WeaveCells(cells, m, r, j, a, b);
  }

  /** Writing a at every second cell from j, then b at every second cell from
      j + 1, leaves the two woven together. */
  lemma WeaveCells(cells: seq<Slot>, m: seq<Slot>, r: seq<Slot>, j: int, a: seq<Byte>, b: seq<Byte>)
    requires |a| == |b| && 0 <= j && j + 2 * |a| <= |cells| == |m| == |r|
    requires forall k | 0 <= k < |a| :: m[j + 2 * k] == Some(BarcodeElement((j + 2 * k) % 2 != 0, a[k] as int))
    requires forall q | 0 <= q < |cells| && (q < j || j + 2 * |a| <= q || (q - j) % 2 == 1) :: m[q] == cells[q]
    requires forall k | 0 <= k < |b| :: r[j + 1 + 2 * k] == Some(BarcodeElement((j + 1 + 2 * k) % 2 != 0, b[k] as int))
    requires forall q | 0 <= q < |m| && (q < j + 1 || j + 1 + 2 * |b| <= q || (q - (j + 1)) % 2 == 1) :: r[q] == m[q]
    ensures r == cells[..j] + Weave(a, b, j) + cells[j + 2 * |a|..]
  {
    var expected := cells[..j] + Weave(a, b, j) + cells[j + 2 * |a|..];
    forall q | 0 <= q < |cells|
      ensures r[q] == expected[q]
    {
      if q < j || j + 2 * |a| <= q {
      } else if (q - j) % 2 == 0 {
        var k := (q - j) / 2;
        assert q == j + 2 * k;
        assert r[q] == m[q];
      } else {
        var k := (q - j) / 2;
        assert q == j + 1 + 2 * k;
      }
    }
  }

  /** Sentinels are never woven: they are laid out one module after the other. */
  lemma SentinelSequential(h: Hooks, cells: seq<Slot>, j: int, i: int, c: char, widths: seq<Byte>)
    requires c == h.startSentinel || c == h.stopSentinel
    requires 0 <= j && j + |widths| <= |cells|
    ensures PlaceCharacter(h, cells, j, i, c, widths) ==
      Ok((cells[..j] + Modules(widths, j) + cells[j + |widths|..], j + |widths|))
  {
    PlaceWidthsSequential(cells, j, widths);
  }
}
