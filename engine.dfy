/** The shared encoding pipeline of `AbstractBarcodeStrategy`: the text is
    processed, checked for sentinels, wrapped in them, measured, and laid out
    module by module into an array through a cursor `j`, between two margins.

    Each step has a functional description (ProcessText, Wrap, ModuleCount,
    PlaceWidths, LayoutFrom, EncodeSpec); the methods ComputeSize and Encode
    are the loops of the source, proved to compute exactly that. */
module Engine {
  import opened Common
  import opened CharacterCodes
  import opened BarcodeElements
  import opened Strategies

  /** `getStartSentinel()` answers 0xffff for "no start character". */
  const NO_START: char := '\U{FFFF}'

  /** A slot of the element array: `None` is a slot never written (Java null). */
  type Slot = Option<BarcodeElement>

  /** `EncodedBarcode`: the elements and the human-readable label. */
  datatype EncodedBarcode = EncodedBarcode(elements: seq<Slot>, barcodeLabelText: string)

  /** The space that opens and closes every barcode. */
  function Margin(h: Hooks): BarcodeElement {
    BarcodeElement(false, h.marginWidth as int)
  }

  /** `preprocess`, then `augmentWithChecksum` when `checked`, then
      `postprocess`; the first exception ends the pipeline. */
  function ProcessText(h: Hooks, text: string, checked: bool): Result<string> {
    match h.preprocess(text)
    case Err(e) => Err(e)
    case Ok(p) =>
      var augmented := if checked then h.augmentWithChecksum(p) else Ok(p);
      match augmented
      case Err(e) => Err(e)
      case Ok(q) => Ok(h.postprocess(q))
  }

  /** The processed text holds a start sentinel (one that is not 0xffff) or the
      stop sentinel. */
  predicate SentinelClash(h: Hooks, text: string) {
    (h.startSentinel != NO_START && h.startSentinel in text) || h.stopSentinel in text
  }

  /** The start sentinel (unless it is 0xffff) in front, the stop sentinel
      behind. */
  function Wrap(h: Hooks, text: string): string {
    (if h.startSentinel != NO_START then [h.startSentinel] else []) + text + [h.stopSentinel]
  }

  /** The number of widths of a character, 0 for one outside the table. */
  function WidthCount(codes: seq<CharacterCode>, c: char): nat {
    match Lookup(codes, c)
    case None => 0
    case Some(code) => |code.widths|
  }

  /** The number of modules of a text: the widths of all its characters. */
  function ModuleCount(codes: seq<CharacterCode>, text: string): nat {
    if text == [] then 0
    else ModuleCount(codes, text[..|text| - 1]) + WidthCount(codes, text[|text| - 1])
  }

  /** `computeSize`: the module count plus the two margins, or the invalid
      character exception for a character outside the table. */
  function Size(codes: seq<CharacterCode>, text: string): Result<int> {
    if Encodable(codes, text) then Ok(ModuleCount(codes, text) + 2)
    else Err(BarcodeException(INVALID_CHARACTER))
  }

  /** The loop of `computeSize`. */
  method ComputeSize(codes: seq<CharacterCode>, text: string) returns (r: Result<int>)
    ensures r == Size(codes, text)
  {
    var size := 0;
    for i := 0 to |text|
      invariant forall k | 0 <= k < i :: Lookup(codes, text[k]).Some?
      invariant size == ModuleCount(codes, text[..i])
    {
      var cc := GetCharacterCode(codes, text[i]);
      if cc.None? {
        return Err(BarcodeException(INVALID_CHARACTER));
      }
      assert text[..i + 1][..i] == text[..i];
      size := size + |cc.value.widths|;
    }
    assert text[..|text|] == text;
    size := size + 2;
    return Ok(size);
  }

  /** Writes `widths` at j, j + step, j + 2·step, ...: each a bar exactly when
      its index is odd, and an ArrayIndexOutOfBoundsException at the first
      index outside the array. */
  function PlaceWidths(cells: seq<Slot>, j: int, widths: seq<Byte>, step: int): Result<seq<Slot>>
    decreases |widths|
  {
    if widths == [] then Ok(cells)
    else if !(0 <= j < |cells|) then Err(RuntimeFault(INDEX_OUT_OF_BOUNDS))
    else PlaceWidths(cells[j := Some(BarcodeElement(j % 2 != 0, widths[0] as int))], j + step, widths[1..], step)
  }

  /** An interleaved symbology weaves every character except its sentinels. */
  predicate Woven(h: Hooks, c: char) {
    h.interleaved && c != h.startSentinel && c != h.stopSentinel
  }

  /** The cursor after a character: past its widths, and for a woven character
      back to j + 1 (odd text index) or to the last cell written plus one (even
      text index), so that two woven characters share their cells. */
  function NextCursor(woven: bool, i: int, j: int, count: int): int {
    if !woven then j + count
    else if i % 2 == 1 then j + 2 * count - (count * 2 - 1)
    else j + 2 * count - 1
  }

  /** One character of the wrapped text at text index i, written from cursor j:
      the new cells and the new cursor. */
  function PlaceCharacter(h: Hooks, cells: seq<Slot>, j: int, i: int, c: char, widths: seq<Byte>): Result<(seq<Slot>, int)> {
    var woven := Woven(h, c);
    match PlaceWidths(cells, j, widths, if woven then 2 else 1)
    case Err(e) => Err(e)
    case Ok(placed) => Ok((placed, NextCursor(woven, i, j, |widths|)))
  }

  /** The characters of `text` from index i on, laid out from cursor j. */
  function LayoutFrom(h: Hooks, text: string, i: nat, cells: seq<Slot>, j: int): Result<(seq<Slot>, int)>
    requires i <= |text|
    decreases |text| - i
  {
    if i == |text| then Ok((cells, j))
    else
      match Lookup(h.codes, text[i])
      case None => Err(BarcodeException(INVALID_CHARACTER))
      case Some(code) =>
        match PlaceCharacter(h, cells, j, i, text[i], code.widths)
        case Err(e) => Err(e)
        case Ok((placed, next)) => LayoutFrom(h, text, i + 1, placed, next)
  }

  /** The array as allocated, with the opening margin written. */
  function InitialCells(h: Hooks, size: int): seq<Slot>
    requires size >= 1
  {
    [Some(Margin(h))] + seq(size - 1, _ => None)
  }

  /** After the layout: the closing margin at the cursor, which must then be
      the last cell, or "Unexpected barcode size". */
  function Close(h: Hooks, size: int, laid: (seq<Slot>, int), labelText: string): Result<EncodedBarcode> {
    var (cells, j) := laid;
    if !(0 <= j < |cells|) then Err(RuntimeFault(INDEX_OUT_OF_BOUNDS))
    else if j + 1 != size then Err(BarcodeException(UNEXPECTED_SIZE))
    else Ok(EncodedBarcode(cells[j := Some(Margin(h))], labelText))
  }

  /** `encode(textToEncode, checked)`, stage by stage.  The label is that of the
      raw text. */
  function EncodeSpec(h: Hooks, textToEncode: string, checked: bool): Result<EncodedBarcode> {
    match ProcessText(h, textToEncode, checked)
    case Err(e) => Err(e)
    case Ok(text) =>
      if SentinelClash(h, text) then Err(BarcodeException(INVALID_CHARACTER))
      else
        var wrapped := Wrap(h, text);
        match Size(h.codes, wrapped)
        case Err(e) => Err(e)
        case Ok(size) =>
          match LayoutFrom(h, wrapped, 0, InitialCells(h, size), 1)
          case Err(e) => Err(e)
          case Ok(laid) => Close(h, size, laid, h.barcodeLabelText(textToEncode))
  }

  /** The inner loop of `encode`: the widths of one character. */
  method PlaceWidthsInto(elements: array<Slot>, j0: int, widths: seq<Byte>, woven: bool) returns (r: Result<int>)
    modifies elements
    ensures var step := if woven then 2 else 1;
      match PlaceWidths(old(elements[..]), j0, widths, step)
      case Err(e) => r == Err(e)
      case Ok(cells) => r == Ok(j0 + step * |widths|) && elements[..] == cells
  {
    var step := if woven then 2 else 1;
    var j := j0;
    for k := 0 to |widths|
      invariant j == j0 + step * k
      invariant PlaceWidths(old(elements[..]), j0, widths, step) == PlaceWidths(elements[..], j, widths[k..], step)
    {
      if !(0 <= j < elements.Length) {
        return Err(RuntimeFault(INDEX_OUT_OF_BOUNDS));
      }
      assert widths[k..][1..] == widths[k + 1..];
      var element := NewModule(j % 2 != 0, widths[k]);
      elements[j] := Some(element.Value());
      if woven {
        j := j + 2;
      } else {
        j := j + 1;
      }
    }
    return Ok(j);
  }

  /** The outer loop of `encode`: every character of the wrapped text, from
      cursor 1; the result is the final cursor. */
  method LayOut(h: Hooks, text: string, elements: array<Slot>) returns (r: Result<int>)
    modifies elements
    ensures match LayoutFrom(h, text, 0, old(elements[..]), 1)
      case Err(e) => r == Err(e)
      case Ok(laid) => r == Ok(laid.1) && elements[..] == laid.0
  {
    ghost var whole := LayoutFrom(h, text, 0, elements[..], 1);
    var j := 1;
    for i := 0 to |text|
      invariant whole == LayoutFrom(h, text, i, elements[..], j)
    {
      var ch := text[i];
      var cc := GetCharacterCode(h.codes, ch);
      if cc.None? {
        return Err(BarcodeException(INVALID_CHARACTER));
      }
      var widths := cc.value.widths;
      var woven := h.interleaved && ch != h.startSentinel && ch != h.stopSentinel;
      var placed := PlaceWidthsInto(elements, j, widths, woven);
      if placed.Err? {
        return Err(placed.error);
      }
      j := placed.value;
      if woven {
        if i % 2 == 1 {
          j := j - (|widths| * 2 - 1);
        } else {
          j := j - 1;
        }
      }
    }
    return Ok(j);
  }

  /** `encode`: the pipeline, the element array filled through the cursor, and
      the final size check. */
  method Encode(h: Hooks, textToEncode: string, checked: bool) returns (r: Result<EncodedBarcode>)
    ensures r == EncodeSpec(h, textToEncode, checked)
  {
    var pre := h.preprocess(textToEncode);
    if pre.Err? {
      return Err(pre.error);
    }
    var text := pre.value;
    if checked {
      var augmented := h.augmentWithChecksum(text);
      if augmented.Err? {
        return Err(augmented.error);
      }
      text := augmented.value;
    }
    text := h.postprocess(text);
    assert ProcessText(h, textToEncode, checked) == Ok(text);

    if (h.startSentinel != NO_START && h.startSentinel in text) || h.stopSentinel in text {
      return Err(BarcodeException(INVALID_CHARACTER));
    }
    ghost var processed := text;
    if h.startSentinel != NO_START {
      text := [h.startSentinel] + text;
    }
    text := text + [h.stopSentinel];
    assert text == Wrap(h, processed);

    var sized := ComputeSize(h.codes, text);
    if sized.Err? {
      return Err(sized.error);
    }
    var size := sized.value;
    var elements := new Slot[size](_ => None);
    var margin := NewModule(false, h.marginWidth);
    elements[0] := Some(margin.Value());
    assert elements[..] == InitialCells(h, size);

    var laid := LayOut(h, text, elements);
    if laid.Err? {
      return Err(laid.error);
    }
    var j := laid.value;
    if !(0 <= j < elements.Length) {
      return Err(RuntimeFault(INDEX_OUT_OF_BOUNDS));
    }
    var closing := NewModule(false, h.marginWidth);
    elements[j] := Some(closing.Value());
    j := j + 1;
    if j != size {
      return Err(BarcodeException(UNEXPECTED_SIZE));
    }
    return Ok(EncodedBarcode(elements[..], h.barcodeLabelText(textToEncode)));
  }
}
