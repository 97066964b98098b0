/** Code 11 through the shared encoding pipeline: what `encode` produces for
    text of digits and dashes, with and without the checksum. */
module Code11Barcodes {
  import opened Common
  import opened BarcodeElements
  import opened CharacterCodes
  import opened Strategies
  import opened Engine
  import opened EngineProperties
  import Code11Symbology

  /** The characters of the table with six widths: the data characters and the
      `*` sentinel. */
  const SIX_WIDE: string := "0123456789-*"

  lemma SixWideEntries(c: char)
    requires c in SIX_WIDE
    ensures Lookup(Code11Symbology.Codes, c).Some?
    ensures |WidthsOr(Code11Symbology.Codes, c)| == 6
  {
    var i :| 0 <= i < 12 && SIX_WIDE[i] == c;
    assert Code11Symbology.CHARACTERS[i] == c;
    Code11Symbology.LookupByCharacter(i);
  }

  /** When every character has n widths, the text has n widths per character. */
  lemma {:induction false} FlatLengthUniform(codes: seq<CharacterCode>, text: string, n: nat)
    requires forall i | 0 <= i < |text| :: |WidthsOr(codes, text[i])| == n
    ensures |Flat(codes, text)| == n * |text|
  {
    if text != [] {
      var init := text[..|text| - 1];
      assert forall i | 0 <= i < |init| :: init[i] == text[i];
      FlatLengthUniform(codes, init, n);
      assert n * |text| == n * |init| + n;
    }
  }

  /** Data text wrapped in its `*` sentinels is encodable, six widths per
      character. */
  lemma WrappedData(text: string)
    requires forall i | 0 <= i < |text| :: text[i] in Code11Symbology.CHECK_CHARACTERS
    ensures var w := Wrap(Code11Hooks, text);
      && !SentinelClash(Code11Hooks, text)
      && Encodable(Code11Symbology.Codes, w)
      && |Flat(Code11Symbology.Codes, w)| == 6 * (|text| + 2)
  {
    var w := Wrap(Code11Hooks, text);
    WrappedSixWide(text);
    forall i | 0 <= i < |w|
      ensures Lookup(Code11Symbology.Codes, w[i]).Some? && |WidthsOr(Code11Symbology.Codes, w[i])| == 6
    {
      SixWideEntries(w[i]);
    }
    FlatLengthUniform(Code11Symbology.Codes, w, 6);
    assert '*' !in Code11Symbology.CHECK_CHARACTERS;
  }

  /** The wrapped text holds only six-wide characters. */
  lemma WrappedSixWide(text: string)
    requires forall i | 0 <= i < |text| :: text[i] in Code11Symbology.CHECK_CHARACTERS
    ensures var w := Wrap(Code11Hooks, text);
      forall i | 0 <= i < |w| :: w[i] in SIX_WIDE
  {
    var w := Wrap(Code11Hooks, text);
    assert w == ['*'] + text + ['*'];
    assert forall c | c in Code11Symbology.CHECK_CHARACTERS :: c in SIX_WIDE;
    forall i | 0 <= i < |w|
      ensures w[i] in SIX_WIDE
    {
      if 0 < i < |w| - 1 {
        assert w[i] == text[i - 1];
      }
    }
  }

  /** The shape of a Code 11 barcode of `n` characters besides its sentinels:
      six modules for each of them and the two sentinels, between two margin
      spaces of width 0, bars exactly at odd indices in between, and the caption as
      label. */
  predicate SixModuleBarcode(e: EncodedBarcode, n: int, caption: string)
  {
    && |e.elements| == 6 * (n + 2) + 2
    && e.elements[0] == e.elements[|e.elements| - 1] == Some(BarcodeElement(false, 0))
    && (forall k | 1 <= k < |e.elements| - 1 :: e.elements[k].Some? && (e.elements[k].value.bar <==> k % 2 == 1))
    && e.barcodeLabelText == caption
  }

  /** Whatever the processing produced, once it is digits and dashes it
      encodes to six modules per character of it and of its two sentinels,
      between two margin spaces of width 0, with bars at odd indices; the
      label is the text as given. */
  lemma ProcessedDataShape(text: string, checked: bool, r: string)
    requires ProcessText(Code11Hooks, text, checked) == Ok(r)
    requires forall i | 0 <= i < |r| :: r[i] in Code11Symbology.CHECK_CHARACTERS
    ensures EncodeSpec(Code11Hooks, text, checked).Ok?
    ensures SixModuleBarcode(EncodeSpec(Code11Hooks, text, checked).value, |r|, text)
  {
    WrappedData(r);
    assert Code11Hooks.codes == Code11Symbology.Codes;
    assert Margin(Code11Hooks) == BarcodeElement(false, 0);
    SixModuleShape(Code11Hooks, text, checked, |r|);
  }

  /** The shape, for any strategy laid out like Code 11: sequential, margins
      of width 0, six widths per character, and the text as label. */
  lemma SixModuleShape(h: Hooks, text: string, checked: bool, n: int)
    requires !h.interleaved && Margin(h) == BarcodeElement(false, 0)
    requires ProcessText(h, text, checked).Ok? && h.barcodeLabelText(text) == text
    requires !SentinelClash(h, ProcessText(h, text, checked).value)
    requires Encodable(h.codes, Wrap(h, ProcessText(h, text, checked).value))
    requires |Flat(h.codes, Wrap(h, ProcessText(h, text, checked).value))| == 6 * (n + 2)
    ensures EncodeSpec(h, text, checked).Ok?
    ensures SixModuleBarcode(EncodeSpec(h, text, checked).value, n, text)
  {
    SequentialBarcodeShape(h, text, checked);
  }

  /** Without the checksum, text of digits and dashes encodes to six modules
      per character of the text and of its two sentinels, between two margin
      spaces of width 0, with bars at odd indices; the label is the text
      itself. */
  lemma DataWithoutChecksum(text: string)
    requires forall i | 0 <= i < |text| :: text[i] in Code11Symbology.CHECK_CHARACTERS
    ensures EncodeSpec(Code11Hooks, text, false).Ok?
    ensures SixModuleBarcode(EncodeSpec(Code11Hooks, text, false).value, |text|, text)
  {
    assert ProcessText(Code11Hooks, text, false) == Ok(text);
    ProcessedDataShape(text, false, text);
  }

  /** With the checksum, the text gains one check character (two from 10
      characters on), and the barcode six modules for each, still between
      margins of width 0; the label shows the text without them. */
  lemma DataWithChecksum(text: string)
    requires forall i | 0 <= i < |text| :: text[i] in Code11Symbology.CHECK_CHARACTERS
    ensures EncodeSpec(Code11Hooks, text, true).Ok?
    ensures SixModuleBarcode(EncodeSpec(Code11Hooks, text, true).value, |text| + (if |text| >= 10 then 2 else 1), text)
  {
    var r := CheckedData(text);
    ProcessedDataShape(text, true, r);
  }

  /** The checksum stage turns text of digits and dashes into text of digits
      and dashes one or two characters longer. */
  lemma CheckedData(text: string) returns (r: string)
    requires forall i | 0 <= i < |text| :: text[i] in Code11Symbology.CHECK_CHARACTERS
    ensures ProcessText(Code11Hooks, text, true) == Ok(r)
    ensures |r| == |text| + (if |text| >= 10 then 2 else 1)
    ensures forall i | 0 <= i < |r| :: r[i] in Code11Symbology.CHECK_CHARACTERS
  {
    Code11Symbology.ChecksumAppends(text);
    assert Encodable(Code11Symbology.Codes, text) by {
      forall i | 0 <= i < |text| ensures Lookup(Code11Symbology.Codes, text[i]).Some? {
        Code11Symbology.InTableIff(text[i]);
      }
    }
    r := Code11Symbology.WithChecksum(text).value;
    assert ProcessText(Code11Hooks, text, true) == Ok(r);
    forall i | 0 <= i < |r|
      ensures r[i] in Code11Symbology.CHECK_CHARACTERS
    {
      if i < |text| {
        assert r[i] == r[..|text|][i];
      }
    }
  }
}
