/** One bar or space of a barcode, in its two versions: the immutable
    `BarcodeElement(type, width)` the current bean reads, and the older mutable
    record with public `bar` and `width` fields that the engine writes. */
module BarcodeElements {
  import opened Common

  const TYPE_BAR: int := 1
  const TYPE_SPACE: int := 0

  /** A module: a bar (`bar == true`, black) or a space (white), `width` times
      the narrowest module wide. */
  datatype BarcodeElement = BarcodeElement(bar: bool, width: int) {

    /** `getType()` of the immutable element. */
    function Type(): (t: int)
      ensures t == TYPE_BAR || t == TYPE_SPACE
      ensures t == TYPE_BAR <==> bar
    {
      if bar then TYPE_BAR else TYPE_SPACE
    }
  }

  /** `new BarcodeElement(type, width)` as its readers see it: the bean paints an
      element as a bar exactly when its type is `TYPE_BAR`, so any other kind
      value reads as a space. */
  function OfType(kind: int, width: int): (e: BarcodeElement)
    ensures e.width == width
    ensures e.bar <==> kind == TYPE_BAR
  {
    BarcodeElement(kind == TYPE_BAR, width)
  }

  /** The constructor keeps both arguments: `getType()` and `getWidth()` give back
      what was passed in, for the two type constants. */
  lemma OfTypeKeepsFields(kind: int, width: int)
    requires kind == TYPE_BAR || kind == TYPE_SPACE
    ensures OfType(kind, width).Type() == kind
    ensures OfType(kind, width).width == width
  {
  }

  /** Going through the type view and back loses nothing. */
  lemma TypeRoundTrip(e: BarcodeElement)
    ensures OfType(e.Type(), e.width) == e
  {
  }

  /** The older mutable record.  It has no explicit constructor, so a fresh record
      is a space of width 0 until its fields are assigned. */
  class ModuleRecord {
    var width: Byte
    var bar: bool

    constructor ()
      ensures width == 0 && !bar
    {
      width := 0;
      bar := false;
    }

    /** The module the record currently describes. */
    function Value(): BarcodeElement
      reads this
    {
      BarcodeElement(bar, width as int)
    }
  }

  /** What the engine does for every slot: allocate a record and assign both of its
      fields before anything reads them. */
  method NewModule(bar: bool, width: Byte) returns (r: ModuleRecord)
    ensures fresh(r)
    ensures r.Value() == BarcodeElement(bar, width as int)
  {
    r := new ModuleRecord();
    r.width := width;
    r.bar := bar;
  }
}
