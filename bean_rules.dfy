/** The rules both `JBarcodeBean` versions share: how the checksum flag must
    agree with the strategy's checksum requirement, what `encode()` leaves in
    the bean, and the arithmetic of the bar widths. */
module BeanRules {
  import opened Common
  import opened BarcodeElements
  import opened Strategies
  import opened Engine

  /** The flag value a requirement permits: a mandatory checksum cannot be
      switched off, a forbidden one cannot be switched on. */
  predicate ChecksumAllowed(requirement: ChecksumRequirement, checkDigit: bool) {
    !(requirement == MandatoryChecksum && !checkDigit) && !(requirement == NoChecksum && checkDigit)
  }

  /** The flag agrees with the strategy, if there is one. */
  predicate FlagConsistent(codeType: Option<Strategy>, checkDigit: bool) {
    codeType.Some? ==> ChecksumAllowed(RequiresChecksum(codeType.value), checkDigit)
  }

  /** The flag the constructor leaves, starting from the field's default
      `false`: forced on by a mandatory checksum, forced off by a forbidden
      one, left alone by an optional one. */
  function InitialCheckDigit(requirement: ChecksumRequirement): (checkDigit: bool)
    ensures ChecksumAllowed(requirement, checkDigit)
    ensures checkDigit <==> requirement == MandatoryChecksum
  {
    if requirement == MandatoryChecksum then true
    else if requirement == NoChecksum then false
    else false
  }

  /** The flag after `setCodeType(t)`: turned on (through `setCheckDigit`)
      when t demands a checksum and it is off, turned off when t forbids one and
      it is on, and otherwise unchanged. */
  function AdjustedCheckDigit(codeType: Option<Strategy>, checkDigit: bool): (adjusted: bool)
    ensures FlagConsistent(codeType, adjusted)
    ensures FlagConsistent(codeType, checkDigit) ==> adjusted == checkDigit
  {
    if codeType.Some? && RequiresChecksum(codeType.value) == MandatoryChecksum && !checkDigit then true
    else if codeType.Some? && RequiresChecksum(codeType.value) == NoChecksum && checkDigit then false
    else checkDigit
  }

  /** Whether the flag change is refused: `setCheckDigit` then returns at once. */
  predicate CheckDigitRefused(codeType: Option<Strategy>, checkDigit: bool) {
    codeType.Some? && !ChecksumAllowed(RequiresChecksum(codeType.value), checkDigit)
  }

  /** The bean fields `encode()` writes. */
  datatype EncodeState = EncodeState(encoded: Option<EncodedBarcode>, encodeError: string)

  /** `encode()`: the error text is cleared; without a strategy or with an
      empty code there is no barcode; otherwise the strategy encodes, and a
      `BarcodeException` leaves no barcode and its message.  Any other
      exception escapes (the second component) with the old barcode still in
      place. */
  function EncodeStep(codeType: Option<Strategy>, code: string, checkDigit: bool, previous: Option<EncodedBarcode>): (EncodeState, Option<Failure>) {
    if codeType.None? || code == "" then (EncodeState(None, ""), None)
    else
      match EncodeSpec(HooksOf(codeType.value), code, checkDigit)
      case Ok(b) => (EncodeState(Some(b), ""), None)
      case Err(BarcodeException(message)) => (EncodeState(None, message), None)
      case Err(RuntimeFault(f)) => (EncodeState(previous, ""), Some(RuntimeFault(f)))
  }

  /** What `encode()` guarantees: a barcode present means no error text; a
      freshly made barcode is the strategy's encoding of the code with the
      current flag; an error text is the message of the exception the strategy
      threw; no strategy or an empty code clears both fields; and only a
      runtime exception escapes. */
  lemma EncodeStepOutcomes(codeType: Option<Strategy>, code: string, checkDigit: bool, previous: Option<EncodedBarcode>)
    ensures var (state, thrown) := EncodeStep(codeType, code, checkDigit, previous);
      && (state.encoded.Some? ==> state.encodeError == "")
      && (thrown.None? && state.encoded.Some? ==>
            codeType.Some? && code != "" && EncodeSpec(HooksOf(codeType.value), code, checkDigit) == Ok(state.encoded.value))
      && (state.encodeError != "" ==>
            codeType.Some? && code != "" && EncodeSpec(HooksOf(codeType.value), code, checkDigit) == Err(BarcodeException(state.encodeError)))
      && (codeType.None? || code == "" ==> state == EncodeState(None, "") && thrown.None?)
      && (thrown.Some? ==> thrown.value.RuntimeFault? && state == EncodeState(previous, ""))
  {
  }

  /** The label width `getRequiredWidth()` measures: the barcode's label, else
      a pending error text, else nothing. */
  function LabelWidthOf(encoded: Option<EncodedBarcode>, encodeError: string, measure: string -> int): int {
    if encoded.Some? then measure(encoded.value.barcodeLabelText)
    else if encodeError != "" then measure(encodeError)
    else 0
  }

  /** The width a module takes on screen. */
  function SlotWidth(s: Slot, narrowestBarWidth: int): int {
    if s.Some? then s.value.width * narrowestBarWidth else 0
  }

  /** The sum of `width × narrowestBarWidth` over the written elements. */
  function BarsWidth(elements: seq<Slot>, narrowestBarWidth: int): int {
    if elements == [] then 0
    else BarsWidth(elements[..|elements| - 1], narrowestBarWidth) + SlotWidth(elements[|elements| - 1], narrowestBarWidth)
  }

  /** Every element of the array was written (none is Java null). */
  predicate AllWritten(elements: seq<Slot>) {
    forall i | 0 <= i < |elements| :: elements[i].Some?
  }

  /** The total is linear in the narrowest bar width: it is that width times the
      sum of the module widths. */
  lemma {:induction false} BarsWidthScales(elements: seq<Slot>, narrowestBarWidth: int)
    ensures BarsWidth(elements, narrowestBarWidth) == narrowestBarWidth * BarsWidth(elements, 1)
  {
    if elements != [] {
      BarsWidthScales(elements[..|elements| - 1], narrowestBarWidth);
      var last := elements[|elements| - 1];
      if last.Some? {
        assert SlotWidth(last, narrowestBarWidth) == narrowestBarWidth * SlotWidth(last, 1);
      }
    }
  }

  /** `getRequiredWidth()`'s answer: the larger of the bars' and the label's
      width. */
  function RequiredWidthOf(barcodeWidth: int, labelWidth: int): (width: int)
    ensures width >= barcodeWidth && width >= labelWidth
    ensures width == barcodeWidth || width == labelWidth
  {
    if barcodeWidth > labelWidth then barcodeWidth else labelWidth
  }

  /** Java's `int` division by 2, which truncates toward zero. */
  function HalfTruncated(a: int): (h: int)
    ensures a >= 0 ==> 0 <= h && 2 * h <= a < 2 * h + 2
    ensures a < 0 ==> h <= 0 && 2 * h - 2 < a <= 2 * h
  {
    if a >= 0 then a / 2 else -((-a) / 2)
  }

  const ALIGN_LEFT: int := 1
  const ALIGN_CENTER: int := 2
  const ALIGN_RIGHT: int := 3

  /** The x coordinate of the first bar in a component `dWidth` wide. */
  function BarsOrigin(alignment: int, dWidth: int, barcodeWidth: int): (x: int)
    ensures alignment == ALIGN_LEFT ==> x == 0
    ensures alignment == ALIGN_RIGHT ==> x + barcodeWidth == dWidth
    ensures alignment != ALIGN_LEFT && alignment != ALIGN_RIGHT ==> x == HalfTruncated(dWidth - barcodeWidth)
  {
    if alignment == ALIGN_LEFT then 0
    else if alignment == ALIGN_RIGHT then dWidth - barcodeWidth
    else HalfTruncated(dWidth - barcodeWidth)
  }

  /** Centring leaves the same margin on both sides, up to one pixel, on the
      left when the bars fit and on the right when they do not. */
  lemma CentredMargins(dWidth: int, barcodeWidth: int)
    ensures var x := BarsOrigin(ALIGN_CENTER, dWidth, barcodeWidth);
      var right := dWidth - (x + barcodeWidth);
      && (dWidth >= barcodeWidth ==> right == x || right == x + 1)
      && (dWidth < barcodeWidth ==> right == x || right == x - 1)
  {
  }
}
