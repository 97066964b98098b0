/** `net.sourceforge.jbarcodebean.JBarcodeBean`: the bean's code, strategy,
    checksum flag, encoded barcode and error text, its label position and
    alignment, and the width computation it sizes itself by. */
module CurrentBean {
  import opened Common
  import opened Strategies
  import opened Engine
  import opened BeanRules

  const LABEL_NONE: int := 0
  const LABEL_TOP: int := 1
  const LABEL_BOTTOM: int := 2

  class JBarcodeBean {
    var code: string
    var codeType: Option<Strategy>
    var checkDigit: bool
    var encoded: Option<EncodedBarcode>
    var encodeError: string
    var narrowestBarWidth: int
    var horizontalAlignment: int
    var labelPosition: int
    var barcodeWidth: int
    var labelWidth: int

    /** The flag agrees with the strategy, and a barcode is never shown
        together with an error text. */
    ghost predicate Valid()
      reads this
    {
      FlagConsistent(codeType, checkDigit) && (encoded.Some? ==> encodeError == "")
    }

    /** `JBarcodeBean(code, codeType)`: the flag forced by the requirement,
        then the first encoding. */
    constructor (code: string, codeType: Strategy)
      ensures this.code == code && this.codeType == Some(codeType)
      ensures checkDigit == InitialCheckDigit(RequiresChecksum(codeType))
      ensures EncodeState(encoded, encodeError) == EncodeStep(Some(codeType), code, checkDigit, None).0
      ensures narrowestBarWidth == 1 && horizontalAlignment == ALIGN_CENTER && labelPosition == LABEL_BOTTOM
      ensures Valid()
    {
      this.code := code;
      this.codeType := Some(codeType);
      checkDigit := InitialCheckDigit(RequiresChecksum(codeType));
      encoded := None;
      encodeError := "";
      narrowestBarWidth := 1;
      horizontalAlignment := ALIGN_CENTER;
      labelPosition := LABEL_BOTTOM;
      barcodeWidth := 0;
      labelWidth := 0;
      new;
      var _ := Encode();
    }

    /** `JBarcodeBean()`: code "1234" in Code 39, whose hooks are not part of
        this model and are passed in. */
    constructor Default(code39: Hooks)
      ensures code == "1234" && codeType == Some(OtherStrategy(Code39, code39))
      ensures checkDigit == InitialCheckDigit(code39.requirement)
      ensures EncodeState(encoded, encodeError) == EncodeStep(codeType, code, checkDigit, None).0
      ensures narrowestBarWidth == 1 && horizontalAlignment == ALIGN_CENTER && labelPosition == LABEL_BOTTOM
      ensures Valid()
    {
      code := "1234";
      codeType := Some(OtherStrategy(Code39, code39));
      checkDigit := InitialCheckDigit(code39.requirement);
      encoded := None;
      encodeError := "";
      narrowestBarWidth := 1;
      horizontalAlignment := ALIGN_CENTER;
      labelPosition := LABEL_BOTTOM;
      barcodeWidth := 0;
      labelWidth := 0;
      new;
      var _ := Encode();
    }

    /** `encode()`; a runtime exception of the strategy escapes as `thrown`. */
    method Encode() returns (thrown: Option<Failure>)
      modifies this
      ensures (EncodeState(encoded, encodeError), thrown) == EncodeStep(codeType, code, checkDigit, old(encoded))
      ensures code == old(code) && codeType == old(codeType) && checkDigit == old(checkDigit)
      ensures narrowestBarWidth == old(narrowestBarWidth) && horizontalAlignment == old(horizontalAlignment)
      ensures labelPosition == old(labelPosition)
      ensures barcodeWidth == old(barcodeWidth) && labelWidth == old(labelWidth)
      ensures old(FlagConsistent(codeType, checkDigit)) ==> Valid()
    {
      encodeError := "";
      if codeType.Some? && code != "" {
        var r := Engine.Encode(HooksOf(codeType.value), code, checkDigit);
        match r {
          case Ok(b) =>
            encoded := Some(b);
          case Err(BarcodeException(message)) =>
            encoded := None;
            encodeError := message;
          case Err(RuntimeFault(f)) =>
            return Some(RuntimeFault(f));
        }
      } else {
        encoded := None;
      }
      return None;
    }

    /** `setCode(code)`: store, then encode. */
    method SetCode(code: string) returns (thrown: Option<Failure>)
      modifies this
      ensures this.code == code && codeType == old(codeType) && checkDigit == old(checkDigit)
      ensures (EncodeState(encoded, encodeError), thrown) == EncodeStep(codeType, code, checkDigit, old(encoded))
      ensures narrowestBarWidth == old(narrowestBarWidth) && horizontalAlignment == old(horizontalAlignment)
      ensures labelPosition == old(labelPosition)
      ensures old(Valid()) ==> Valid()
    {
      this.code := code;
      thrown := Encode();
    }

    /** `setCheckDigit(checkDigit)`: a change the strategy's requirement
        forbids is ignored; otherwise store, then encode. */
    method SetCheckDigit(checkDigit: bool) returns (thrown: Option<Failure>)
      modifies this
      ensures CheckDigitRefused(old(codeType), checkDigit) ==>
        && thrown.None? && this.checkDigit == old(this.checkDigit)
        && encoded == old(encoded) && encodeError == old(encodeError)
        && barcodeWidth == old(barcodeWidth) && labelWidth == old(labelWidth)
      ensures !CheckDigitRefused(old(codeType), checkDigit) ==>
        && this.checkDigit == checkDigit
        && (EncodeState(encoded, encodeError), thrown) == EncodeStep(codeType, code, checkDigit, old(encoded))
      ensures code == old(code) && codeType == old(codeType)
      ensures narrowestBarWidth == old(narrowestBarWidth) && horizontalAlignment == old(horizontalAlignment)
      ensures labelPosition == old(labelPosition)
      ensures !CheckDigitRefused(old(codeType), checkDigit) || old(Valid()) ==> Valid()
    {
      if codeType.Some? {
        if RequiresChecksum(codeType.value) == MandatoryChecksum && checkDigit == false {
          return None;
        } else if RequiresChecksum(codeType.value) == NoChecksum && checkDigit == true {
          return None;
        }
      }
      this.checkDigit := checkDigit;
      thrown := Encode();
    }

    /** `setCodeType(codeType)`: store, then make the flag agree through
        `setCheckDigit` when it does not, or else just encode. */
    method SetCodeType(codeType: Option<Strategy>) returns (thrown: Option<Failure>)
      modifies this
      ensures this.codeType == codeType && code == old(code)
      ensures checkDigit == AdjustedCheckDigit(codeType, old(checkDigit))
      ensures (EncodeState(encoded, encodeError), thrown) == EncodeStep(codeType, code, checkDigit, old(encoded))
      ensures narrowestBarWidth == old(narrowestBarWidth) && horizontalAlignment == old(horizontalAlignment)
      ensures labelPosition == old(labelPosition)
      ensures Valid()
    {
      this.codeType := codeType;
      if codeType.Some? && RequiresChecksum(codeType.value) == MandatoryChecksum && checkDigit == false {
        thrown := SetCheckDigit(true);
      } else if codeType.Some? && RequiresChecksum(codeType.value) == NoChecksum && checkDigit == true {
        thrown := SetCheckDigit(false);
      } else {
        thrown := Encode();
      }
    }

    /** `isShowText()`: the deprecated flag, true exactly when the label sits
        at the bottom. */
    function IsShowText(): (shown: bool)
      reads this
    {
      labelPosition == LABEL_BOTTOM
    }

    /** Whether `doPaint` draws the label under a barcode: at any position
        other than `LABEL_NONE`. */
    function LabelDrawn(): bool
      reads this
    {
      labelPosition != LABEL_NONE
    }

    /** The deprecated flag never claims more than is painted, but says less:
        a label at the top is drawn while `isShowText()` answers false.  Of
        the three positions, the flag is true only for the bottom one. */
    lemma ShowTextUnderReports()
      ensures IsShowText() ==> LabelDrawn()
      ensures labelPosition == LABEL_TOP ==> LabelDrawn() && !IsShowText()
      ensures labelPosition == LABEL_NONE ==> !LabelDrawn() && !IsShowText()
    {
    }

    /** `setLabelPosition(labelPosition)`. */
    method SetLabelPosition(labelPosition: int)
      modifies this
      ensures this.labelPosition == labelPosition
      ensures code == old(code) && codeType == old(codeType) && checkDigit == old(checkDigit)
      ensures encoded == old(encoded) && encodeError == old(encodeError)
      ensures horizontalAlignment == old(horizontalAlignment) && narrowestBarWidth == old(narrowestBarWidth)
    {
      this.labelPosition := labelPosition;
    }

    /** `setShowText(showText)`: the label at the bottom, or no label. */
    method SetShowText(showText: bool)
      modifies this
      ensures labelPosition == if showText then LABEL_BOTTOM else LABEL_NONE
      ensures IsShowText() == showText
      ensures code == old(code) && codeType == old(codeType) && checkDigit == old(checkDigit)
      ensures encoded == old(encoded) && encodeError == old(encodeError)
      ensures horizontalAlignment == old(horizontalAlignment) && narrowestBarWidth == old(narrowestBarWidth)
    {
      SetLabelPosition(if showText then LABEL_BOTTOM else LABEL_NONE);
    }

    /** `setHorizontalAlignment(horizontalAlignment)`. */
    method SetHorizontalAlignment(horizontalAlignment: int)
      modifies this
      ensures this.horizontalAlignment == horizontalAlignment
      ensures code == old(code) && codeType == old(codeType) && checkDigit == old(checkDigit)
      ensures encoded == old(encoded) && encodeError == old(encodeError)
      ensures labelPosition == old(labelPosition) && narrowestBarWidth == old(narrowestBarWidth)
    {
      this.horizontalAlignment := horizontalAlignment;
    }

    /** `getRequiredWidth()`: the bars' total width and the label's width are
        recomputed into their fields, and the larger is the answer.  A null
        element makes `getWidth()` throw. */
    method GetRequiredWidth(measure: string -> int) returns (r: Result<int>)
      modifies this
      ensures labelWidth == LabelWidthOf(encoded, encodeError, measure)
      ensures r.Ok? <==> encoded.None? || AllWritten(encoded.value.elements)
      ensures r.Ok? ==>
        && barcodeWidth == (if encoded.Some? then BarsWidth(encoded.value.elements, narrowestBarWidth) else 0)
        && r.value == RequiredWidthOf(barcodeWidth, labelWidth)
      ensures r.Err? ==>
        && r.error == RuntimeFault(NULL_POINTER)
        && exists k :: 0 <= k < |encoded.value.elements| && encoded.value.elements[k].None? &&
             AllWritten(encoded.value.elements[..k]) && barcodeWidth == BarsWidth(encoded.value.elements[..k], narrowestBarWidth)
      ensures code == old(code) && codeType == old(codeType) && checkDigit == old(checkDigit)
      ensures encoded == old(encoded) && encodeError == old(encodeError)
      ensures labelPosition == old(labelPosition) && horizontalAlignment == old(horizontalAlignment)
      ensures narrowestBarWidth == old(narrowestBarWidth)
    {
      barcodeWidth := 0;
      labelWidth := 0;
      if encoded.Some? {
        labelWidth := measure(encoded.value.barcodeLabelText);
        var elements := encoded.value.elements;
        var sum := 0;
        for i := 0 to |elements|
          invariant AllWritten(elements[..i])
          invariant sum == BarsWidth(elements[..i], narrowestBarWidth)
        {
          if elements[i].None? {
            barcodeWidth := sum;
            return Err(RuntimeFault(NULL_POINTER));
          }
          assert elements[..i + 1][..i] == elements[..i];
          sum := sum + elements[i].value.width * narrowestBarWidth;
        }
        assert elements[..|elements|] == elements;
        barcodeWidth := sum;
      } else if encodeError != "" {
        labelWidth := measure(encodeError);
      }
      return Ok(RequiredWidthOf(barcodeWidth, labelWidth));
    }

    /** The x coordinate `doPaint` starts the bars at, in a component `dWidth`
        wide: flush left, flush right, or centred with margins equal to within
        one pixel, by the alignment. */
    function BarsX(dWidth: int): (x: int)
      reads this
      ensures x == BarsOrigin(horizontalAlignment, dWidth, barcodeWidth)
      ensures horizontalAlignment == ALIGN_LEFT ==> x == 0
      ensures horizontalAlignment == ALIGN_RIGHT ==> x + barcodeWidth == dWidth
      ensures horizontalAlignment != ALIGN_LEFT && horizontalAlignment != ALIGN_RIGHT ==>
        var right := dWidth - (x + barcodeWidth);
        && (dWidth >= barcodeWidth ==> right == x || right == x + 1)
        && (dWidth < barcodeWidth ==> right == x || right == x - 1)
    {
      CentredMargins(dWidth, barcodeWidth);
      BarsOrigin(horizontalAlignment, dWidth, barcodeWidth)
    }
  }
}
