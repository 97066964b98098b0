/** `jbarcodebean.JBarcodeBean`, the older bean: the same code, strategy,
    checksum flag, encoded barcode and error text, with a plain `showText`
    flag in place of a label position and bars that are always centred. */
module LegacyBean {
  import opened Common
  import opened Strategies
  import opened Engine
  import opened BeanRules

  class JBarcodeBean {
    var code: string
    var codeType: Option<Strategy>
    var checkDigit: bool
    var encoded: Option<EncodedBarcode>
    var encodeError: string
    var narrowestBarWidth: int
    var showText: bool
    var barcodeWidth: int
    var labelWidth: int

    /** The flag agrees with the strategy, and a barcode is never shown
        together with an error text. */
    ghost predicate Valid()
      reads this
    {
      FlagConsistent(codeType, checkDigit) && (encoded.Some? ==> encodeError == "")
    }

    /** `JBarcodeBean(code, codeType)`: the flag forced by the requirement,
        then the first encoding. */
    constructor (code: string, codeType: Strategy)
      ensures this.code == code && this.codeType == Some(codeType)
      ensures checkDigit == InitialCheckDigit(RequiresChecksum(codeType))
      ensures EncodeState(encoded, encodeError) == EncodeStep(Some(codeType), code, checkDigit, None).0
      ensures narrowestBarWidth == 1 && !showText
      ensures Valid()
    {
      this.code := code;
      this.codeType := Some(codeType);
      checkDigit := InitialCheckDigit(RequiresChecksum(codeType));
      encoded := None;
      encodeError := "";
      narrowestBarWidth := 1;
      showText := false;
      barcodeWidth := 0;
      labelWidth := 0;
      new;
      var _ := Encode();
    }

    /** `JBarcodeBean()`: code "1234" in Code 39, whose hooks are not part of
        this model and are passed in. */
    constructor Default(code39: Hooks)
      ensures code == "1234" && codeType == Some(OtherStrategy(Code39, code39))
      ensures checkDigit == InitialCheckDigit(code39.requirement)
      ensures EncodeState(encoded, encodeError) == EncodeStep(codeType, code, checkDigit, None).0
      ensures narrowestBarWidth == 1 && !showText
      ensures Valid()
    {
      code := "1234";
      codeType := Some(OtherStrategy(Code39, code39));
      checkDigit := InitialCheckDigit(code39.requirement);
      encoded := None;
      encodeError := "";
      narrowestBarWidth := 1;
      showText := false;
      barcodeWidth := 0;
      labelWidth := 0;
      new;
      var _ := Encode();
    }

    /** `encode()`; a runtime exception of the strategy escapes as `thrown`. */
    method Encode() returns (thrown: Option<Failure>)
      modifies this
      ensures (EncodeState(encoded, encodeError), thrown) == EncodeStep(codeType, code, checkDigit, old(encoded))
      ensures code == old(code) && codeType == old(codeType) && checkDigit == old(checkDigit)
      ensures narrowestBarWidth == old(narrowestBarWidth) && showText == old(showText)
      ensures barcodeWidth == old(barcodeWidth) && labelWidth == old(labelWidth)
      ensures old(FlagConsistent(codeType, checkDigit)) ==> Valid()
    {
      encodeError := "";
      if codeType.Some? && code != "" {
        var r := Engine.Encode(HooksOf(codeType.value), code, checkDigit);
        match r {
          case Ok(b) =>
            encoded := Some(b);
          case Err(BarcodeException(message)) =>
            encoded := None;
            encodeError := message;
          case Err(RuntimeFault(f)) =>
            return Some(RuntimeFault(f));
        }
      } else {
        encoded := None;
      }
      return None;
    }

    /** `setCode(code)`: store, then encode. */
    method SetCode(code: string) returns (thrown: Option<Failure>)
      modifies this
      ensures this.code == code && codeType == old(codeType) && checkDigit == old(checkDigit)
      ensures (EncodeState(encoded, encodeError), thrown) == EncodeStep(codeType, code, checkDigit, old(encoded))
      ensures narrowestBarWidth == old(narrowestBarWidth) && showText == old(showText)
      ensures old(Valid()) ==> Valid()
    {
      this.code := code;
      thrown := Encode();
    }

    /** `setCheckDigit(checkDigit)`: a change the strategy's requirement
        forbids is ignored; otherwise store, then encode. */
    method SetCheckDigit(checkDigit: bool) returns (thrown: Option<Failure>)
      modifies this
      ensures CheckDigitRefused(old(codeType), checkDigit) ==>
        && thrown.None? && this.checkDigit == old(this.checkDigit)
        && encoded == old(encoded) && encodeError == old(encodeError)
        && barcodeWidth == old(barcodeWidth) && labelWidth == old(labelWidth)
      ensures !CheckDigitRefused(old(codeType), checkDigit) ==>
        && this.checkDigit == checkDigit
        && (EncodeState(encoded, encodeError), thrown) == EncodeStep(codeType, code, checkDigit, old(encoded))
      ensures code == old(code) && codeType == old(codeType)
      ensures narrowestBarWidth == old(narrowestBarWidth) && showText == old(showText)
      ensures !CheckDigitRefused(old(codeType), checkDigit) || old(Valid()) ==> Valid()
    {
      if codeType.Some? {
        if RequiresChecksum(codeType.value) == MandatoryChecksum && checkDigit == false {
          return None;
        } else if RequiresChecksum(codeType.value) == NoChecksum && checkDigit == true {
          return None;
        }
      }
      this.checkDigit := checkDigit;
      thrown := Encode();
    }

    /** `setCodeType(codeType)`: store, then make the flag agree through
        `setCheckDigit` when it does not, or else just encode. */
    method SetCodeType(codeType: Option<Strategy>) returns (thrown: Option<Failure>)
      modifies this
      ensures this.codeType == codeType && code == old(code)
      ensures checkDigit == AdjustedCheckDigit(codeType, old(checkDigit))
      ensures (EncodeState(encoded, encodeError), thrown) == EncodeStep(codeType, code, checkDigit, old(encoded))
      ensures narrowestBarWidth == old(narrowestBarWidth) && showText == old(showText)
      ensures Valid()
    {
      this.codeType := codeType;
      if codeType.Some? && RequiresChecksum(codeType.value) == MandatoryChecksum && checkDigit == false {
        thrown := SetCheckDigit(true);
      } else if codeType.Some? && RequiresChecksum(codeType.value) == NoChecksum && checkDigit == true {
        thrown := SetCheckDigit(false);
      } else {
        thrown := Encode();
      }
    }

    /** `setShowText(showText)`: stored as given. */
    method SetShowText(showText: bool)
      modifies this
      ensures this.showText == showText
      ensures code == old(code) && codeType == old(codeType) && checkDigit == old(checkDigit)
      ensures encoded == old(encoded) && encodeError == old(encodeError)
      ensures narrowestBarWidth == old(narrowestBarWidth)
    {
      this.showText := showText;
    }

    /** `getRequiredWidth()`: the bars' total width and the label's width are
        recomputed into their fields, and the larger is the answer.  A null
        element makes `getWidth()` throw. */
    method GetRequiredWidth(measure: string -> int) returns (r: Result<int>)
      modifies this
      ensures labelWidth == LabelWidthOf(encoded, encodeError, measure)
      ensures r.Ok? <==> encoded.None? || AllWritten(encoded.value.elements)
      ensures r.Ok? ==>
        && barcodeWidth == (if encoded.Some? then BarsWidth(encoded.value.elements, narrowestBarWidth) else 0)
        && r.value == RequiredWidthOf(barcodeWidth, labelWidth)
      ensures r.Err? ==>
        && r.error == RuntimeFault(NULL_POINTER)
        && exists k :: 0 <= k < |encoded.value.elements| && encoded.value.elements[k].None? &&
             AllWritten(encoded.value.elements[..k]) && barcodeWidth == BarsWidth(encoded.value.elements[..k], narrowestBarWidth)
      ensures code == old(code) && codeType == old(codeType) && checkDigit == old(checkDigit)
      ensures encoded == old(encoded) && encodeError == old(encodeError)
      ensures showText == old(showText) && narrowestBarWidth == old(narrowestBarWidth)
    {
      barcodeWidth := 0;
      labelWidth := 0;
      if encoded.Some? {
        labelWidth := measure(encoded.value.barcodeLabelText);
        var elements := encoded.value.elements;
        var sum := 0;
        for i := 0 to |elements|
          invariant AllWritten(elements[..i])
          invariant sum == BarsWidth(elements[..i], narrowestBarWidth)
        {
          if elements[i].None? {
            barcodeWidth := sum;
            return Err(RuntimeFault(NULL_POINTER));
          }
          assert elements[..i + 1][..i] == elements[..i];
          sum := sum + elements[i].value.width * narrowestBarWidth;
        }
        assert elements[..|elements|] == elements;
        barcodeWidth := sum;
      } else if encodeError != "" {
        labelWidth := measure(encodeError);
      }
      return Ok(RequiredWidthOf(barcodeWidth, labelWidth));
    }

    /** The x coordinate `doPaint` starts the bars at, in a component `dWidth`
        wide: always centred. */
    function BarsX(dWidth: int): (x: int)
      reads this
      ensures x == BarsOrigin(ALIGN_CENTER, dWidth, barcodeWidth)
    {
      HalfTruncated(dWidth - barcodeWidth)
    }
  }
}
