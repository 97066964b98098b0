/** The hooks that `AbstractBarcodeStrategy` leaves to its subclasses, and the
    strategies of the model: Code 11 and Codabar 2:1, whose sources are part of
    the model, and every other symbology as an opaque record of hooks. */
module Strategies {
  import opened Common
  import opened CharacterCodes
  import Code11Symbology
  import Codabar2to1Symbology

  /** The runtime classes of strategies that the editor and the beans name. */
  datatype StrategyClass =
    | Code128 | Code39 | Code39_2to1 | ExtendedCode39 | ExtendedCode39_2to1
    | Interleaved25 | Interleaved25_2to1 | Msi | Codabar | Codabar_2to1
    | Ean13 | Ean8 | Code11
    | Unlisted

  /** The abstract hooks: `getCodes`, `requiresChecksum`, `isInterleaved`,
      `getStartSentinel` (0xffff for none), `getStopSentinel`, `getMarginWidth`,
      and the four text hooks.  `preprocess` and `augmentWithChecksum` may throw,
      `postprocess` and `getBarcodeLabelText` may not. */
  datatype Hooks = Hooks(
    codes: seq<CharacterCode>,
    requirement: ChecksumRequirement,
    interleaved: bool,
    startSentinel: char,
    stopSentinel: char,
    marginWidth: Byte,
    preprocess: string -> Result<string>,
    augmentWithChecksum: string -> Result<string>,
    postprocess: string -> string,
    barcodeLabelText: string -> string)

  /** A strategy object.  `Codabar2to1Strategy` carries the hooks it inherits
      from `Codabar`, whose source is not part of this model. */
  datatype Strategy =
    | Code11Strategy
    | Codabar2to1Strategy(codabar: Hooks)
    | OtherStrategy(cls: StrategyClass, hooks: Hooks)

  /** The hooks of `Code11`. */
  const Code11Hooks: Hooks := Hooks(
    Code11Symbology.Codes,
    Code11Symbology.REQUIREMENT,
    Code11Symbology.INTERLEAVED,
    Code11Symbology.START_SENTINEL,
    Code11Symbology.STOP_SENTINEL,
    Code11Symbology.MARGIN_WIDTH,
    text => Ok(text),
    Code11Symbology.WithChecksum,
    text => text,
    text => text)

  /** The hooks a strategy object answers with, after overriding. */
  function HooksOf(s: Strategy): Hooks {
    match s
    case Code11Strategy => Code11Hooks
    case Codabar2to1Strategy(codabar) => codabar.(codes := Codabar2to1Symbology.GetCodes())
    case OtherStrategy(_, hooks) => hooks
  }

  /** The runtime class of a strategy object. */
  function ClassOf(s: Strategy): StrategyClass {
    match s
    case Code11Strategy => Code11
    case Codabar2to1Strategy(_) => Codabar_2to1
    case OtherStrategy(cls, _) => cls
  }

  /** `requiresChecksum()`. */
  function RequiresChecksum(s: Strategy): ChecksumRequirement {
    HooksOf(s).requirement
  }

  /** Code 11's fixed policy: `*` as both sentinels, no margin, not interleaved,
      an optional checksum, and identity pre- and postprocessing and label, so
      the label never shows the check characters. */
  lemma Code11Policy(text: string)
    ensures var h := HooksOf(Code11Strategy);
      && h.startSentinel == '*' && h.stopSentinel == '*'
      && h.marginWidth == 0 && !h.interleaved
      && RequiresChecksum(Code11Strategy) == OptionalChecksum
      && h.codes == Code11Symbology.Codes
      && h.preprocess(text) == Ok(text)
      && h.postprocess(text) == text
      && h.barcodeLabelText(text) == text
      && h.augmentWithChecksum(text) == Code11Symbology.WithChecksum(text)
  {
  }

  /** `Codabar_2to1` overrides `getCodes` and nothing else: every other hook is
      the one it inherits. */
  lemma Codabar2to1OverridesOnlyCodes(codabar: Hooks)
    ensures HooksOf(Codabar2to1Strategy(codabar)).codes == Codabar2to1Symbology.Codes
    ensures HooksOf(Codabar2to1Strategy(codabar)).(codes := codabar.codes) == codabar
  {
  }
}
