# jbarcodebean core in Dafny

This project models the core of jbarcodebean, a Java barcode component.

- **The shared encoding pipeline** of `AbstractBarcodeStrategy.encode`. The text is preprocessed, optionally extended by a checksum, and postprocessed. Text that holds a sentinel is refused. The text is then wrapped in its start and stop sentinels and measured by `computeSize`. Finally it is laid out module by module into an element array through a cursor that steps by one, or by two and is rewound for interleaved symbologies. A space margin goes at each end.
- **The table lookups** `getCharacterCode(char)` and `getCharacterCode(int)`.
- **Two concrete strategies:**
  - `Code11`, with a 13-entry table and a dual weighted modulo-11 checksum;
  - `Codabar_2to1`, with an 18-entry table and nothing else overridden.
- **The two versions of the module value:** the mutable `bar`/`width` record the engine writes, and the immutable `type`/`width` element the current bean reads.
- **The property editor `BarcodeStrategyEditor`:** 12 tags, `setAsText`, `getAsText` and `getJavaInitializationString`.
- **The state machine of both `JBarcodeBean` versions:**
  - the checksum flag, which must agree with the strategy's requirement;
  - `encode()`, which leaves either a barcode or an error text;
  - the label position or show-text flag;
  - the width sum of `getRequiredWidth`;
  - the x origin of the bars.

## Design

Every module follows one part of the program.

- `Common` holds optional values (`None` is Java's `null`) and Java exceptions as a `Result`. A `BarcodeException(message)` is thrown on purpose. A `RuntimeFault` (a null pointer, an array index out of bounds) escapes by accident.
- `Engine` has one function per stage (`ProcessText`, `Wrap`, `Size`, `PlaceWidths`, `LayoutFrom`, `EncodeSpec`). It also has the loops of the source as methods on an `array`: `ComputeSize`, `PlaceWidthsInto`, `LayOut` and `Encode`. Each method is proved to compute exactly its function.
- `EngineProperties` proves what the pipeline promises, using those functions.
- A slot of the element array is an `Option`. A cell the cursor never reaches stays Java `null`.
- The strategy hooks are a record (`Strategies.Hooks`): table, checksum requirement, interleaved flag, sentinels, margin, and the four text functions. A strategy whose source is not part of this model carries such a record as a parameter.
- The beans are classes whose methods change their fields. The shared rules of the two beans are functions in `BeanRules`.

**Codabar 2:1 table.** Every `2,1` pair in `Codabar_2to1.java` appears as the literal `3.0`. That is not a valid Java `byte` and does not compile. The doc comment on line 27 names "the 3.0 (narrow) variant" where a 2:1 variant is meant. This fits a text replacement of `2.1` by `3.0` (the licence-version bump) that also caught `2,1`. The model keeps two readings:

- `LiteralCodes` takes each `3.0` as the single width 3;
- `Codes` reads it as the two widths 2 and 1, and is the table the rest of the model uses.

**Code 11's K checksum** is taken over the data only, as the code does. C is not included.

**The class hierarchy for `instanceof`.** `StrategyEditor.SUPERCLASS` holds four pairs:

- `Code39_2to1 extends Code39` (src/main/java/net/sourceforge/jbarcodebean/model/Code39_2to1.java:26) and `Codabar_2to1 extends Codabar` (src/jbarcodebean/Codabar_2to1.java:31) are in the source;
- the Extended Code 39 and Interleaved 2 of 5 pairs are assumed from their names.

## Model

| member | source | states |
|---|---|---|
| BarcodeElements.BarcodeElement.Type | src/main/java/net/sourceforge/jbarcodebean/BarcodeElement.java:25-46 | the type is `TYPE_BAR` (1) exactly for a bar and `TYPE_SPACE` (0) otherwise |
| BarcodeElements.OfType | src/main/java/net/sourceforge/jbarcodebean/BarcodeElement.java:35-38 | the constructor keeps the width; the element is a bar exactly when the kind is `TYPE_BAR` |
| BarcodeElements.OfTypeKeepsFields | src/main/java/net/sourceforge/jbarcodebean/BarcodeElement.java:35-46 | `getType()` and `getWidth()` give back the constructor's arguments |
| BarcodeElements.TypeRoundTrip | src/main/java/net/sourceforge/jbarcodebean/BarcodeElement.java:31-46 | rebuilding an element from its type and width gives the same element |
| BarcodeElements.ModuleRecord.constructor | src/jbarcodebean/BarcodeElement.java:29-39 | a record that has just been allocated is a space of width 0 |
| BarcodeElements.NewModule | src/main/java/net/sourceforge/jbarcodebean/model/AbstractBarcodeStrategy.java:189-192 | when the engine allocates a fresh record, both fields are assigned before any reader sees them |
| CharacterCodes.LookupFirst | src/main/java/net/sourceforge/jbarcodebean/model/AbstractBarcodeStrategy.java:256-264 | the lookup gives null exactly when no entry has the character, and otherwise the first entry that has it |
| CharacterCodes.LookupCheckFirst | src/main/java/net/sourceforge/jbarcodebean/model/AbstractBarcodeStrategy.java:277-285 | the same for the lookup by check value |
| CharacterCodes.GetCharacterCode | src/main/java/net/sourceforge/jbarcodebean/model/AbstractBarcodeStrategy.java:256-264 | the linear-scan loop returns exactly the first-match lookup |
| CharacterCodes.GetCharacterCodeByCheck | src/main/java/net/sourceforge/jbarcodebean/model/AbstractBarcodeStrategy.java:277-285 | the linear-scan loop by check value returns exactly the first-match lookup |
| CharacterCodes.FirstCharacterUnique | src/main/java/net/sourceforge/jbarcodebean/model/AbstractBarcodeStrategy.java:258-262 | the entry found is the first whose character matches |
| CharacterCodes.FirstCheckUnique | src/main/java/net/sourceforge/jbarcodebean/model/AbstractBarcodeStrategy.java:279-283 | the entry found is the first whose check value matches |
| CharacterCodes.LookupFindsEntry | src/main/java/net/sourceforge/jbarcodebean/model/AbstractBarcodeStrategy.java:256-264 | over a table with distinct characters, every entry is found by its own character |
| CharacterCodes.LookupCheckFindsEntry | src/main/java/net/sourceforge/jbarcodebean/model/AbstractBarcodeStrategy.java:277-285 | over a table with distinct check values, every entry is found by its own check value |
| Code11Symbology.TableContents | src/jbarcodebean/Code11.java:6-19 | 13 entries: `0`–`9` with checks 0–9, `-` 10, `*` 11, `$` 12; `$` has widths {0,1}; no entry is empty |
| Code11Symbology.TableDistinct | src/jbarcodebean/Code11.java:6-19 | no two entries share a character, and no two share a check value, so both lookups are unambiguous |
| Code11Symbology.LookupByCharacter | src/jbarcodebean/Code11.java:6-19 | each table character is found with check value equal to its position |
| Code11Symbology.InTableIff | src/jbarcodebean/Code11.java:6-19 | a character is in the table exactly when it is one of `0123456789-*$` |
| Code11Symbology.CheckValuesResolve | src/jbarcodebean/Code11.java:42-43 | every check value 0..10 resolves, by check, to a digit or `-` |
| Code11Symbology.Check | src/jbarcodebean/Code11.java:28-29 | the check value of a table character, always between 0 and 12 |
| Code11Symbology.WeightedSum | src/jbarcodebean/Code11.java:27-39 | the right-to-left weighted sum is never negative |
| Code11Symbology.Weight | src/jbarcodebean/Code11.java:25-38 | each weight lies between 1 and the cycle length |
| Code11Symbology.WeightStep | src/jbarcodebean/Code11.java:31-38 | the counter's increment with wrap to 1 after 10 (C) or 9 (K) gives exactly the cyclic weights |
| Code11Symbology.CheckC | src/jbarcodebean/Code11.java:40 | C is between 0 and 10 |
| Code11Symbology.CheckK | src/jbarcodebean/Code11.java:41 | K is between 0 and 10 |
| Code11Symbology.CheckCharacter | src/jbarcodebean/Code11.java:42-45 | the character of a check value 0..10 is the digit, or `-` for 10 |
| Code11Symbology.ChecksumAppends | src/jbarcodebean/Code11.java:22-55 | the step fails (null pointer) exactly on a character outside the table; otherwise the text is kept as a prefix, with one check character appended below 10 characters and two from 10 on, each a digit or `-` |
| Code11Symbology.ChecksumLoop | src/jbarcodebean/Code11.java:23-39 | the right-to-left loop ends with C = the weighted sum with cycle 10 and K = the one with cycle 9; it fails (null pointer) exactly when some character is outside the table |
| Code11Symbology.WeightedSumBound | src/jbarcodebean/Code11.java:27-39 | each character adds at most 12 times the cycle length to a sum |
| Code11Symbology.ChecksumsFitInInt | src/jbarcodebean/Code11.java:23-39 | up to 17,895,697 characters, every sum the loop forms stays within Java's `int` range, so the unbounded sums are the source's |
| Code11Symbology.AccumulateCharacter | src/jbarcodebean/Code11.java:28-38 | one turn of the loop turns the sums and weights over a suffix into those over the suffix one character longer |
| Code11Symbology.AppendCheckCharacters | src/jbarcodebean/Code11.java:42-48 | C's character is appended, and K's after it exactly when the text has 10 or more characters |
| Code11Symbology.CopyToBuffer | src/jbarcodebean/Code11.java:49-54 | copying character by character into the buffer yields the same text |
| Code11Symbology.AugmentWithChecksum | src/jbarcodebean/Code11.java:22-55 | the loop with two wrapping weight counters, the lookups and the buffer copy compute exactly the text plus C (plus K) |
| Code11Symbology.DigitChecks | src/jbarcodebean/Code11.java:7-17 | each digit's check value is the digit, and that of `-` is 10 |
| Code11Symbology.ChecksumFromSums | src/jbarcodebean/Code11.java:40-48 | the check characters are the two sums modulo 11, mapped back to characters |
| Code11Symbology.CheckCharactersEncodable | src/jbarcodebean/Code11.java:7-17 | text of digits and dashes is in the table |
| Code11Symbology.WeightedSumStep | src/jbarcodebean/Code11.java:27-32 | the first character weighs by its distance from the right end |
| Code11Symbology.ShortExample | src/jbarcodebean/Code11.java:22-55 | "123-45" gets C = 71 mod 11 = 5, giving "123-455" |
| Code11Symbology.LongExample | src/jbarcodebean/Code11.java:22-55 | "0123456789" gets C = K = 165 mod 11 = 0, giving "012345678900" |
| Codabar2to1Symbology.TableContents | src/jbarcodebean/Codabar_2to1.java:33-52 | 18 entries `0`–`9 - $ : / . + A B` with checks 0..17 in order; `A` (16) is the start and `B` (17) the stop |
| Codabar2to1Symbology.TablesDistinct | src/jbarcodebean/Codabar_2to1.java:34-51 | characters and check values are pairwise distinct, in both readings |
| Codabar2to1Symbology.LookupsFindEntries | src/jbarcodebean/Codabar_2to1.java:34-51 | both lookups find every entry by its own character and check value |
| Codabar2to1Symbology.LiteralWidthCounts | src/jbarcodebean/Codabar_2to1.java:34-51 | read literally, every entry has between 5 and 7 widths |
| Codabar2to1Symbology.LiteralTableIrregular | src/jbarcodebean/Codabar_2to1.java:34-46 | read literally, entry lengths differ (7, 6, 5) and contain width 3 |
| Codabar2to1Symbology.CodesExpandLiteral | src/jbarcodebean/Codabar_2to1.java:34-51 | the reconstructed table is the literal one with every 3 read as 2, 1 |
| Codabar2to1Symbology.ExpandedTableRegular | src/jbarcodebean/Codabar_2to1.java:34-51 | reconstructed, every entry has 8 widths, each 1 or 2, ending in the gap 1 |
| Codabar2to1Symbology.GetCodes | src/jbarcodebean/Codabar_2to1.java:59-61 | `getCodes` answers the 18-entry table |
| Strategies.Code11Policy | src/jbarcodebean/Code11.java:57-91 | both sentinels are `*`, margin 0, not interleaved, optional checksum; identity pre- and postprocessing and label |
| Strategies.Codabar2to1OverridesOnlyCodes | src/jbarcodebean/Codabar_2to1.java:31-61 | only the table differs from the inherited Codabar hooks |
| Engine.ComputeSize | src/main/java/net/sourceforge/jbarcodebean/model/AbstractBarcodeStrategy.java:232-245 | the loop returns the module count plus 2, or an invalid-character failure |
| Engine.PlaceWidthsInto | src/main/java/net/sourceforge/jbarcodebean/model/AbstractBarcodeStrategy.java:189-198 | the inner loop writes exactly what the placement function describes, or fails with an out-of-bounds index |
| Engine.LayOut | src/main/java/net/sourceforge/jbarcodebean/model/AbstractBarcodeStrategy.java:181-206 | the outer loop with its cursor rewinds computes exactly the layout function |
| Engine.Encode | src/main/java/net/sourceforge/jbarcodebean/model/AbstractBarcodeStrategy.java:152-218 | the whole method computes exactly the staged pipeline `EncodeSpec` |
| EngineProperties.ModuleCountIsFlatLength | src/main/java/net/sourceforge/jbarcodebean/model/AbstractBarcodeStrategy.java:232-245 | the module count is the number of widths of all characters |
| EngineProperties.SizeIff | src/main/java/net/sourceforge/jbarcodebean/model/AbstractBarcodeStrategy.java:232-245 | `computeSize` succeeds exactly when every character is in the table, and then answers widths + 2; otherwise "Invalid character in barcode" |
| EngineProperties.ProcessTextStages | src/main/java/net/sourceforge/jbarcodebean/model/AbstractBarcodeStrategy.java:154-158 | preprocess, then the checksum only when checked, then postprocess; the first exception is the result |
| EngineProperties.UncheckedIgnoresChecksum | src/main/java/net/sourceforge/jbarcodebean/model/AbstractBarcodeStrategy.java:157 | without `checked`, the checksum hook has no influence on `encode` |
| EngineProperties.LayoutOnlyReadsTable | src/main/java/net/sourceforge/jbarcodebean/model/AbstractBarcodeStrategy.java:183-206 | the layout depends only on the table, the interleaved flag and the sentinels |
| EngineProperties.ProcessingErrorsPropagate | src/main/java/net/sourceforge/jbarcodebean/model/AbstractBarcodeStrategy.java:152-158 | an exception of a text hook becomes `encode`'s exception |
| EngineProperties.SentinelInTextRefused | src/main/java/net/sourceforge/jbarcodebean/model/AbstractBarcodeStrategy.java:162-165 | processed text holding the stop sentinel, or a start sentinel other than 0xffff, fails with "Invalid character in barcode" |
| EngineProperties.WrapShape | src/main/java/net/sourceforge/jbarcodebean/model/AbstractBarcodeStrategy.java:167-171 | the start sentinel goes in front only if it is not 0xffff, the text is unchanged, and the stop sentinel goes last |
| EngineProperties.InvalidCharacterIff | src/main/java/net/sourceforge/jbarcodebean/model/AbstractBarcodeStrategy.java:173-188 | for processed text free of sentinels, `encode` fails with "Invalid character in barcode" exactly when the wrapped text has a character outside the table |
| EngineProperties.NoLayoutInvalidCharacter | src/main/java/net/sourceforge/jbarcodebean/model/AbstractBarcodeStrategy.java:183-206 | over encodable text, the layout can fail only with an out-of-bounds index |
| EngineProperties.PlaceWidthsErrors | src/main/java/net/sourceforge/jbarcodebean/model/AbstractBarcodeStrategy.java:189-198 | writing widths fails only out of bounds, and keeps the array length |
| EngineProperties.PlaceWidthsPaints | src/main/java/net/sourceforge/jbarcodebean/model/AbstractBarcodeStrategy.java:189-192 | every cell written is a bar exactly at an odd index |
| EngineProperties.LayoutPaints | src/main/java/net/sourceforge/jbarcodebean/model/AbstractBarcodeStrategy.java:183-206 | the whole layout keeps every written cell a bar exactly at an odd index |
| EngineProperties.BarsAtOddIndices | src/main/java/net/sourceforge/jbarcodebean/model/AbstractBarcodeStrategy.java:183-215 | in every barcode produced, every element before the closing margin is a bar exactly at odd indices, and the margin is last |
| EngineProperties.LayoutKeepsLength | src/main/java/net/sourceforge/jbarcodebean/model/AbstractBarcodeStrategy.java:174-206 | the layout keeps the array's length |
| EngineProperties.SuccessShape | src/main/java/net/sourceforge/jbarcodebean/model/AbstractBarcodeStrategy.java:173-217 | a successful barcode has `computeSize`'s length and the label of the raw, unprocessed text |
| EngineProperties.PlaceWidthsKeepsBefore | src/main/java/net/sourceforge/jbarcodebean/model/AbstractBarcodeStrategy.java:189-198 | writing from cursor j never touches a cell before j |
| EngineProperties.LayoutKeepsFirstCell | src/main/java/net/sourceforge/jbarcodebean/model/AbstractBarcodeStrategy.java:176-206 | if no entry is empty, the cursor only moves forward, so the opening margin is never overwritten |
| EngineProperties.MarginsAtBothEnds | src/main/java/net/sourceforge/jbarcodebean/model/AbstractBarcodeStrategy.java:176-215 | if no entry is empty, element 0 and the last element are spaces of the margin width |
| EngineProperties.PlaceWidthsSequential | src/main/java/net/sourceforge/jbarcodebean/model/AbstractBarcodeStrategy.java:189-197 | step 1 writes the widths to consecutive cells, in order |
| EngineProperties.LayoutSequential | src/main/java/net/sourceforge/jbarcodebean/model/AbstractBarcodeStrategy.java:181-206 | without interleaving, the characters' widths are laid out one after another, in text order |
| EngineProperties.SequentialBarcode | src/main/java/net/sourceforge/jbarcodebean/model/AbstractBarcodeStrategy.java:152-218 | without interleaving, accepted text encodes to exactly: margin, all modules in order with bars at odd indices, margin |
| EngineProperties.SequentialBarcodeShape | src/main/java/net/sourceforge/jbarcodebean/model/AbstractBarcodeStrategy.java:173-217 | that barcode has length widths + 2 and margins at both ends; every inner slot is written, alternating and starting with a bar |
| EngineProperties.PlaceWidthsStride | src/main/java/net/sourceforge/jbarcodebean/model/AbstractBarcodeStrategy.java:189-194 | step 2 writes width k at j + 2k and changes no other cell |
| EngineProperties.WovenOddCharacter | src/main/java/net/sourceforge/jbarcodebean/model/AbstractBarcodeStrategy.java:189-201 | a woven character at an odd index writes j0, j0+2, … and leaves the cursor at j0+1 |
| EngineProperties.WovenEvenCharacter | src/main/java/net/sourceforge/jbarcodebean/model/AbstractBarcodeStrategy.java:189-204 | a woven character at an even index writes j0, j0+2, … and leaves the cursor at j0 + 2·len − 1 |
| EngineProperties.WovenPair | src/main/java/net/sourceforge/jbarcodebean/model/AbstractBarcodeStrategy.java:193-205 | an odd-then-even pair of equal width count fills j0 … j0+2·len−1 alternately (first at even offsets, second at odd offsets) and leaves the cursor at j0 + 2·len |
| EngineProperties.SentinelSequential | src/main/java/net/sourceforge/jbarcodebean/model/AbstractBarcodeStrategy.java:193-197 | sentinels are never woven; they are laid out consecutively |
| Code11Barcodes.SixWideEntries | src/jbarcodebean/Code11.java:7-18 | the digits, `-` and `*` each have six widths |
| Code11Barcodes.WrappedData | src/jbarcodebean/Code11.java:69-75 | data without `*`, wrapped in `*…*`, is encodable with six widths per character |
| Code11Barcodes.DataWithoutChecksum | src/main/java/net/sourceforge/jbarcodebean/model/AbstractBarcodeStrategy.java:152-218 | digits and dashes encode in Code 11 to 6·(n+2)+2 elements, margins of width 0, bars at odd indices, label = text |
| Code11Barcodes.CheckedData | src/jbarcodebean/Code11.java:22-55 | the checksum stage turns digits and dashes into digits and dashes, one character longer below 10 characters and two from 10 on |
| Code11Barcodes.DataWithChecksum | src/jbarcodebean/Code11.java:22-55 | with the checksum, one or two more characters of six modules each, still between margins of width 0 with bars at odd indices; the label still shows the text without them |
| StrategyEditor.TagsDistinct | src/jbarcodebean/BarcodeStrategyEditor.java:36-51 | 12 distinct tags for 12 distinct classes; "Code 39" is not a tag |
| StrategyEditor.ChainIndex | src/jbarcodebean/BarcodeStrategyEditor.java:84-126 | the shared `instanceof` chain answers a position in the tag list, or -1 when no test succeeds |
| StrategyEditor.Editor.constructor | src/jbarcodebean/BarcodeStrategyEditor.java:34 | a new editor holds null, as `PropertyEditorSupport` starts |
| StrategyEditor.Editor.GetTags | src/jbarcodebean/BarcodeStrategyEditor.java:36-51 | `getTags` answers 12 distinct labels |
| StrategyEditor.Editor.SetAsText | src/jbarcodebean/BarcodeStrategyEditor.java:53-82 | the editor's value becomes a strategy of the class the label names |
| StrategyEditor.Editor.GetAsText | src/jbarcodebean/BarcodeStrategyEditor.java:84-126 | the answer is one of the 12 tags or "Code 39", and it is the tag of the stored class whenever that class is one of the 12 |
| StrategyEditor.Editor.GetJavaInitializationString | src/jbarcodebean/BarcodeStrategyEditor.java:128-170 | the source text is always `new jbarcodebean.<C>()` for one of the 12 classes |
| StrategyEditor.InitializerOfTag | src/jbarcodebean/BarcodeStrategyEditor.java:128-170 | the class named is always one of the 12, Code39 by default |
| StrategyEditor.ClassForTextIff | src/jbarcodebean/BarcodeStrategyEditor.java:53-82 | each tag selects the class at its position; any other text selects Code 39 |
| StrategyEditor.SubclassTestedFirst | src/jbarcodebean/BarcodeStrategyEditor.java:89-114 | every 2:1 class is an instance of its superclass, yet its label differs from the superclass's |
| StrategyEditor.LabelRoundTrip | src/jbarcodebean/BarcodeStrategyEditor.java:53-126 | for every tag, reading the label (or initializer) after setting the tag gives back the tag (or the class name at its position) |
| StrategyEditor.LabelOfTagClass | src/jbarcodebean/BarcodeStrategyEditor.java:84-170 | each tagged class gets its own tag and class name from the two `instanceof` chains |
| StrategyEditor.SetThenGet | src/jbarcodebean/BarcodeStrategyEditor.java:53-126 | through the editor object, `getAsText()` after `setAsText(t)` is t for every tag |
| StrategyEditor.DefaultLabel | src/jbarcodebean/BarcodeStrategyEditor.java:122-125 | null, Code 11 or an unknown class is labelled "Code 39" (not a tag) and initialised as Code39 |
| StrategyEditor.LabelsAreTagsOrDefault | src/jbarcodebean/BarcodeStrategyEditor.java:84-126 | every label is a tag or "Code 39"; the default label goes with the default initializer |
| BeanRules.InitialCheckDigit | src/main/java/net/sourceforge/jbarcodebean/JBarcodeBean.java:203-207 | the constructor's flag is on exactly for a mandatory checksum (off for forbidden or optional) |
| BeanRules.AdjustedCheckDigit | src/main/java/net/sourceforge/jbarcodebean/JBarcodeBean.java:541-556 | after `setCodeType` the flag agrees with the new type, and it is changed only if it did not |
| BeanRules.EncodeStepOutcomes | src/main/java/net/sourceforge/jbarcodebean/JBarcodeBean.java:759-771 | a barcode means no error text; a new barcode is the strategy's encoding; an error text is a thrown message; no type or empty code clears both; only runtime faults escape, leaving the old barcode |
| BeanRules.BarsWidthScales | src/main/java/net/sourceforge/jbarcodebean/JBarcodeBean.java:745-748 | the bars' width is narrowestBarWidth times the sum of module widths |
| BeanRules.RequiredWidthOf | src/main/java/net/sourceforge/jbarcodebean/JBarcodeBean.java:755-756 | the required width is the larger of the bars' and the label's width |
| BeanRules.HalfTruncated | src/main/java/net/sourceforge/jbarcodebean/JBarcodeBean.java:655 | Java's division by 2 truncates toward zero, for negative values too |
| BeanRules.BarsOrigin | src/main/java/net/sourceforge/jbarcodebean/JBarcodeBean.java:649-656 | x is 0 for left, d.width − barcodeWidth for right, the truncated half otherwise |
| BeanRules.CentredMargins | src/main/java/net/sourceforge/jbarcodebean/JBarcodeBean.java:655 | centred bars leave equal margins up to one pixel |
| CurrentBean.JBarcodeBean.constructor | src/main/java/net/sourceforge/jbarcodebean/JBarcodeBean.java:194-216 | code and type are stored, the flag is forced by the requirement, the first encoding is made, and the bean is consistent |
| CurrentBean.JBarcodeBean.Default | src/main/java/net/sourceforge/jbarcodebean/JBarcodeBean.java:231-233 | code "1234" with a Code 39 strategy |
| CurrentBean.JBarcodeBean.Encode | src/main/java/net/sourceforge/jbarcodebean/JBarcodeBean.java:759-771 | the barcode and error fields follow the encode rule, and nothing else changes |
| CurrentBean.JBarcodeBean.SetCode | src/main/java/net/sourceforge/jbarcodebean/JBarcodeBean.java:520-527 | stores the code and re-encodes, keeping the bean consistent |
| CurrentBean.JBarcodeBean.SetCheckDigit | src/main/java/net/sourceforge/jbarcodebean/JBarcodeBean.java:574-594 | a forbidden change leaves the bean as it was; an allowed one is stored and re-encoded |
| CurrentBean.JBarcodeBean.SetCodeType | src/main/java/net/sourceforge/jbarcodebean/JBarcodeBean.java:541-556 | stores the type, adjusts the flag through `setCheckDigit` and re-encodes; afterwards the bean is consistent whatever its state before |
| CurrentBean.JBarcodeBean.ShowTextUnderReports | src/main/java/net/sourceforge/jbarcodebean/JBarcodeBean.java:262-267 | the deprecated flag is true only with the label at the bottom; a label at the top is still drawn by `doPaint` (line 671) while `isShowText()` is false, and with no label neither holds |
| CurrentBean.JBarcodeBean.SetLabelPosition | src/main/java/net/sourceforge/jbarcodebean/JBarcodeBean.java:878-881 | stores the position only |
| CurrentBean.JBarcodeBean.SetShowText | src/main/java/net/sourceforge/jbarcodebean/JBarcodeBean.java:278-282 | puts the label at the bottom or removes it, so `isShowText()` answers the argument |
| CurrentBean.JBarcodeBean.SetHorizontalAlignment | src/main/java/net/sourceforge/jbarcodebean/JBarcodeBean.java:850-853 | stores the alignment only |
| CurrentBean.JBarcodeBean.GetRequiredWidth | src/main/java/net/sourceforge/jbarcodebean/JBarcodeBean.java:736-757 | the label width and the sum of width × narrowestBarWidth are stored, and the larger is answered; a null element throws after the sum of the elements before it |
| CurrentBean.JBarcodeBean.BarsX | src/main/java/net/sourceforge/jbarcodebean/JBarcodeBean.java:649-656 | the bars start at `BarsOrigin` of the alignment: at 0 for left, ending at d.width for right, and otherwise centred with the two margins equal to within one pixel |
| LegacyBean.JBarcodeBean.constructor | src/jbarcodebean/JBarcodeBean.java:169-191 | code and type are stored, the flag is forced by the requirement, the first encoding is made; the text is not shown |
| LegacyBean.JBarcodeBean.Default | src/jbarcodebean/JBarcodeBean.java:206-208 | code "1234" with a Code 39 strategy |
| LegacyBean.JBarcodeBean.Encode | src/jbarcodebean/JBarcodeBean.java:712-724 | the barcode and error fields follow the encode rule, and nothing else changes |
| LegacyBean.JBarcodeBean.SetCode | src/jbarcodebean/JBarcodeBean.java:490-497 | stores the code and re-encodes, keeping the bean consistent |
| LegacyBean.JBarcodeBean.SetCheckDigit | src/jbarcodebean/JBarcodeBean.java:544-564 | a forbidden change leaves the bean as it was; an allowed one is stored and re-encoded |
| LegacyBean.JBarcodeBean.SetCodeType | src/jbarcodebean/JBarcodeBean.java:511-526 | stores the type, adjusts the flag through `setCheckDigit` and re-encodes; the bean is consistent afterwards |
| LegacyBean.JBarcodeBean.SetShowText | src/jbarcodebean/JBarcodeBean.java:246-252 | stores the flag as given, nothing else |
| LegacyBean.JBarcodeBean.GetRequiredWidth | src/jbarcodebean/JBarcodeBean.java:689-710 | the label width and the sum of width × narrowestBarWidth are stored, and the larger is answered; a null element throws |
| LegacyBean.JBarcodeBean.BarsX | src/jbarcodebean/JBarcodeBean.java:614 | the bars are always centred |

## Left out

- Painting, font metrics, rotation and control sizing are left out. This covers `doPaint` apart from the x origin, `recalculateSizes` and `calculateControlSize`: they are floating point and Swing. Text width is a parameter `measure` of `GetRequiredWidth`. The setters' calls to `recalculateSizes` and `repaint` are not modelled.
- Property-change events, GIF encoding, the version resource, the demos, servlets and BeanInfo classes are not part of this model.
- The strategies whose source is not part of this model (Code 39, Code 128, MSI, EAN, Interleaved 2 of 5, and Codabar's own hooks) are records of hooks passed in as parameters. Of `Code39_2to1.java` only the class declaration is used.
- The old package's own `AbstractBarcodeStrategy` is not part of this model. `Code11`, `Codabar_2to1` and both beans are run through the engine of the current package.
- Strings are never null in the model. It therefore leaves out the NullPointerException of `setAsText(null)`, of `encode()` with a null code, and of the bean constructors given a null strategy (those constructors take a non-null `Strategy`).
- CurrentBean.JBarcodeBean.constructor: a runtime exception escaping the first `encode()` would abort the Java constructor; the model finishes construction with no barcode instead. The same holds for `CurrentBean.JBarcodeBean.Default`, `LegacyBean.JBarcodeBean.constructor` and `LegacyBean.JBarcodeBean.Default`.
- BarcodeElements.OfType: the immutable element stores any `int` type, but the model keeps only whether it is a bar. A type other than 0 or 1 reads back as `TYPE_SPACE`, which is how the bean paints it.
- Code11Symbology.ChecksumLoop: the sums of `augmentWithChecksum` are Java `int`s that wrap, while the model's are unbounded. Each character adds at most 12 · 10, so `ChecksumsFitInInt` proves that the two agree up to 17,895,697 characters. Beyond that, Java's sums can wrap, and `checksumC % 11` can then be negative. The lookup by check value then finds nothing, and line 45 or 47 throws a NullPointerException that the model does not produce.
- Code11Symbology.AugmentWithChecksum: "exactly the text plus C (plus K)" is promised only up to 17,895,697 characters, for the reason given under `ChecksumLoop`.
- Code11Symbology.ChecksumAppends: "fails exactly on a character outside the table" is promised only up to 17,895,697 characters. Longer text of table characters can also fail in Java, through the wrapped sums (see `ChecksumLoop`).
- BeanRules.BarsWidthScales: Java `int` overflow in the width sum is not modelled; the model's integers are unbounded. Widths are Java bytes (`Common.Byte`).
- Engine.PlaceWidths: Java's `%` on a negative cursor is not modelled, because such a cursor fails the array index first.
- The interleaved layout is proved one character and one character pair at a time (`WovenPair`, `WovenOddCharacter`, `WovenEvenCharacter`). There is no whole-barcode theorem for interleaved symbologies.
- The editor's `instanceof` for the Extended Code 39 and Interleaved 2 of 5 pairs rests on assumed superclasses (see Design).
- StrategyEditor.LabelRoundTrip: this and `SetThenGet` hold because `InstanceOf` is exactly the four pairs of `SUPERCLASS`, and no other subclass relation exists among the 13 classes. The source shows the superclass of neither `ExtendedCode39` nor `Interleaved25`. Suppose `ExtendedCode39` extended `Code39`. The chain tests `Code39` (lines 92-94) before the Extended pair (lines 95-100), so `getAsText` would answer "Code 39 3:1" for the tags "Ext Code 39 3:1" and "Ext Code 39 2:1", and the round trip would fail for those two tags.

## Findings

| source | as written | input that shows it | evidently intended | confidence | as-written member | corrected member |
|---|---|---|---|---|---|---|
| src/jbarcodebean/Codabar_2to1.java:34-51 | `3.0` inside `byte[]` initialisers: no valid Java byte, and read as width 3 it gives entries of 5 to 7 widths containing a 3, which a 2:1 code cannot have | entry `'0'`: `{1,1,1,1,1,2,3.0}`; entry `':'`: `{3.0,1,1,3.0,3.0}` | every `3.0` is the pair `2,1`, so each entry is 7 modules of width 1 or 2 followed by a narrow gap (8 widths) | high (not executed) | Codabar2to1Symbology.LiteralTableIrregular | Codabar2to1Symbology.ExpandedTableRegular |
