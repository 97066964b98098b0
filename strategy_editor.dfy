/** `BarcodeStrategyEditor`: the property editor that names strategies for GUI
    builders.  It stores a value (a strategy object or null), turns one of
    twelve labels into a new strategy, and turns the stored strategy back into
    a label or into Java source text. */
module StrategyEditor {
  import opened Common
  import opened Strategies

  /** The direct superclass of each 2:1 class that is itself one of the
      editor's classes.  `Codabar_2to1 extends Codabar` and
      `Code39_2to1 extends Code39` are in the source; the two other pairs
      follow the same naming and are assumed. */
  const SUPERCLASS: map<StrategyClass, StrategyClass> := map[
    Code39_2to1 := Code39,
    ExtendedCode39_2to1 := ExtendedCode39,
    Interleaved25_2to1 := Interleaved25,
    Codabar_2to1 := Codabar]

  /** `s instanceof t` for an object of class s. */
  predicate InstanceOf(s: StrategyClass, t: StrategyClass) {
    s == t || (s in SUPERCLASS && SUPERCLASS[s] == t)
  }

  /** `getTags()`. */
  const TAGS: seq<string> := [
    "Code 128", "Code 39 3:1", "Code 39 2:1", "Ext Code 39 3:1", "Ext Code 39 2:1",
    "Interleaved 25 3:1", "Interleaved 25 2:1", "MSI (mod 10 check)",
    "Codabar 3:1", "Codabar 2:1", "EAN-13", "EAN-8"]

  /** The class each tag stands for, tag by tag. */
  const TAG_CLASSES: seq<StrategyClass> := [
    Code128, Code39, Code39_2to1, ExtendedCode39, ExtendedCode39_2to1,
    Interleaved25, Interleaved25_2to1, Msi, Codabar, Codabar_2to1, Ean13, Ean8]

  /** The Java class name of each tagged class, tag by tag. */
  const CLASS_NAMES: seq<string> := [
    "Code128", "Code39", "Code39_2to1", "ExtendedCode39", "ExtendedCode39_2to1",
    "Interleaved25", "Interleaved25_2to1", "MSI", "Codabar", "Codabar_2to1", "Ean13", "Ean8"]

  /** `getAsText()` of an unknown or null value. */
  const DEFAULT_LABEL: string := "Code 39"

  /** The twelve tags are distinct, and so are their classes. */
  lemma TagsDistinct()
    ensures |TAGS| == |TAG_CLASSES| == |CLASS_NAMES| == 12
    ensures forall i, k | 0 <= i < k < 12 :: TAGS[i] != TAGS[k]
    ensures forall i, k | 0 <= i < k < 12 :: TAG_CLASSES[i] != TAG_CLASSES[k]
    ensures forall i, k | 0 <= i < k < 12 :: CLASS_NAMES[i] != CLASS_NAMES[k]
    ensures DEFAULT_LABEL !in TAGS
  {
  }

  /** The class `setAsText(s)` instantiates: the tested labels in order, and
      Code 39 for anything else. */
  function ClassForText(s: string): StrategyClass {
    if s == "Code 128" then Code128
    else if s == "Code 39 3:1" then Code39
    else if s == "Code 39 2:1" then Code39_2to1
    else if s == "Ext Code 39 3:1" then ExtendedCode39
    else if s == "Ext Code 39 2:1" then ExtendedCode39_2to1
    else if s == "Interleaved 25 3:1" then Interleaved25
    else if s == "Interleaved 25 2:1" then Interleaved25_2to1
    else if s == "MSI (mod 10 check)" then Msi
    else if s == "Codabar 3:1" then Codabar
    else if s == "Codabar 2:1" then Codabar_2to1
    else if s == "EAN-13" then Ean13
    else if s == "EAN-8" then Ean8
    else Code39
  }

  /** The `instanceof` chain that `getAsText` and `getJavaInitializationString`
      share: the classes tested in order, every 2:1 class before its
      superclass, answering the position in the tag list of the first test that
      succeeds, or -1 for null, Code 11 and any other class. */
  function ChainIndex(v: Option<StrategyClass>): (i: int)
    ensures -1 <= i < 12
  {
    if v.None? then -1
    else
      var s := v.value;
      if InstanceOf(s, Code128) then 0
      else if InstanceOf(s, Code39_2to1) then 2
      else if InstanceOf(s, Code39) then 1
      else if InstanceOf(s, ExtendedCode39_2to1) then 4
      else if InstanceOf(s, ExtendedCode39) then 3
      else if InstanceOf(s, Interleaved25_2to1) then 6
      else if InstanceOf(s, Interleaved25) then 5
      else if InstanceOf(s, Msi) then 7
      else if InstanceOf(s, Codabar_2to1) then 9
      else if InstanceOf(s, Codabar) then 8
      else if InstanceOf(s, Ean13) then 10
      else if InstanceOf(s, Ean8) then 11
      else -1
  }

  /** `getAsText()` of a stored value: the tag the chain picks, or "Code 39". */
  function LabelOf(v: Option<StrategyClass>): string {
    var i := ChainIndex(v);
    if i < 0 then DEFAULT_LABEL else TAGS[i]
  }

  /** The class name `getJavaInitializationString()` instantiates: the class
      the chain picks, or Code39. */
  function InitializerClassOf(v: Option<StrategyClass>): string {
    var i := ChainIndex(v);
    if i < 0 then "Code39" else CLASS_NAMES[i]
  }

  /** The editor and its stored value (`getValue()`). */
  class Editor {
    var value: Option<StrategyClass>

    /** A new editor holds null. */
    constructor ()
      ensures value == None
    {
      value := None;
    }

    /** `getTags()`. */
    function GetTags(): (tags: seq<string>)
      ensures |tags| == 12
      ensures forall i, k | 0 <= i < k < |tags| :: tags[i] != tags[k]
    {
      TagsDistinct();
      TAGS
    }

    /** `setAsText(s)`: a new strategy of the class the label names. */
    method SetAsText(s: string)
      modifies this
      ensures value == Some(ClassForText(s))
    {
      value := Some(ClassForText(s));
    }

    /** `getAsText()`: the tag of the stored class, or "Code 39" when no tag
        applies. */
    function GetAsText(): (shown: string)
      reads this
      ensures shown in TAGS || shown == DEFAULT_LABEL
      ensures forall i | 0 <= i < 12 :: value == Some(TAG_CLASSES[i]) ==> shown == TAGS[i]
    {
      LabelsAreTagsOrDefault(value);
      LabelsOfTagClasses();
      LabelOf(value)
    }

    /** `getJavaInitializationString()`. */
    function GetJavaInitializationString(): (source: string)
      reads this
      ensures exists i :: 0 <= i < 12 && source == "new jbarcodebean." + CLASS_NAMES[i] + "()"
    {
      InitializerOfTag(value);
      "new jbarcodebean." + InitializerClassOf(value) + "()"
    }
  }

  /** Each tagged class is labelled with its own tag. */
  lemma LabelsOfTagClasses()
    ensures forall i | 0 <= i < 12 :: LabelOf(Some(TAG_CLASSES[i])) == TAGS[i]
  {
    forall i | 0 <= i < 12
      ensures LabelOf(Some(TAG_CLASSES[i])) == TAGS[i]
    {
      LabelOfTagClass(i);
    }
  }

  /** Every initializer names one of the twelve tagged classes. */
  lemma InitializerOfTag(v: Option<StrategyClass>)
    ensures InitializerClassOf(v) in CLASS_NAMES
  {
  }

  /** `setAsText` picks the class at the tag's position, and Code 39 for any
      text that is not a tag. */
  lemma ClassForTextIff(s: string)
    ensures forall i | 0 <= i < 12 :: s == TAGS[i] ==> ClassForText(s) == TAG_CLASSES[i]
    ensures s !in TAGS ==> ClassForText(s) == Code39
  {
  }

  /** Each 2:1 class is an instance of its superclass, yet is labelled apart
      from it, because the chain tests it first. */
  lemma SubclassTestedFirst(s: StrategyClass)
    requires s in SUPERCLASS
    ensures InstanceOf(s, SUPERCLASS[s])
    ensures LabelOf(Some(s)) != LabelOf(Some(SUPERCLASS[s]))
  {
  }

  /** Round trip: the label of the class of tag i is tag i again, and so is the
      Java class name at position i. */
  lemma LabelRoundTrip(i: int)
    requires 0 <= i < 12
    ensures LabelOf(Some(ClassForText(TAGS[i]))) == TAGS[i]
    ensures InitializerClassOf(Some(ClassForText(TAGS[i]))) == CLASS_NAMES[i]
  {
    ClassForTextIff(TAGS[i]);
    LabelOfTagClass(i);
  }

  /** The chains of `getAsText` and `getJavaInitializationString` give every
      tagged class its own tag and class name. */
  lemma LabelOfTagClass(i: int)
    requires 0 <= i < 12
    ensures ChainIndex(Some(TAG_CLASSES[i])) == i
    ensures LabelOf(Some(TAG_CLASSES[i])) == TAGS[i]
    ensures InitializerClassOf(Some(TAG_CLASSES[i])) == CLASS_NAMES[i]
  {
    if i < 4 {
      if i == 0 {} else if i == 1 {} else if i == 2 {} else {}
    } else if i < 8 {
      if i == 4 {} else if i == 5 {} else if i == 6 {} else {}
    } else {
      if i == 8 {} else if i == 9 {} else if i == 10 {} else {}
    }
  }

  /** Round trip through the editor itself. */
  method SetThenGet(e: Editor, i: int) returns (shown: string)
    requires 0 <= i < 12
    modifies e
    ensures shown == TAGS[i]
  {
    e.SetAsText(TAGS[i]);
    LabelRoundTrip(i);
    shown := e.GetAsText();
  }

  /** A null value, Code 11 or any other class outside the chain is labelled
      "Code 39", which is not a tag, and initialised as Code 39. */
  lemma DefaultLabel(v: Option<StrategyClass>)
    requires v.None? || v.value == Code11 || v.value == Unlisted
    ensures LabelOf(v) == DEFAULT_LABEL && LabelOf(v) !in TAGS
    ensures InitializerClassOf(v) == "Code39"
  {
  }

  /** Every label is either a tag or the default, and the default label goes
      with the default initializer exactly when the class is not Code 39 itself. */
  lemma LabelsAreTagsOrDefault(v: Option<StrategyClass>)
    ensures LabelOf(v) in TAGS || LabelOf(v) == DEFAULT_LABEL
    ensures LabelOf(v) == DEFAULT_LABEL <==> InitializerClassOf(v) == "Code39" && (v.None? || v.value != Code39)
  {
    TagsDistinct();
    assert CLASS_NAMES[1] == "Code39";
  }
}
