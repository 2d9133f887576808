/**
  The text template that opens and closes a generated class declaration in a
  string buffer (`ClassTemplate`).
 */
module ClassTemplate {
  import opened Lang
  import opened StringUtil

  const VisibilityDefault := ""
  const ClassKeyword := "class "
  const Space := " "
  const JsonPrefix := "JSON"

  /** "JSON" followed by the raw name with its first letter lower-cased: SomeEntity becomes JSONsomeEntity. */
  function AdjustObjectName(raw: string): (r: string)
    ensures |r| == |JsonPrefix| + |raw|
    ensures r[..4] == "JSON"
    ensures |raw| > 0 ==> r[4] == ToLower(raw[0]) && r[5..] == raw[1..]
    ensures |raw| == 0 ==> r == "JSON"
  {
    JsonPrefix + Uncapitalise(raw)
  }

  /** The visibility written in front of the keyword; a blank (or null) visibility is left out. */
  function VisibilityText(visibility: Option<string>): (r: string)
    ensures IsBlank(visibility) ==> r == ""
    ensures !IsBlank(visibility) ==> r == visibility.value
  {
    if IsBlank(visibility) then VisibilityDefault else visibility.value
  }

  /** What follows the visibility: "class " + " ", the adjusted name and " {". */
  function Declaration(objectName: string): (r: string)
    ensures |r| == 7 + |objectName| + 4 + 2
    ensures r[..7] == "class  " && r[|r| - 2..] == " {"
  {
    var r := ClassKeyword + Space + AdjustObjectName(objectName) + " {";
    assert r[..7] == (ClassKeyword + Space)[..7];
    r
  }

  /** What `startTemplate` appends: the visibility, then the declaration. */
  function Header(objectName: string, visibility: Option<string>): string {
    VisibilityText(visibility) + Declaration(objectName)
  }

  /** `startTemplate` as written: the visibility is glued to the keyword. */
  function StartTemplate(objectName: string, visibility: Option<string>, buffer: string): (r: string)
    ensures |r| == |buffer| + |VisibilityText(visibility)| + 7 + |objectName| + 4 + 2
    ensures r[..|buffer|] == buffer
    ensures r[|buffer|..] == VisibilityText(visibility) + Declaration(objectName)
  {
    buffer + Header(objectName, visibility)
  }

  /** `endTemplate`: appends exactly "}". */
  function EndTemplate(buffer: string): (r: string)
    ensures |r| == |buffer| + 1
    ensures r[..|buffer|] == buffer
    ensures r[|buffer|] == '}'
  {
    buffer + "}"
  }

  /** As written, a visible modifier runs straight into the keyword: "public" gives "publicclass  JSON...". */
  lemma StartTemplateGluesVisibility(objectName: string, visibility: Option<string>, buffer: string)
    requires !IsBlank(visibility)
    ensures var r := StartTemplate(objectName, visibility, buffer);
            r[|buffer|..|buffer| + |visibility.value|] == visibility.value &&
            r[|buffer| + |visibility.value|] == 'c'
  {
    var r := StartTemplate(objectName, visibility, buffer);
    var h := r[|buffer|..];
    assert h == visibility.value + Declaration(objectName);
    assert r[|buffer| + |visibility.value|] == h[|visibility.value|] == Declaration(objectName)[..7][0];
    assert r[|buffer|..|buffer| + |visibility.value|] == h[..|visibility.value|];
  }

  /** A modifier is followed by a separator in the corrected header. */
  function HeaderCorrected(objectName: string, visibility: Option<string>): (r: string)
    ensures |r| == (if IsBlank(visibility) then 0 else |visibility.value| + 1) + 7 + 4 + |objectName| + 2
    ensures IsBlank(visibility) ==> r[..7] == "class  "
    ensures !IsBlank(visibility) ==> r[..|visibility.value|] == visibility.value && r[|visibility.value|] == ' '
    ensures r[|r| - 2..] == " {"
  {
    (if IsBlank(visibility) then "" else visibility.value + " ") + Declaration(objectName)
  }

  /** `startTemplate` with the separator the generated declaration needs. */
  function StartTemplateCorrected(objectName: string, visibility: Option<string>, buffer: string): (r: string)
    ensures |r| >= |buffer| && r[..|buffer|] == buffer
    ensures r[|buffer|..] == HeaderCorrected(objectName, visibility)
  {
    buffer + HeaderCorrected(objectName, visibility)
  }

  /** The corrected template keeps a visible modifier apart from the keyword, and differs from the original only by that space. */
  lemma StartTemplateCorrectedSeparates(objectName: string, visibility: Option<string>, buffer: string)
    requires !IsBlank(visibility)
    ensures var r := StartTemplateCorrected(objectName, visibility, buffer);
            r[|buffer| + |visibility.value|] == ' ' &&
            r[|buffer| + |visibility.value| + 1..] == StartTemplate(objectName, visibility, buffer)[|buffer| + |visibility.value|..]
  {
    var r := StartTemplateCorrected(objectName, visibility, buffer);
    var v := visibility.value;
    var d := Declaration(objectName);
    assert HeaderCorrected(objectName, visibility) == (v + " ") + d;
    SuffixAfter(r, |buffer|, v + " ", d);
    assert r[|buffer| + |v|] == r[|buffer|..][|v|] == (v + " ")[|v|];
    SuffixAfter(StartTemplate(objectName, visibility, buffer), |buffer|, v, d);
  }

  /** What follows `x` in a text that continues with `x + d` at position `n`. */
  lemma SuffixAfter(r: string, n: nat, x: string, d: string)
    requires n <= |r| && r[n..] == x + d
    ensures r[n + |x|..] == d
  {
    assert r[n + |x|..] == r[n..][|x|..];
  }

  /** With a blank visibility both templates append the same text. */
  lemma StartTemplateBlankUnchanged(objectName: string, visibility: Option<string>, buffer: string)
    requires IsBlank(visibility)
    ensures StartTemplateCorrected(objectName, visibility, buffer) == StartTemplate(objectName, visibility, buffer)
  {
  }
}
