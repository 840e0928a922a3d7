/**
 The export formatters of the palette generator: given a colour group (a
 title, a base colour and the ordered shades derived from it), render it as
 a Tailwind `colors` entry, CSS custom properties, Sass variables or a JSON
 document. Every shade is labelled by its position on the design-token scale
 50, 200, 300, ...; the lemmas below show that these labels never collide,
 so the label-keyed objects keep one entry per shade in shade order, and
 they pin down the line structure of the CSS and Sass texts.
 */
module ColorExport {
  import opened Text
  import opened JsObject

  /** One generated shade, as the shade generator hands it over; its colour
      strings are carried through verbatim. */
  datatype ColorShade = ColorShade(hex: string, hsl: string)

  /** The colour group passed to every formatter besides its title. */
  datatype ColorExport = ColorExport(baseColor: string, shades: seq<ColorShade>)

  /* ---------------------------------------------------------------------
     Scale labels
     --------------------------------------------------------------------- */

  /** The scale label of the shade at `index`: `(index + 1) * 100`, less 50
      for the first shade. */
  function ScaleLabel(index: nat): (scale: nat)
    ensures index == 0 ==> scale == 50
    ensures scale % 50 == 0
    ensures index == 0 <==> scale < 100
    ensures index >= 1 ==> scale / 100 == index + 1 && scale % 100 == 0
  {
    (index + 1) * 100 - (if index == 0 then 50 else 0)
  }

  /** The first shade is labelled 50, no shade is labelled 100, and every
      later label is a whole hundred from 200 on. */
  lemma ScaleLabelValues(index: nat)
    ensures ScaleLabel(0) == 50
    ensures ScaleLabel(index) != 100
    ensures index >= 1 ==> ScaleLabel(index) >= 200
  {
  }

  /** Labels grow strictly with the position. */
  lemma ScaleLabelIncreasing(i: nat, j: nat)
    requires i < j
    ensures ScaleLabel(i) < ScaleLabel(j)
  {
  }

  /** The label as object key or template text (`String(label)`). */
  function LabelKey(index: nat): string
  {
    NatToString(ScaleLabel(index))
  }

  /** The keys of the first `n` shades, in shade order. */
  function LabelKeys(n: nat): seq<string>
  {
    seq(n, i requires 0 <= i < n => LabelKey(i))
  }

  /** No two shades share a key. */
  lemma LabelKeysDistinct(n: nat)
    ensures Distinct(LabelKeys(n))
  {
    var keys := LabelKeys(n);
    forall i, j | 0 <= i < j < n
      ensures keys[i] != keys[j]
    {
      NatToStringInjective(ScaleLabel(i), ScaleLabel(j));
    }
  }

  /** The key "100" is never produced. */
  lemma NoLabelKeyIs100(index: nat)
    ensures LabelKey(index) != "100"
  {
    assert NatToString(100) == "100";
    NatToStringInjective(ScaleLabel(index), 100);
  }

  /** The keys, taken in shade order, are already in the order JavaScript
      enumerates them: every key that is an array index is preceded only by
      array indices of smaller value. */
  lemma LabelKeysInEnumerationOrder(n: nat)
    ensures InEnumerationOrder(LabelKeys(n))
    ensures EnumerationOrder(LabelKeys(n)) == LabelKeys(n)
  {
    var keys := LabelKeys(n);
    forall i, j | 0 <= i < j < n && IsArrayIndex(keys[j])
      ensures IsArrayIndex(keys[i]) && ParseNat(keys[i]) < ParseNat(keys[j])
    {
      ParseNatToString(ScaleLabel(i));
      ParseNatToString(ScaleLabel(j));
      ScaleLabelIncreasing(i, j);
    }
    EnumerationOrderUnchanged(keys);
  }

  /* ---------------------------------------------------------------------
     Tailwind
     --------------------------------------------------------------------- */

  /** The `[label, hex]` pairs handed to `Object.fromEntries`. */
  function TailwindEntries(shades: seq<ColorShade>): seq<(string, Json)>
  {
    seq(|shades|, i requires 0 <= i < |shades| => (LabelKey(i), JString(shades[i].hex)))
  }

  /** The `config` object whose serialisation the Tailwind text embeds under
      `theme.extend.colors`: one property, the lower-cased title, holding the
      label-keyed shade hexes. */
  function GenerateTailwindConfig(title: string, exp: ColorExport): (config: Json)
    ensures config == JObject([(Lower(title), JObject(TailwindEntries(exp.shades)))])
  {
    assert Keys(TailwindEntries(exp.shades)) == LabelKeys(|exp.shades|);
    LabelKeysDistinct(|exp.shades|);
    JObject([(Lower(title), JObject(FromEntries(TailwindEntries(exp.shades))))])
  }

  /** The Tailwind object keeps one property per shade, in shade order, keyed
      by its label and holding its hex, and that order is the one
      `JSON.stringify` writes. */
  lemma TailwindConfigOnePerShade(title: string, exp: ColorExport)
    ensures var config := GenerateTailwindConfig(title, exp);
      && config.JObject? && |config.members| == 1
      && config.members[0].0 == Lower(title)
      && config.members[0].1 == JObject(TailwindEntries(exp.shades))
    ensures Keys(TailwindEntries(exp.shades)) == LabelKeys(|exp.shades|)
    ensures forall i :: 0 <= i < |exp.shades| ==>
      TailwindEntries(exp.shades)[i].1 == JString(exp.shades[i].hex)
    ensures EnumerationOrder(Keys(TailwindEntries(exp.shades))) == Keys(TailwindEntries(exp.shades))
  {
    assert Keys(TailwindEntries(exp.shades)) == LabelKeys(|exp.shades|);
    LabelKeysInEnumerationOrder(|exp.shades|);
  }

  function Hexes(shades: seq<ColorShade>): seq<string>
  {
    seq(|shades|, i requires 0 <= i < |shades| => shades[i].hex)
  }

  /** The Tailwind object depends on the title only through its lower case
      and on the group only through the shade hexes: the base colour and the
      HSL strings are not used. */
  lemma TailwindConfigInputs(title1: string, title2: string, exp1: ColorExport, exp2: ColorExport)
    requires Lower(title1) == Lower(title2)
    requires Hexes(exp1.shades) == Hexes(exp2.shades)
    ensures GenerateTailwindConfig(title1, exp1) == GenerateTailwindConfig(title2, exp2)
  {
    assert |exp1.shades| == |Hexes(exp1.shades)|;
    assert forall i :: 0 <= i < |exp1.shades| ==> exp1.shades[i].hex == Hexes(exp1.shades)[i];
    assert TailwindEntries(exp1.shades) == TailwindEntries(exp2.shades);
  }

  /* ---------------------------------------------------------------------
     CSS custom properties
     --------------------------------------------------------------------- */

  function CssShadeLine(prefix: string, index: nat, shade: ColorShade): string
  {
    "  --" + prefix + "-" + LabelKey(index) + ": " + shade.hex + ";"
  }

  function CssShadeLines(prefix: string, shades: seq<ColorShade>): seq<string>
  {
    seq(|shades|, i requires 0 <= i < |shades| => CssShadeLine(prefix, i, shades[i]))
  }

  /** The `:root` block: the base colour and then one custom property per
      shade, all named after the lower-cased title. The text is its lines
      (CssLines) joined by line breaks. */
  function GenerateCssVariables(title: string, exp: ColorExport): (css: string)
    ensures css == Join(CssLines(title, exp), '\n')
  {
    var prefix := Lower(title);
    var shadeLines := CssShadeLines(prefix, exp.shades);
    CssTemplateAsLines(prefix, exp.baseColor, shadeLines);
    ":root {\n  --" + prefix + "-base: " + exp.baseColor + ";\n"
      + Join(shadeLines, '\n') + "\n}"
  }

  /** The lines a list of shade lines occupies between two fixed lines: the
      lines themselves, or one empty line when there are none (the empty
      `join` still sits between two line breaks). */
  function OrBlank(lines: seq<string>): (r: seq<string>)
    ensures |r| >= 1
  {
    if lines == [] then [""] else lines
  }

  lemma JoinOrBlank(lines: seq<string>, sep: char)
    ensures Join(OrBlank(lines), sep) == Join(lines, sep)
  {
  }

  /** The lines of the CSS text, in order. */
  function CssLines(title: string, exp: ColorExport): seq<string>
  {
    var prefix := Lower(title);
    [":root {", "  --" + prefix + "-base: " + exp.baseColor + ";"]
      + OrBlank(CssShadeLines(prefix, exp.shades)) + ["}"]
  }

  /** The CSS template literal, cut at its line breaks. */
  lemma CssTemplateLines(prefix: string, baseColor: string, joined: string)
    ensures ":root {\n  --" + prefix + "-base: " + baseColor + ";\n" + joined + "\n}"
      == ":root {" + ['\n'] + ("  --" + prefix + "-base: " + baseColor + ";") + ['\n'] + joined + ['\n'] + "}"
  {
    assert ":root {\n  --" == ":root {" + ['\n'] + "  --";
    assert ";\n" == ";" + ['\n'];
    assert "\n}" == ['\n'] + "}";
  }

  /** The CSS template is `:root {`, the base property, the shade lines (one
      empty line when there are none) and `}`, joined by line breaks. */
  lemma {:induction false} CssTemplateAsLines(prefix: string, baseColor: string, shadeLines: seq<string>)
    ensures ":root {\n  --" + prefix + "-base: " + baseColor + ";\n" + Join(shadeLines, '\n') + "\n}"
      == Join([":root {", "  --" + prefix + "-base: " + baseColor + ";"] + OrBlank(shadeLines) + ["}"], '\n')
  {
    var head := [":root {", "  --" + prefix + "-base: " + baseColor + ";"];
    var middle := OrBlank(shadeLines);
    JoinOrBlank(shadeLines, '\n');
    JoinAppend(head, middle, '\n');
    JoinAppend(head + middle, ["}"], '\n');
    CssTemplateLines(prefix, baseColor, Join(shadeLines, '\n'));
  }

  /** A string that fits on one line. */
  predicate SingleLine(s: string) {
    '\n' !in s
  }

  /** The title, the base colour and every hex fit on one line each, as
      generated colour strings do. */
  predicate SingleLineFields(title: string, exp: ColorExport) {
    && SingleLine(title)
    && SingleLine(exp.baseColor)
    && SingleLineHexes(exp.shades)
  }

  /** A label between two single-line texts stays on one line. */
  lemma LabelledLineSingle(before: string, index: nat, after: string)
    requires SingleLine(before) && SingleLine(after)
    ensures SingleLine(before + LabelKey(index) + after)
  {
    DigitsSingleLine(LabelKey(index));
  }

  lemma DigitsSingleLine(s: string)
    requires AllDigits(s)
    ensures SingleLine(s)
  {
  }

  /** Line `i + 2` of the CSS text is the property of shade `i`. */
  lemma CssLinesAt(title: string, exp: ColorExport, i: nat)
    requires i < |exp.shades|
    ensures |CssLines(title, exp)| == |exp.shades| + 3
    ensures CssLines(title, exp)[i + 2]
      == "  --" + Lower(title) + "-" + LabelKey(i) + ": " + exp.shades[i].hex + ";"
  {
    var prefix := Lower(title);
    var head := [":root {", "  --" + prefix + "-base: " + exp.baseColor + ";"];
    var middle := CssShadeLines(prefix, exp.shades);
    assert CssLines(title, exp) == head + middle + ["}"];
    assert (head + middle + ["}"])[i + 2] == middle[i];
  }

  predicate AllSingleLine(lines: seq<string>) {
    forall k :: 0 <= k < |lines| ==> SingleLine(lines[k])
  }

  lemma AllSingleLineAppend(a: seq<string>, b: seq<string>)
    requires AllSingleLine(a) && AllSingleLine(b)
    ensures AllSingleLine(a + b)
  {
  }

  /** The shade hexes fit on one line each. */
  predicate SingleLineHexes(shades: seq<ColorShade>) {
    forall i :: 0 <= i < |shades| ==> SingleLine(shades[i].hex)
  }

  lemma CssShadeLinesSingle(prefix: string, shades: seq<ColorShade>)
    requires SingleLine(prefix) && SingleLineHexes(shades)
    ensures AllSingleLine(OrBlank(CssShadeLines(prefix, shades)))
  {
    var lines := CssShadeLines(prefix, shades);
    forall k | 0 <= k < |lines|
      ensures SingleLine(lines[k])
    {
      var hex := shades[k].hex;
      LabelledLineSingle("  --" + prefix + "-", k, ": " + hex + ";");
      assert lines[k] == ("  --" + prefix + "-") + LabelKey(k) + (": " + hex + ";");
    }
  }

  /** Every line of the CSS text is free of line breaks. */
  lemma CssLinesSingle(title: string, exp: ColorExport)
    requires SingleLineFields(title, exp)
    ensures AllSingleLine(CssLines(title, exp))
  {
    var prefix := Lower(title);
    LowerKeeps(title, '\n');
    var head := [":root {", "  --" + prefix + "-base: " + exp.baseColor + ";"];
    assert AllSingleLine(head);
    CssShadeLinesSingle(prefix, exp.shades);
    AllSingleLineAppend(head, OrBlank(CssShadeLines(prefix, exp.shades)));
    AllSingleLineAppend(head + OrBlank(CssShadeLines(prefix, exp.shades)), ["}"]);
  }

  /** Cutting the CSS text at its line breaks gives back exactly `:root {`,
      the base property, one property per shade (labelled by its position)
      or one empty line when there are no shades, and `}`. */
  lemma CssVariablesLineStructure(title: string, exp: ColorExport)
    requires SingleLineFields(title, exp)
    ensures Split(GenerateCssVariables(title, exp), '\n') == CssLines(title, exp)
    ensures |exp.shades| > 0 ==> |CssLines(title, exp)| == |exp.shades| + 3
    ensures forall i :: 0 <= i < |exp.shades| ==>
      CssLines(title, exp)[i + 2] == "  --" + Lower(title) + "-" + LabelKey(i) + ": " + exp.shades[i].hex + ";"
  {
    CssLinesSingle(title, exp);
    SplitJoin(CssLines(title, exp), '\n');
    forall i | 0 <= i < |exp.shades|
      ensures CssLines(title, exp)[i + 2]
        == "  --" + Lower(title) + "-" + LabelKey(i) + ": " + exp.shades[i].hex + ";"
    {
      CssLinesAt(title, exp, i);
    }
    if |exp.shades| > 0 {
      CssLinesAt(title, exp, 0);
    }
  }

  /* ---------------------------------------------------------------------
     Sass variables
     --------------------------------------------------------------------- */

  function SassShadeLine(prefix: string, index: nat, shade: ColorShade): string
  {
    "$" + prefix + "-" + LabelKey(index) + ": " + shade.hex + ";"
  }

  function SassShadeLines(prefix: string, shades: seq<ColorShade>): seq<string>
  {
    seq(|shades|, i requires 0 <= i < |shades| => SassShadeLine(prefix, i, shades[i]))
  }

  /** The base variable, a line break, and the shade variables joined by
      line breaks. The text is its lines (SassLines) joined by line breaks. */
  function GenerateSassVariables(title: string, exp: ColorExport): (sass: string)
    ensures sass == Join(SassLines(title, exp), '\n')
  {
    var prefix := Lower(title);
    var shadeLines := SassShadeLines(prefix, exp.shades);
    SassTemplateAsLines(prefix, exp.baseColor, shadeLines);
    "$" + prefix + "-base: " + exp.baseColor + ";\n" + Join(shadeLines, '\n')
  }

  /** The lines of the Sass text, in order. */
  function SassLines(title: string, exp: ColorExport): seq<string>
  {
    var prefix := Lower(title);
    ["$" + prefix + "-base: " + exp.baseColor + ";"] + OrBlank(SassShadeLines(prefix, exp.shades))
  }

  /** The Sass template is the base variable and the shade lines (one empty
      line when there are none), joined by line breaks. */
  lemma {:induction false} SassTemplateAsLines(prefix: string, baseColor: string, shadeLines: seq<string>)
    ensures "$" + prefix + "-base: " + baseColor + ";\n" + Join(shadeLines, '\n')
      == Join(["$" + prefix + "-base: " + baseColor + ";"] + OrBlank(shadeLines), '\n')
  {
    var head := ["$" + prefix + "-base: " + baseColor + ";"];
    JoinOrBlank(shadeLines, '\n');
    JoinAppend(head, OrBlank(shadeLines), '\n');
    assert ";\n" == ";" + ['\n'];
  }

  /** Line `i + 1` of the Sass text is the variable of shade `i`. */
  lemma SassLinesAt(title: string, exp: ColorExport, i: nat)
    requires i < |exp.shades|
    ensures |SassLines(title, exp)| == |exp.shades| + 1
    ensures SassLines(title, exp)[i + 1]
      == "$" + Lower(title) + "-" + LabelKey(i) + ": " + exp.shades[i].hex + ";"
  {
    var prefix := Lower(title);
    var head := ["$" + prefix + "-base: " + exp.baseColor + ";"];
    var rest := SassShadeLines(prefix, exp.shades);
    assert SassLines(title, exp) == head + rest;
    assert (head + rest)[i + 1] == rest[i];
  }

  lemma SassShadeLinesSingle(prefix: string, shades: seq<ColorShade>)
    requires SingleLine(prefix) && SingleLineHexes(shades)
    ensures AllSingleLine(OrBlank(SassShadeLines(prefix, shades)))
  {
    var lines := SassShadeLines(prefix, shades);
    forall k | 0 <= k < |lines|
      ensures SingleLine(lines[k])
    {
      var hex := shades[k].hex;
      LabelledLineSingle("$" + prefix + "-", k, ": " + hex + ";");
      assert lines[k] == ("$" + prefix + "-") + LabelKey(k) + (": " + hex + ";");
    }
  }

  /** Every line of the Sass text is free of line breaks. */
  lemma SassLinesSingle(title: string, exp: ColorExport)
    requires SingleLineFields(title, exp)
    ensures AllSingleLine(SassLines(title, exp))
  {
    var prefix := Lower(title);
    LowerKeeps(title, '\n');
    var head := ["$" + prefix + "-base: " + exp.baseColor + ";"];
    assert AllSingleLine(head);
    SassShadeLinesSingle(prefix, exp.shades);
    AllSingleLineAppend(head, OrBlank(SassShadeLines(prefix, exp.shades)));
  }

  /** Cutting the Sass text at its line breaks gives back the base variable
      and one variable per shade, labelled by its position (or one empty line
      when there are no shades); with shades the text ends in the last
      variable's `;`, without them it ends in a line break. */
  lemma SassVariablesLineStructure(title: string, exp: ColorExport)
    requires SingleLineFields(title, exp)
    ensures Split(GenerateSassVariables(title, exp), '\n') == SassLines(title, exp)
    ensures |exp.shades| > 0 ==> |SassLines(title, exp)| == |exp.shades| + 1
    ensures forall i :: 0 <= i < |exp.shades| ==>
      SassLines(title, exp)[i + 1] == "$" + Lower(title) + "-" + LabelKey(i) + ": " + exp.shades[i].hex + ";"
    ensures var sass := GenerateSassVariables(title, exp);
      sass[|sass| - 1] == if exp.shades == [] then '\n' else ';'
  {
    SassLinesSingle(title, exp);
    SplitJoin(SassLines(title, exp), '\n');
    forall i | 0 <= i < |exp.shades|
      ensures SassLines(title, exp)[i + 1]
        == "$" + Lower(title) + "-" + LabelKey(i) + ": " + exp.shades[i].hex + ";"
    {
      SassLinesAt(title, exp, i);
    }
    if |exp.shades| > 0 {
      SassLinesAt(title, exp, 0);
    }
    SassEnding(title, exp);
  }

  lemma SassEnding(title: string, exp: ColorExport)
    ensures var sass := GenerateSassVariables(title, exp);
      sass[|sass| - 1] == if exp.shades == [] then '\n' else ';'
  {
    var prefix := Lower(title);
    var shadeLines := SassShadeLines(prefix, exp.shades);
    if shadeLines != [] {
      JoinEndsWithLast(shadeLines, '\n');
    }
  }

  /* ---------------------------------------------------------------------
     JSON
     --------------------------------------------------------------------- */

  /** The `[label, {hex, hsl}]` pairs handed to `Object.fromEntries`. */
  function JsonEntries(shades: seq<ColorShade>): seq<(string, Json)>
  {
    seq(|shades|, i requires 0 <= i < |shades| =>
      (LabelKey(i), JObject([("hex", JString(shades[i].hex)), ("hsl", JString(shades[i].hsl))])))
  }

  /** The document `JSON.stringify` writes: the base colour, then the
      label-keyed shades with their hex and HSL strings. */
  function GenerateJson(title: string, exp: ColorExport): (doc: Json)
    ensures doc == JObject([
      ("base", JString(exp.baseColor)),
      ("shades", JObject(JsonEntries(exp.shades)))])
  {
    assert Keys(JsonEntries(exp.shades)) == LabelKeys(|exp.shades|);
    LabelKeysDistinct(|exp.shades|);
    JObject([
      ("base", JString(exp.baseColor)),
      ("shades", JObject(FromEntries(JsonEntries(exp.shades))))
    ])
  }

  /** The JSON document holds `base`, the base colour, then `shades`, whose
      properties are keyed by the shade labels, in shade order, hold their
      hex and HSL unchanged, and are in the order `JSON.stringify` writes
      them. */
  lemma JsonOnePerShade(title: string, exp: ColorExport)
    ensures var doc := GenerateJson(title, exp);
      && doc.JObject? && |doc.members| == 2
      && doc.members[0] == ("base", JString(exp.baseColor))
      && doc.members[1] == ("shades", JObject(JsonEntries(exp.shades)))
    ensures Keys(JsonEntries(exp.shades)) == LabelKeys(|exp.shades|)
    ensures forall i :: 0 <= i < |exp.shades| ==>
      JsonEntries(exp.shades)[i].1 ==
        JObject([("hex", JString(exp.shades[i].hex)), ("hsl", JString(exp.shades[i].hsl))])
    ensures EnumerationOrder(Keys(JsonEntries(exp.shades))) == Keys(JsonEntries(exp.shades))
  {
    assert Keys(JsonEntries(exp.shades)) == LabelKeys(|exp.shades|);
    LabelKeysInEnumerationOrder(|exp.shades|);
  }

  /** The JSON document does not depend on the title. */
  lemma JsonIgnoresTitle(title1: string, title2: string, exp: ColorExport)
    ensures GenerateJson(title1, exp) == GenerateJson(title2, exp)
  {
  }

  /* ---------------------------------------------------------------------
     Across formatters
     --------------------------------------------------------------------- */

  /** All four formatters give the shade at position `i` the same label: the
      Tailwind and JSON objects use it as key and the CSS and Sass lines put
      it after the prefix. */
  lemma FormattersAgreeOnLabels(title: string, exp: ColorExport, i: nat)
    requires i < |exp.shades|
    ensures var tailwind := FromEntries(TailwindEntries(exp.shades));
      |tailwind| == |exp.shades| && Keys(tailwind)[i] == LabelKey(i)
    ensures var json := FromEntries(JsonEntries(exp.shades));
      |json| == |exp.shades| && Keys(json)[i] == LabelKey(i)
    ensures |CssLines(title, exp)| == |exp.shades| + 3
      && CssLines(title, exp)[i + 2]
      == "  --" + Lower(title) + "-" + LabelKey(i) + ": " + exp.shades[i].hex + ";"
    ensures |SassLines(title, exp)| == |exp.shades| + 1
      && SassLines(title, exp)[i + 1]
      == "$" + Lower(title) + "-" + LabelKey(i) + ": " + exp.shades[i].hex + ";"
  {
    assert Keys(TailwindEntries(exp.shades)) == LabelKeys(|exp.shades|);
    assert Keys(JsonEntries(exp.shades)) == LabelKeys(|exp.shades|);
    LabelKeysDistinct(|exp.shades|);
    CssLinesAt(title, exp, i);
    SassLinesAt(title, exp, i);
  }

  /** CSS and Sass depend on the title only through its lower case and on
      the shades only through their hexes; the HSL strings are not used. */
  lemma StylesheetInputs(title1: string, title2: string, exp1: ColorExport, exp2: ColorExport)
    requires Lower(title1) == Lower(title2)
    requires exp1.baseColor == exp2.baseColor
    requires Hexes(exp1.shades) == Hexes(exp2.shades)
    ensures GenerateCssVariables(title1, exp1) == GenerateCssVariables(title2, exp2)
    ensures GenerateSassVariables(title1, exp1) == GenerateSassVariables(title2, exp2)
  {
    var prefix := Lower(title1);
    assert |exp1.shades| == |Hexes(exp1.shades)|;
    assert forall i :: 0 <= i < |exp1.shades| ==> exp1.shades[i].hex == Hexes(exp1.shades)[i];
    assert CssShadeLines(prefix, exp1.shades) == CssShadeLines(prefix, exp2.shades);
    assert SassShadeLines(prefix, exp1.shades) == SassShadeLines(prefix, exp2.shades);
  }

  /** An empty shade list is not an error: each formatter still returns its
      output, with the base colour kept and no shade entries. */
  lemma EmptyShades(title: string, baseColor: string)
    ensures var exp := ColorExport(baseColor, []);
      && GenerateTailwindConfig(title, exp) == JObject([(Lower(title), JObject([]))])
      && GenerateJson(title, exp) == JObject([("base", JString(baseColor)), ("shades", JObject([]))])
      && GenerateCssVariables(title, exp) == ":root {\n  --" + Lower(title) + "-base: " + baseColor + ";\n\n}"
      && GenerateSassVariables(title, exp) == "$" + Lower(title) + "-base: " + baseColor + ";\n"
  {
  }
}
