# DevPalette colour export, modelled in Dafny

DevPalette is a browser colour-palette generator. For a base colour it derives
an ordered list of shades, each with a `hex` and an `hsl` string. A colour
group (title, base colour, shades) can then be exported in four formats. This
project models those four export formatters of `src/lib/colorExport.ts`:

- `generateTailwindConfig`: a Tailwind `colors` entry, lower-cased title → scale label → hex.
- `generateCSSVariables`: a `:root { … }` block of custom properties.
- `generateSassVariables`: Sass variable lines.
- `generateJSON`: a document `{ base, shades: { label: { hex, hsl } } }`.

Each formatter labels the shade at position `i` with `(i+1)*100`, less 50 for
the first shade. The labels are 50, 200, 300, … The source repeats this
expression inline four times (lines 13, 35, 47, 58). The model defines it once
(`ColorExport.ScaleLabel`) and proves that all four formatters use the same
label for each position. It also proves that the labels strictly increase, so
no two shades share a key. Because of that, `Object.fromEntries` keeps every
shade, in shade order, and that order is also the order JavaScript enumerates
the keys in.

Three modules:

- `Text` (`text.dfy`): `toLowerCase` (ASCII), `String(n)` for naturals with
  its parse-back, `join('\n')` and its inverse `split`.
- `JsObject` (`jsobject.dfy`): the objects the formatters build, modelled as
  ordered property lists. Also `Object.fromEntries` (defining a key that
  already exists keeps its place and replaces the value), and JavaScript's
  own-property enumeration order.
- `ColorExport` (`color_export.dfy`): the four formatters
  (`GenerateTailwindConfig`, `GenerateCssVariables`, `GenerateSassVariables`,
  `GenerateJson`) and their properties.

The CSS and Sass formatters are modelled as the exact template text. The
line-structure lemmas cut that text at its line breaks and name each line.

The code is modelled as written where it differs from other descriptions of
the formatters:

- With no shades, the CSS template still puts a line break on each side of
  the empty `join`. The CSS text therefore has an empty line before `}`, and
  the Sass text ends in a line break. The model keeps both, and
  `EmptyShades` states them. There are no shade entries either way.
- The comment at line 12 lists "50, 100, 200", but the expression never
  yields 100 (`NoLabelKeyIs100`). The model follows the expression.

## Model

| member | source | states |
|---|---|---|
| `ColorExport.GenerateTailwindConfig` | src/lib/colorExport.ts:8-17 | returns the `config` object only, not the `module.exports` text around it: one property, the lower-cased title, holding the `Object.fromEntries` of the label/hex pairs, which keeps every pair, in shade order |
| `ColorExport.GenerateCssVariables` | src/lib/colorExport.ts:28-39 | the CSS text is the lines `:root {`, the base property, the shade properties (or one empty line when there are none) and `}`, joined by line breaks |
| `ColorExport.GenerateSassVariables` | src/lib/colorExport.ts:41-50 | the Sass text is the base variable line and the shade variable lines (or one empty line when there are none), joined by line breaks |
| `ColorExport.GenerateJson` | src/lib/colorExport.ts:52-65 | returns the object `JSON.stringify` serialises: `base` = the base colour and `shades` = the `Object.fromEntries` of the label/`{hex, hsl}` pairs, which keeps every pair, in shade order; the title is not used |
| `ColorExport.ScaleLabel` | src/lib/colorExport.ts:13 | the label of a shade position is a multiple of 50; the first shade is labelled 50, the label is below 100 exactly for the first shade, and every later label is the whole hundred `index + 1` |
| `ColorExport.ScaleLabelValues` | src/lib/colorExport.ts:13 | the first shade is labelled 50, no position is labelled 100, and every later label is at least 200 |
| `ColorExport.ScaleLabelIncreasing` | src/lib/colorExport.ts:13 | labels grow strictly with the shade position |
| `ColorExport.LabelKeysDistinct` | src/lib/colorExport.ts:11-15 | the `String(label)` keys of the shades are pairwise distinct |
| `ColorExport.NoLabelKeyIs100` | src/lib/colorExport.ts:12-13 | the key "100" is never produced |
| `ColorExport.LabelKeysInEnumerationOrder` | src/lib/colorExport.ts:56-64 | taken in shade order, the keys already follow JavaScript's enumeration order (array indices ascending, then other keys), and `EnumerationOrder` returns them unchanged, so `JSON.stringify` writes them in shade order |
| `ColorExport.TailwindConfigOnePerShade` | src/lib/colorExport.ts:9-17 | the config has one property, the lower-cased title; under it is one property per shade, in shade order, keyed by its label and holding its hex verbatim; `EnumerationOrder` leaves those keys in shade order |
| `ColorExport.TailwindConfigInputs` | src/lib/colorExport.ts:8-17 | the Tailwind config depends on the title only through its lower case and on the group only through the shade hexes; base colour and HSL strings are ignored |
| `ColorExport.CssTemplateAsLines` | src/lib/colorExport.ts:30-38 | the CSS template literal, for any shade lines, equals those lines framed by `:root {`, the base line and `}`, joined by line breaks |
| `ColorExport.CssLinesAt` | src/lib/colorExport.ts:35 | CSS line `i + 2` is `  --<prefix>-<label of i>: <hex of i>;`, with shade count + 3 lines |
| `ColorExport.CssVariablesLineStructure` | src/lib/colorExport.ts:30-38 | when title, base colour and hexes fit on one line, splitting the CSS text at line breaks gives exactly those lines: one per shade, in order, between the base line and `}` |
| `ColorExport.SassTemplateAsLines` | src/lib/colorExport.ts:43-49 | the Sass template literal, for any shade lines, equals the base line followed by those lines, joined by line breaks |
| `ColorExport.SassLinesAt` | src/lib/colorExport.ts:47 | Sass line `i + 1` is `$<prefix>-<label of i>: <hex of i>;`, with shade count + 1 lines |
| `ColorExport.SassVariablesLineStructure` | src/lib/colorExport.ts:43-49 | when the fields fit on one line, splitting the Sass text gives exactly the base line and one line per shade, in order; with shades the text ends in `;` (no trailing line break), without them in a line break |
| `ColorExport.JsonOnePerShade` | src/lib/colorExport.ts:52-69 | the document `GenerateJson` returns has exactly two properties, `base` = the base colour and then `shades`, with one property per shade, in shade order, keyed by its label and holding its hex and HSL unchanged; `EnumerationOrder` leaves those keys in shade order |
| `ColorExport.JsonIgnoresTitle` | src/lib/colorExport.ts:52 | the JSON document does not depend on the title |
| `ColorExport.FormattersAgreeOnLabels` | src/lib/colorExport.ts:11-58 | Tailwind and JSON keys, CSS and Sass lines all give shade `i` the same label |
| `ColorExport.StylesheetInputs` | src/lib/colorExport.ts:28-50 | the CSS and Sass texts depend on the title only through its lower case and on the shades only through their hexes |
| `ColorExport.EmptyShades` | src/lib/colorExport.ts:8-69 | with no shades every formatter still returns: empty shade objects, and CSS/Sass texts that keep the base line |
| `Text.Lower` | src/lib/colorExport.ts:29 | lower-casing keeps the length and maps each character on its own |
| `Text.LowerKeeps` | src/lib/colorExport.ts:42 | lower-casing neither adds nor removes a non-letter such as a line break |
| `Text.LowerIdempotent` | src/lib/colorExport.ts:10 | lower-casing twice is lower-casing once |
| `Text.NatToString` | src/lib/colorExport.ts:58 | `String(n)` is a non-empty string of digits with a leading zero only for 0 |
| `Text.ParseNatToString` | src/lib/colorExport.ts:13 | decimal text reads back as the number it was written from |
| `Text.NatToStringInjective` | src/lib/colorExport.ts:35 | two numbers render to the same text exactly when they are equal |
| `Text.Join` | src/lib/colorExport.ts:37 | `join('\n')` of no lines is empty; otherwise it is as long as the lines plus one separator per gap, and starts with the first line |
| `Text.JoinAppend` | src/lib/colorExport.ts:32-37 | joining two non-empty lists puts exactly one separator between their joins |
| `Text.SplitJoin` | src/lib/colorExport.ts:37 | splitting undoes `join` when no line holds the separator |
| `Text.JoinSplit` | src/lib/colorExport.ts:49 | joining undoes splitting, for every string |
| `Text.JoinEndsWithLast` | src/lib/colorExport.ts:44-49 | a join ends with its last element, with no separator after it |
| `JsObject.FromEntries` | src/lib/colorExport.ts:10-16 | `Object.fromEntries` never repeats a key; it returns its entries unchanged, in order, when no key repeats, and fewer properties than entries when one does |
| `JsObject.Put` | src/lib/colorExport.ts:10 | defining a property keeps an existing key in place and appends a new one at the end |
| `JsObject.PutLookup` | src/lib/colorExport.ts:56 | after defining a property, its key holds the new value and every other key its old one |
| `JsObject.DefineAllDistinct` | src/lib/colorExport.ts:56-64 | defining entries with distinct new keys appends them all, in order |
| `JsObject.DefineAllShorter` | src/lib/colorExport.ts:56-64 | when a key repeats, defining the entries in turn yields fewer properties than were given |
| `JsObject.EnumerationOrderUnchanged` | src/lib/colorExport.ts:56-64 | a key list already in enumeration order (array indices first, ascending, then the others) is returned unchanged by the reference ordering `EnumerationOrder` |

## Left out

- `JSON.stringify(…, null, 2)` (lines 22 and 53-68): whitespace, quoting and escaping are not modelled. `GenerateTailwindConfig` and `GenerateJson` return the object that is serialised (`JsObject.Json`), with its properties in serialisation order. The fixed `module.exports = { theme: { extend: { colors: … } } }` text around the Tailwind object is left out with the serialiser.
- `ColorExport.GenerateTailwindConfig`: returns the `config` object of lines 9-17, not the string of lines 19-25; the `module.exports` wrapper is fixed text around `JSON.stringify(config, null, 2)`, which is not modelled (see above).
- `Text.Lower`: models `toLowerCase` on ASCII only. Unicode case mapping, which can change a string's length, is not modelled.
- `ColorExport.CssVariablesLineStructure`: assumes the title, base colour and hexes contain no line break; the source does not require this. The contract of `GenerateCssVariables` holds without that assumption.
- `ColorExport.SassVariablesLineStructure`: assumes the title, base colour and hexes contain no line break; the source does not require this. The contract of `GenerateSassVariables` holds without that assumption.
- Scale labels are unbounded naturals. JavaScript numbers are doubles, which are exact only up to 2^53, far beyond any shade count.
- `generateShades` and `ColorShade` in `src/lib/colorUtils` are not part of this model. Shades are opaque records of two strings.
- `src/components/ColorShadeGenerator.tsx` and `src/components/ColorPaletteSection.tsx` are React presentation: state hooks, clipboard writes and timers. No export logic is in them.
