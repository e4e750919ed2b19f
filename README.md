# The .NET documentation comment generator of jsii-pacmak, in Dafny

jsii-pacmak turns a jsii assembly into packages for other languages. Its
.NET target writes the documentation of every type and member as a C# XML
documentation comment: a run of `///` lines appended to the code writer it
shares with the rest of the generator. This project models that renderer,
`DotNetDocGenerator`, and proves what it writes.

- `strings.dfy` (module `Strings`): the JavaScript string operations the
  renderer relies on, with their JavaScript meaning: `split` on one
  character, `trim` and `trimRight` over the ECMAScript whitespace and line
  terminator characters, and the generator's `ucFirst`.
- `jsii.dfy` (module `Jsii`): the documentation record of an API element,
  its stability, and the parameters of a method-like element. A JavaScript
  falsy optional string (absent or empty) is `Truthy(o) == false`.
- `external.dfy` (module `External`): the collaborators. The code writer is
  a class whose `Line` method appends to a `seq<string>`. The sample
  translator (Rosetta), the markdown-to-XML converter, the XML builder's
  serialisation, the strict-mode lookup, `renderSummary` and the .NET naming
  helpers are function values in an `Env`.
- `docgen.dfy` (module `DotNetDocs`): what is written, as functions of the
  inputs (`DocLines`, `RemarksLines`, `XmlDocLines`, ...). It also holds the
  class `DotNetDocGenerator`, whose methods do what the TypeScript does: loops,
  pushes, shifts and pops, and appending to the writer. Each method is proved
  to produce exactly what those functions say. `renderRemarks` is split into
  collecting the lines and stripping the blank ones, and `emitDocs` into
  one method per section. The pieces follow the source's own order.
- `properties.dfy` (module `DocProperties`): what the rendering promises.
  Each serialised line is written prefixed and trimmed, and indentation
  survives only inside `code`. Attribute blocks come in a fixed order, each
  with its label and one blank separator. Stability is mentioned only when
  deprecated or experimental. The remarks have no empty line at either end,
  and are empty exactly when nothing is there to say. Every line written is
  a `///` comment.

What the code writes, line by line (cited against
`dotnetdocgenerator.ts`):

- attribute blocks open with `<strong>` and the capitalised tag name, then
  `</strong>: ` (line 156), for example `<strong>Default</strong>: `;
- the stability block is labelled `Stability`, and its text is the naming
  helper's `capitalizeWord` of the level's name, `deprecated` or
  `experimental` (lines 127-131);
- an empty summary writes nothing, because `emitXmlDoc` returns on empty
  content (line 185);
- the extra space a `link` custom tag gets (line 140) is removed again by the
  `trimRight` of each remarks line (line 77). When the `link` value ends in a
  line break, the space forms a content line of its own. When the `link`
  tag is the last attribute block, the blank-line trimming keeps that line,
  so one bare `///` line is written before `/// </remarks>`
  (`LinkSpaceSurvivesBlankTrimming`). When another block follows, the line
  stays in the middle and is written as `///`, like the empty line any other
  key leaves there;
- the parameter-name cleanup removes exactly one leading `@` (line 55).

## Model

Source paths are relative to the repository root; `dotnetdocgenerator.ts`
is `packages/jsii-pacmak/lib/targets/dotnet/dotnetdocgenerator.ts`.

| member | source | states |
|---|---|---|
| `Strings.Split` | packages/jsii-pacmak/lib/targets/dotnet/dotnetdocgenerator.ts:155 | `split('\n')` yields at least one piece, no piece contains a line break, and joining the pieces with line breaks gives the input back |
| `Strings.SplitJoin` | packages/jsii-pacmak/lib/targets/dotnet/dotnetdocgenerator.ts:196 | splitting the join of line-break-free pieces gives exactly those pieces: the split is the only such decomposition |
| `Strings.SplitAppend` | packages/jsii-pacmak/lib/targets/dotnet/dotnetdocgenerator.ts:141 | appending a character other than the line break extends only the last piece of the split |
| `Strings.SplitSnoc` | packages/jsii-pacmak/lib/targets/dotnet/dotnetdocgenerator.ts:155 | a separator and a separator-free piece appended to the input add exactly that piece after the pieces of the input |
| `Strings.TrimRight` | packages/jsii-pacmak/lib/targets/dotnet/dotnetdocgenerator.ts:77 | `trimRight` returns a prefix of its input |
| `Strings.TrimRightRemovesTrailingWhitespace` | packages/jsii-pacmak/lib/targets/dotnet/dotnetdocgenerator.ts:77 | `trimRight` removes only whitespace, and leaves no whitespace at the end |
| `Strings.TrimLeftRemovesLeadingWhitespace` | packages/jsii-pacmak/lib/targets/dotnet/dotnetdocgenerator.ts:197 | the left half of `trim` returns a suffix, removes only whitespace, and leaves none at the start |
| `Strings.TrimLeft` | packages/jsii-pacmak/lib/targets/dotnet/dotnetdocgenerator.ts:197 | the left half of `trim` never lengthens a line (its suffix and whitespace facts are in `TrimLeftRemovesLeadingWhitespace`) |
| `Strings.Trim` | packages/jsii-pacmak/lib/targets/dotnet/dotnetdocgenerator.ts:197 | `trim` is `trimRight` followed by the left trim and never lengthens a line; that the result is the line's contiguous middle with only whitespace removed around it is stated by `TrimRemovesWhitespace` |
| `Strings.TrimRemovesWhitespace` | packages/jsii-pacmak/lib/targets/dotnet/dotnetdocgenerator.ts:197 | `trim` keeps a contiguous middle of the line with only whitespace before and after it, leaves no whitespace at either end of that middle, and leaves nothing exactly when the line is all whitespace |
| `Strings.TrimRightIgnoresAddedWhitespace` | packages/jsii-pacmak/lib/targets/dotnet/dotnetdocgenerator.ts:77 | whitespace appended to a line vanishes under `trimRight` |
| `Strings.TrimRightKeepsPrefix` | packages/jsii-pacmak/lib/targets/dotnet/dotnetdocgenerator.ts:77 | a prefix ending in a visible character survives `trimRight`, so the `///` marker always does |
| `Strings.UcFirst` | packages/jsii-pacmak/lib/targets/dotnet/dotnetdocgenerator.ts:206-208 | `ucFirst` keeps the length, upper-cases the first character and keeps every other one; the empty string maps to itself |
| `External.CodeMaker.Line` | packages/jsii-pacmak/lib/targets/dotnet/dotnetdocgenerator.ts:76-78 | every `code.line` call appends exactly its argument to the writer's lines and changes nothing else |
| `DotNetDocs.ConvertExample` | packages/jsii-pacmak/lib/targets/dotnet/dotnetdocgenerator.ts:162-170 | the example is the `source` of the translator's C# translation, requested with the element's location and the assembly's strict mode; what it writes is in `ExampleSectionShape` |
| `DotNetDocs.ConvertSamplesInMarkdown` | packages/jsii-pacmak/lib/targets/dotnet/dotnetdocgenerator.ts:172-179 | the markdown with its samples translated to C# by the translator, with the element's location and the assembly's strict mode; what it writes is in `MarkdownRemarksShape` and `RemarksLayout` |
| `DotNetDocs.ShouldMentionStability` | packages/jsii-pacmak/lib/targets/dotnet/dotnetdocgenerator.ts:210-213 | a stability level is mentioned exactly when it is neither stable nor external |
| `DotNetDocs.CommentLinesAt` | packages/jsii-pacmak/lib/targets/dotnet/dotnetdocgenerator.ts:195-199 | the i-th line written for an element is its i-th serialised line, trimmed for the tag and prefixed |
| `DotNetDocs.CommentLinesSnoc` | packages/jsii-pacmak/lib/targets/dotnet/dotnetdocgenerator.ts:195-199 | one more serialised line adds exactly one written line at the end |
| `DotNetDocs.StripSlug` | packages/jsii-pacmak/lib/targets/dotnet/dotnetdocgenerator.ts:53-55 | `.replace(/^@/, '')` returns the name or the name without one leading `@`, and it removes one character exactly when the name starts with `@` |
| `DotNetDocs.LeadingBlankCountSpec` | packages/jsii-pacmak/lib/targets/dotnet/dotnetdocgenerator.ts:145-147 | the lines the first loop shifts off are empty, and the line after them is not |
| `DotNetDocs.TrailingBlankCountSpec` | packages/jsii-pacmak/lib/targets/dotnet/dotnetdocgenerator.ts:148-150 | the lines the second loop pops are empty, and the line before them is not |
| `DotNetDocs.LeadingBlankCountIs` | packages/jsii-pacmak/lib/targets/dotnet/dotnetdocgenerator.ts:145-147 | a run of empty lines not followed by another empty line is the whole leading run |
| `DotNetDocs.TrailingBlankCountIs` | packages/jsii-pacmak/lib/targets/dotnet/dotnetdocgenerator.ts:148-150 | a run of empty lines not preceded by another empty line is the whole trailing run |
| `DotNetDocs.TrimBlankLinesSpec` | packages/jsii-pacmak/lib/targets/dotnet/dotnetdocgenerator.ts:144-150 | the remarks keep a contiguous run of the collected lines with only empty lines outside it; neither end is empty; nothing remains exactly when every line was empty |
| `DotNetDocs.EmitDocAttribute` | packages/jsii-pacmak/lib/targets/dotnet/dotnetdocgenerator.ts:154-159 | `emitDocAttribute` appends exactly one attribute block and leaves the earlier lines unchanged |
| `DotNetDocs.StripBlankLines` | packages/jsii-pacmak/lib/targets/dotnet/dotnetdocgenerator.ts:144-150 | the shift and pop loops compute exactly the blank-line trimming of `TrimBlankLinesSpec` |
| `DotNetDocs.DotNetDocGenerator.constructor` | packages/jsii-pacmak/lib/targets/dotnet/dotnetdocgenerator.ts:24-30 | the generator writes to the given writer and uses the given collaborators |
| `DotNetDocs.DotNetDocGenerator.EmitXmlDoc` | packages/jsii-pacmak/lib/targets/dotnet/dotnetdocgenerator.ts:180-200 | `emitXmlDoc` appends nothing for empty content, and otherwise one line per serialised line, in order, and changes nothing else |
| `DotNetDocs.DotNetDocGenerator.EmitCommentLines` | packages/jsii-pacmak/lib/targets/dotnet/dotnetdocgenerator.ts:195-199 | the output loop of `emitXmlDoc` appends one commented line per serialised line, in order |
| `DotNetDocs.DotNetDocGenerator.EmitRemarksBlock` | packages/jsii-pacmak/lib/targets/dotnet/dotnetdocgenerator.ts:76-78 | the remarks markers, with one right-trimmed comment line per remarks line between them, in order |
| `DotNetDocs.DotNetDocGenerator.CollectTags` | packages/jsii-pacmak/lib/targets/dotnet/dotnetdocgenerator.ts:124-138 | default, stability, see and subclassable blocks are appended in that order, each only when its field is set |
| `DotNetDocs.DotNetDocGenerator.CollectCustomTags` | packages/jsii-pacmak/lib/targets/dotnet/dotnetdocgenerator.ts:139-142 | one block per custom entry, in entry order, a `link` value with one extra space |
| `DotNetDocs.DotNetDocGenerator.CollectRemarks` | packages/jsii-pacmak/lib/targets/dotnet/dotnetdocgenerator.ts:112-142 | the collected lines are the translated remarks and a blank line (only when there are remarks), then every attribute block in order |
| `DotNetDocs.DotNetDocGenerator.RenderRemarks` | packages/jsii-pacmak/lib/targets/dotnet/dotnetdocgenerator.ts:111-160 | `renderRemarks` returns the collected lines with the blank-line trimming applied |
| `DotNetDocs.DotNetDocGenerator.EmitParams` | packages/jsii-pacmak/lib/targets/dotnet/dotnetdocgenerator.ts:50-60 | one `param` element per parameter, in declaration order |
| `DotNetDocs.DotNetDocGenerator.EmitRemarksSection` | packages/jsii-pacmak/lib/targets/dotnet/dotnetdocgenerator.ts:74-79 | a remarks block only when `renderRemarks` returned lines |
| `DotNetDocs.DotNetDocGenerator.EmitExample` | packages/jsii-pacmak/lib/targets/dotnet/dotnetdocgenerator.ts:81-85 | an example section only when there is an example: markers around the translated example as a `code` element |
| `DotNetDocs.DotNetDocGenerator.EmitDocsSections` | packages/jsii-pacmak/lib/targets/dotnet/dotnetdocgenerator.ts:67-85 | returns, then remarks, then example |
| `DotNetDocs.DotNetDocGenerator.EmitDocs` | packages/jsii-pacmak/lib/targets/dotnet/dotnetdocgenerator.ts:42-86 | `emitDocs` appends the summary, then the parameters, and stops there when the element has no docs; otherwise returns, remarks and example follow |
| `DotNetDocs.DotNetDocGenerator.EmitMarkdownAsRemarks` | packages/jsii-pacmak/lib/targets/dotnet/dotnetdocgenerator.ts:88-106 | nothing for falsy markdown; otherwise the translated markdown as a remarks block, blank lines included |
| `DocProperties.CommentLineShape` | packages/jsii-pacmak/lib/targets/dotnet/dotnetdocgenerator.ts:194-198 | a serialised line is written as `/// ` and the line with no trailing whitespace. Outside `code` the text is a contiguous middle of the serialised line with only whitespace around it, has no leading whitespace, and is empty exactly when the line is blank. Inside `code` the text is the line minus only its trailing whitespace |
| `DocProperties.XmlDocLinesShape` | packages/jsii-pacmak/lib/targets/dotnet/dotnetdocgenerator.ts:180-200 | `emitXmlDoc` writes nothing exactly when the content is empty, and otherwise as many lines as the serialised element has, the i-th written from the i-th serialised line as `CommentLineShape` describes |
| `DocProperties.XmlDocLinesAreComments` | packages/jsii-pacmak/lib/targets/dotnet/dotnetdocgenerator.ts:198 | every line `emitXmlDoc` writes is a `///` comment |
| `DocProperties.ParamLinesPresent` | packages/jsii-pacmak/lib/targets/dotnet/dotnetdocgenerator.ts:51-58 | a parameter gets a `param` element exactly when its summary is non-empty; its `name` attribute is the converted name without one leading `@` |
| `DocProperties.StripSlugOnce` | packages/jsii-pacmak/lib/targets/dotnet/dotnetdocgenerator.ts:55 | one `@` is removed; of two, the second stays |
| `DocProperties.ParamsLinesAreComments` | packages/jsii-pacmak/lib/targets/dotnet/dotnetdocgenerator.ts:50-60 | every parameter line is a `///` comment |
| `DocProperties.AttributeBlockShape` | packages/jsii-pacmak/lib/targets/dotnet/dotnetdocgenerator.ts:154-159 | an attribute block has one line per line of its contents plus a blank. Its first line starts with the label. Removing the label and joining the content lines gives the contents back |
| `DocProperties.DefaultLabel` | packages/jsii-pacmak/lib/targets/dotnet/dotnetdocgenerator.ts:124-126 | the default block is labelled `<strong>Default</strong>: ` |
| `DocProperties.StabilityLabel` | packages/jsii-pacmak/lib/targets/dotnet/dotnetdocgenerator.ts:127-132 | the stability block is labelled `<strong>Stability</strong>: ` |
| `DocProperties.BlockExtend` | packages/jsii-pacmak/lib/targets/dotnet/dotnetdocgenerator.ts:155-158 | when the last content line gains a character, only the block's last content line changes |
| `DocProperties.AttributeLinesAppend` | packages/jsii-pacmak/lib/targets/dotnet/dotnetdocgenerator.ts:141 | a character appended to the contents lands at the end of the block's last content line |
| `DocProperties.LinkGetsOneTrailingSpace` | packages/jsii-pacmak/lib/targets/dotnet/dotnetdocgenerator.ts:139-142 | a custom tag other than `link` renders its value unchanged; a `link` block differs only by one space at the end of its last content line |
| `DocProperties.LinkSpaceInvisible` | packages/jsii-pacmak/lib/targets/dotnet/dotnetdocgenerator.ts:77 | the extra space disappears again when the remarks line is written |
| `DocProperties.TrailingBreakBlocks` | packages/jsii-pacmak/lib/targets/dotnet/dotnetdocgenerator.ts:154-159 | for any value, a line break appended to it adds one empty content line to the block, and a break followed by one more character adds that character as the last content line |
| `DocProperties.BreakBlock` | packages/jsii-pacmak/lib/targets/dotnet/dotnetdocgenerator.ts:154-159 | a value followed by a line break and a break-free piece: the block's content lines, then that piece, then the separator |
| `DocProperties.LinkSpaceSurvivesBlankTrimming` | packages/jsii-pacmak/lib/targets/dotnet/dotnetdocgenerator.ts:139-150 | for any `link` value followed by a line break, the block taken alone keeps all its content lines and then a `" "` line through the blank-line trimming; under any other key the break changes nothing once trimmed |
| `DocProperties.StabilityMentioned` | packages/jsii-pacmak/lib/targets/dotnet/dotnetdocgenerator.ts:127-132 | a stability block is present exactly for deprecated and experimental elements (`shouldMentionStability`, lines 210-213), and its text is the capitalised level name |
| `DocProperties.CustomLinesEnds` | packages/jsii-pacmak/lib/targets/dotnet/dotnetdocgenerator.ts:139-142 | the custom blocks are empty exactly when there are no entries; otherwise they open with a label and close with a blank |
| `DocProperties.RegionEmptyIff` | packages/jsii-pacmak/lib/targets/dotnet/dotnetdocgenerator.ts:124-142 | no attribute line is produced exactly when there is no non-empty default, no mentioned stability, no non-empty see, no `subclassable: true`, and no custom tag |
| `DocProperties.RegionEnds` | packages/jsii-pacmak/lib/targets/dotnet/dotnetdocgenerator.ts:122-142 | a non-empty attribute region opens with a label line and closes with a blank line |
| `DocProperties.OpensAndCloses` | packages/jsii-pacmak/lib/targets/dotnet/dotnetdocgenerator.ts:122-142 | concatenating blocks that open with a label and close with a blank gives such a block |
| `DocProperties.FirstAndLast` | packages/jsii-pacmak/lib/targets/dotnet/dotnetdocgenerator.ts:122-142 | the same for the five groups of blocks in their order |
| `DocProperties.TrailingBlankCountAppend` | packages/jsii-pacmak/lib/targets/dotnet/dotnetdocgenerator.ts:148-150 | the pop loop removes the same lines whatever precedes a visible line |
| `DocProperties.TrimBlankLinesFromNonBlank` | packages/jsii-pacmak/lib/targets/dotnet/dotnetdocgenerator.ts:144-150 | when the first line is visible, only the end is trimmed |
| `DocProperties.LeadingBlankCountPrefix` | packages/jsii-pacmak/lib/targets/dotnet/dotnetdocgenerator.ts:145-147 | the shift loop removes the same lines whatever follows a visible line |
| `DocProperties.TrimTextSepRegion` | packages/jsii-pacmak/lib/targets/dotnet/dotnetdocgenerator.ts:144-150 | text with a visible line, the separator, then a region opening visibly: the text loses only its leading empty lines and the region only its trailing ones |
| `DocProperties.TrimBlanksSepRegion` | packages/jsii-pacmak/lib/targets/dotnet/dotnetdocgenerator.ts:144-150 | text of empty lines only disappears with its separator, and the region loses its trailing empty lines |
| `DocProperties.RegionTrailingBlanks` | packages/jsii-pacmak/lib/targets/dotnet/dotnetdocgenerator.ts:144-150 | a non-empty region loses at least its final separator to the trimming, and never all of its lines |
| `DocProperties.RemarksEmptyIff` | packages/jsii-pacmak/lib/targets/dotnet/dotnetdocgenerator.ts:111-152 | `renderRemarks` returns nothing exactly when there are no remarks, or they translate to empty lines only, and no attribute tag is present |
| `DocProperties.RemarksLayout` | packages/jsii-pacmak/lib/targets/dotnet/dotnetdocgenerator.ts:114-150 | with at least one tag, the remarks are the translated text without its leading empty lines, exactly one blank line, then the attribute blocks in order without their final empty lines; absent remarks, or remarks that translate to empty lines only, leave the attribute blocks alone |
| `DocProperties.RemarksTextLayout` | packages/jsii-pacmak/lib/targets/dotnet/dotnetdocgenerator.ts:114-150 | with truthy remarks and at least one tag: the text without its leading empty lines, one blank, then the region without its trailing empty lines; all-empty text leaves only the region |
| `DocProperties.DeprecatedWithDefaultRegion` | packages/jsii-pacmak/lib/targets/dotnet/dotnetdocgenerator.ts:124-132 | one-line default and deprecated stability give the default block, then the stability block |
| `DocProperties.DeprecatedWithDefault` | packages/jsii-pacmak/lib/targets/dotnet/dotnetdocgenerator.ts:111-152 | one-line remarks, a one-line default and deprecated stability render as the text, a blank, `<strong>Default</strong>: ` and the default, a blank, and `<strong>Stability</strong>: ` with the capitalised word `deprecated` |
| `DocProperties.RemarkLineShape` | packages/jsii-pacmak/lib/targets/dotnet/dotnetdocgenerator.ts:77 | a remarks line is written as a `///` comment with no trailing whitespace; a line ending in a visible character is written whole after `/// ` |
| `DocProperties.RemarkLinesAt` | packages/jsii-pacmak/lib/targets/dotnet/dotnetdocgenerator.ts:77 | one written line per remarks line, in order |
| `DocProperties.RemarksBlockShape` | packages/jsii-pacmak/lib/targets/dotnet/dotnetdocgenerator.ts:75-79 | a remarks block has one line per remarks line plus the two markers, and every line is a comment |
| `DocProperties.MarkdownRemarksShape` | packages/jsii-pacmak/lib/targets/dotnet/dotnetdocgenerator.ts:88-106 | free markdown writes nothing when falsy; otherwise the markers around one line per line of the converted markdown, after sample translation (`convertSamplesInMarkdown`, lines 172-179) |
| `DocProperties.ExampleSectionShape` | packages/jsii-pacmak/lib/targets/dotnet/dotnetdocgenerator.ts:81-85 | an example writes its markers around the C# translation (`convertExample`, lines 162-170): one line per serialised line, keeping indentation; only the markers appear when the translation is empty |
| `DocProperties.ExampleSectionAreComments` | packages/jsii-pacmak/lib/targets/dotnet/dotnetdocgenerator.ts:81-85 | every example line is a `///` comment |
| `DocProperties.EveryDocLineIsComment` | packages/jsii-pacmak/lib/targets/dotnet/dotnetdocgenerator.ts:42-86 | every line `emitDocs` writes starts with `///` |
| `DocProperties.OnlySummaryAndParams` | packages/jsii-pacmak/lib/targets/dotnet/dotnetdocgenerator.ts:62-142 | without docs, or with docs whose returns, remarks, default, see and example are falsy, whose stability is absent, stable or external, that are not `subclassable: true` and have no custom entries (including `custom: {}`), only the summary and the parameters are written |

## Left out

- The XML builder's escaping and serialisation: `serialize` is a function value, as is `markDownToXmlDoc`.
- Rosetta's translation, `enforcesStrictMode`, `renderSummary`, `convertParameterName` and `capitalizeWord`: these are function values; their own code is not part of this model.
- Errors thrown by these collaborators are not modelled.
- The code writer's indentation, blocks and files: only `line` appends are modelled.
- Strings.Trim: its own contract says only that the result is no longer than the input. What `trim` keeps (the contiguous middle, with only whitespace around it) is stated in the separate lemma `TrimRemovesWhitespace`, because that quantified fact in the function's own contract would be unfolded at every use of `Trim`.
- Strings.UcFirst: upper-cases only ASCII letters, while JavaScript's `toUpperCase` maps all of Unicode, works on UTF-16 code units and can lengthen a string (`ß` becomes `SS`). The model treats strings as sequences of code points.
- `Object.entries` key order: custom tags and XML attributes are given as sequences of pairs in entry order. JavaScript's ordering of integer-like keys before the others is not modelled.
- JavaScript truthiness beyond strings and booleans: `subclassable` counts only when it is `true`, and stability is one of the four levels.
- Sharing the writer with other generators between calls: the model states the lines each call appends.
