# one-scriba core, modelled in Dafny

one-scriba is a desktop writing tool for screenplays, novels and stage plays. A project is a folder of section files; some sections hold rich-text HTML and some hold JSON records; snapshots of a project can be saved and restored. This Dafny project models the core of the application:

- **the PDF exporter** (`src/backend/exporter.js`). It covers the label tables and their merge; HTML clean-up (entity decoding, tag stripping, the page wrapper, the legacy-list repair); the screenplay block parser and its layout; inline formatting and font sizes; the rich-text list and block renderer; the JSON record formatters for characters, outline beats, bible and timeline; the coloured timeline; and the project and single-section exports. Drawing on the PDF is modelled as a sequence of drawing commands (`Draw.Cmd`). Page breaks are counted as commands, so no page geometry is computed.
- **the editor's data operations** (`src/frontend/editor.js`):
  - the translation helper and the sidebar section titles;
  - the timeline board, covering orderings, restacking, drops and new events;
  - the outline beats: renumbering and moves;
  - moving cast cards up and down;
  - making sure the story bible has its default sections;
  - the list conversion between the editor's markup and saved HTML.
- **projects** (`src/backend/projectManager.js`). Project folder ids are `<name>__<type>`. The model covers creating, renaming, listing and typing projects, and bringing a project's section files up to date. The projects folder is a map from folder names to entries.
- **snapshots** (`src/backend/versionsManager.js`): slugified labels, version file names and their parsing, listing, creating, restoring and renaming snapshots.
- **the main-process helpers** (`src/main.js`): the file-name sanitiser, the date stamp, the export labels, the spell-checker language, the zoom clamp and the `.pdf` suffix rule.
- **the translation engine** (`src/frontend/i18n.js`): dictionary lookup by dotted path, `{name}` interpolation, the `data-i18n-attr` pair list, and the language switch.

The model is built from functions on values. Where the source changes state in place, it uses an imperative method with loop invariants and proves it against a specification function. This covers the timeline board, the outline beats, the cast list, the bible and the language switch, and also each loop the source runs: sorting, page numbering, the exporter's section loop, and the `re.exec` loops.

Regular-expression replacements are modelled by a left-to-right scanner over matchers (`Scan`). Each matcher reproduces one pattern, including its backtracking where it matters. JavaScript's `/i` flag on ASCII patterns is case-insensitive comparison on ASCII letters. `toLowerCase` and `toUpperCase` map ASCII and Latin-1 letters, and `toUpperCase` also gives 'ß' → "SS", 'ÿ' → U+0178 and 'µ' → U+039C. Unicode NFKD normalisation (in `slugify`) is a function parameter.

Functions outside the model become parameters:
- the file system: maps and `Option`s;
- the clock: a timestamp parameter;
- the save dialog: its answer;
- `JSON.parse`: a parsed value or `None`.

## Model

| member | source | states |
|---|---|---|
| Labels.ApplyProjectTypeOverrides | src/backend/exporter.js:130-137 | An empty type changes nothing. A non-empty type is recorded. Only an English book's `scaletta` title changes, to "Chapter Breakdown": nothing else changes. |
| Labels.Override | src/backend/exporter.js:143-146 | The spread merge has both maps' keys, and the second map's value wins. |
| Labels.BaseLabels | src/backend/exporter.js:142 | An unknown language falls back to the Italian table. |
| Labels.MergeLabelsMeaning | src/backend/exporter.js:140-149 | With no labels: the Italian default. Otherwise every title of the language table and of the caller is present. The caller's titles override the table, and an English book's outline is "Chapter Breakdown". |
| Labels.SectionLabel | src/backend/exporter.js:179-184 | A section with a non-empty title shows that title upper-cased. Without a title it is the id upper-cased. The result is upper-case, and it is empty only for an empty id with no title. |
| Labels.NumberAllPages | src/backend/exporter.js:189-204 | One footer per buffered page: the page footer for page number i+1, in page order. |
| Labels.FootersDistinct | src/backend/exporter.js:189-195 | Different pages never carry the same footer. |
| Labels.RegisterFonts | src/backend/exporter.js:221-266 | Exactly the eight faces are registered. |
| Labels.FontsCoverFaces | src/backend/exporter.js:426-437 | Every face `fontFor` can ask for is registered. |
| Labels.FamilyAllOrNothing | src/backend/exporter.js:221-266 | A family's four faces are all bundled files when that family's Regular file exists, and all built-in faces otherwise. |
| Json.Or | src/backend/exporter.js:673 | JavaScript's `or` operator gives a truthy value exactly when one of its operands is truthy. |
| Json.Prop | src/backend/exporter.js:812 | `v.key` throws exactly on `null`; otherwise it is the optional property. |
| Json.SafeString | src/backend/exporter.js:648-650 | A string is falsy exactly when empty, and `safe` returns it unchanged. |
| Json.SafeOrEmpty | src/backend/exporter.js:674 | `safe` of a value or-ed with '' is `safe` of the value. |
| Markup.ReplaceCharGone | src/backend/exporter.js:320 | A global replacement of one character by text without it leaves none of it. |
| Markup.DecodeWithoutAmp | src/backend/exporter.js:151-159 | Entity decoding leaves text without '&' unchanged. |
| Markup.StripTagsLeavesNoTag | src/backend/exporter.js:161-163 | After `stripTags` no `<…>` tag is left. |
| Markup.StripKeepsNoGt | src/backend/exporter.js:161-163 | Stripping tags adds no '>'. |
| Markup.StripTagsIdempotent | src/backend/exporter.js:161-163 | Stripping twice is stripping once. |
| Markup.StripTagsWithoutLt | src/backend/exporter.js:161-163 | Text without '<' is unchanged. |
| Markup.NbspToSpace | src/backend/exporter.js:173 | No non-breaking space is left. |
| Markup.HtmlToPlainText | src/backend/exporter.js:165-174 | The plain text is trimmed and has no non-breaking space. |
| Markup.BrTagMatches | src/backend/exporter.js:171 | `/<br\s*\/?>/i` takes a whole `<br>` tag (any case, white space, then `>` or `/>`), whatever follows it. |
| Markup.BrReplaced | src/backend/exporter.js:171 | After text without '<', a `<br>` tag becomes one '\n' and the global replacement goes on after the tag. |
| Markup.BrCanReappear | src/backend/exporter.js:171 | The replacement does not rescan its output, and `\s` takes the '\n' it writes: `<br` + tag + `>` becomes `<br\n>`, itself a `<br>` tag. |
| Markup.PlainTextBreak | src/backend/exporter.js:165-174 | Plain text (no '<', '&' or non-breaking space) around one `<br>` tag becomes the two texts joined by '\n', then trimmed. |
| Markup.LastFirst | src/backend/exporter.js:272 | The backtracking search returns only a result found at one of the candidate positions. |
| Markup.LastFirstIs | src/backend/exporter.js:272 | Backtracking picks the last candidate position that succeeds. |
| Markup.PageFromClass | src/backend/exporter.js:272 | A match after `class="` captures text without `</div>`. |
| Markup.PageContentAt | src/backend/exporter.js:272 | The lazy capture stops at the first `</div>`. |
| Markup.ExtractPageContent | src/backend/exporter.js:271-274 | The result is either the input or a capture without `</div>`. |
| Markup.ExtractFromWrapper | src/backend/exporter.js:271-274 | Unwrapping the page wrapper around HTML without `</div>` gives that HTML back. |
| Markup.ExtractWithoutDiv | src/backend/exporter.js:271-274 | Text in which no `<div` starts (in any case) is returned unchanged. |
| Markup.FixBrokenLists | src/backend/exporter.js:277-292 | The repaired HTML is trimmed. |
| Markup.NoLtUntouched | src/backend/exporter.js:280-290 | A pattern that can match only at '<' leaves text without '<' unchanged. |
| Markup.FixBrokenListsWithoutLt | src/backend/exporter.js:277-292 | Every repair pattern starts with '<', so text without '<' is only trimmed. |
| Screenplay.GapAt | src/backend/exporter.js:320 | The gap pattern matches a `</div>`, then white space only, then a following `<div`. |
| Screenplay.GapAtComplete | src/backend/exporter.js:320 | Wherever that shape occurs, the gap matches all of the white space. |
| Strings.SkipWsIs | src/backend/exporter.js:320 | The white-space run ends at the first non-white-space character. |
| Screenplay.WordEnd | src/backend/exporter.js:305 | The end of a run of non-white-space characters. |
| Screenplay.Words | src/backend/exporter.js:305 | The class names are non-empty and contain no white space. |
| Screenplay.FirstKnownIs | src/backend/exporter.js:307-308 | `find` returns a known class exactly when there is one, and then the first one. |
| Screenplay.FirstClassDecides | src/backend/exporter.js:308 | Classes are examined in attribute order; the first known one decides. |
| Screenplay.StageDirectionIsAction | src/backend/exporter.js:307-308 | A stage-direction paragraph is not a known class, so it is exported as action. |
| Screenplay.MakeBlockMeaning | src/backend/exporter.js:309-312 | A gap gives a block with no text. Any other kind gives its trimmed non-empty text, or no block when that text is blank. |
| Screenplay.BlockOfMeaning | src/backend/exporter.js:305-312 | An element's block has the type of its first known class. Its text is the trimmed, decoded, untagged inner HTML. A blank non-gap element gives no block. |
| Screenplay.ParseSceneBlocks | src/backend/exporter.js:297-315 | The `re.exec` loop gives the blocks of every match in order. |
| Screenplay.LayoutGeometry | src/backend/exporter.js:326-370 | Every block lies inside the content area. Centred columns have equal slack on both sides, and each type has its column width. |
| Screenplay.LayoutCasing | src/backend/exporter.js:333-370 | Headings, cues and transitions are upper-cased. Dialogue and action keep their case. Parentheticals are wrapped in parentheses. |
| Screenplay.ParentheticalDoubled | src/backend/exporter.js:355 | A parenthetical already in parentheses prints doubled. |
| Screenplay.LayoutFaces | src/backend/exporter.js:333-370 | Bold type and alignment per block type. |
| Export.LooksJsonMeaning | src/backend/exporter.js:957 | `/^\s*[\[{]/` holds exactly when the first non-blank character opens an array or an object. |
| Export.RenderBody | src/backend/exporter.js:970-985 | The branch that draws a section's body (scene, timeline, JSON records, rich text) equals the specification of that body. |
| Export.Footers | src/backend/exporter.js:996 | One footer for each page, numbered from 1. |
| Export.SectionsSnoc | src/backend/exporter.js:952-987 | One more section either extends the drawing, is skipped, or stops the export on its error. |
| Export.ExportSections | src/backend/exporter.js:950-987 | The section loop's commands match the specification. `wroteAnything` is set exactly when some section was exported. |
| Export.ErrStays | src/backend/exporter.js:952-987 | Once a section fails, the whole export fails with that error. |
| Export.ExportProject | src/backend/exporter.js:919-1003 | A format other than "pdf" is refused. Otherwise the result matches the specification of the project export. |
| Export.SectionPdf | src/backend/exporter.js:1008-1075 | A missing section file gives its error. A successful export has one footer per page and at least one page. |
| Export.HeadingBreaks | src/backend/exporter.js:962-968 | Each section heading starts a new page. |
| Export.SectionsPages | src/backend/exporter.js:952-987 | Every exported section adds a page and draws at least its heading. |
| Export.ProjectFooters | src/backend/exporter.js:989-996 | A successful export has at least one page, and numbers every page from 1 with the label's page word. |
| Export.NothingPageWhenAllSkipped | src/backend/exporter.js:989-994 | The "no content" page is drawn exactly when every section was skipped, and then it is all that is drawn. |
| Export.AllSkipped | src/backend/exporter.js:954-960 | No section was exported exactly when every section was skipped. |
| Export.NoneExportedEmpty | src/backend/exporter.js:952-987 | When nothing was exported, the loop drew nothing. |
| Export.SingleSectionAgrees | src/backend/exporter.js:1047-1068 | Exporting one section that is not skipped draws exactly what the project export draws for that section alone, and fails with the same error. |
| Records.KeepMeaning | src/backend/exporter.js:660-670 | The conditional pushes give one line per element that produces one, in element order. |
| Records.BlockLines | src/backend/exporter.js:658 | Each record's lines in order. |
| Records.BlocksMeaning | src/backend/exporter.js:658-678 | The `forEach` succeeds exactly when every record's block does. It then lays the blocks end to end in array order. |
| Records.PushBlocks | src/backend/exporter.js:658-678 | The push loop equals that specification. |
| Records.BlocksErr | src/backend/exporter.js:658-678 | The first failing record aborts the whole formatter. |
| Records.TextMeaning | src/backend/exporter.js:652-680 | The formatter's text exists exactly when every block does; it is then their lines joined by newlines. |
| Records.FormatWith | src/backend/exporter.js:652-680 | The formatter loop equals that specification. |
| Records.CharacterBlock | src/backend/exporter.js:659-677 | A `null` character throws. Otherwise the block starts with the numbered header. |
| Records.FormatCharacters | src/backend/exporter.js:652-680 | An unparsable or empty array gives "". Otherwise the text is the characters' blocks. |
| Records.CharacterFieldsPresent | src/backend/exporter.js:660-670 | The block has one labelled line per truthy field, in the fixed field order, with the field's separator. |
| Records.CharacterCustomsPresent | src/backend/exporter.js:671-677 | One line per custom field with a non-blank value, titled by its upper-cased title or by the custom label. |
| Records.CharactersInOrder | src/backend/exporter.js:652-680 | The text exists exactly when no record is `null`. It is then the blocks in order, the i-th numbered i+1. |
| Records.BeatBlock | src/backend/exporter.js:790-819 | A `null` beat throws (at `beat.customFields`). Otherwise the block starts with the numbered header. |
| Records.FormatBeats | src/backend/exporter.js:782-822 | An unparsable or empty array gives "". Otherwise the text is the beats' blocks. |
| Records.BeatFieldsPresent | src/backend/exporter.js:791-810 | One labelled line per field whose trimmed value is non-empty, in the fixed order. |
| Records.BeatCustomsPresent | src/backend/exporter.js:812-818 | One line per custom field whose trimmed value is non-empty; the value is pushed trimmed. |
| Records.BeatsInOrder | src/backend/exporter.js:782-822 | The text exists exactly when no beat is `null`, and is then the blocks in order. |
| Records.BibleLang | src/backend/exporter.js:731-742 | The language is 'it' or 'en'. An Italian or English label language is used as it is. |
| Records.FindLabel | src/backend/exporter.js:765-767 | The first locale entry whose key or text equals the title, ignoring case, or none. |
| Records.Translate | src/backend/exporter.js:765-771 | Without a matching entry the title stays. With one, it becomes the first match's text unless that entry's key is empty. |
| Records.BibleBlock | src/backend/exporter.js:759-775 | A section with neither title nor content gives nothing. Otherwise it gives a header, plus one content line when there is content. |
| Records.FormatBible | src/backend/exporter.js:725-778 | An unparsable or empty array gives "". Otherwise the text matches the bible specification. |
| Records.FormatTimeline | src/backend/exporter.js:706-723 | An unparsable or empty array gives "". Otherwise the text matches the timeline specification. |
| Records.SortEventsOrder | src/backend/exporter.js:710-713 | The sorted events are a permutation, ordered by ordering. Events with equal orderings keep the stackPos order. |
| Inline.RoundHundredths | src/backend/exporter.js:380 | `Math.round(x*100)/100` is within half a hundredth of x. |
| Inline.FontPt | src/backend/exporter.js:380 | For whole pixels, the point size is exactly 0.75 times the pixels. |
| Inline.FontSizePx | src/backend/exporter.js:381-387 | The three listed size levels agree with the general rule 16 + 2(n-3). |
| Inline.InlineSegments | src/backend/exporter.js:389-424 | The loop over the split parts computes the specification's segments. |
| Inline.WalkFlags | src/backend/exporter.js:413-418 | Each bold, italic or underline flag is set by the last on or off marker seen for it. |
| Inline.WalkSizes | src/backend/exporter.js:419-420 | The saved sizes are the sizes of the size tags still open. |
| Inline.WalkSegs | src/backend/exporter.js:411-422 | The loop's segments equal a reference definition, which pushes one segment per text part with the flags and size in force there. |
| Inline.InlineSegsMeaning | src/backend/exporter.js:404-424 | The segments are exactly the reference segments of the split parts. |
| Inline.BaseSizeIs12 | src/backend/exporter.js:409 | With no size tag open the text is 12pt. |
| Inline.SizeOffRestores | src/backend/exporter.js:419-420 | A size tag closed right after it opens restores the size in force before it. |
| Inline.SizeOffOnEmpty | src/backend/exporter.js:420 | A close with nothing open falls back to the 16px base. |
| Inline.SegsNonEmpty | src/backend/exporter.js:412 | No segment has empty text. |
| Inline.SegTextsAreGaps | src/backend/exporter.js:411-422 | Joined, the segment texts are the text parts of the split. |
| Inline.InlineSegsText | src/backend/exporter.js:389-424 | The joined segment texts are the stripped, decoded text with every marker removed. |
| Inline.FirstDigit | src/backend/exporter.js:419 | `p.match(/\d/)[0]` is a single digit. |
| Inline.MarkerNeedsBrackets | src/backend/exporter.js:404 | A split marker starts with "[[". |
| Inline.SinglePart | src/backend/exporter.js:404 | Text whose only "[[" is at its start, and is not a marker, splits into one part. |
| Inline.PlainParts | src/backend/exporter.js:389-404 | Plain text that is no marker and holds none is a single text part. |
| Inline.SizePrefixAsWritten | src/backend/exporter.js:419 | As written, any part starting with `[[SIZE_ON:` is taken as a size tag. It fails when it has no digit; otherwise it uses its first digit. |
| Inline.FirstDigitIs | src/backend/exporter.js:419 | The first digit is the one after the leading run of non-digits. |
| Inline.StrayTagThrowsAsWritten | src/backend/exporter.js:419 | As written, a text part that starts like a size tag but holds no digit makes `inlineSegments` throw. |
| Inline.StrayTagSwallowedAsWritten | src/backend/exporter.js:419 | As written, a text part such as "[[SIZE_ON:12]]" is swallowed as a size change and its text is lost. |
| Inline.StrayTagIsText | src/backend/exporter.js:404-421 | The corrected loop dispatches on what the split found. Both stray parts are then plain 12pt text. |
| Inline.FontForDistinct | src/backend/exporter.js:426-437 | Different bold and italic flags give different faces, and the prefix chooses the family. |
| RichText.ContainerName | src/backend/exporter.js:538 | The tags the block pattern accepts (h1 to h3, p, div, ul and ol) are one to three characters long. |
| RichText.ContainerAt | src/backend/exporter.js:538 | A container match is longer than its captured inner HTML. |
| RichText.SegmentPlaces | src/backend/exporter.js:537-562 | Blocks keep source order. Non-blank loose text between containers becomes a trimmed `div` block. Each container becomes a block of its forced type. |
| RichText.SegmentOnlyFromPieces | src/backend/exporter.js:537-562 | Every block comes from one stretch of loose text or from one container. |
| RichText.LooseTextOutsideContainers | src/backend/exporter.js:543-561 | The loose text is what remains once every container is cut out. |
| RichText.NestedOrderedWins | src/backend/exporter.js:551-555 | A container whose inner HTML opens an `ol` is an ordered list, whatever its own tag. |
| RichText.ListItemAt | src/backend/exporter.js:572 | An item match is longer than its inner HTML. |
| RichText.NumberFromIndex | src/backend/exporter.js:577-579 | Ordered items are numbered consecutively, and each keeps its text. |
| RichText.ListItemsNumbered | src/backend/exporter.js:570-582 | The i-th drawn item is the i-th non-blank item, labelled i+1 in an ordered list and "•" otherwise. |
| RichText.ItemTextsTrimmed | src/backend/exporter.js:575-576 | Every drawn item has trimmed, non-empty text. |
| RichText.NumberItems | src/backend/exporter.js:570-580 | The item loop equals that specification. |
| RichText.NumberKept | src/backend/exporter.js:576-579 | The counter advances once per kept item, so the k-th kept item is labelled k. |
| RichText.DrawSegsPrints | src/backend/exporter.js:444-457 | `drawSegs` prints the segments' text in order. |
| RichText.DrawSegsContinued | src/backend/exporter.js:445-456 | Every segment but the last continues the line, then the line is closed. |
| RichText.PlainBlockPrints | src/backend/exporter.js:617-620 | A plain block prints exactly its untagged, decoded text with the inline markers removed, under the corrected inline dispatch of the Findings table. |
| RichText.SubListAt | src/backend/exporter.js:476 | A nested-list match is longer than its inner HTML. |
| RichText.RenderListShaped | src/backend/exporter.js:462-508 | A nested list never breaks the page, and is indented at least as far as its depth. |
| RichText.RenderBlock | src/backend/exporter.js:566-622 | The block loop's body equals the block's specification. |
| RichText.RenderRichTextPage | src/backend/exporter.js:515-625 | The page renderer equals its specification. |
| RichText.RenderBlocks | src/backend/exporter.js:566-622 | The block loop equals the blocks' commands in order. |
| RichText.PageListMeaning | src/backend/exporter.js:630-634 | There is at least one page. Without page-content divs the section is one page, itself. Otherwise the first page is what `extractPageContent` finds. |
| RichText.RenderRichTextPages | src/backend/exporter.js:628-640 | The page renderer equals its specification. |
| RichText.RenderPages | src/backend/exporter.js:636-639 | A new page comes before every page but the first. |
| RichText.BlockNoBreak | src/backend/exporter.js:566-622 | A block never breaks the page. |
| RichText.PagesBreaks | src/backend/exporter.js:636-639 | n pages give n-1 page breaks. |
| RichText.PageBreaksBetweenPages | src/backend/exporter.js:628-640 | A section has page breaks between its pages and nowhere else. |
| Scan.ReplaceNoMatch | src/backend/exporter.js:280-290 | A global replacement whose pattern matches nowhere leaves the text unchanged. |
| Scan.FindFrom | src/backend/exporter.js:542 | `re.exec` from `lastIndex` finds the first position at or after it where the pattern matches, or reports that there is none. |
| Scan.PiecesCover | src/backend/exporter.js:404 | The split pieces cover the text exactly and in order: nothing is lost or repeated. |
| Scan.ReplaceSkip | src/backend/exporter.js:280-290 | Text before the first match is copied unchanged. |
| Scan.GapsAreErased | src/backend/exporter.js:478 | Joining the text between matches is the same as replacing every match by ''. |
| Scan.PiecesFrom | src/backend/exporter.js:542-563 | One round of `re.exec` from `lastIndex` yields the gap before the next match, the match, and the pieces after it. |
| Scan.CollectRound | src/backend/exporter.js:542-563 | One round of the loop emits the gap's output, then the match's output, then the rest. |
| Scan.ExecLoop | src/backend/exporter.js:542-566 | The `while ((m = re.exec(s)))` loop passes each gap and each match in order, then the final gap. |
| Scan.CollectSplit | src/backend/exporter.js:542-566 | Each piece's output sits between the outputs of the pieces before it and those after it. |
| Scan.CollectHas | src/backend/exporter.js:542-566 | Something is in the output exactly when some piece emits it. |
| Scan.FoundShorter | src/backend/exporter.js:476-507 | Every capture is shorter than the text, so the recursion over nested lists ends. |
| TimelineRender.ToEvent | src/backend/exporter.js:855-884 | A `null` event is a `TypeError`. An event's title and description are trimmed. |
| TimelineRender.MapAll | src/backend/exporter.js:855 | Applying the conversion to every element gives each element's result, or fails when some element fails. |
| TimelineRender.ToEvents | src/backend/exporter.js:855-859 | The events exist exactly when every element converts, and then they are in array order. |
| TimelineRender.Grouped | src/backend/exporter.js:854-859 | There is one group per ordering that occurs. |
| TimelineRender.GroupEvents | src/backend/exporter.js:854-859 | The `forEach` that fills `grouped` equals the specification. |
| TimelineRender.GroupedSnoc | src/backend/exporter.js:857-858 | One more event is appended to its ordering's group, and the group is created if needed. |
| TimelineRender.OrderingsOf | src/backend/exporter.js:856 | The events' orderings, in array order. |
| TimelineRender.GroupKeys | src/backend/exporter.js:861 | The keys are the orderings that occur, in ascending order, each once. |
| TimelineRender.GroupCount | src/backend/exporter.js:861 | There are as many groups as distinct orderings. |
| TimelineRender.ColorHex | src/backend/exporter.js:838-841 | An event has a colour bar exactly when its colour id is one of the eight palette names. |
| TimelineRender.ForEachIndexed | src/backend/exporter.js:864 | The indexed `forEach` concatenates each element's commands in order. |
| TimelineRender.RenderTimeline | src/backend/exporter.js:843-914 | An unparsable or empty array draws nothing. Otherwise the commands match the timeline specification. |
| TimelineRender.EventShows | src/backend/exporter.js:869-907 | An event draws one header: its number and title, or the fallback for an empty title. It draws no rule, and a bar exactly when it has a palette colour. |
| TimelineRender.IndexedHeaders | src/backend/exporter.js:890-907 | In a group of several events, consecutive events are numbered k.1, k.2, …. |
| TimelineRender.GroupShows | src/backend/exporter.js:864-912 | The k-th group shows one header per event, in order. A lone event is "k."; otherwise the events are "k.1", "k.2", …, with the "Event" fallback for an empty title. The group draws one rule. |
| TimelineRender.IndexedRules | src/backend/exporter.js:910-911 | Groups laid end to end draw one rule each. |
| TimelineRender.GroupsNonEmpty | src/backend/exporter.js:857-858 | Every group that exists has events: those of its ordering. |
| TimelineRender.RulesPerOrdering | src/backend/exporter.js:861-913 | One rule per distinct ordering. |
| TimelineRender.GroupOrder | src/backend/exporter.js:861-866 | The i-th group drawn holds the events of the i-th smallest ordering, sorted by stack position. It is a permutation of them, and events with equal stack positions keep array order. |
| Projects.ValidTypes | src/backend/projectManager.js:11-52 | Exactly three types are valid: screenplay, book and theatre. Each of them has the outline section. |
| Projects.TypeIsWord | src/backend/projectManager.js:88-90 | Every valid type is a non-empty run of ASCII letters, so the id pattern can read it back. |
| Projects.NormalizeType | src/backend/projectManager.js:155 | The type used is always valid. It is the given type when that is valid, and the screenplay type otherwise. |
| Projects.LetterRunStart | src/backend/projectManager.js:69 | Where the trailing run of letters of `([a-z]+)$` begins. Nothing before it is a letter. |
| Projects.SplitUnique | src/backend/projectManager.js:69 | The greedy `(.*)__` can only split two characters before the trailing letter run. |
| Projects.ParseIdMeaning | src/backend/projectManager.js:68-73 | A type is found exactly when the pattern matches. The display name is then the text before `__` and the type the rest. Otherwise the display name is the whole id. |
| Projects.ParseComposed | src/backend/projectManager.js:60-73 | A composed id parses back to the trimmed name and the type, provided the name has no line break. |
| Projects.DisplayNameMeaning | src/backend/projectManager.js:239-240 | The shown name is the parsed display name. A legacy id is shown as it is. |
| Projects.ProjectType | src/backend/projectManager.js:258-266 | The type is always valid. It is the trimmed type file when that is a valid type, and the screenplay type otherwise, including when there is no file. |
| Projects.EnsureSectionsMeaning | src/backend/projectManager.js:95-116 | Afterwards every section file of the type exists. Existing files keep their content. The old outline file moves to the new name when only it exists. Any new file is empty. |
| Projects.NoOldOutlineSection | src/backend/projectManager.js:11-52 | No type lists the old outline name, so the migration never collides with a section. |
| Projects.EnsureSectionsIdempotent | src/backend/projectManager.js:95-116 | Running it twice has the effect of running it once. |
| Projects.CreateMeaning | src/backend/projectManager.js:154-186 | Creation is refused exactly when the name is taken for the normalised type, either by a new-style id or by a legacy folder with that type. Otherwise it adds exactly one folder. That folder has the composed id, reads back the normalised type and holds every section file. Nothing else changes. |
| Projects.NewFolder | src/backend/projectManager.js:179-183 | The new folder's type file holds the type, and every section file is present. |
| Projects.CreateTwiceRefused | src/backend/projectManager.js:162-165 | Creating the same project twice is refused the second time. |
| Projects.RenameMeaning | src/backend/projectManager.js:196-224 | A missing folder is an error. Otherwise the rename is refused exactly when the new name is taken for the folder's type. On success the old id is gone and the new id holds the same folder, so the type is kept. Every other entry is unchanged. |
| Projects.RenameToSelfRefused | src/backend/projectManager.js:207-210 | Renaming a folder to its own name and type is always refused. |
| Projects.ListProjects | src/backend/projectManager.js:227-255 | The loop collects a row for each folder entry, sorts the rows newest first and drops the time. |
| Projects.ListedMeaning | src/backend/projectManager.js:232-247 | A row is listed exactly when its id is an entry that is a folder. Its name and type come from the folder. |
| Projects.ListedDistinct | src/backend/projectManager.js:232-247 | Distinct entries give distinct rows. |
| Projects.ListOrder | src/backend/projectManager.js:253 | The listing is sorted by modification time, newest first, and holds the same rows. |
| Projects.ListTiesKeepOrder | src/backend/projectManager.js:253 | Folders with equal times keep `readdir`'s order, because the sort is stable. |
| Projects.CreatedIsListed | src/backend/projectManager.js:154-186 | After a create, the listing shows the new folder with its trimmed name and its type. |
| Projects.DeleteCreated | src/backend/projectManager.js:189-193 | Deleting a project just created gives the old projects folder back. |
| Versions.KeepShape | src/backend/versionsManager.js:15 | `[^\w\s-]` removal leaves only word characters, white space and dashes. A text of those is left as it is. |
| Versions.DashRunsWordOut | src/backend/versionsManager.js:17 | After `\s+` becomes `-`, a text of kept characters holds only word characters and dashes. |
| Versions.Take | src/backend/versionsManager.js:18 | `slice(0, n)` is a prefix of at most n characters. A text that is short enough is returned whole. |
| Versions.SlugifyShape | src/backend/versionsManager.js:12-20 | Every slug is at most 60 characters long and uses only `a`-`z`, `0`-`9`, `_` and `-`. |
| Versions.TrimKept | src/backend/versionsManager.js:16 | Trimming keeps only characters that were there. |
| Versions.LowerSlug | src/backend/versionsManager.js:18-19 | Lower-casing at most 60 word characters and dashes gives a slug. |
| Versions.SlugLower | src/backend/versionsManager.js:19 | Lower-casing leaves a slug unchanged. |
| Versions.DashRunsSplit | src/backend/versionsManager.js:17 | A run of white space between two other characters becomes exactly one dash. |
| Versions.SlugifyIdempotent | src/backend/versionsManager.js:12-20 | Slugifying a slug that NFKD leaves unchanged gives the same slug. |
| Versions.SlugFixed | src/backend/versionsManager.js:15-19 | Every step after NFKD leaves a slug unchanged. |
| Versions.VersionFile | src/backend/versionsManager.js:25 | Every snapshot file name ends in `.json`. |
| Versions.DashesToSpaces | src/backend/versionsManager.js:31 | `replace(/-/g, ' ')` turns each dash into a space, keeps every other character and keeps the length. |
| Versions.ParseVersionIdMeaning | src/backend/versionsManager.js:28-32 | A timestamp is found exactly when the id matches `^(\d{13})(?:__([^.]+))?\.json$`. It is then the value of the 13 digits, and the label is the second group with its dashes turned into spaces. Otherwise the label is empty. |
| Versions.MatchParts | src/backend/versionsManager.js:29 | A matching id ends in `.json`. Between the digits and the extension there is either nothing or `__` and the group. |
| Versions.ParseVersionFile | src/backend/versionsManager.js:22-32 | For a 13-digit time, a file name built from a slug parses back to the time and to the slug with spaces for dashes. |
| Versions.ParseMade | src/backend/versionsManager.js:22-32 | For a 13-digit time, the id `makeVersionId` builds parses back to the time and to the label's slug with spaces for dashes. |
| Versions.KilobytesMeaning | src/backend/versionsManager.js:77 | The size shown is at least 1 KB. Otherwise it is the nearest whole number of kilobytes, with halves rounded up. |
| Versions.ListVersions | src/backend/versionsManager.js:61-85 | The loop collects one row per `.json` entry that `stat` answers for, and sorts the rows newest first. |
| Versions.ListedVersionsMeaning | src/backend/versionsManager.js:66-81 | A row is listed exactly when its name is a `.json` entry that `stat` answers for, and then it is built from the name and the stat. |
| Versions.VersionOrder | src/backend/versionsManager.js:83 | The list is newest first and holds exactly the collected rows. |
| Versions.UnmatchedUsesMtime | src/backend/versionsManager.js:71-75 | A name that does not follow the pattern is dated by its modification time and has an empty label. |
| Versions.RestoreOwnSnapshot | src/backend/versionsManager.js:35-59 | Writing back a snapshot of the project's own sections leaves the project unchanged. |
| Versions.ReadAfterWrite | src/backend/versionsManager.js:51-59 | After a restore, reading the sections gives the restored texts. Sections the snapshot lacks keep their files. |
| Versions.CreateVersion | src/backend/versionsManager.js:87-108 | Creating a snapshot adds exactly the id made from the time and the label. |
| Versions.CreatedIsListed | src/backend/versionsManager.js:61-108 | A snapshot taken at a 13-digit time is listed with that time and with its label's slug, dashes shown as spaces. |
| Versions.FirstFree | src/backend/versionsManager.js:139-147 | The collision loop ends on a free name. That is the first name when it is free, and otherwise the first free candidate from 2 on. |
| Versions.RenameVersionAsWritten | src/backend/versionsManager.js:128-154 | As written: a missing snapshot is an error. Otherwise the snapshot moves, with the new label, to the plain target when that is free, and else (provided some candidate is free) to the first free candidate; nothing else changes. |
| Versions.RenameLoopStuck | src/backend/versionsManager.js:138-147 | With a 60-letter label every candidate is the same id, because the counter falls past the 60-character cut. Once that id is taken, no candidate is ever free. |
| Versions.LongSlug | src/backend/versionsManager.js:12-20 | The slug of an ASCII text of slug characters that starts with the 60-letter label is that label. |
| Versions.SlugOfClean | src/backend/versionsManager.js:15-19 | A text of slug characters that NFKD leaves unchanged is only cut and lower-cased. |
| Versions.FixedCandidateInjective | src/backend/versionsManager.js:142 | With the counter placed after the cut, distinct counters give distinct candidates. |
| Versions.SomeFree | src/backend/versionsManager.js:141 | A finite folder cannot hold every one of infinitely many distinct names, so some candidate is free. |
| Versions.RenameVersion | src/backend/versionsManager.js:128-154 | Corrected rename: it always ends. A missing snapshot is an error. Otherwise the snapshot moves to the plain target when that is free, else to the first free numbered candidate, with the new label, and nothing else changes. |
| Versions.RestoreVersion | src/backend/versionsManager.js:110-120 | A missing snapshot is an error. Otherwise every section of the snapshot reads back as stored, and sections the snapshot lacks keep their text. |
| Versions.RestoreCreated | src/backend/versionsManager.js:87-120 | Restoring the snapshot just taken leaves the project unchanged. |
| Versions.DeleteCreated | src/backend/versionsManager.js:122-126 | Deleting the snapshot just taken under a fresh id gives the old list back. |
| AppHelpers.StripForbidden | src/main.js:97 | No forbidden character (`<>:"/\`, the bar, `?`, `*` or a control character) is left. A name without one is returned as it is. |
| AppHelpers.DropTrailing | src/main.js:99 | `replace(/[. ]+$/, '')` keeps a prefix that does not end in a dot or a space. Everything it drops is dots and spaces. |
| AppHelpers.CollapseSpaces | src/main.js:98 | `\s+` to a single space leaves single spaces only and adds no forbidden character. |
| AppHelpers.SanitizeShape | src/main.js:95-101 | Whatever the input, the result has no forbidden character and no white space but single spaces. It neither starts nor ends with a space, and does not end with a dot. |
| AppHelpers.SpacedFixed | src/main.js:98 | A single-spaced text that does not end in white space is left as it is by the collapse. |
| AppHelpers.SanitizedFixed | src/main.js:95-101 | A name of that shape is its own sanitised form. |
| AppHelpers.SanitizeIdempotent | src/main.js:95-101 | Sanitising twice is sanitising once. |
| AppHelpers.SanitizeFixedIff | src/main.js:95-101 | The names that sanitising leaves unchanged are exactly those of that shape. |
| AppHelpers.Pad2Digits | src/main.js:103 | `padStart(2, '0')` of a number below 100 is two digits that read back as the number. |
| AppHelpers.IsoStampLayout | src/main.js:102-110 | For a four-digit year the stamp is `YYYY-MM-DD HH.MM`: sixteen characters whose digit groups read back as the year, the month counted from 1, the day, the hour and the minute. |
| AppHelpers.SpellLanguagesMeaning | src/main.js:71-90 | The spell checker gets the Italian dictionary exactly when the lower-cased language starts with "it", and the English one otherwise. |
| AppHelpers.ExportLangMeaning | src/main.js:112 | The export labels are English exactly when the lower-cased language starts with "en". A missing language gives Italian. |
| AppHelpers.PrefixesExclusive | src/main.js:76-80 | No lower-cased name starts with both "it" and "en". |
| AppHelpers.LanguagesAgree | src/main.js:76-80 | For Italian and English names the spell checker and the export labels agree. |
| AppHelpers.DefaultsDiffer | src/main.js:76-80 | For any other name, including a missing one, the spell checker is English but the export labels are Italian. |
| AppHelpers.BuildExportLabelsMeaning | src/main.js:111-147 | The labels use the chosen language's table for the same fourteen sections, and the page word and notices of that language. Only an English book's outline differs from the table: it is 'Chapter Breakdown'. |
| AppHelpers.ItalianLabelsMatchEditor | src/main.js:114-121 | The Italian table is the one the editor falls back to for its sidebar titles. |
| AppHelpers.ExporterKeepsMainLabels | src/backend/exporter.js:140-149 | When the exporter merges the main process's labels, every one is kept: the language, the page word and every section title. Those titles cover the exporter's own table, so none of its built-in titles shows through. |
| AppHelpers.MainTitlesCover | src/main.js:113-130 | The main process names every section of the exporter's tables. |
| AppHelpers.MergeMainLabels | src/backend/exporter.js:140-149 | The exporter starts from the table of the language it is given, then applies the type's overrides and then the given labels. |
| AppHelpers.BookOutlineKept | src/backend/exporter.js:130-137 | The type's overrides change nothing among the labels the main process built. |
| AppHelpers.ClampZoom | src/main.js:40-44 | The factor is held to [0.8, 2.0]. Inside that range it is unchanged. |
| AppHelpers.ClampZoomLaws | src/main.js:42-44 | Clamping twice is clamping once, and a larger factor never clamps to a smaller one. |
| AppHelpers.WithPdf | src/main.js:156 | The result ends in `.pdf` and starts with the path, at most four characters longer. It equals the path exactly when the path already ends in `.pdf`. |
| AppHelpers.WithPdfIdempotent | src/main.js:156 | Adding the suffix twice is adding it once. |
| AppHelpers.SavePath | src/main.js:148-157 | There is no path exactly when the dialog was cancelled or its path is empty. Otherwise the path ends in `.pdf` and starts with the chosen path. |
| I18n.Step | src/frontend/i18n.js:12 | One step of the `reduce` gives something only when the value so far is truthy and the property is neither null nor missing. |
| I18n.WalkMissing | src/frontend/i18n.js:12 | Once a step finds nothing, the rest of the walk finds nothing. |
| I18n.WalkAppend | src/frontend/i18n.js:11-13 | Walking two key lists one after the other is walking them joined. |
| I18n.WalkStops | src/frontend/i18n.js:11-13 | A missing or null step anywhere on the path makes the lookup undefined. |
| I18n.GetPath | src/frontend/i18n.js:11-13 | `get(obj, a + '.' + b)` is `get(get(obj, a), b)`. |
| I18n.WalkNotNull | src/frontend/i18n.js:12 | A lookup never ends on null. |
| I18n.WordEnd | src/frontend/i18n.js:17 | `\w+` extends over the whole run of word characters. |
| I18n.PlaceholderHead | src/frontend/i18n.js:17 | A placeholder `{k}` at the head of the text is matched whole. |
| I18n.InterpolateHead | src/frontend/i18n.js:15-18 | A placeholder at the head is replaced by the parameter's text, or kept when the parameter is missing or null. The scan goes on after it and never looks at the replacement again. |
| I18n.InterpolateNoParams | src/frontend/i18n.js:16 | Without parameters the string comes back unchanged. |
| I18n.InterpolateUnset | src/frontend/i18n.js:15-18 | When no placeholder names a parameter that is set, every placeholder is kept verbatim. |
| I18n.ReplaceEcho | src/frontend/i18n.js:17 | A replacement that puts back what it matched changes nothing. |
| I18n.InterpolateNoBrace | src/frontend/i18n.js:15-18 | Text without '{' is never touched. |
| I18n.TranslateEcho | src/frontend/i18n.js:54-59 | `t` returns the key when the lookup is not a string. Otherwise it returns the string, interpolated. |
| I18n.SepEnd | src/frontend/i18n.js:70 | The separator pattern extends over the whole run of bars and semicolons. |
| I18n.PairOf | src/frontend/i18n.js:71-75 | Each piece gives at most one pair. |
| I18n.PairAt | src/frontend/i18n.js:73-75 | Both sides are trimmed, and a pair exists only when neither side is empty. |
| I18n.GapsHaveNoSep | src/frontend/i18n.js:70 | The pieces between separator runs hold no separator. |
| I18n.ParsedPairsGood | src/frontend/i18n.js:67-78 | Every parsed pair has an attribute that is trimmed, non-empty and without ':', and a key that is trimmed and non-empty. Neither holds a separator. |
| I18n.ParseOnePair | src/frontend/i18n.js:67-78 | A spec holding one pair `attr:key` parses to exactly that pair. |
| I18n.ColonAt | src/frontend/i18n.js:71-74 | In `a:b` with no ':' in `a`, the first ':' is the one between them. |
| I18n.NoSepOnePiece | src/frontend/i18n.js:70 | A text without a separator is one piece. |
| I18n.Engine.constructor | src/frontend/i18n.js:5-9 | The engine starts in Italian with an empty dictionary, and Italian is the fallback. |
| I18n.Engine.SetLang | src/frontend/i18n.js:36-52 | When the dictionary loads, language and dictionary switch to it. Otherwise, if the language is not the fallback and the fallback loads, they switch to the fallback. Otherwise nothing changes, and the call fails only when the fallback was needed and did not load. |
| EditorText.TMeaning | src/frontend/editor.js:16-21 | `T` gives the dictionary's string at the key when there is one other than the key itself, and the fallback otherwise, including when the engine is absent. |
| EditorText.LabelWithoutEngine | src/frontend/editor.js:224-262 | Without the engine every section shows its Italian fallback title, or its id with a capital first letter. |
| EditorText.EnglishBookOutline | src/frontend/editor.js:224-262 | An English book's outline is 'Chapter Breakdown' unless the dictionary has its own title for it. |
| EditorText.LabelIgnoresLanguage | src/frontend/editor.js:224-262 | Only a book's outline depends on the language. Every other label is the same in every language. |
| TimelineBoard.Ords | src/frontend/editor.js:1442 | The orderings, in array order. |
| TimelineBoard.Keys | src/frontend/editor.js:1440-1446 | The board's columns are the distinct orderings in ascending order: each event's ordering is one, and every one belongs to some event. |
| TimelineBoard.IndexOf | src/frontend/editor.js:1446 | The position of an ordering among the columns. |
| TimelineBoard.IndexOfIncreasing | src/frontend/editor.js:1446 | Positions among the columns compare as the orderings do. |
| TimelineBoard.Normalized | src/frontend/editor.js:1439-1452 | Normalising keeps the number of events. |
| TimelineBoard.NormalizedOrder | src/frontend/editor.js:1439-1452 | Normalising keeps which column comes first and which events share a column, and changes nothing but orderings. |
| TimelineBoard.NormalizedValues | src/frontend/editor.js:1447-1451 | The new orderings are 10, 20, …, up to ten times the number of columns. The events of the g-th column are exactly those that get 10 (g + 1). |
| TimelineBoard.GroupIdx | src/frontend/editor.js:1454 | The filter gives, in array order, exactly the events of the column. |
| TimelineBoard.Restacked | src/frontend/editor.js:1453-1457 | Restacking keeps the number of events. |
| TimelineBoard.StackOrderFacts | src/frontend/editor.js:1454-1455 | The sorted column lists each of its events exactly once. |
| TimelineBoard.RestackedFrame | src/frontend/editor.js:1453-1457 | Restacking changes only the stack positions of the column's events. |
| TimelineBoard.RestackedPositions | src/frontend/editor.js:1455-1456 | The column's k events get the positions 0 to k-1, each once. The event at place p of the sorted column gets p. |
| TimelineBoard.GroupIdxOrderings | src/frontend/editor.js:1454 | A column's members depend only on the orderings. |
| TimelineBoard.RestackedStacks | src/frontend/editor.js:1453-1457 | Restacking leaves the column stacked and keeps any other stacked column stacked. |
| TimelineBoard.RestackedOrder | src/frontend/editor.js:1455 | A smaller old position stays smaller. |
| TimelineBoard.RestackedAdjacent | src/frontend/editor.js:1455-1456 | When nothing else in the column lies between two events' old positions, the second ends right above the first. |
| TimelineBoard.RestackedTies | src/frontend/editor.js:1455 | Events that shared a position keep their array order, because the sort is stable. |
| TimelineBoard.DropRegionMirror | src/frontend/editor.js:1420-1429 | Mirroring the point left to right swaps the side regions (except that the middle band counts as right) and keeps top and bottom. |
| TimelineBoard.DropRegionFlip | src/frontend/editor.js:1420-1429 | Mirroring the point top to bottom swaps top and bottom and keeps left. |
| TimelineBoard.FindId | src/frontend/editor.js:1695 | `find` gives the first event with the id, or none. |
| TimelineBoard.DropSource | src/frontend/editor.js:1691-1697 | A drop has a source only while a drag is in progress, on an editable board, of another card, for an event that exists. |
| TimelineBoard.Shifted | src/frontend/editor.js:1716-1719 | The shift keeps the number of events. |
| TimelineBoard.Placed | src/frontend/editor.js:1710-1721 | Placing keeps the number of events. |
| TimelineBoard.PlacedAt | src/frontend/editor.js:1710-1721 | The source takes the target's column at the target's position, plus one for a bottom drop. The other events of that column at or above that position move up one place. Everything else is untouched. |
| TimelineBoard.Stacked | src/frontend/editor.js:1709-1724 | A top or bottom drop keeps the number of events. |
| TimelineBoard.Beside | src/frontend/editor.js:1701-1708 | A left or right drop keeps the number of events. |
| TimelineBoard.Dropped | src/frontend/editor.js:1689-1728 | A drop keeps the number of events. |
| TimelineBoard.DroppedKeepsContent | src/frontend/editor.js:1689-1728 | A drop only moves events: ids, titles, descriptions and colours stay where they were. |
| TimelineBoard.BesideLands | src/frontend/editor.js:1701-1708 | After a left (right) drop the source's column comes right before (after) the target's, at stack position 0, and the other events' columns keep their order. |
| TimelineBoard.StackedLands | src/frontend/editor.js:1709-1724 | With unique ids and no shared positions in the target's column, the source ends in the target's column directly above or below the target. No other event changes column. |
| TimelineBoard.StackedColumns | src/frontend/editor.js:1722-1723 | After a top or bottom drop both columns it touched are stacked. |
| TimelineBoard.NewEvent | src/frontend/editor.js:1756-1757 | The new event is blank, at stack position 0, in a column after every existing one (at least 10). |
| TimelineBoard.RestackedAll | src/frontend/editor.js:1456 | The `forEach` over the sorted column gives the restacked events. |
| TimelineBoard.RestackedStep | src/frontend/editor.js:1456 | One step of that `forEach` sets one stack position. |
| TimelineBoard.Board.constructor | src/frontend/editor.js:1439 | The board holds the given events. |
| TimelineBoard.Board.NormalizeOrderings | src/frontend/editor.js:1439-1452 | The loops leave the board normalised. |
| TimelineBoard.Board.Restack | src/frontend/editor.js:1453-1457 | The loop leaves the column restacked. |
| TimelineBoard.Board.Drop | src/frontend/editor.js:1689-1728 | The drop listener leaves the events its specification gives. |
| TimelineBoard.Board.AddEvent | src/frontend/editor.js:1753-1767 | On an editable board the new event is appended. A read-only board is unchanged. |
| Outline.Orderings | src/frontend/editor.js:2756 | The beats' orderings, in array order. |
| Outline.NewBeat | src/frontend/editor.js:2524-2542 | A new beat has an ordering after every existing one (at least 10), the given id, is not collapsed and has every text field, all empty. |
| Outline.SortedOrder | src/frontend/editor.js:2968 | The sorted copy lists every beat exactly once. |
| Outline.Rank | src/frontend/editor.js:2757 | The place of a beat in the sorted list. |
| Outline.Renumbered | src/frontend/editor.js:2967-2971 | Renumbering keeps the number of beats. |
| Outline.InSortedOrder | src/frontend/editor.js:2968 | The sorted list holds every beat. |
| Outline.RenumberedValues | src/frontend/editor.js:2967-2971 | The beat at place p of the sorted list gets 10 (p + 1). All new orderings are multiples of 10 from 10 to 10 n, and nothing but the orderings changes. |
| Outline.RenumberedDistinct | src/frontend/editor.js:2967-2971 | No two beats share an ordering after renumbering. |
| Outline.RenumberedOrder | src/frontend/editor.js:2967-2971 | Renumbering keeps the order: a smaller ordering stays smaller, and equal ones follow array order. |
| Outline.FindInOrder | src/frontend/editor.js:2757 | `findIndex` over the sorted list finds the first beat with the id, or none. |
| Outline.SwapOrderings | src/frontend/editor.js:2760-2763 | The exchange keeps the number of beats. |
| Outline.Moved | src/frontend/editor.js:2754-2788 | A move keeps the number of beats. |
| Outline.SwapSorted | src/frontend/editor.js:2756-2764 | With distinct orderings, exchanging the orderings of neighbours in the sorted list exchanges them in that list and nothing else. |
| Outline.SwapAtSorted | src/frontend/editor.js:2756-2764 | Exchanging neighbours in a sorted list together with their keys keeps it sorted. |
| Outline.MovedUpPlaces | src/frontend/editor.js:2754-2768 | With distinct orderings and ids, the up button moves the beat one place earlier and the one before it one place later. Every other beat keeps its place. |
| Outline.MovedDownPlaces | src/frontend/editor.js:2774-2788 | The down button is the mirror image: the beat moves one place later and the next one earlier. |
| Outline.SwapPlaces | src/frontend/editor.js:2760-2764 | Exchanging the orderings of the neighbours at places p and p + 1 and renumbering exchanges their slots. |
| Outline.BeatList.constructor | src/frontend/editor.js:2967 | The list holds the given beats. |
| Outline.BeatList.NormalizeBeatsOrdering | src/frontend/editor.js:2967-2971 | The `forEach` leaves the beats renumbered. |
| Outline.BeatList.Move | src/frontend/editor.js:2754-2788 | The up and down handlers leave the beats their specification gives. A read-only board, a missing beat and a beat at the end stay put. |
| Outline.RenumberedStep | src/frontend/editor.js:2970 | One step of the `forEach` gives one beat its slot. |
| Outline.RenumberedAll | src/frontend/editor.js:2970 | The whole `forEach` gives the renumbered beats. |
| Cast.RemoveAt | src/frontend/editor.js:1822 | `splice(from, 1)` removes exactly one element. |
| Cast.Moved | src/frontend/editor.js:1820-1824 | `arrayMove` keeps the length. |
| Cast.MovedAt | src/frontend/editor.js:1820-1824 | The moved element lands at `to`. The elements between the two indices shift by one towards the gap, and the rest stay. |
| Cast.MovedMeaning | src/frontend/editor.js:1820-1824 | A move keeps every element, puts the moved one at `to`, and keeps all the others in their relative order. |
| Cast.MoveBack | src/frontend/editor.js:1820-1824 | Moving from `from` to `to` and back restores the array. |
| Cast.ArrayMove | src/frontend/editor.js:1820-1824 | The two `splice` calls, as an in-place shift of the elements between the indices, leave the array moved. Out-of-range or equal indices leave it unchanged. |
| Cast.FindIndex | src/frontend/editor.js:2317 | `findIndex` gives the first card with the id, or -1. |
| Cast.Swapped | src/frontend/editor.js:2319 | The exchange puts each of the two cards in the other's place and leaves the rest. |
| Cast.SwapsKeepCards | src/frontend/editor.js:2315-2336 | Both buttons keep every card. |
| Cast.UpThenDown | src/frontend/editor.js:2315-2336 | Down after up puts the card back. |
| Cast.DownThenUp | src/frontend/editor.js:2315-2336 | Up after down puts the card back, provided the card it passes has another id. |
| Cast.CastList.constructor | src/frontend/editor.js:2317 | The list holds the given cards. |
| Cast.CastList.MoveUp | src/frontend/editor.js:2315-2322 | The up handler swaps the card with the one before it, unless the list is read-only or the card is first or missing. |
| Cast.CastList.MoveDown | src/frontend/editor.js:2329-2336 | The down handler swaps the card with the one after it, unless the list is read-only or the card is last or missing. |
| BibleEdit.DefaultIdsDistinct | src/frontend/editor.js:3010-3033 | There are twenty default sections with distinct ids, and none of them is 'meta'. |
| BibleEdit.LastWithId | src/frontend/editor.js:3041 | `new Map(...).get(id)` finds the last section with the id, or nothing when there is none. |
| BibleEdit.Defaults | src/frontend/editor.js:3044-3062 | There is one merged section per default. |
| BibleEdit.ExtrasMeaning | src/frontend/editor.js:3065-3068 | The extras have distinct ids, are sections that are kept, and each is the first stored section with its id. Every kept id appears among them. |
| BibleEdit.ExtrasInOrder | src/frontend/editor.js:3065-3068 | The extras keep their stored order: they sit at increasing positions of the stored list, each at the first position holding its id. |
| BibleEdit.FirstWithId | src/frontend/editor.js:3067 | The first section with the id, or nothing when there is none. |
| BibleEdit.EnsuredShape | src/frontend/editor.js:3037-3071 | The merged list opens with the twenty defaults in order, with their translated titles. It holds every id once, has no 'meta' and keeps every other stored id. |
| BibleEdit.EnsuredOrder | src/frontend/editor.js:3037-3071 | After the twenty defaults, the merged list holds the first stored section of each other id, in stored order. |
| BibleEdit.EnsuredCarries | src/frontend/editor.js:3044-3062 | Every default takes the content and the collapsed flag of the last stored section with its id. An empty title takes the content of 'meta'. |
| BibleEdit.ExtrasOfKept | src/frontend/editor.js:3065-3068 | A list of kept sections with distinct ids is its own list of extras. |
| BibleEdit.EnsuredIdempotent | src/frontend/editor.js:3037-3071 | Merging twice gives what merging once gives. |
| BibleEdit.LastUnique | src/frontend/editor.js:3041 | In a list with distinct ids, the map finds each section itself. |
| BibleEdit.Bible.constructor | src/frontend/editor.js:3039 | The bible holds the given sections. |
| BibleEdit.Bible.EnsureDefaults | src/frontend/editor.js:3037-3071 | The loops leave the merged list in place. |
| BibleEdit.NotInDefaults | src/frontend/editor.js:3067 | An id that is not a default is in the merged list exactly when it is among the extras. |
| ListConvert.NumberEnd | src/frontend/editor.js:660 | `\d{1,5}[.)]` spans at least two characters. |
| ListConvert.KeptGaps | src/frontend/editor.js:652 | Every piece kept after the split has non-blank text. |
| ListConvert.NormalizeListsForSave | src/frontend/editor.js:642-693 | On save the markup is converted as its specification says. |
| ListConvert.ConvertLines | src/frontend/editor.js:654-690 | The loop over the lines and the final close give the entries of the conversion. |
| ListConvert.SaveKeepsLists | src/frontend/editor.js:643-650 | Empty markup gives '', and markup that already holds a list is kept as it is. |
| ListConvert.SaveConvertedClean | src/frontend/editor.js:692 | A converted page is trimmed and has no non-breaking space left. |
| ListConvert.ChunkNests | src/frontend/editor.js:662-687 | One line's entries, placed after entries that leave the current list open, leave open the list of that line's kind, or none after a plain line. |
| ListConvert.RunNests | src/frontend/editor.js:657-688 | The entries so far are well nested and leave open the list the loop's state records. |
| ListConvert.EntriesBalanced | src/frontend/editor.js:654-690 | Every list the conversion opens is closed, and every item sits inside a list. |
| ListConvert.RunOpen | src/frontend/editor.js:662-683 | A list is open exactly after a list line, and of that line's kind. |
| ListConvert.SameKindShares | src/frontend/editor.js:666-678 | A list line after one of the same kind adds only its item: the two share one list. |
| ListConvert.KindChangeOpens | src/frontend/editor.js:666-678 | A list line after a plain line, or after a line of the other kind, closes the open list and opens its own. |
| ListConvert.FindLit | src/frontend/editor.js:709-714 | The first place at or after `from` where a literal occurs. |
| ListConvert.RestoreKeepsLists | src/frontend/editor.js:697-703 | On load, empty markup stays empty and markup with a list in any letter case is kept as it is. |
| ListConvert.TagLedLineKeepsMarker | src/frontend/editor.js:672-675 | A line that starts with a tag keeps its bullet or number: the marker pattern is anchored at the raw line, so the line is only trimmed. |
| ListConvert.RestoreWithoutTags | src/frontend/editor.js:706-714 | Text without any markup comes back from the load conversion unchanged. |
| Sorting.SortBy | src/backend/projectManager.js:253 | `Array.prototype.sort` with a numeric comparator gives a reordering of the same elements, sorted by the key. |
| Sorting.SortByStable | src/backend/projectManager.js:253 | The sort is stable: the elements with any one key keep their original order. |
| Sorting.SortedTies | src/frontend/editor.js:1455 | Two distinct elements with equal keys keep their order through the sort. |
| Sorting.SortedDistinct | src/backend/versionsManager.js:83 | Sorting a list without repetitions gives a list without repetitions that holds the same elements. |
| Strings.Trim | src/backend/projectManager.js:60-62 | `String.prototype.trim` gives a text no longer than the input that neither starts nor ends with white space. |
| Strings.TrimSpan | src/backend/projectManager.js:60-62 | The trimmed text is a slice of the input with only white space before and after it. |
| Strings.TrimStartSuffix | src/backend/projectManager.js:60-62 | Removing the leading white space leaves the end of the text, and all that was removed is white space. |
| Strings.TrimIdempotent | src/backend/projectManager.js:60-62 | Trimming twice is trimming once. |
| Strings.TrimEmptyIffAllWs | src/frontend/editor.js:652 | A text trims to '' exactly when it is all white space. |
| Strings.Capitalize | src/frontend/editor.js:260 | `charAt(0).toUpperCase() + slice(1)` keeps the rest of the text, grows by at most one character (for 'ß'), and agrees with the text once both are upper-cased. |
| Strings.UpperAppend | src/backend/exporter.js:183 | `toUpperCase` works code point by code point: the capitals of a concatenation are the concatenated capitals. |
| Strings.UpperIdempotent | src/backend/exporter.js:183 | Upper-casing an upper-cased text changes nothing, 'ß' → "SS", 'ÿ' → U+0178 and 'µ' → U+039C included. |
| Strings.NatToString | src/backend/versionsManager.js:23 | `String(n)` is a non-empty run of digits without a leading zero. |
| Strings.NatToStringInjective | src/backend/versionsManager.js:23 | Distinct numbers have distinct texts. |
| Strings.Split | src/frontend/i18n.js:12 | `split('.')` gives at least one piece, and no piece holds the separator. |
| Strings.JoinSplit | src/frontend/i18n.js:12 | Joining the pieces of a split with the separator gives back the text. |

## Left out

- pdfkit itself is outside the model: text measurement, wrapping, the `moveDown` cursor, page overflow, and the geometry of rectangles and rules. The exporter's output is the sequence of drawing commands with their column, width, alignment, font and size. A page break is one such command.
- `lineGapFromSegs` has no effect: `renderList` computes its `gap` (src/backend/exporter.js:481) and never uses it. The `lineGap: 4` option (src/backend/exporter.js:884, 904, 980, 1062) only sets pdfkit's line spacing, so the drawing commands carry no line gap.
- The file system (fs-extra) is a map: reads, writes, `ensureDir`/`ensureFile`, moves and removals. A failing `stat` or read is an absent entry, and write errors are not modelled. `path.join` is string concatenation with "/", so separators are not modelled.
- The order of `readdir` is a parameter (the list of names). Modification times are integers.
- `createWriteStream` and the code that waits for the PDF to finish are not part of this model.
- `JSON.parse` is not modelled. A section text that does not parse is `None`; otherwise its parsed value is given.
- `String.prototype.normalize('NFKD')` is a function parameter of `slugify`. The lemmas that need it ask only that it leave ASCII text unchanged.
- `toLowerCase` and `toUpperCase` are modelled on ASCII and Latin-1 only: `toUpperCase` maps the Latin-1 small letters, 'ß' to "SS", 'ÿ' to U+0178 and 'µ' to U+039C, and `toLowerCase` maps the Latin-1 capitals. Letters outside Latin-1 are left as they are. JavaScript's `\s` is the fixed set of white-space characters in `Strings.IsWs`.
- `Date.now()` and `new Date()` are parameters: a timestamp, or the local date fields. `Math.random` ids are parameters too.
- AppHelpers.IsoStampLayout: the layout is stated for four-digit years only. Other years are still formatted by `String(year)`, but no lemma covers them.
- AppHelpers.ClampZoom: works on `real`, so NaN and the other floating-point corners of `Math.min`/`Math.max` are not modelled.
- `readPrefs`, `writePrefs`, `getSavedZoom`, `saveZoom`, `applyZoom`, `deltaZoom` and `resetZoom` in `src/main.js` read and write the preferences file and drive the window. Only `clampZoom`, which all of them use, is modelled.
- Electron is not modelled: the IPC handlers, windows, the save dialog (its answer is a parameter of `AppHelpers.SavePath`) and the spell-checker call (its argument is `AppHelpers.SpellLanguages`).
- `migrateLegacyProject` runs `ensureProjectSections` and then the same rename of the old outline file, inside a `try` that ignores every error. Both steps are in `Projects.EnsureSections`, so it has no separate member.
- `getVersion` is the lookup inside `Versions.RestoreVersion`. Its JSON read is not modelled.
- `loadDict`, `fetch`, `localStorage`, `syncSpellChecker` and `apply`'s DOM walk are I/O in `src/frontend/i18n.js`. `Engine.SetLang` takes `loadDict` as a function returning `None` on failure. `apply` is covered only through the attribute-spec parser and `t`.
- The editor's DOM work is not modelled: rendering, focus, scrolling, drag events, toasts and pagination. `getDropRegion` is modelled on the pointer position relative to the card. The `innerHTML` round trip in `normalizeListsForSave` is the identity. A real serialisation writes U+00A0 as `&nbsp;`, so the U+00A0 replacement at src/frontend/editor.js:692 never fires in the program; the "no non-breaking space" clause of ListConvert.SaveConvertedClean holds only under this identity.
- Editor timeline events always have a number for `ordering` and `stackPos`, so the `?? 0` defaults are not modelled there. Outline.Beat likewise always has an integer `ordering`: a beat loaded from the outline file may lack it or hold a non-number, which the editor reads as `ordering ?? 0` (src/frontend/editor.js:2756, 2760-2761, 2968) and which its comparator's subtraction coerces; neither is modelled. The exporter's renderer does model `?? 0` for stored records.
- JavaScript object keys inherited from `Object.prototype` (for example a section id `constructor`) are not modelled. A lookup in a table finds only its own entries.
- Json.OptProp and I18n.Step read only an object's own properties. JavaScript also resolves an array index or an array's or string's `length` (for example `get(dict, "list.0")`); this gives `undefined` here.
- Numbers in parsed JSON are integers (`Json.JNum` holds an `int`). A fractional `ordering` or `stackPos` cannot be represented.
- TimelineRender.ToEvent: an `ordering` that is neither a number, `null` nor absent gives an error here. The source files the event under the key `String(ordering)` and reads the keys back with `Number`: "5" or [5] joins the group of 5, and "05" or a non-numeric string gives a key whose group lookup fails. This coercion is not modelled.
- Records.StackPosKey and Records.OrderingKey: a `stackPos` or `ordering` that is not a number counts as 0. In the source, the comparator's subtraction coerces it: "2" counts as 2, and a non-numeric string gives NaN, which leaves the order to the engine. This coercion is not modelled.
- Outline.NewBeat: `newBeat` also gives the beat an empty `customFields` list (src/frontend/editor.js:2540). `Outline.Beat` has no such field, so beat custom fields are not modelled. No modelled move or renumbering reads or changes them: those touch only `ordering`.
- RichText.RenderBlock, RichText.RenderRichTextPage, RichText.RenderRichTextPages, RichText.PlainBlockPrints and the list and item drawing under them, and Export.RenderBody, Export.ExportProject and Export.SectionPdf above them, draw with the corrected `Inline.InlineSegments` of the Findings table. So the modelled export prints a stray "[[SIZE_ON:12]]" as text and never throws on "[[SIZE_ON:x]]"; the source's behaviour on these texts exists only in the as-written members of `Inline`.
- ListConvert.Clean: the save conversion promises to take the bullet or number off each item (src/frontend/editor.js:673), but its pattern is anchored at the raw line. A line that starts with a tag, such as `<div>- a`, is classified as an item from its stripped text yet keeps its marker, and its `<div>` stays open inside the `<li>`. The model reproduces this (ListConvert.TagLedLineKeepsMarker) and does not promise the marker removal.
- ListConvert.RestoreListsForEditor: the load conversion is described as idempotent (src/frontend/editor.js:696), but `/<\/li>\s*<\/li>/g` merges only pairs. Three `</div>` in a row become two `</li>` on the first pass and one on the second. The model reproduces this and promises no idempotence.
- `formatBibleJSON` is declared twice in `src/backend/exporter.js`. Only the later declaration, which is the one in force, is modelled.
- `registerFonts` chooses each family by whether its Regular file exists (src/backend/exporter.js:221-266). A family whose Regular file exists registers all four bundled files, even when another of its files is missing; nothing checks the other three.
- Projects.ParseComposed: the round trip needs a name without line breaks, because `.` in `^(.*)__` does not match a line terminator.
- Versions.RenameVersion and Versions.RenameVersionAsWritten read the clock once, as the parameter `now`. When both the timestamp and `createdAt` are missing, the source calls `Date.now()` again for every candidate, so later candidates may carry a later time.
- Versions.RenameVersionAsWritten: when the plain target id is taken, it requires some numbered candidate to be free, because the loop as written need not end then (see Findings). When the plain target is free, it requires nothing, as the loop is never entered.

## Findings

| source | as written | input that shows it | evidently intended | confidence | as-written member | corrected member |
|---|---|---|---|---|---|---|
| src/backend/versionsManager.js:138-147 | The collision loop tries `makeVersionId(ts, newLabel + '-' + i)` for i = 2, 3, …, until one is free. `slugify` cuts the slug at 60 characters, so for a label whose slug already has 60 characters the `-i` is cut off. Every candidate is then the same id. | Renaming a snapshot to a label of 60 letters when a snapshot with that label and time already exists: the loop never ends. | The loop ends on the first free name. That holds when the counter is added after the cut, so distinct counters give distinct names. | not executed | Versions.RenameVersionAsWritten, Versions.RenameLoopStuck | Versions.RenameVersion |
| src/backend/exporter.js:404-419 | The split pattern accepts only `[[SIZE_ON:` followed by one digit and `]]`. But the part handler treats any part that starts with `[[SIZE_ON:` as a marker and reads a number from it, so literal text starting that way is taken for a marker. | The text `[[SIZE_ON:x]]` has no digit, so `match` gives null and the export throws a TypeError. The text `[[SIZE_ON:12]]` is taken for a size change, and its text is lost. | Only a part the split pattern matched is a marker. Any other text, however it starts, is printed as text. | not executed | Inline.StrayTagThrowsAsWritten, Inline.StrayTagSwallowedAsWritten | Inline.StrayTagIsText, Inline.InlineSegments |
