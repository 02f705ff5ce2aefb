# ExcelSP2 — a Dafny model of the add-in's task panes

ExcelSP2 is an Excel add-in that fills a selected range from a reply of a large
language model. The user captures a range, types a prompt, adds context text and
files, and runs. There are two kinds of run:
- A write run. The reply is a JSON table, written into the range. The range grows when
  the reply has more rows than the range.
- A data-operation run. The reply is a VBA macro, which is run in a temporary module.

The repository holds four front ends of the same idea, and this project models each of them:

- the newer WPF task pane (`ExcelSP2/WpfTaskPaneControl.xaml.cs`, module `NewerPane`);
- the older WPF task pane (`ExcelSP2/ExcelSP2/WpfTaskPaneControl.xaml.cs`, module `OlderPane`);
- the WinForms task pane (`ExcelSP2/ExcelSP2/TaskPaneControl.cs`, module `WinFormsPane`);
- the Office.js pane (`taskpane.js`, module `JsPane`).

It also models the settings window (`ExcelSP2/ExcelSP2/SettingsWindow.xaml.cs`, module
`SettingsEditor`) and the settings records (`ExcelSP2/ExcelSP2/Models.cs`, module `Models`).

Each pane is a `class` whose fields are the pane's own fields and text boxes. Each event
handler is a `method` that states the pane's whole new state and keeps the pane's
invariant (`Valid()`). What the handlers share lives in pure modules, each proved on its
own:

- `ScriptText`: the VBA sanitizer, the two fence strippers, and the `Sub\s+(\w+)` scanning and renaming.
- `Csv`: `GetRangeCsv`, with a parser that proves the encoding is lossless.
- `Reconciler`: the writes of the reply table, both growing and fixed, and the Office.js write.
- `HeaderCache`: the column key and the write region.
- `Context`: the context text, the attached files and the message parts.
- `ProviderConfig`: `GetConfig`, the credential gate and the URL presets.
- `MacroRunner`: running code in temporary modules, and the repair chain.
- `WpfCommon`: the data folder, loading, attachments and the write and data-operation runs of the WPF panes.

The model uses Excel's own objects as small classes:
- `Host.Worksheet` holds a grid of cells with values and formats.
- `Host.Application` holds the VBA security flags, the VBA components and the calls that were run.

Every model reply, file read, JSON parse and dialog answer is a parameter.

Where the specification and the code disagree, the model follows the code:
- The growing write of the WPF panes inserts its rows at the target's last row, with
  `Insert(xlShiftDown)` on the range from that row. So the target's last row moves down
  with what lies below it. It does not insert below the target.
- The settings window's `AppSettings` (`Models.cs`) has no simple-mode `Provider`. Saving
  settings from the window therefore drops a provider the newer pane stored
  (`SettingsEditor.LoadedWindowSettings`, `SettingsEditor.OkAfterLoadKeepsSettings`).
- The older pane's `GetConfig` always guesses the simple-mode provider from the model name.

Where the code itself is wrong (the four rows under "## Findings"), the model's operations
use the corrected behaviour, and a separate member states what the code does as written.
The rows of the operations built on a correction begin with "corrected". For findings 1, 3
and 4 they are the macro listings, the write run's referenced data, and the selection after
a macro is saved.

## Model

| member | source | states |
|---|---|---|
| Strings.Trim | ExcelSP2/WpfTaskPaneControl.xaml.cs:699-703 | `Trim()` is no longer than its input and has no white space at either end, white space being the set of `Char.IsWhiteSpace`, the Unicode space separators included |
| Strings.TrimIdempotent | ExcelSP2/WpfTaskPaneControl.xaml.cs:699-703 | trimming twice is trimming once |
| Strings.ReplaceCharIsMap | ExcelSP2/WpfTaskPaneControl.xaml.cs:498-507 | an ordinal `Replace` of one character by one character maps the text character by character |
| Strings.NatToStringRoundTrip | ExcelSP2/WpfTaskPaneControl.xaml.cs:1031-1036 | the decimal text of a column number parses back to the number |
| Strings.IntToStringRoundTrip | ExcelSP2/WpfTaskPaneControl.xaml.cs:1031-1036 | the same for a possibly negative number |
| Models.NewLLMConfig | ExcelSP2/ExcelSP2/Models.cs:37-43 | a new configuration has every property null |
| Models.NewAppSettings | ExcelSP2/ExcelSP2/Models.cs:15-35 | new settings: null shared strings, no simple-mode provider, simple mode, four fresh empty role configurations |
| Lists.RemoveAt | ExcelSP2/ExcelSP2/TaskPaneControl.cs:298-310 | `List.RemoveAt`: the entry goes and every later entry moves up by one |
| Lists.RemoveAtLast | ExcelSP2/ExcelSP2/WpfTaskPaneControl.xaml.cs:369-381 | adding an entry and removing it again gives the list back |
| ScriptText.AsciiPunctuation | ExcelSP2/WpfTaskPaneControl.xaml.cs:498-507 | each typographic character maps to its ASCII counterpart and every other character to itself |
| ScriptText.ReplacePunctuationIsCharMap | ExcelSP2/WpfTaskPaneControl.xaml.cs:498-507 | the chain of nine `Replace` calls maps the text character by character |
| ScriptText.SanitizeVbaCode | ExcelSP2/WpfTaskPaneControl.xaml.cs:493-510 | null and empty code come back unchanged; otherwise the length is kept, no typographic character is left and every other character is kept |
| ScriptText.SanitizeIdempotent | ExcelSP2/WpfTaskPaneControl.xaml.cs:493-510 | sanitizing twice is sanitizing once |
| ScriptText.RemoveFencesLeavesNone | ExcelSP2/WpfTaskPaneControl.xaml.cs:699-703 | removing every fence leaves no fence, even across the seam of a removed one |
| ScriptText.StripFences | ExcelSP2/WpfTaskPaneControl.xaml.cs:699-703 | the C# strip removes fence markers anywhere: the result holds no fence and is no longer than the input |
| ScriptText.CleanLLMOutput | ExcelSP2/WpfTaskPaneControl.xaml.cs:699-703 | the strip used on generated VBA leaves no fence |
| ScriptText.CleanJsonReply | ExcelSP2/WpfTaskPaneControl.xaml.cs:969 | the strip used on the fill reply before parsing leaves no fence |
| ScriptText.StripFencesIdempotent | ExcelSP2/WpfTaskPaneControl.xaml.cs:699-703 | stripping twice is stripping once |
| ScriptText.StripFencesRoundTrip | ExcelSP2/WpfTaskPaneControl.xaml.cs:699-703 | a reply wrapped in a tagged fenced block gives back its body when the body holds no backtick |
| ScriptText.DropLeading | taskpane.js:279 | dropping a leading marker never lengthens the text and keeps trimmed text trimmed |
| ScriptText.DropTrailingFence | taskpane.js:279 | dropping a trailing fence never lengthens the text and keeps trimmed text trimmed |
| ScriptText.JsStripFence | taskpane.js:276-279 | the Office.js strip never lengthens the text and its result is trimmed |
| ScriptText.JsStripClean | taskpane.js:276-279 | trimmed text without a fence at either end is left unchanged |
| ScriptText.JsStripEmptyBody | taskpane.js:276-279 | an empty fenced block strips to nothing |
| ScriptText.JsStripRoundTrip | taskpane.js:276-279 | a `json` fenced body comes back as it is, inner backticks included |
| ScriptText.FenceStrippersDiffer | taskpane.js:279 | the two strippers disagree on a body that holds a fence: the JavaScript one keeps it, the C# one removes it |
| ScriptText.FirstSubName | ExcelSP2/WpfTaskPaneControl.xaml.cs:533 | `Regex.Match(code, "Sub\s+(\w+)")`: the name found is a word run that follows a case-insensitive `sub` and white space; none exactly when nothing matches |
| ScriptText.FirstSubNameIsLeftmost | ExcelSP2/WpfTaskPaneControl.xaml.cs:533 | the name found is the one of the leftmost match, and no match starts earlier |
| ScriptText.SubNames | ExcelSP2/WpfTaskPaneControl.xaml.cs:422 | `Regex.Matches`: each captured name is a word run, listed left to right |
| ScriptText.FirstSubNameHeadsSubNames | ExcelSP2/WpfTaskPaneControl.xaml.cs:422 | the entry point a run uses is the first name the macro list shows |
| ScriptText.DeclaredNameFound | ExcelSP2/WpfTaskPaneControl.xaml.cs:533 | `Sub <name>(` at the start of the code gives `<name>` as the entry point |
| ScriptText.AccentedNameFound | ExcelSP2/WpfTaskPaneControl.xaml.cs:533 | a name of accented Latin letters, `Sub ét()`, is found as `ét` |
| ScriptText.NameCutOutsideWordSet | ExcelSP2/WpfTaskPaneControl.xaml.cs:533 | the limit of the modelled `\w`: in `Sub Tệp()` the name is cut at `ệ`, U+1EC7, and `T` is found |
| ScriptText.SubKeywordCaptured | ExcelSP2/ExcelSP2/SettingsWindow.xaml.cs:144 | `Sub`, a line break and the next `Sub` form one match that captures `Sub` |
| ScriptText.NoNamesAfterCapture | ExcelSP2/ExcelSP2/SettingsWindow.xaml.cs:144 | after that match nothing else is matched |
| ScriptText.EndSubSwallowsNextDeclaration | ExcelSP2/ExcelSP2/SettingsWindow.xaml.cs:144 | as written, the text `End Sub\nSub B()` lists only `Sub`, and `B` is lost |
| ScriptText.DeclaredNamesFrom | ExcelSP2/ExcelSP2/SettingsWindow.xaml.cs:140-150 | the declared names are word runs, left to right |
| ScriptText.DeclaredNamesAgreeFrom | ExcelSP2/ExcelSP2/SettingsWindow.xaml.cs:140-150 | wherever every match is a real declaration, the declared names are exactly the names the pattern finds |
| ScriptText.DeclaredNamesAgree | ExcelSP2/ExcelSP2/SettingsWindow.xaml.cs:140-150 | the same over a whole module |
| ScriptText.ClosingSubSkipped | ExcelSP2/ExcelSP2/SettingsWindow.xaml.cs:144 | the corrected listing of `End Sub\nSub B()` passes over `End Sub` and lists `B` |
| ScriptText.RenameNoMatch | ExcelSP2/WpfTaskPaneControl.xaml.cs:629 | `Regex.Replace` leaves text without a match unchanged |
| ScriptText.RepairRenamesDeclaration | ExcelSP2/WpfTaskPaneControl.xaml.cs:629 | the declaration `Sub <name>` at the start becomes `Sub <name>_repair` and the rest is kept |
| ScriptText.RepairedEntryPoint | ExcelSP2/WpfTaskPaneControl.xaml.cs:629 | after the rename, the repaired code's entry point is `<name>_repair` |
| ProviderConfig.GuessProvider | ExcelSP2/WpfTaskPaneControl.xaml.cs:719-742 | "OpenAI" exactly when the model name contains `gpt` (case-sensitive); otherwise "Ollama", a null name included |
| ProviderConfig.RoleOf | ExcelSP2/WpfTaskPaneControl.xaml.cs:719-742 | exactly the kinds "Header", "Write", "Op" and "Vba" select a role |
| ProviderConfig.GetConfig | ExcelSP2/WpfTaskPaneControl.xaml.cs:719-742 | simple mode: the shared strings with the stored provider, or the guess when none is stored; advanced mode: the role's own configuration, and null for an unknown kind |
| ProviderConfig.LegacyGetConfig | ExcelSP2/ExcelSP2/WpfTaskPaneControl.xaml.cs:489-512 | the same, with the simple-mode provider always guessed from the model name |
| ProviderConfig.SimpleModeShared | ExcelSP2/WpfTaskPaneControl.xaml.cs:719-742 | in simple mode every kind resolves to the same configuration |
| ProviderConfig.VariantsAgree | ExcelSP2/ExcelSP2/WpfTaskPaneControl.xaml.cs:489-512 | the two variants agree unless a simple-mode provider is stored |
| ProviderConfig.LegacyIgnoresStoredProvider | ExcelSP2/ExcelSP2/WpfTaskPaneControl.xaml.cs:489-512 | settings that differ only in the stored provider resolve the same in the older pane |
| ProviderConfig.LocalModelNeedsNoKey | ExcelSP2/WpfTaskPaneControl.xaml.cs:765-790 | with the shared configuration, a non-GPT model passes the key check without a key |
| ProviderConfig.ProviderUrl | ExcelSP2/ExcelSP2/SettingsWindow.xaml.cs:364-396 | each known provider name has its preset URL; other names have none |
| ProviderConfig.SimpleProviderUrl | ExcelSP2/ExcelSP2/SettingsWindow.xaml.cs:364-374 | the simple box: a known provider sets its preset, any other keeps the URL |
| ProviderConfig.AdvancedProviderUrl | ExcelSP2/ExcelSP2/SettingsWindow.xaml.cs:376-396 | a role box: a known provider sets its preset, any other sets the empty URL |
| ProviderConfig.PresetUrlsDistinct | ExcelSP2/ExcelSP2/SettingsWindow.xaml.cs:364-396 | no two presets share a URL |
| ProviderConfig.FallbackSettings | ExcelSP2/WpfTaskPaneControl.xaml.cs:127-158 | the fallback settings: the OpenAI URL and `gpt-4o`, everything else as new settings |
| ProviderConfig.FallbackNeedsKey | ExcelSP2/WpfTaskPaneControl.xaml.cs:765-790 | the fallback resolves to OpenAI with no key, so the first run is refused |
| Host.Snapshot | ExcelSP2/WpfTaskPaneControl.xaml.cs:1170-1196 | reading `Value2` gives the range's values row by row |
| Host.Worksheet.constructor | ExcelSP2/WpfTaskPaneControl.xaml.cs:989-1029 | a sheet over a given grid |
| Host.Worksheet.ClearContents | ExcelSP2/WpfTaskPaneControl.xaml.cs:852 | the values inside the range become empty; every format and every other cell stays |
| Host.Worksheet.InsertShiftDown | ExcelSP2/WpfTaskPaneControl.xaml.cs:1014-1024 | in the range's columns the cells move down by its height; new cells are empty and take the format above |
| Host.Worksheet.SetValue2 | ExcelSP2/WpfTaskPaneControl.xaml.cs:1026-1027 | a block of the range's size replaces its values; the formats stay |
| Host.Application.constructor | ExcelSP2/WpfTaskPaneControl.xaml.cs:512-576 | an application with the given flags and components and no runs |
| Host.Application.AddModule | ExcelSP2/WpfTaskPaneControl.xaml.cs:512-576 | a new module under a name not in use |
| Host.Application.RemoveModule | ExcelSP2/WpfTaskPaneControl.xaml.cs:512-576 | the component is gone and nothing else changes |
| Host.Application.Run | ExcelSP2/WpfTaskPaneControl.xaml.cs:512-576 | the call is recorded with the current flags and components |
| Csv.EncodeField | ExcelSP2/WpfTaskPaneControl.xaml.cs:1186-1189 | a field is quoted exactly when it holds a comma, a quote or a line feed, and its quotes are doubled |
| Csv.EncodeFieldShape | ExcelSP2/WpfTaskPaneControl.xaml.cs:1186-1189 | the quoted form is a quote, the doubled text and a quote; other fields stay as they are |
| Csv.DoubledLength | ExcelSP2/WpfTaskPaneControl.xaml.cs:1186-1189 | doubling adds one character per quote |
| Csv.Pieces | ExcelSP2/WpfTaskPaneControl.xaml.cs:1180-1192 | one piece per field, with a comma after each field but the last |
| Csv.Lines | ExcelSP2/WpfTaskPaneControl.xaml.cs:1176-1194 | one line per row, in order |
| Csv.RowTexts | ExcelSP2/WpfTaskPaneControl.xaml.cs:1180-1192 | one text per cell of the row, in column order |
| Csv.Texts | ExcelSP2/WpfTaskPaneControl.xaml.cs:1176-1194 | one list per row of the range, each as wide as the range |
| Csv.GetRangeCsv | ExcelSP2/WpfTaskPaneControl.xaml.cs:1170-1196 | the nested loops build exactly the CSV text of the range, and the empty text for a single cell |
| Csv.AppendRow | ExcelSP2/WpfTaskPaneControl.xaml.cs:1180-1192 | the inner loop appends exactly the row's line |
| Csv.ParseQuoted | ExcelSP2/WpfTaskPaneControl.xaml.cs:1186-1189 | what is left after a closed quoted field is shorter than the input |
| Csv.ParseUnquoted | ExcelSP2/WpfTaskPaneControl.xaml.cs:1186-1189 | what is left after an unquoted field is no longer than the input |
| Csv.ParseField | ExcelSP2/WpfTaskPaneControl.xaml.cs:1186-1189 | what is left after a field is no longer than the input |
| Csv.ParseLine | ExcelSP2/WpfTaskPaneControl.xaml.cs:1180-1192 | what is left after a line is shorter than the input |
| Csv.QuotedRoundTrip | ExcelSP2/WpfTaskPaneControl.xaml.cs:1186-1189 | a quoted field's inside reads back to its text |
| Csv.UnquotedRoundTrip | ExcelSP2/WpfTaskPaneControl.xaml.cs:1186-1189 | an unquoted field reads back to itself |
| Csv.FieldRoundTrip | ExcelSP2/WpfTaskPaneControl.xaml.cs:1186-1189 | every field reads back to its text |
| Csv.LineRoundTrip | ExcelSP2/WpfTaskPaneControl.xaml.cs:1180-1192 | a row reads back to its fields, whatever follows |
| Csv.CsvRoundTrip | ExcelSP2/WpfTaskPaneControl.xaml.cs:1170-1196 | the encoded text parses back to every row and field |
| Csv.RangeCsvRoundTrip | ExcelSP2/WpfTaskPaneControl.xaml.cs:1170-1196 | the CSV of a range of more than one cell reads back to its cells' texts |
| HeaderCache.ColumnKeyRoundTrip | ExcelSP2/WpfTaskPaneControl.xaml.cs:1031-1036 | the column key reads back to the range's first and last columns |
| HeaderCache.ColumnKeyIdentifiesSpan | ExcelSP2/WpfTaskPaneControl.xaml.cs:1031-1036 | two ranges share a key exactly when they span the same columns |
| HeaderCache.WriteRegion | ExcelSP2/WpfTaskPaneControl.xaml.cs:833-852 | the region's start, end and columns as the run computes them |
| HeaderCache.WriteRegionBounds | ExcelSP2/WpfTaskPaneControl.xaml.cs:833-852 | the region ends at the selection's last row or below and starts at most one row under it |
| HeaderCache.CachedHeaderIgnoresKey | ExcelSP2/WpfTaskPaneControl.xaml.cs:813-852 | with any header cached, even one from other columns, the region is the whole selection |
| HeaderCache.HeaderSlot.constructor | ExcelSP2/WpfTaskPaneControl.xaml.cs:35-53 | no header and no key are cached |
| HeaderCache.HeaderSlot.Reset | ExcelSP2/WpfTaskPaneControl.xaml.cs:256-266 | both fields are cleared |
| HeaderCache.HeaderSlot.Detect | ExcelSP2/WpfTaskPaneControl.xaml.cs:813-828 | detection runs only without a cached header; a throw keeps the slot; a returned header, even null, is stored with the range's key |
| Reconciler.Count | ExcelSP2/WpfTaskPaneControl.xaml.cs:989-1000 | an array counts its items; anything else counts zero |
| Reconciler.CopyError | ExcelSP2/WpfTaskPaneControl.xaml.cs:1006-1009 | a null row fails with the null-reference message, a row of another type with the cast message, a short array with the index message |
| Reconciler.Flatten | ExcelSP2/WpfTaskPaneControl.xaml.cs:1003-1012 | the block has one row per item, each cut to the first row's width; otherwise it fails with the exception of the first row that is short or not an array |
| Reconciler.FlattenReportsFirstFailure | ExcelSP2/WpfTaskPaneControl.xaml.cs:1004-1011 | the rows are read in order, so the first unreadable row decides the message |
| Reconciler.BlockEquality | ExcelSP2/WpfTaskPaneControl.xaml.cs:1003-1012 | blocks of one shape with the same entries are equal |
| Reconciler.CopyRows | ExcelSP2/WpfTaskPaneControl.xaml.cs:1003-1012 | the copy loops build exactly that block, or fail exactly when it fails and with its message |
| Reconciler.WriteToExcelWithDynamicRows | ExcelSP2/WpfTaskPaneControl.xaml.cs:989-1029 | the method leaves the sheet and outcome of the growing write |
| Reconciler.DynamicWriteBlock | ExcelSP2/WpfTaskPaneControl.xaml.cs:1026-1027 | a written cell at row `i`, column `j` of the target holds `rows[i][j]` |
| Reconciler.DynamicWriteShiftsBelow | ExcelSP2/WpfTaskPaneControl.xaml.cs:1014-1024 | with growth, what lay below the target is found `n - rows` rows lower |
| Reconciler.DynamicWriteKeepsOtherColumns | ExcelSP2/WpfTaskPaneControl.xaml.cs:989-1029 | cells outside the target's and the written columns are never touched |
| Reconciler.DynamicWriteNoGrowth | ExcelSP2/WpfTaskPaneControl.xaml.cs:989-1029 | without growth, every cell outside the written block keeps its state |
| Reconciler.WriteToExcel | ExcelSP2/ExcelSP2/TaskPaneControl.cs:539-570 | the fixed write puts the block at the captured cell; a missing capture fails |
| Reconciler.FixedWriteOnlyBlock | ExcelSP2/ExcelSP2/TaskPaneControl.cs:539-570 | the fixed write changes nothing outside its block |
| Reconciler.WritesAgreeWithoutGrowth | ExcelSP2/ExcelSP2/TaskPaneControl.cs:539-570 | when the reply fits, the growing and the fixed write leave the same sheet |
| Reconciler.ValidateTable | taskpane.js:281-291 | accepted only when the reply parses to an array whose first item is an array |
| Reconciler.Rows | taskpane.js:300 | the number of rows of an accepted table |
| Reconciler.ResizedTarget | taskpane.js:300-321 | the original origin and columns with the table's number of rows |
| Reconciler.JsFillOnlyTarget | taskpane.js:300-324 | no row is inserted; cells outside the resized target keep their state |
| Reconciler.JsFillFormats | taskpane.js:310-313 | exactly the added rows take the last original row's formats |
| Reconciler.JsFillValues | taskpane.js:324 | a table of the range's width is written cell for cell |
| Context.LastSeparator | ExcelSP2/WpfTaskPaneControl.xaml.cs:268-282 | the index of the last separator, or -1 when there is none |
| Context.LastDot | ExcelSP2/WpfTaskPaneControl.xaml.cs:884-911 | the index of the last dot, or -1 when there is none |
| Context.FileName | ExcelSP2/WpfTaskPaneControl.xaml.cs:268-282 | `Path.GetFileName`: a suffix of the path without separators |
| Context.Extension | ExcelSP2/WpfTaskPaneControl.xaml.cs:884-911 | `Path.GetExtension`: empty, or a suffix of the name that starts with its last dot |
| Context.ExtensionEndsName | ExcelSP2/WpfTaskPaneControl.xaml.cs:884-911 | the extension is the end of the file name |
| Context.FileNameInFolder | ExcelSP2/WpfTaskPaneControl.xaml.cs:268-282 | the name of `folder\name` is `name` |
| Context.KindIgnoresCase | ExcelSP2/WpfTaskPaneControl.xaml.cs:884-911 | a file's kind ignores the extension's letter case |
| Context.ExtensionOf | ExcelSP2/WpfTaskPaneControl.xaml.cs:884-911 | the extension of `folder\stem.ext` is `.ext` |
| Context.Contribution | ExcelSP2/WpfTaskPaneControl.xaml.cs:884-911 | a missing file adds nothing; only a WPF write run attaches an image; the piece is named by the file name |
| Context.Contributions | ExcelSP2/WpfTaskPaneControl.xaml.cs:884-911 | at most one contribution per file, and no image outside the WPF write runs |
| Context.ContributionsAppend | ExcelSP2/WpfTaskPaneControl.xaml.cs:884-911 | the contributions of two lists in turn are those of the joined list |
| Context.ContributionsSingle | ExcelSP2/WpfTaskPaneControl.xaml.cs:884-911 | the contributions of one file |
| Context.MissingFileIgnored | ExcelSP2/WpfTaskPaneControl.xaml.cs:884-911 | a missing file leaves the context as if it were not attached |
| Context.TextFileEmbedded | ExcelSP2/WpfTaskPaneControl.xaml.cs:884-911 | every existing text file is embedded whole, in every mode |
| Context.ImageAttached | ExcelSP2/WpfTaskPaneControl.xaml.cs:884-911 | an image goes with the WPF write runs only, in its place among the images |
| Context.Images | ExcelSP2/WpfTaskPaneControl.xaml.cs:884-911 | the images of the contributions, in order |
| Context.EmbeddedTextRendered | ExcelSP2/WpfTaskPaneControl.xaml.cs:884-911 | an embedded file's text reaches the context verbatim |
| Context.AppendFile | ExcelSP2/WpfTaskPaneControl.xaml.cs:886-910 | one loop step appends the file's lines and its image |
| Context.AppendAttachments | ExcelSP2/WpfTaskPaneControl.xaml.cs:884-911 | the loop appends the lines and images of all the contributions in order |
| Context.ManualBlock | ExcelSP2/WpfTaskPaneControl.xaml.cs:877-882 | the block is empty exactly when the manual text is blank |
| Context.ManualTextEmbedded | ExcelSP2/WpfTaskPaneControl.xaml.cs:877-882 | non-blank manual text reaches the model verbatim |
| Context.DataBlockChoice | ExcelSP2/WpfTaskPaneControl.xaml.cs:860-873 | the CSV is sent when "reference existing data" is ticked; the instruction to ignore it when it is not |
| Context.SendsCapture | ExcelSP2/WpfTaskPaneControl.xaml.cs:913-932 | only a captured picture is sent, and the panes other than the newer one always send it |
| Context.CaptureUnderGate | ExcelSP2/WpfTaskPaneControl.xaml.cs:913-932 | under the write gate, the picture goes exactly as that rule says |
| Context.UserContent | ExcelSP2/WpfTaskPaneControl.xaml.cs:913-932 | the text part first, then the picture if sent, then the images in order |
| Context.TextPartCarriesContext | ExcelSP2/WpfTaskPaneControl.xaml.cs:913-932 | the text part holds the prompt and the whole context |
| Context.BuildUserContent | ExcelSP2/WpfTaskPaneControl.xaml.cs:913-932 | the `userContent.Add` calls build exactly that message |
| MacroRunner.RunCode | ExcelSP2/WpfTaskPaneControl.xaml.cs:512-576 | blank code runs as it is; other code is sanitized |
| MacroRunner.RunMacro | ExcelSP2/WpfTaskPaneControl.xaml.cs:512-576 | blank code is skipped; code without `Sub` stops before Excel; otherwise one temporary module runs the first Sub with the flags off, and flags and components end as before |
| MacroRunner.LegacyRunMacro | ExcelSP2/ExcelSP2/WpfTaskPaneControl.xaml.cs:440-473 | no sanitizing and no flag change; the temporary module is removed on success and on failure |
| MacroRunner.RunGeneratedMacro | ExcelSP2/WpfTaskPaneControl.xaml.cs:1198-1231 | any old runner module is replaced by one new one, which runs `AI_Generated_Action` and stays |
| MacroRunner.GeneratedRunnerSingle | ExcelSP2/WpfTaskPaneControl.xaml.cs:1198-1231 | two generated runs in a row leave a single runner module |
| MacroRunner.RepairPromptsCarryInputs | ExcelSP2/WpfTaskPaneControl.xaml.cs:601-654 | the intent request carries the code; the fix request carries the intent, the error and the code |
| MacroRunner.RepairedPreset | ExcelSP2/WpfTaskPaneControl.xaml.cs:629-640 | the saved preset is titled `<name>_repair` |
| MacroRunner.RepairedPresetRuns | ExcelSP2/WpfTaskPaneControl.xaml.cs:629-640 | a fix that declares the entry point first gives a preset that runs as `<name>_repair` |
| JsPane.SpliceStart | taskpane.js:90-97 | `splice`'s start: a negative index counts from the end, a large one stops at the length |
| JsPane.Splice | taskpane.js:90-97 | at most the element at the start goes; the others keep their order |
| JsPane.SpliceKeepsOthers | taskpane.js:90-97 | deleting by a shown index keeps every other prompt in order |
| JsPane.JsClassificationCaseSensitive | taskpane.js:337-345 | the Office.js pane compares name endings with letter case, unlike the C# panes |
| JsPane.UpperSuffixNotRead | taskpane.js:337-345 | a `.TXT` file without a text type is only named |
| JsPane.ReadFileContent | taskpane.js:337-354 | a file no reader takes gives the note, and only a reader can fail |
| JsPane.ReadPdfFile | taskpane.js:356-381 | the page loop builds the text of the first five pages and the note |
| JsPane.PagesTextPrefix | taskpane.js:365-370 | the first `n` pages' text depends only on those pages |
| JsPane.PdfPageCap | taskpane.js:363 | pages after the fifth never reach the text |
| JsPane.PageIncluded | taskpane.js:365-370 | each of the first five pages is read in full |
| JsPane.PdfPageRead | taskpane.js:356-381 | every page up to the fifth, and the note exactly when there are more |
| JsPane.PdfOmittedNote | taskpane.js:372-374 | a longer document ends with the note naming the pages left out |
| JsPane.ShortPdfRead | taskpane.js:356-381 | a document of at most five pages is read whole, with no note |
| JsPane.Truncate | taskpane.js:242 | the first 10000 characters, with a mark only when the text is longer |
| JsPane.TruncateIdempotent | taskpane.js:242 | cutting a cut text changes nothing |
| JsPane.BuildFileContexts | taskpane.js:234-253 | the loop adds one entry per file, in upload order |
| JsPane.FileContextsEmpty | taskpane.js:234-253 | the texts are empty exactly when no file was uploaded |
| JsPane.SmallTextFileSent | taskpane.js:234-253 | a text file of at most 10000 characters reaches the model verbatim |
| JsPane.UserText | taskpane.js:208-251 | the prompt, or the default for an empty box, then the file texts under their label |
| JsPane.UserParts | taskpane.js:208-231 | the text part, then the picture when there is one |
| JsPane.FillResult | taskpane.js:276-334 | a failed request reports its error and leaves the sheet; a rejected table leaves the sheet |
| JsPane.FencedTableFills | taskpane.js:276-328 | a fenced table of the range's width fills the resized range with its rows |
| JsPane.TaskPane.constructor | taskpane.js:20-31 | nothing is captured, no file is uploaded and no prompt is loaded |
| JsPane.TaskPane.LoadPrompts | taskpane.js:33-43 | the stored list, or the defaults, which are then stored |
| JsPane.TaskPane.AddNewPrompt | taskpane.js:99-110 | with both boxes filled, the prompt is appended and stored and the boxes emptied; otherwise nothing changes |
| JsPane.TaskPane.DeletePrompt | taskpane.js:90-97 | after confirmation, `splice(index, 1)` and store |
| JsPane.TaskPane.SelectPrompt | taskpane.js:60-65 | a shown index copies that prompt's text; the empty choice leaves the box |
| JsPane.TaskPane.CaptureSelection | taskpane.js:113-138 | the address and the picture are kept; a failing batch sets "Error: " + its message and keeps the previous capture |
| JsPane.TaskPane.HandleFiles | taskpane.js:172-181 | every file is appended, repeats included |
| JsPane.TaskPane.GenerateAndFill | taskpane.js:188-335 | no capture or no key sends nothing; otherwise the message is the prompt and file texts, then the picture, and the reply fills the sheet |
| WinFormsPane.Names | ExcelSP2/ExcelSP2/TaskPaneControl.cs:383-400 | the file name of each path, in order |
| WinFormsPane.NamesAppend | ExcelSP2/ExcelSP2/TaskPaneControl.cs:383-400 | the names of joined lists are the joined names |
| WinFormsPane.Dropped | ExcelSP2/ExcelSP2/TaskPaneControl.cs:383-400 | a drop keeps the attached paths first |
| WinFormsPane.DroppedContents | ExcelSP2/ExcelSP2/TaskPaneControl.cs:383-400 | after a drop, exactly the old and the dropped paths are attached, none twice |
| WinFormsPane.RemoveAtDistinct | ExcelSP2/ExcelSP2/TaskPaneControl.cs:402-418 | a removal keeps a list free of repeats |
| WinFormsPane.RemoveAtNames | ExcelSP2/ExcelSP2/TaskPaneControl.cs:402-418 | removing one index from both lists keeps them aligned |
| WinFormsPane.DropAsWritten | ExcelSP2/ExcelSP2/TaskPaneControl.cs:383-400 | the drop as written ends with the paths of the corrected drop; only its item list can differ |
| WinFormsPane.DeleteAsWritten | ExcelSP2/ExcelSP2/TaskPaneControl.cs:402-418 | the delete as written: an item with the placeholder's text stays |
| WinFormsPane.PlaceholderNamedFile | ExcelSP2/ExcelSP2/TaskPaneControl.cs:383-418 | a file named like the placeholder cannot be removed, and the next drop unaligns the lists |
| WinFormsPane.TwoPathsTwoItems | ExcelSP2/ExcelSP2/TaskPaneControl.cs:383-400 | two dropped paths never show as one item |
| WinFormsPane.DropAgrees | ExcelSP2/ExcelSP2/TaskPaneControl.cs:383-400 | with no file named like the placeholder, the written drop equals the corrected one |
| WinFormsPane.DeleteAgrees | ExcelSP2/ExcelSP2/TaskPaneControl.cs:402-418 | under the same condition the written delete removes the file from both lists |
| WinFormsPane.FillStatus | ExcelSP2/ExcelSP2/TaskPaneControl.cs:514-532 | a failed request reports its error and leaves the sheet; a reply that does not parse leaves the sheet |
| WinFormsPane.EmptyReplyWritesNothing | ExcelSP2/ExcelSP2/TaskPaneControl.cs:539-570 | an empty reply array leaves the sheet and reports success |
| WinFormsPane.FillFromReply | ExcelSP2/ExcelSP2/TaskPaneControl.cs:514-532 | the method leaves the sheet and status of that fill |
| WinFormsPane.TaskPaneControl.constructor | ExcelSP2/ExcelSP2/TaskPaneControl.cs:60-128 | the prompts and settings are read; no file is attached and the placeholder is shown |
| WinFormsPane.TaskPaneControl.Capture | ExcelSP2/ExcelSP2/TaskPaneControl.cs:337-376 | nothing without a range; otherwise the range, and a new picture when there is one |
| WinFormsPane.TaskPaneControl.DragDrop | ExcelSP2/ExcelSP2/TaskPaneControl.cs:383-400 | corrected: each new path goes to both lists, and the placeholder goes with the first file |
| WinFormsPane.TaskPaneControl.AddPath | ExcelSP2/ExcelSP2/TaskPaneControl.cs:390-397 | one step of the drop loop keeps the lists aligned |
| WinFormsPane.TaskPaneControl.DeleteFile | ExcelSP2/ExcelSP2/TaskPaneControl.cs:402-418 | corrected: the placeholder stays; a file leaves both lists, and an emptied list shows the placeholder |
| WinFormsPane.TaskPaneControl.SelectPrompt | ExcelSP2/ExcelSP2/TaskPaneControl.cs:278-284 | the selected preset's text fills the prompt box |
| WinFormsPane.TaskPaneControl.SavePrompt | ExcelSP2/ExcelSP2/TaskPaneControl.cs:286-296 | a non-blank title appends the prompt, saves it and selects it; a blank title changes nothing |
| WinFormsPane.TaskPaneControl.DeletePrompt | ExcelSP2/ExcelSP2/TaskPaneControl.cs:298-310 | a confirmed delete removes exactly the selected preset, saves, and empties the box |
| WinFormsPane.TaskPaneControl.Run | ExcelSP2/ExcelSP2/TaskPaneControl.cs:420-537 | without a key nothing is sent; otherwise the prompt, context and picture go out and the reply fills the sheet |
| WpfCommon.DataFolder.constructor | ExcelSP2/WpfTaskPaneControl.xaml.cs:35-53 | the three files as given |
| WpfCommon.ReadList | ExcelSP2/WpfTaskPaneControl.xaml.cs:67-91 | a missing file keeps the list; an unreadable one gives null; otherwise the parsed list |
| WpfCommon.LoadedPrompts | ExcelSP2/WpfTaskPaneControl.xaml.cs:67-91 | a null or empty list falls back on the defaults |
| WpfCommon.LoadedMacros | ExcelSP2/WpfTaskPaneControl.xaml.cs:103-125 | only a null list falls back on the example macro |
| WpfCommon.StoredAfterLoad | ExcelSP2/WpfTaskPaneControl.xaml.cs:67-125 | a fallback list is written back; otherwise the file stays |
| WpfCommon.LoadedSettings | ExcelSP2/WpfTaskPaneControl.xaml.cs:137-158 | missing or unreadable files keep the settings; a null gives the fallback |
| WpfCommon.PromptLoadStable | ExcelSP2/WpfTaskPaneControl.xaml.cs:67-91 | loading twice is loading once, and the second load writes nothing |
| WpfCommon.MacroLoadStable | ExcelSP2/WpfTaskPaneControl.xaml.cs:103-125 | the same for the macros |
| WpfCommon.EmptyListsDiffer | ExcelSP2/WpfTaskPaneControl.xaml.cs:67-125 | an empty prompt list falls back; an empty macro list stays empty |
| WpfCommon.UnreadableSettings | ExcelSP2/WpfTaskPaneControl.xaml.cs:137-158 | an unreadable file keeps earlier settings, and before any load gives the keyless fallback |
| WpfCommon.Paths | ExcelSP2/WpfTaskPaneControl.xaml.cs:345-349 | the attached paths, in list order |
| WpfCommon.Attach | ExcelSP2/WpfTaskPaneControl.xaml.cs:345-349 | a known path is ignored; a new one is appended with its file name |
| WpfCommon.AttachAllPaths | ExcelSP2/WpfTaskPaneControl.xaml.cs:333-349 | the paths after adding files equal the WinForms pane's after a drop, and the list stays valid |
| WpfCommon.IndexOfPath | ExcelSP2/WpfTaskPaneControl.xaml.cs:284-295 | the first item with the path, or the length when there is none |
| WpfCommon.AttachThenDetach | ExcelSP2/WpfTaskPaneControl.xaml.cs:284-349 | removing a path just attached gives the list back |
| WpfCommon.DetachedPaths | ExcelSP2/WpfTaskPaneControl.xaml.cs:284-295 | the paths lose the removed entry at its index |
| WpfCommon.RemoveAtMembers | ExcelSP2/WpfTaskPaneControl.xaml.cs:284-295 | in a repeat-free list, the entries left are exactly the others |
| WpfCommon.RemoveAtNamed | ExcelSP2/WpfTaskPaneControl.xaml.cs:284-295 | every item left still shows its path's name |
| WpfCommon.DetachedContents | ExcelSP2/WpfTaskPaneControl.xaml.cs:284-295 | after a removal the path is gone, every other stays, and the list stays valid |
| WpfCommon.Entries | ExcelSP2/WpfTaskPaneControl.xaml.cs:413-435 | corrected (Finding 1): each entry is titled by a declared name and holds the whole code |
| WpfCommon.ModuleEntries | ExcelSP2/WpfTaskPaneControl.xaml.cs:413-435 | corrected (Finding 1): every entry comes from some component |
| WpfCommon.ModuleEntryListed | ExcelSP2/WpfTaskPaneControl.xaml.cs:413-435 | corrected (Finding 1): every declaration of every component is listed |
| WpfCommon.MacroItems | ExcelSP2/WpfTaskPaneControl.xaml.cs:401-443 | corrected (Finding 1): the saved macros first, then the workbook's, or only the saved ones without access |
| WpfCommon.FirstTitled | ExcelSP2/WpfTaskPaneControl.xaml.cs:453-476 | the first entry with the title, if any |
| WpfCommon.WriteContextCarries | ExcelSP2/WpfTaskPaneControl.xaml.cs:855-882 | the header block opens the context, and the manual text and referenced data reach it |
| WpfCommon.DynamicFillStatus | ExcelSP2/WpfTaskPaneControl.xaml.cs:969-980 | the reply is cleaned, parsed and written by the growing write, and the status reports it |
| WpfCommon.FillsAgreeWithoutGrowth | ExcelSP2/WpfTaskPaneControl.xaml.cs:969-973 | when the rows fit, the WPF and WinForms fills end the same |
| WpfCommon.FillDynamic | ExcelSP2/WpfTaskPaneControl.xaml.cs:969-980 | the method leaves the sheet and status of that fill |
| WpfCommon.CachedRunUsesSelection | ExcelSP2/WpfTaskPaneControl.xaml.cs:813-858 | with a header cached: no detection, the slot kept, the whole range written, and the header block names its first row |
| WpfCommon.DetectionFailureKeepsSheet | ExcelSP2/WpfTaskPaneControl.xaml.cs:813-828 | a failed detection ends the run before clearing or sending, and the slot stays empty |
| WpfCommon.NullHeaderFails | ExcelSP2/WpfTaskPaneControl.xaml.cs:813-852 | a null header is cached with its key, and that run fails without touching the sheet |
| WpfCommon.NullHeaderRedetected | ExcelSP2/WpfTaskPaneControl.xaml.cs:813-830 | the slot still holds no header, so the next run detects again and the stored key does not matter |
| WpfCommon.FailedReplyClearsRegion | ExcelSP2/WpfTaskPaneControl.xaml.cs:852-980 | a failed request still clears the region, and nothing else changes |
| WpfCommon.ExistingDataSent | ExcelSP2/WpfTaskPaneControl.xaml.cs:860-873 | corrected: with the data referenced, the range's data from before the run reaches the model |
| WpfCommon.UserTextCarries | ExcelSP2/WpfTaskPaneControl.xaml.cs:913-932 | text in the context is in the message's text part |
| WpfCommon.ClearAndSend | ExcelSP2/WpfTaskPaneControl.xaml.cs:852-932 | corrected (Finding 3): the region is cleared, and the message carries the data the range held before the clear |
| WpfCommon.RunWrite | ExcelSP2/WpfTaskPaneControl.xaml.cs:813-980 | corrected (Finding 3): the write run on the slot and the sheet |
| WpfCommon.SendAfterDetection | ExcelSP2/WpfTaskPaneControl.xaml.cs:830-980 | corrected (Finding 3): the write run once the slot is settled |
| WpfCommon.AsWrittenCsvIgnoresRegion | ExcelSP2/WpfTaskPaneControl.xaml.cs:852-866 | as written, cleared cells never reach the model, and a cached-header run sends a blank CSV |
| WpfCommon.AsWrittenCsvLosesData | ExcelSP2/WpfTaskPaneControl.xaml.cs:852-866 | a one-row capture of "x" values sends two empty fields |
| WpfCommon.DataOperation | ExcelSP2/WpfTaskPaneControl.xaml.cs:1081-1168 | no selection sends nothing; otherwise the prompt and context go out, and a reply is cleaned and run |
| NewerPane.KnownKindsResolve | ExcelSP2/WpfTaskPaneControl.xaml.cs:719-742 | every kind the pane asks for resolves |
| NewerPane.Repair | ExcelSP2/WpfTaskPaneControl.xaml.cs:601-654 | an empty URL fails first; either failing request ends the chain; otherwise the repaired preset is saved |
| NewerPane.RepairRequestsCarry | ExcelSP2/WpfTaskPaneControl.xaml.cs:601-654 | each request carries the code, and the fix carries the intent and the error |
| NewerPane.SelectedAfterSave | ExcelSP2/WpfTaskPaneControl.xaml.cs:453-476 | corrected: the new preset, the last saved one, is selected |
| NewerPane.SaveSelectsOlderDuplicate | ExcelSP2/WpfTaskPaneControl.xaml.cs:453-476 | as written, a duplicate title selects the older entry and its code |
| NewerPane.SaveSelectionsAgree | ExcelSP2/WpfTaskPaneControl.xaml.cs:453-476 | without an earlier entry of that title, both selections agree |
| NewerPane.WpfTaskPane.constructor | ExcelSP2/WpfTaskPaneControl.xaml.cs:35-158 | the three files are loaded and fallbacks written back; nothing is cached or captured |
| NewerPane.WpfTaskPane.RefreshPrompts | ExcelSP2/WpfTaskPaneControl.xaml.cs:359-372 | the first entry is selected and fills the box |
| NewerPane.WpfTaskPane.RefreshMacros | ExcelSP2/WpfTaskPaneControl.xaml.cs:401-451 | corrected (Finding 1): the list is rebuilt, and its first entry is selected and fills the code box |
| NewerPane.WpfTaskPane.Reload | ExcelSP2/WpfTaskPaneControl.xaml.cs:707-717 | settings, prompts and macros are loaded again over what the pane holds |
| NewerPane.WpfTaskPane.Capture | ExcelSP2/WpfTaskPaneControl.xaml.cs:162-214 | nothing without a range; otherwise it is captured with a new picture, and the cache display is reported |
| NewerPane.WpfTaskPane.ClearCapture | ExcelSP2/WpfTaskPaneControl.xaml.cs:244-254 | the address and picture are forgotten; the header stays |
| NewerPane.WpfTaskPane.ResetHeader | ExcelSP2/WpfTaskPaneControl.xaml.cs:256-266 | the header and key are cleared |
| NewerPane.WpfTaskPane.AddFiles | ExcelSP2/WpfTaskPaneControl.xaml.cs:268-349 | each file is attached in order |
| NewerPane.WpfTaskPane.RemoveAttachment | ExcelSP2/WpfTaskPaneControl.xaml.cs:284-295 | the item with the path is removed |
| NewerPane.WpfTaskPane.ClearContext | ExcelSP2/WpfTaskPaneControl.xaml.cs:351-355 | no attachments and an empty context box |
| NewerPane.WpfTaskPane.SelectPrompt | ExcelSP2/WpfTaskPaneControl.xaml.cs:366-372 | the preset's content fills the prompt box |
| NewerPane.WpfTaskPane.SavePrompt | ExcelSP2/WpfTaskPaneControl.xaml.cs:374-384 | a blank title does nothing; otherwise the box is saved, written and selected |
| NewerPane.WpfTaskPane.ClearPrompt | ExcelSP2/WpfTaskPaneControl.xaml.cs:386-390 | only the prompt box is emptied; no preset is removed |
| NewerPane.WpfTaskPane.SelectMacro | ExcelSP2/WpfTaskPaneControl.xaml.cs:445-451 | the entry's code fills the code box |
| NewerPane.WpfTaskPane.AddMacro | ExcelSP2/WpfTaskPaneControl.xaml.cs:453-476 | corrected save: the preset is appended, written, listed and selected |
| NewerPane.WpfTaskPane.SaveMacro | ExcelSP2/WpfTaskPaneControl.xaml.cs:453-476 | corrected (Finding 4): a blank title does nothing; otherwise the code box is saved, and the new entry is selected with its code |
| NewerPane.WpfTaskPane.RunMacro | ExcelSP2/WpfTaskPaneControl.xaml.cs:512-576 | the code box runs and then shows the code as run |
| NewerPane.WpfTaskPane.RepairMacro | ExcelSP2/WpfTaskPaneControl.xaml.cs:601-654 | corrected (Finding 4): the repair chain runs, and a repaired macro is saved and its new entry selected |
| NewerPane.WpfTaskPane.Inputs | ExcelSP2/WpfTaskPaneControl.xaml.cs:758-932 | the prompt box, the context box and the attached paths |
| NewerPane.WpfTaskPane.RunDataOperation | ExcelSP2/WpfTaskPaneControl.xaml.cs:758-790 | a keyless OpenAI configuration refuses and changes nothing; otherwise the data run goes on |
| NewerPane.WpfTaskPane.DataRun | ExcelSP2/WpfTaskPaneControl.xaml.cs:1081-1168 | the selection's CSV and the inputs are sent, and the generated macro is shown and run |
| NewerPane.WpfTaskPane.RunWriteMode | ExcelSP2/WpfTaskPaneControl.xaml.cs:758-987 | corrected (Finding 3): the key gate, then the capture gate; otherwise the write run, whose status the pane shows |
| OlderPane.LegacyKindsResolve | ExcelSP2/ExcelSP2/WpfTaskPaneControl.xaml.cs:489-512 | every kind the older pane asks for resolves |
| OlderPane.RefreshedIndex | ExcelSP2/ExcelSP2/WpfTaskPaneControl.xaml.cs:342-347 | the first entry, or none for an empty list |
| OlderPane.SaveThenDeleteRestores | ExcelSP2/ExcelSP2/WpfTaskPaneControl.xaml.cs:357-381 | deleting the entry just saved gives the list and selection back |
| OlderPane.LegacyWpfTaskPane.constructor | ExcelSP2/ExcelSP2/WpfTaskPaneControl.xaml.cs:35-147 | the three files are loaded and fallbacks written back; nothing is cached or captured |
| OlderPane.LegacyWpfTaskPane.RefreshPrompts | ExcelSP2/ExcelSP2/WpfTaskPaneControl.xaml.cs:342-355 | a non-empty list selects its first entry, which fills the box |
| OlderPane.LegacyWpfTaskPane.RefreshMacros | ExcelSP2/ExcelSP2/WpfTaskPaneControl.xaml.cs:392-405 | a non-empty list selects its first macro, which fills the code box |
| OlderPane.LegacyWpfTaskPane.Reload | ExcelSP2/ExcelSP2/WpfTaskPaneControl.xaml.cs:477-487 | the three files are loaded again over what the pane holds |
| OlderPane.LegacyWpfTaskPane.Capture | ExcelSP2/ExcelSP2/WpfTaskPaneControl.xaml.cs:151-203 | nothing without a range; otherwise it is captured with a new picture |
| OlderPane.LegacyWpfTaskPane.ClearCapture | ExcelSP2/ExcelSP2/WpfTaskPaneControl.xaml.cs:233-243 | the address and picture are forgotten |
| OlderPane.LegacyWpfTaskPane.ResetHeader | ExcelSP2/ExcelSP2/WpfTaskPaneControl.xaml.cs:245-255 | the header and key are cleared |
| OlderPane.LegacyWpfTaskPane.AddFiles | ExcelSP2/ExcelSP2/WpfTaskPaneControl.xaml.cs:257-338 | each file is attached in order |
| OlderPane.LegacyWpfTaskPane.RemoveAttachment | ExcelSP2/ExcelSP2/WpfTaskPaneControl.xaml.cs:273-284 | the item with the path is removed |
| OlderPane.LegacyWpfTaskPane.SelectPrompt | ExcelSP2/ExcelSP2/WpfTaskPaneControl.xaml.cs:349-355 | the preset's content fills the box |
| OlderPane.LegacyWpfTaskPane.SavePrompt | ExcelSP2/ExcelSP2/WpfTaskPaneControl.xaml.cs:357-367 | a blank title does nothing; otherwise the box is saved, written and selected |
| OlderPane.LegacyWpfTaskPane.DeletePrompt | ExcelSP2/ExcelSP2/WpfTaskPaneControl.xaml.cs:369-381 | a confirmed delete of the selection removes it, writes, refreshes and empties the box |
| OlderPane.LegacyWpfTaskPane.SelectMacro | ExcelSP2/ExcelSP2/WpfTaskPaneControl.xaml.cs:399-405 | the macro's code fills the code box |
| OlderPane.LegacyWpfTaskPane.SaveMacro | ExcelSP2/ExcelSP2/WpfTaskPaneControl.xaml.cs:407-417 | a blank title does nothing; otherwise the code is saved and the new last entry selected |
| OlderPane.LegacyWpfTaskPane.DeleteMacro | ExcelSP2/ExcelSP2/WpfTaskPaneControl.xaml.cs:419-431 | a confirmed delete of the selection removes it, writes, refreshes and empties the box |
| OlderPane.LegacyWpfTaskPane.RunMacro | ExcelSP2/ExcelSP2/WpfTaskPaneControl.xaml.cs:440-473 | the code runs as it is in a temporary module that is always removed |
| OlderPane.LegacyWpfTaskPane.Inputs | ExcelSP2/ExcelSP2/WpfTaskPaneControl.xaml.cs:526-720 | the prompt box, the context box and the attached paths |
| OlderPane.LegacyWpfTaskPane.RunDataOperation | ExcelSP2/ExcelSP2/WpfTaskPaneControl.xaml.cs:533-558 | a keyless OpenAI configuration refuses; otherwise the data run, with the macro not shown |
| OlderPane.LegacyWpfTaskPane.DataRun | ExcelSP2/ExcelSP2/WpfTaskPaneControl.xaml.cs:833-914 | the CSV and the inputs are sent, and the macro runs with the code box left alone |
| OlderPane.LegacyWpfTaskPane.RunWriteMode | ExcelSP2/ExcelSP2/WpfTaskPaneControl.xaml.cs:526-739 | the key gate, then the capture gate; otherwise the write run |
| SettingsEditor.LoadedList | ExcelSP2/ExcelSP2/SettingsWindow.xaml.cs:36-122 | a missing, unreadable or null file gives the empty list |
| SettingsEditor.LoadedWindowSettings | ExcelSP2/ExcelSP2/SettingsWindow.xaml.cs:36-122 | a missing, unreadable or null file gives new settings; a stored provider is not read |
| SettingsEditor.InFileMacros | ExcelSP2/ExcelSP2/SettingsWindow.xaml.cs:124-164 | corrected (Finding 1): nothing without a workbook, the hint without access, and otherwise entries from the components |
| SettingsEditor.InFileMacrosComplete | ExcelSP2/ExcelSP2/SettingsWindow.xaml.cs:124-164 | corrected (Finding 1): every declared macro of a module is listed under its name |
| SettingsEditor.ScanModules | ExcelSP2/ExcelSP2/SettingsWindow.xaml.cs:136-160 | corrected (Finding 1): the loop over the components lists exactly those entries |
| SettingsEditor.FirstMatch | ExcelSP2/ExcelSP2/SettingsWindow.xaml.cs:166-177 | the first item equal to the value, or none when no item is |
| SettingsEditor.ComboAfterSet | ExcelSP2/ExcelSP2/SettingsWindow.xaml.cs:166-177 | an empty or unlisted value keeps the selection; otherwise the first matching item |
| SettingsEditor.SetComboValue | ExcelSP2/ExcelSP2/SettingsWindow.xaml.cs:166-177 | the loop gives exactly that selection |
| SettingsEditor.LoadedBox | ExcelSP2/ExcelSP2/SettingsWindow.xaml.cs:36-122 | the provider box is set, and the text boxes take the strings, null as empty |
| SettingsEditor.SavedConfig | ExcelSP2/ExcelSP2/SettingsWindow.xaml.cs:399-437 | the selected item's text, or null, and the three text boxes |
| SettingsEditor.ConfigRoundTrip | ExcelSP2/ExcelSP2/SettingsWindow.xaml.cs:36-437 | load then save gives back a configuration whose provider is absent or listed and whose strings are not null |
| SettingsEditor.UnlistedProviderLost | ExcelSP2/ExcelSP2/SettingsWindow.xaml.cs:36-437 | an unlisted provider is lost, and a null string comes back empty |
| SettingsEditor.SettingsFromControls | ExcelSP2/ExcelSP2/SettingsWindow.xaml.cs:399-437 | the mode, shared strings and role configurations come from their controls; the rest is kept |
| SettingsEditor.LoadedBoxes | ExcelSP2/ExcelSP2/SettingsWindow.xaml.cs:36-122 | each role's box is loaded from its configuration |
| SettingsEditor.OkAfterLoadKeepsSettings | ExcelSP2/ExcelSP2/SettingsWindow.xaml.cs:36-437 | OK without an edit writes back the settings read, less the simple-mode provider |
| SettingsEditor.SettingsWindow.constructor | ExcelSP2/ExcelSP2/SettingsWindow.xaml.cs:26-122 | the lists, workbook macros and settings are read and every control is filled |
| SettingsEditor.SettingsWindow.SelectPrompt | ExcelSP2/ExcelSP2/SettingsWindow.xaml.cs:180-187 | the prompt fills the title and content boxes |
| SettingsEditor.SettingsWindow.EditPrompt | ExcelSP2/ExcelSP2/SettingsWindow.xaml.cs:206-215 | typing changes only the two boxes |
| SettingsEditor.SettingsWindow.AddPrompt | ExcelSP2/ExcelSP2/SettingsWindow.xaml.cs:189-195 | a "New Prompt" entry is appended and selected; the file is not written |
| SettingsEditor.SettingsWindow.DeletePrompt | ExcelSP2/ExcelSP2/SettingsWindow.xaml.cs:197-204 | the selection is removed and nothing is selected; the file is not written |
| SettingsEditor.SettingsWindow.SavePrompt | ExcelSP2/ExcelSP2/SettingsWindow.xaml.cs:206-229 | the selected entry takes the boxes and the whole list is written |
| SettingsEditor.SettingsWindow.SelectMacro | ExcelSP2/ExcelSP2/SettingsWindow.xaml.cs:231-248 | the macro fills the boxes and the workbook list loses its selection |
| SettingsEditor.SettingsWindow.SelectInFileMacro | ExcelSP2/ExcelSP2/SettingsWindow.xaml.cs:250-267 | the workbook macro fills the boxes and the saved list loses its selection |
| SettingsEditor.SettingsWindow.EditMacro | ExcelSP2/ExcelSP2/SettingsWindow.xaml.cs:286-295 | typing changes only the two boxes |
| SettingsEditor.SettingsWindow.AddMacro | ExcelSP2/ExcelSP2/SettingsWindow.xaml.cs:269-275 | a "New Macro" entry is appended and selected; the file is not written |
| SettingsEditor.SettingsWindow.DeleteMacro | ExcelSP2/ExcelSP2/SettingsWindow.xaml.cs:277-284 | the selected saved macro is removed; the file is not written |
| SettingsEditor.SettingsWindow.SaveMacro | ExcelSP2/ExcelSP2/SettingsWindow.xaml.cs:286-309 | the selected saved macro takes the boxes and the whole list is written |
| SettingsEditor.SettingsWindow.SetMode | ExcelSP2/ExcelSP2/SettingsWindow.xaml.cs:348-362 | only the mode changes |
| SettingsEditor.SettingsWindow.PickSimpleProvider | ExcelSP2/ExcelSP2/SettingsWindow.xaml.cs:364-374 | a preset provider fills the URL; any other keeps it |
| SettingsEditor.SettingsWindow.PickRoleProvider | ExcelSP2/ExcelSP2/SettingsWindow.xaml.cs:376-396 | the tagged role's URL gets the preset or empty; no other role changes |
| SettingsEditor.SettingsWindow.EditSimple | ExcelSP2/ExcelSP2/SettingsWindow.xaml.cs:399-437 | typing changes only the simple-mode boxes |
| SettingsEditor.SettingsWindow.EditRole | ExcelSP2/ExcelSP2/SettingsWindow.xaml.cs:399-437 | typing changes only that role's boxes |
| SettingsEditor.SettingsWindow.Ok | ExcelSP2/ExcelSP2/SettingsWindow.xaml.cs:399-437 | the settings are rebuilt from the controls and written; the other files stay |

## Left out

- Network calls are parameters. The chat-completion requests, header detection, the
  repair chain's two requests and the Office.js `fetch` all are. Each reply is a
  `Result<string>`, so a failing request is an error value.
- JSON is a parameter. Parsing a reply, and reading or writing the three JSON data
  files, is a `parse` function or a `Stored` value. The JSON text format itself is not modelled.
- Base64 encoding, the clipboard picture and the image bytes are opaque strings.
- The file system is a map from path to file.
- UI visibility is not modelled: the preview window, labels, colours, cursors, progress
  text and the intermediate status texts ("Sending to LLM..." and the like). Only the
  final status line is modelled.
- Message boxes and input dialogs are parameters, as their answers: a confirmation,
  a typed title, "repair now?".
- `async`/`await` is modelled as a sequence of steps. Interleaving with other UI events during an `await` is not.
- The workbook-context text that `GetWorkbookContext` sends to the repair chain is a
  parameter. Its listing of sheet names is not modelled.
- An exception in the middle of listing a project's modules is not modelled. The
  listing is either complete, or absent for an untrusted or missing project.
- The paste handler writes a pasted picture to a temporary file. That temporary file is
  an ordinary attached path here.
- Detecting local models in the settings window (`BtnDetectModels_Click`) is left out,
  because it queries a local web service. So is `BtnCancel_Click`, which only closes the window.
- The settings window's initial provider items come from its XAML, which is not part of
  this model. They are the `providerItems` parameter.
- The newer project's own settings window is not part of this model. The newer pane is
  modelled against its own settings record, which carries `Provider`.
- The newer pane's `BtnDeleteMacro_Click` only hides the code box and its save and delete
  buttons; the code box's text is kept. Visibility is not modelled, so in the model the
  handler changes nothing and has no member.
- Text boxes never give null, so the model's text fields are plain strings. Null appears
  only where a file or setting can hold it.
- The newer pane's dialog after a failed run is modelled as two calls:
  `NewerPane.WpfTaskPane.RunMacro`, then `NewerPane.WpfTaskPane.RepairMacro` with the outcome.
- A role configuration that resolves to null (an unknown kind) would make the run throw.
  Every kind the panes ask for resolves (`NewerPane.KnownKindsResolve`,
  `OlderPane.LegacyKindsResolve`), so that crash path is not modelled further.
- Integer widths are not modelled. Row and column numbers are unbounded; Excel's limits
  (1048576 rows, 16384 columns) are not modelled.
- `Host.Worksheet.InsertShiftDown`: cells pushed off the bottom of the sheet are not
  modelled, because the grid is unbounded.
- The JavaScript pane's settings panel (`toggleSettings`, the settings inputs) and its
  prompt-manager modal visibility are UI only.
- Drag-and-drop wiring (`setupDragAndDrop`, `DragEnter` handlers) only accepts files. The drops
  themselves are modelled as the file lists they deliver.
- FirstSubName (ScriptText): `\w` is modelled as exactly these characters: the ASCII letters,
  digits and `_`; U+00AA, U+00B5, U+00BA; U+00C0-U+024F except U+00D7 and U+00F7; the
  combining marks U+0300-U+036F; and the Cyrillic U+0400-U+0481. Every other character that
  .NET counts as a word character is outside the model's `\w`. That includes the IPA letters
  from U+0250, Latin Extended Additional U+1E00-U+1EFF (Vietnamese `ệ`), Cyrillic from U+048A
  (Ukrainian `ґ`), Greek, CJK, Arabic, other digits and connector punctuation. A name is cut
  at its first such character: `Sub Tệp()` gives `T` where .NET gives `Tệp`, and a name that
  starts with one is not found.
- SubNames (ScriptText): the same `\w` as FirstSubName.
- DeclaredNames (ScriptText): the same `\w` as FirstSubName.
- RunMacro (MacroRunner): finds its entry point with FirstSubName, so the same `\w` applies:
  for `Sub Tệp()` the model runs `T` where the code runs `Tệp`.
- Contribution (Context): reading an existing text file always succeeds here. In the code
  `File.ReadAllText` can throw, for example on a CSV that Excel holds open. The throw ends the
  run with "Error: " and its message. In the newer pane's write run the region has already
  been cleared by then. That failing read is not modelled.
- TextFileEmbedded (Context): holds only because the failing read of Contribution is not modelled.
- Run (WinFormsPane.TaskPaneControl): a failing text-file read, which ends the run with
  "Error: " and its message, is not modelled (see Contribution).
- RunWrite (WpfCommon): a failing text-file read is not modelled (see Contribution). The
  referenced data is the range as it was before the region was cleared (Finding 3). The code
  reads it after the clear, which is WpfCommon.ExistingCsvAsWritten.
- DataOperation (WpfCommon): a failing text-file read is not modelled (see Contribution).
- ClearAndSend (WpfCommon): sends the referenced data as the range held it before the clear
  (Finding 3). The code sends WpfCommon.ExistingCsvAsWritten.
- SendAfterDetection (WpfCommon): the same corrected data as ClearAndSend.
- RunWriteMode (NewerPane.WpfTaskPane): the same corrected data as ClearAndSend.
- Entries (WpfCommon): lists the declarations the corrected scan finds (Finding 1). The code
  lists one entry per match of `Sub\s+(\w+)`, which is ScriptText.SubNames. The two listings
  are equal when every match is a declaration (ScriptText.DeclaredNamesAgree).
- ModuleEntries (WpfCommon): built on Entries, so it lists the corrected scan.
- ModuleEntryListed (WpfCommon): "every declaration is listed" holds of the corrected scan. The
  code loses the declaration after `End Sub` (ScriptText.EndSubSwallowsNextDeclaration).
- MacroItems (WpfCommon): the workbook part is built on Entries, so it lists the corrected scan.
- InFileMacros (SettingsEditor): built on Entries, so it lists the corrected scan.
- InFileMacrosComplete (SettingsEditor): as ModuleEntryListed, it holds of the corrected scan.
- ScanModules (SettingsEditor): equals InFileMacros, so it lists the corrected scan (Finding 1).
  The code lists one entry per match of `Sub\s+(\w+)`.
- RefreshMacros (NewerPane.WpfTaskPane): built on MacroItems, so it lists the corrected scan
  (Finding 1). The code adds one entry per match of `Sub\s+(\w+)`.
- SaveMacro (NewerPane.WpfTaskPane): selects the entry just saved (Finding 4). The code selects
  the first entry with the saved title, which is WpfCommon.FirstTitled. With an older entry of
  that title, the code selects the older entry and shows its code.
- RepairMacro (NewerPane.WpfTaskPane): selects the repaired entry just saved, as SaveMacro
  does. The code selects the first `<name>_repair` entry, an older one after a second repair
  of the same macro.
- Truncate (JsPane): lengths are counted in characters. JavaScript's `length` and `substring`
  count UTF-16 code units, so text with characters outside the Basic Multilingual Plane is cut
  at a different place.
- JsStripFence (ScriptText): trims with the .NET white-space set. JavaScript's `trim` and `\s`
  also remove U+FEFF and do not remove U+0085, so a reply that begins or ends with either of
  those two characters is trimmed differently.
- KindOf (Context) and Lower: `ToLower()` lower-cases the ASCII letters only, as the invariant
  culture does for them. The current culture's rules, such as the Turkish dotless i, and
  non-ASCII letters are not modelled.
- CellText (Csv): a number cell's text is the reply's number text. The code prints the stored
  `double` with the current culture's `ToString()`, which can differ in digits and in the
  decimal separator.
- Flatten (Reconciler): a reply's arrays are taken to deserialize as `object[]`. The CLR type
  named in the cast message of a number row is `Int32` or `Decimal`, chosen by the number's text.
  Numbers too wide for `Int32`, which deserialize as `Int64` or `Double`, are not told apart.

## Findings

| source | as written | input that shows it | evidently intended | confidence | as-written member | corrected member |
|---|---|---|---|---|---|---|
| ExcelSP2/ExcelSP2/SettingsWindow.xaml.cs:144 | `Regex.Matches(code, @"Sub\s+(\w+)")` also matches the `Sub` of `End Sub` followed by a line break and the next `Sub`, so the next procedure's own name is lost (the same pattern lists macros at ExcelSP2/WpfTaskPaneControl.xaml.cs:422) | the end of one procedure and the start of the next, `End Sub\nSub B()`, lists `Sub` instead of `B` | list `B`, the procedure declared there | not executed | ScriptText.EndSubSwallowsNextDeclaration | ScriptText.ClosingSubSkipped |
| ExcelSP2/ExcelSP2/TaskPaneControl.cs:383-418 | the empty-list placeholder is recognised by the text of the item shown | drop a file named `[Drag files here...]` into the empty list, then drop another file | files and list items stay aligned; every file can be removed | not executed | WinFormsPane.PlaceholderNamedFile | WinFormsPane.TaskPaneControl.DragDrop |
| ExcelSP2/WpfTaskPaneControl.xaml.cs:852-866 | the existing data is read with `GetRangeCsv` after the write region was cleared | a one-row capture of two cells holding `x`, with a header cached and "reference existing data" ticked, sends `,` and a line break | send the data the range held before the run | not executed | WpfCommon.AsWrittenCsvLosesData | WpfCommon.ExistingDataSent |
| ExcelSP2/WpfTaskPaneControl.xaml.cs:453-476 | after a save, the first entry carrying the saved title is selected | save a macro under a title that is already saved | select the entry just saved, so the code box keeps the saved code | not executed | NewerPane.SaveSelectsOlderDuplicate | NewerPane.SelectedAfterSave |
