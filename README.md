# tcg card text pipeline, modelled in Dafny

This project models the card-rendering core of the `tcg` trading-card-game
tool. A card arrives as a dict of sheet columns (`name`, `text`, `cost`,
`type`, ...). Pipelines of stages enrich it with information about its mana
cost and its type line, expand keyword calls such as `(kr.tribute (2DA)/)`,
rewrite the text's shorthand syntax into HTML, and format the result. A
pyparsing grammar does the same job as a single parser.

The model follows the Python modules one Dafny module at a time:

- `Colors` and `ColorTable` (`color.dfy`, `color_table.dfy`) model the
  five-hue flag set of `color.py`: shortcut letters, `from_string`, the
  31-entry canonical table `sorted_colors` and the ordering dicts built from
  it.
- `ManaCosts` and `ManaHtml` model `ManaCostInfo` (the cost regex, parsing
  and printing back) and `ManaCostHTMLExtension` (the gradient stops, the
  first colour and the badge elements).
- `Pipelines` models the stage engine that both pipeline generations share:
  `ConcatPipeline`'s loop and `run_multiple`. It records which stages update
  the caller's dict in place, which build a new one, and what a stage leaves
  behind when it raises.
- `CommonStages`, `CurrentStages` and `CurrentPipeline` model the stages
  and the nested `CardPipeline` of `tcg/lib/services/pipeline.py`. The stage
  methods on `Records.Record` objects are proved against the specification
  functions.
- `EarlyStages` and `EarlyPipeline` model the first generation in
  `tcg/endtoend.py`.
- `Keywords` and `KeywordMacros` model the keyword catalog and the
  replacement function shared by both generations.
- `Grammar` and `Replacer` model the pyparsing grammar and its parse
  actions. The main result is a round trip: printed card text parses back
  to its rendering.
- `CardConstructor` models the conversion of sheet rows into cards.
- `Strings`, `Template`, `Records` and `Wrappers` model the parts of
  Python's library the code relies on: literal `re.sub`, `split`, `join`,
  `str.format`, dict values and exceptions as `Result` values.

Every Python exception the modelled code can raise is an `Error` value: a
`KeyError`, a `TypeError`, a failed regex match used as if it had matched,
or a bad format string. Where the code does something surprising, the
model follows the code:

- `parse_text` keeps the longest prefix that parses.
- `run_multiple` stops at the first failing record.
- The cost regex accepts repeated colour letters.
- In the first generation, `)k` leaves a stray `)` behind.
- In the first generation, the arguments of `kr.complicated((2DA))` stop at
  the first `)`.
- In the current generation, `kr.complicated` raises `KeyError`, because
  nothing writes `cost__names`.

## Model

| member | source | states |
|---|---|---|
| Colors.Extensional | tcg/lib/types/color.py:7-12 | two flag values that hold the same hues are the same value |
| Colors.Flag | tcg/lib/types/color.py:8-12 | each `auto()` member holds exactly its own hue |
| Colors.Union | tcg/lib/types/color.py:18 | `a \| b` holds a hue exactly when `a` or `b` holds it |
| Colors.ValueEncoding | tcg/lib/types/color.py:7-12 | the members are 1, 2, 4, 8 and 16; two sets have the same integer value only when they are equal; only `Color(0)` is 0 |
| Colors.ShortcutsByHue | tcg/lib/types/color.py:34-48 | every hue's letter maps to that hue's flag; a character is a key of `shortcuts` exactly when it is in `shortcut_keys`; every single flag has a name and a hex code (lines 99-105) |
| Colors.MaskOf | tcg/lib/types/color.py:15-19 | the colour whose hues are exactly the letters that occur in the string |
| Colors.ColorOfIsMask | tcg/lib/types/color.py:15-19 | `from_string` succeeds exactly on strings of shortcut letters and then yields the set of hues whose letters occur |
| Colors.ColorOfPrefixFailure | tcg/lib/types/color.py:17-18 | the `KeyError` comes from the first letter that is not a shortcut: a failing prefix fails the whole string with the same error |
| Colors.FromString | tcg/lib/types/color.py:15-19 | the loop `result \|= shortcuts[char]` computes the union of the letters' flags, or the `KeyError` of the first bad letter |
| Colors.SameLetters | tcg/lib/types/color.py:15-19 | two strings with the same letters give the same result |
| Colors.ColorOfPermutation | tcg/lib/types/color.py:15-19 | reordering the letters does not change the result |
| Colors.ColorOfRepeat | tcg/lib/types/color.py:15-19 | repeating a letter does not change the result |
| Colors.ColorOfUnion | tcg/lib/types/color.py:15-19 | the colour of a concatenation is the union of the colours of its parts |
| ColorTable.GroupMembers | tcg/lib/types/color.py:51-67 | a group of five entries holds only those five strings |
| ColorTable.Group5 | tcg/lib/types/color.py:51-67 | five entries spelling five different colours spell exactly those colours |
| ColorTable.GroupInjective | tcg/lib/types/color.py:51-67 | five entries with pairwise different colours spell different colours |
| ColorTable.GroupMasks | tcg/lib/types/color.py:51-67 | the colours of a five-entry group are its five entries' colours |
| ColorTable.Group1 | tcg/lib/types/color.py:65-66 | the one-entry group spells its one colour |
| ColorTable.MonoSpells | tcg/lib/types/color.py:52-53 | the mono group spells the five single-hue colours, one each |
| ColorTable.AllySpells | tcg/lib/types/color.py:54-55 | the ally group spells its five two-hue colours, one each |
| ColorTable.EnemySpells | tcg/lib/types/color.py:56-57 | the enemy group spells its five two-hue colours, one each |
| ColorTable.ArcSpells | tcg/lib/types/color.py:58-59 | the arc group spells its five three-hue colours, one each |
| ColorTable.WedgeSpells | tcg/lib/types/color.py:60-62 | the wedge group spells its five three-hue colours, one each |
| ColorTable.QuadSpells | tcg/lib/types/color.py:63-64 | the quadruple group spells the five four-hue colours, one each |
| ColorTable.FiveSpells | tcg/lib/types/color.py:65-66 | the last group spells the five-hue colour |
| ColorTable.SpellsAppend | tcg/lib/types/color.py:51-67 | two groups with disjoint colours together spell the union of their colours |
| ColorTable.Combine | tcg/lib/types/color.py:51-67 | seven groups with pairwise disjoint colours together spell all of their colours |
| ColorTable.MonoDisjoint | tcg/lib/types/color.py:51-67 | no mono colour occurs in another group |
| ColorTable.AllyDisjoint | tcg/lib/types/color.py:51-67 | no ally colour occurs in a later group |
| ColorTable.EnemyDisjoint | tcg/lib/types/color.py:51-67 | no enemy colour occurs in a later group |
| ColorTable.ArcDisjoint | tcg/lib/types/color.py:51-67 | no arc colour occurs in a later group |
| ColorTable.WedgeDisjoint | tcg/lib/types/color.py:51-67 | no wedge colour occurs in a later group |
| ColorTable.QuadDisjoint | tcg/lib/types/color.py:51-67 | the quadruple colours and the five-hue colour are different |
| ColorTable.SortedColorsSpells | tcg/lib/types/color.py:51-67 | `sorted_colors` spells every colour of its groups exactly once, with no letter repeated in an entry |
| ColorTable.CoverSmall | tcg/lib/types/color.py:51-57 | every one-hue set is a mono colour and every two-hue set is an ally or an enemy colour |
| ColorTable.CoverLarge | tcg/lib/types/color.py:58-66 | every three-hue set is an arc or a wedge colour; the four- and five-hue sets are in their groups |
| ColorTable.GroupColorsNonEmpty | tcg/lib/types/color.py:51-67 | the groups' colours are exactly the non-empty colour sets |
| ColorTable.SortedColorsTable | tcg/lib/types/color.py:51-67 | `sorted_colors` has 31 entries and spells each non-empty colour set exactly once |
| ColorTable.SpellingSpec | tcg/lib/types/color.py:70-73 | the string a comprehension keeps for a colour is in the table and spells that colour |
| ColorTable.SpellingInjective | tcg/lib/types/color.py:70-73 | when no two strings spell one colour, every string is the one kept for its colour |
| ColorTable.BuildTableSpec | tcg/lib/types/color.py:70-73 | the dict comprehension over strings of shortcut letters succeeds, has exactly the spelled colours as keys and keeps for each the value of the last string spelling it |
| ColorTable.EnumsOfValid | tcg/lib/types/color.py:72 | `tuple(from_string(c) for c in s)` is the letters' single flags, in order |
| ColorTable.EnumsOfTotal | tcg/lib/types/color.py:72 | the flag tuple exists for every string of shortcut letters |
| ColorTable.CanonicalSpec | tcg/lib/types/color.py:51-70 | the string stored for a non-empty colour is in `sorted_colors`, spells that colour and repeats no letter |
| ColorTable.SortedColorsValid | tcg/lib/types/color.py:51-67 | every string of `sorted_colors` is made of shortcut letters |
| ColorTable.OrderingTables | tcg/lib/types/color.py:70-73 | both ordering dicts are built without error, their keys are exactly the non-empty colours, and each holds the canonical string and its letters' flags |
| ColorTable.LookupAllSpec | tcg/lib/types/color.py:31 | the list comprehension over a dict succeeds exactly when every key is present, and keeps length and order |
| ColorTable.OrderedStringRoundTrip | tcg/lib/types/color.py:21-23 | `as_ordered_string` succeeds exactly on non-empty colours; the string spells the colour back, is in the table, repeats no letter and has one letter per hue |
| ColorTable.SortedColorsCanonical | tcg/lib/types/color.py:51-73 | no entry of `sorted_colors` is overwritten: each is the ordered string of its own colour |
| ColorTable.OrderedEnumMatchesString | tcg/lib/types/color.py:21-31 | for a non-empty colour, `as_ordered_enum` has one single flag per letter of `as_ordered_string`, in order, and `as_name_list` maps them through `names` |
| ManaCosts.LetterCharIsShortcutKey | tcg/lib/types/color.py:77 | the colour class of `REGEX_PATTERN` holds exactly the characters of `shortcut_keys` |
| ManaCosts.ValueRun | tcg/lib/types/color.py:77 | the greedy run of `[\dX]`: all value characters, stopping at the first other character |
| ManaCosts.LetterRun | tcg/lib/types/color.py:77 | the greedy run of colour letters, stopping at the first other character |
| ManaCosts.MatchLength | tcg/lib/types/color.py:77 | a match ends with its `)` inside the string and is at least four characters long |
| ManaCosts.ParseToken | tcg/lib/types/color.py:86-94 | a token `(value letters)` followed by anything parses to its value and the set of its letters; the match stops at the `)` |
| ManaCosts.LettersMask | tcg/lib/types/color.py:94 | the colour group is read as the set of its letters |
| ManaCosts.ParseSound | tcg/lib/types/color.py:86-94 | whatever parses starts with such a token, whose value and letters are the parse's |
| ManaCosts.MatchedParts | tcg/lib/types/color.py:77 | the two groups of a match are maximal runs of value characters and colour letters, and a `)` follows |
| ManaCosts.ParseNonEmpty | tcg/lib/types/color.py:77 | a parsed cost always has a colour: the pattern needs at least one letter |
| ManaCosts.ParseFailure | tcg/lib/types/color.py:88-93 | the only way to fail is no match at the start of the string (the `groupdict` of `None`) |
| ManaCosts.ParseDuplicate | tcg/lib/types/color.py:77 | duplicate letters are accepted: `(2DD)` is value 2, divine |
| ManaCosts.ReprRoundTrip | tcg/lib/types/color.py:83-84 | a cost with a valid value and a non-empty colour prints with `__repr__` and that text parses back to the same cost |
| ManaCosts.ParseReprParse | tcg/lib/types/color.py:83-94 | whatever parses prints and parses back to the same cost |
| ManaHtml.StopPercents | tcg/lib/types/color.py:120-126 | `break_percents` has two stops per colour (two for zero colours too) |
| ManaHtml.BreakPercents | tcg/lib/types/color.py:116-126 | the loop of `gradient` builds exactly the stop list: 0, then each inner boundary minus and plus half the bleed, then 100 |
| ManaHtml.StopLayout | tcg/lib/types/color.py:120-126 | for n colours there are 2n stops; the first is the int 0, the last the int 100, and boundary k sits 1 below and 1 above `100 * k / n` |
| ManaHtml.ScaleStep | tcg/lib/types/color.py:122-123 | consecutive boundaries are `100 / n` apart, from 0 to 100 |
| ManaHtml.StepWidth | tcg/lib/types/color.py:116-125 | a step of `100 / n` is at least the bleed of 2 exactly up to 50 colours |
| ManaHtml.StopStep | tcg/lib/types/color.py:120-126 | up to 50 colours, each stop is at least the one before it |
| ManaHtml.StopsNonDecreasing | tcg/lib/types/color.py:116-126 | the stops never decrease exactly when there are at most 50 colours, so for every colour set (at most five) |
| ManaHtml.Doubled | tcg/lib/types/color.py:118 | each hex code is repeated twice, in order |
| ManaHtml.ZipStops | tcg/lib/types/color.py:127 | `zip` pairs stop i with hex code i and stops at the shorter list |
| ManaHtml.GradientStops | tcg/lib/types/color.py:115-128 | the gradient exists exactly for a non-empty colour; it has two stops per hue and stop i pairs the hex code of canonical letter i/2 with break percent i |
| ManaHtml.ColorFirstIsFirstLetter | tcg/lib/types/color.py:110-112 | `color_first` is the hex code of the first canonical letter, and the first stop of the gradient carries it at 0% |
| ManaHtml.ChannelIsElementOfOne | tcg/lib/types/color.py:130-136 | the channel badge is the element of the same colours with value `1`; the element exists exactly for a non-empty colour |
| ManaHtml.GradientOfColor | tcg/lib/types/color.py:115-128 | the gradient depends on the colours only, not on the value |
| Strings.ReplaceAllSelf | tcg/lib/services/pipeline.py:159 | replacing a pattern by itself changes nothing, so `RegexReplacePipeline("", "")` leaves the text as it is |
| Strings.ReplaceAllIsSplitJoin | tcg/lib/services/pipeline.py:36-42 | `re.sub` of an escaped literal is `repl.join(s.split(pattern))` |
| Strings.ReplacePrefix | tcg/lib/services/pipeline.py:36-42 | an occurrence at the start is replaced and the scan goes on after it |
| Strings.ReplaceKeep | tcg/lib/services/pipeline.py:36-42 | text without the pattern's first character is copied through |
| Strings.ReplaceKeepSecond | tcg/lib/services/pipeline.py:36-42 | text without a two-character pattern's second character is copied through when the rest does not start with it |
| Strings.ReplaceStep | tcg/lib/services/pipeline.py:36-42 | where no occurrence starts, one character is copied and the scan goes on |
| Strings.ReplaceNone | tcg/lib/services/pipeline.py:36-42 | a text without the pattern's first character is left unchanged |
| Strings.ReplaceAbsent | tcg/lib/services/pipeline.py:36-42 | a text in which the pattern does not occur is left unchanged |
| Strings.ReplaceCharRemoves | tcg/lib/services/pipeline.py:160-164 | after a character is replaced by text without it, the character no longer occurs (`\|` to `<br>`, `~` to `{card__name}`) |
| Strings.WrapBrackets | tcg/lib/services/pipeline.py:147-148 | `<<w>>t` becomes the opening tag, `w`, the closing text and `t` |
| Strings.CloseWith | tcg/lib/services/pipeline.py:148-150 | after an opening tag, a pattern of two equal characters closing `w` is replaced, and nothing before it |
| Strings.SplitOn | tcg/lib/services/pipeline.py:91 | `split` always gives at least one piece |
| Strings.SplitJoinRoundTrip | tcg/lib/services/pipeline.py:91 | splitting on a separator and joining with it gives the text back |
| Strings.SplitPiecesFree | tcg/lib/services/pipeline.py:91 | no piece of a split contains the separator |
| Strings.SplitJoin | tcg/lib/services/parser/replacer.py:33 | joining pieces free of the separator's first character and splitting again gives the pieces back |
| Strings.NatToStringInjective | tcg/lib/services/pipeline.py:91 | different indices give different `arg{i}` names |
| Template.FormatBraceFree | tcg/lib/services/pipeline.py:103 | text without braces is copied through unchanged, whatever the context |
| Template.FormatPlain | tcg/lib/services/pipeline.py:103 | a text without braces formats to itself |
| Template.FormatField | tcg/lib/services/pipeline.py:103 | a replacement field becomes its value, which is not scanned again, or raises `KeyError` for a missing name |
| Template.FormatOneField | tcg/lib/services/parser/replacer.py:22-23 | `a{k}b` with brace-free `a` and `b` becomes `a`, the value and `b`, or raises `KeyError` |
| Template.FormatFieldThen | tcg/lib/services/pipeline.py:95 | a field after brace-free text: the text, the value, then the formatted rest, or `KeyError` |
| Template.FormatEscape | tcg/lib/services/pipeline.py:103 | formatting a text whose braces are doubled gives the text back in any context |
| Records.NameValues | tcg/lib/services/pipeline.py:54 | the list value the dict stores holds the names, in order |
| Records.Rendered | tcg/lib/services/pipeline.py:103 | `format(**data)` can insert exactly the values that have a text, and inserts that text |
| Records.RenderedStrings | tcg/lib/services/pipeline.py:103 | a string value is inserted as itself |
| Records.StrReprRoundTrip | tcg/lib/services/pipeline.py:103 | `repr` of a string (as a list prints its items) is a literal for it: the same quote at both ends, double exactly when the string holds `'` and no `"`, and a body whose escapes read back to the string |
| Records.EscapeRoundTrip | tcg/lib/services/pipeline.py:103 | reading back the escapes `repr` writes gives the characters written |
| Records.UnescapeChar | tcg/lib/services/pipeline.py:103 | one written character reads back to itself, and reading goes on after it |
| Records.StrReprPlain | tcg/lib/services/pipeline.py:103 | printable ASCII without `'` or backslash is written as itself between single quotes |
| Records.StrReprQuoteSwitch | tcg/lib/services/pipeline.py:103 | `it's` is written in double quotes |
| Records.StrReprEscapes | tcg/lib/services/pipeline.py:103 | a backslash is doubled and a newline becomes `\n` |
| Records.PrefixCancels | tcg/lib/services/pipeline.py:72-73 | two keys with the same prefix put in front are equal only when the keys are |
| Records.PrefixAvoids | tcg/lib/services/pipeline.py:72-73 | a key that does not start with the prefix is not in the prefixed dict |
| Records.PrefixAt | tcg/lib/services/pipeline.py:72-73 | each entry is found under its prefixed key, with its value |
| Records.PrefixUpdate | tcg/lib/services/pipeline.py:72-73 | prefixing a dict with one entry added is the prefixed dict with the prefixed entry added |
| Records.PrefixSpec | tcg/lib/services/pipeline.py:72-73 | the prefix goes on every key and only on them, every value stays with its key, and no two keys collide, so the size is kept |
| Records.SetOfInjective | tcg/lib/services/pipeline.py:72-73 | putting one prefix in front of distinct keys keeps them distinct |
| Records.Record.constructor | tcg/lib/services/pipeline.py:8 | a new pipeline dict holds the given entries |
| Keywords.ByNameSpec | tcg/lib/services/pipeline.py:79-81 | the dict's keys are exactly the definitions' names, and each maps to the last definition with that name |
| Keywords.ByNameDistinct | tcg/lib/services/pipeline.py:79-81 | with distinct names the dict has one entry per definition, each under its own name |
| Keywords.CatalogByName | tcg/lib/definitions/keywords.py:3-17 | the five catalog names are distinct and the dict maps each to its definition |
| Keywords.CatalogLookup | tcg/lib/definitions/keywords.py:3-17 | every catalog definition is found under its name, and only the catalog's names are keys |
| Keywords.BlockerTailPlain | tcg/lib/definitions/keywords.py:4-8 | after `<<tap>>` the `blocker` reminder has no angle bracket |
| KeywordMacros.ArgNamesDistinct | tcg/lib/services/pipeline.py:91 | different indices make different `arg<i>` names |
| KeywordMacros.ArgPieces | tcg/lib/services/pipeline.py:91 | splitting the arguments on `", "` gives at least one piece |
| KeywordMacros.ArgMap | tcg/lib/services/pipeline.py:91 | `arg<i>` is bound to piece i for every piece, and every key is such a name |
| KeywordMacros.ArgMapSpec | tcg/lib/services/pipeline.py:91 | no name is bound beyond the last piece |
| KeywordMacros.EmptyArgs | tcg/lib/services/pipeline.py:91 | empty arguments still bind `arg0`, to the empty string |
| KeywordMacros.OneArg | tcg/lib/services/pipeline.py:91 | arguments without `", "` bind exactly `arg0`, to the whole text |
| KeywordMacros.ContextPriority | tcg/lib/services/pipeline.py:94 | in `{**data, **args}` an argument hides a record field of the same name; every other name comes from the record |
| KeywordMacros.UnknownKeyword | tcg/lib/services/pipeline.py:87-88 | a name not in the catalog never raises: it becomes `k(UNKNOWN_KEYWORD_<name>)k` |
| KeywordMacros.PlainExpansion | tcg/lib/services/pipeline.py:89-95 | a definition whose texts have no replacement field comes out verbatim, with ` r(reminder)r` only when the `r` flag is set |
| KeywordMacros.FormatArgZero | tcg/lib/services/pipeline.py:93-95 | a display `lead{arg0}` gets the value of `arg0`; a reminder without fields comes out verbatim |
| KeywordMacros.FormatTwoFields | tcg/lib/services/pipeline.py:93-95 | a display `lead{arg0}` and a reminder with one field: both values inserted, or `KeyError` for the reminder's missing name |
| KeywordMacros.ArgZeroBound | tcg/lib/services/pipeline.py:91-94 | `arg0` is always bound, to the first piece of the arguments |
| KeywordMacros.BlockerExpansion | tcg/lib/definitions/keywords.py:4-8 | `blocker` has no placeholders: its display, and with `r` its reminder, come out verbatim |
| KeywordMacros.ArgZeroExpansion | tcg/lib/definitions/keywords.py:9-14 | `tribute` and `harvest` insert the first argument, which always exists; their reminders are verbatim |
| KeywordMacros.FirstExpansion | tcg/lib/definitions/keywords.py:15 | `kr.first` inserts both arguments, and raises `KeyError('arg1')` with fewer than two |
| KeywordMacros.FirstFormat | tcg/lib/definitions/keywords.py:15 | the `first` texts with their two fields formatted, or `KeyError('arg1')` |
| KeywordMacros.ArgOneBound | tcg/lib/services/pipeline.py:91-94 | `arg1` is bound exactly when there are two arguments or more, unless the record itself has an `arg1` field |
| KeywordMacros.ComplicatedExpansion | tcg/lib/definitions/keywords.py:16 | the reminder of `complicated` inserts the record's `cost__names` and raises `KeyError` without it |
| KeywordMacros.ComplicatedFormat | tcg/lib/definitions/keywords.py:16 | the `complicated` texts with their fields formatted, or `KeyError('cost__names')` |
| KeywordMacros.RecordOnly | tcg/lib/services/pipeline.py:94 | a name that does not start with `a` can only come from the record |
| KeywordMacros.BlockerPlain | tcg/lib/definitions/keywords.py:4-8 | the `blocker` texts have no replacement field |
| KeywordMacros.TributePlain | tcg/lib/definitions/keywords.py:9-13 | the `tribute` display is a brace-free lead then `{arg0}`, and its reminder has no field |
| KeywordMacros.HarvestPlain | tcg/lib/definitions/keywords.py:14 | the `harvest` display is a brace-free lead then `{arg0}`, and its reminder has no field |
| CommonStages.SubNoMatch | tcg/lib/services/pipeline.py:97 | `pattern.sub` returns a text in which the pattern matches nowhere unchanged |
| CommonStages.SubCopies | tcg/lib/services/pipeline.py:97 | text where no match starts is copied, and the scan goes on with the rest |
| CommonStages.SubFirstMatch | tcg/lib/services/pipeline.py:97 | a match at the start is replaced by what the replacement function returns, then the rest is scanned; an exception in the function makes the call raise |
| CommonStages.SubTotal | tcg/lib/services/pipeline.py:97 | a replacement function that accepts every match makes `sub` succeed on every text |
| CommonStages.UpdateText | tcg/lib/services/pipeline.py:97 | assigning a text field keeps the same dict object |
| CommonStages.UpdateTextSpec | tcg/lib/services/pipeline.py:97 | the assignment succeeds exactly when the field is a string and the rewrite does not raise; then only that field changes; otherwise the dict is left as it was |
| CommonStages.UpdateTextInPlace | tcg/lib/services/pipeline.py:97 | the record's fields become the updated dict, and the error is the rewrite's |
| CommonStages.ReplaceFields | tcg/lib/services/pipeline.py:40-43 | the replacement keeps the same dict object |
| CommonStages.ReplaceFieldsInPlace | tcg/lib/services/pipeline.py:40-43 | the loop over `fields` assigns each field in turn; its fields and error are those of the specification |
| CommonStages.ReplaceFieldsStops | tcg/lib/services/pipeline.py:40-43 | once a field raises, the later fields are not reached |
| CommonStages.ReplaceFieldsSpec | tcg/lib/services/pipeline.py:34-43 | on distinct string fields the replacement succeeds, replaces every occurrence in each listed field and leaves every other field as it was |
| CommonStages.ReplaceFieldsFails | tcg/lib/services/pipeline.py:40-42 | a missing field raises `KeyError` and a non-string one `TypeError`, with the dict left as it was |
| CommonStages.ReplaceNothing | tcg/lib/services/pipeline.py:159 | `RegexReplacePipeline("", "")` leaves a record with a string text as it was |
| CommonStages.Strip | tcg/lib/services/pipeline.py:157 | `strip()` leaves no whitespace at either end and never lengthens the text |
| CommonStages.LineLength | tcg/lib/services/pipeline.py:156 | `.*` runs to the first newline or the end |
| CommonStages.LastClose | tcg/lib/services/pipeline.py:156 | the greedy `.*` backs off to the last `)l` of the line |
| CommonStages.ListFind | tcg/lib/services/pipeline.py:156 | a list match is non-empty and fits in the text |
| CommonStages.ListItems | tcg/lib/services/pipeline.py:157 | one `<li>` item per comma-separated piece, stripped, in order |
| CommonStages.ListFindSpec | tcg/lib/services/pipeline.py:155-157 | `l(args)l` at the end of a line is matched in full, with `args` as the group |
| CommonStages.ListRewriteInPlace | tcg/lib/services/pipeline.py:155-157 | the list rewrite of the text field, on the record in place |
| CommonStages.FormatStage | tcg/lib/services/pipeline.py:101-104 | `FormatPipeline` keeps the same dict object |
| CommonStages.FormatStageSpec | tcg/lib/services/pipeline.py:101-104 | a single `{key}` in brace-free text is replaced by the text of that entry, or `KeyError` leaves the dict as it was |
| CommonStages.FormatInPlace | tcg/lib/services/pipeline.py:101-104 | `FormatPipeline` on a record in place: fields and error as specified |
| CommonStages.PrefixStage | tcg/lib/services/pipeline.py:139 | the prefix stage never raises, returns a new dict and leaves its argument alone |
| CommonStages.PrefixStageSpec | tcg/lib/services/pipeline.py:72-73 | every key gets the prefix, with its value, and nothing else is in the new dict |
| CommonStages.PrefixRecord | tcg/lib/services/pipeline.py:139 | the prefix stage builds a fresh record holding the prefixed dict |
| Pipelines.Collect | tcg/lib/services/pipeline.py:19-20 | the batch succeeds exactly when every call does, and then returns each call's dict in order |
| Pipelines.CollectFirstError | tcg/lib/services/pipeline.py:19-20 | a failed batch raises the exception of its first failing call |
| Pipelines.CollectStops | tcg/lib/services/pipeline.py:19-20 | when the calls before `i` succeed and call `i` raises, the batch raises that exception |
| Pipelines.CollectAll | tcg/lib/services/pipeline.py:19-20 | when every call succeeds, the batch returns their dicts |
| Pipelines.ChainPrefixStep | tcg/lib/services/pipeline.py:27-31 | one more turn of the loop runs the next stage on what the stages so far returned |
| Pipelines.SeqThrough | tcg/lib/services/pipeline.py:29-30 | after a stage that does not raise, the next stage decides the result and the error; the caller's dict is changed only while the same dict is passed along |
| Pipelines.ChainUnit | tcg/lib/services/pipeline.py:27-31 | an empty `ConcatPipeline` returns its argument untouched; a one-stage one behaves as that stage |
| Pipelines.ChainAppend | tcg/lib/services/pipeline.py:27-31 | running `a + b` runs `a`, then `b` on what `a` returned, unless `a` raised |
| Pipelines.Flatten | tcg/lib/services/pipeline.py:27-31 | a nested `ConcatPipeline` behaves as its stages spliced in place |
| Pipelines.StepsAppend | tcg/lib/services/pipeline.py:27-31 | folding primitive stages over a concatenation is folding the first part, then the second |
| Pipelines.ChainIsSteps | tcg/lib/services/pipeline.py:27-31 | however the pipelines are nested, a run is the run of the primitive stages one after the other |
| Pipelines.FreshFirst | tcg/lib/services/pipeline.py:27-31 | a pipeline whose first stage returns a new dict and leaves its argument alone never changes the caller's dict |
| Pipelines.ChainErrorStops | tcg/lib/services/pipeline.py:27-31 | the stages after the first one that raises are never run |
| Pipelines.StepsOf | tcg/lib/services/pipeline.py:24-25 | a list of primitive stages, one per primitive, in order |
| Pipelines.PrimitivesOfSteps | tcg/lib/services/pipeline.py:24-25 | a list of primitive stages lists exactly those primitives |
| Pipelines.PrimitivesSnoc | tcg/lib/services/pipeline.py:24-25 | a nested pipeline at the end contributes its primitives |
| Pipelines.FourGroups | tcg/lib/services/pipeline.py:166-168 | a `ConcatPipeline` of four `ConcatPipeline`s runs their stages one after the other |
| Pipelines.FreshFirstNested | tcg/lib/services/pipeline.py:137-143 | when the first stage of the first group returns a new dict, the caller's dict is never changed |
| Pipelines.StepsHead | tcg/lib/services/pipeline.py:29-30 | the first stage runs on the argument and the others on its result |
| Pipelines.ThreeSteps | tcg/lib/services/pipeline.py:29-30 | three stages in a row return the dict of the first one that raises, or of the last one |
| Pipelines.LaterRaises | tcg/lib/services/pipeline.py:29-30 | when the stages so far run through and the next one raises, the whole run raises that exception |
| Pipelines.GroupRaises | tcg/lib/services/pipeline.py:166-168 | the same for the first stage of the second of four groups |
| Pipelines.FourGroupsRaise | tcg/lib/services/pipeline.py:166-168 | an exception of the first stage of the second group, after the first group ran through, is the exception of the whole pipeline |
| Pipelines.PrimitivesAppend | tcg/lib/services/pipeline.py:24-25 | splicing nested pipelines is compatible with list concatenation |
| Pipelines.NestedPrimitives | tcg/endtoend.py:117-118 | a `ConcatPipeline` whose first stage is a `ConcatPipeline` runs the inner stages, then the others |
| Pipelines.ThreeThrough | tcg/lib/services/pipeline.py:29-30 | three stages that each run through return the third one's dict without an exception |
| Pipelines.PrimitivesFour | tcg/lib/services/pipeline.py:166-168 | the four groups of `CardPipeline` list, spliced, exactly their four lists of stages |
| Pipelines.PrimitivesOne | tcg/lib/services/pipeline.py:24-25 | a pipeline holding one nested pipeline lists that pipeline's primitives |
| CurrentStages.ManaEnrichSpec | tcg/lib/services/pipeline.py:46-57 | the enrichment never changes its argument; it succeeds exactly when `card__cost` is a string that parses as a cost, and when it raises, the caller still holds the dict it passed |
| CurrentStages.ManaEnrichSuccess | tcg/lib/services/pipeline.py:50-57 | a parsed cost has a colour, and the new dict is `data` merged with the six entries: its keys are the old ones plus the six, and every other entry is copied |
| CurrentStages.ManaEnrichFrame | tcg/lib/services/pipeline.py:50-57 | whatever happens, the dict returned has only the old keys and the six new ones, and every other entry is copied |
| CurrentStages.EnrichmentSpec | tcg/lib/services/pipeline.py:48-57 | for a cost with colours, the six entries are the badge, the `1` badge, the info, the colour names, the first colour and the gradient, with the ordered colour string non-empty and one letter per colour |
| CurrentStages.EnrichmentOf | tcg/lib/services/pipeline.py:50-57 | once the badge, gradient, name list and first colour have been computed, the enrichment is the dict display built from them |
| CurrentStages.EnrichmentEntries | tcg/lib/services/pipeline.py:50-57 | the dict display has exactly the six keys with the values it was given |
| CurrentStages.Strs | tcg/lib/services/pipeline.py:130 | `" ".join` accepts the list exactly when every item is a string, and then joins those strings |
| CurrentStages.Displays | tcg/lib/services/pipeline.py:131 | the lookup succeeds exactly when every name is a key of `DISPLAY_MAP`, and gives each name's display in order; otherwise a missing name raises `KeyError` |
| CurrentStages.Typeline | tcg/lib/services/pipeline.py:124-132 | the typeline stage updates the dict it was given and returns that same dict |
| CurrentStages.TypelineSpec | tcg/lib/services/pipeline.py:124-132 | for a known or empty card type, the three keys are set: the list of type names present, the names joined by spaces, their display forms joined by spaces; every other entry is kept |
| CurrentStages.TypelineFrame | tcg/lib/services/pipeline.py:124-132 | whether or not it raises, the stage adds only its three keys and changes no other entry |
| CurrentStages.TypeNamesKnown | tcg/lib/services/pipeline.py:115-122 | every name in the type list of a known or empty card type has a display form |
| CurrentStages.TypeListNames | tcg/lib/services/pipeline.py:126-128 | the stored list holds exactly the type names, in the order quick, leader, card type, each present when truthy |
| CurrentStages.TypelineFailures | tcg/lib/services/pipeline.py:128-131 | an unknown card type raises `KeyError` after the list and the names are stored; a non-string one raises `TypeError` in the join, after the list alone |
| CurrentStages.TypelineExample | tcg/lib/services/pipeline.py:115-131 | a quick creature that is no leader gets the type names `quick creature` and the typeline `âš¡Quick Creature` |
| CurrentStages.SlashIndex | tcg/lib/services/pipeline.py:78 | the index of the first `/` of the text, or none when the text has no `/` |
| CurrentStages.NameLength | tcg/lib/services/pipeline.py:78 | `[^\s\/]+` is greedy: the count of characters before the first whitespace, and no whitespace inside |
| CurrentStages.Body | tcg/lib/services/pipeline.py:78 | a matched body ends on `/)` and is not empty |
| CurrentStages.KeywordFind | tcg/lib/services/pipeline.py:78 | a keyword match starts with `(k` and ends with `/)`, and fits in the text |
| CurrentStages.KeywordFinder | tcg/lib/services/pipeline.py:78 | keyword matches are non-empty and fit in the text, so `sub` can scan with them |
| CurrentStages.LowerName | tcg/lib/definitions/keywords.py:3-17 | a non-empty lower-case word is a valid keyword name |
| CurrentStages.SlashIndexOf | tcg/lib/services/pipeline.py:78 | the first `/` after a slash-free text is right after it |
| CurrentStages.NameLengthStops | tcg/lib/services/pipeline.py:78 | the name group stops at the first whitespace or at the end |
| CurrentStages.BodySpec | tcg/lib/services/pipeline.py:78 | `name args/)` is matched with the name and the arguments as written |
| CurrentStages.BareBodySpec | tcg/lib/services/pipeline.py:78 | `name/)` is matched with the name and empty arguments |
| CurrentStages.HeadSome | tcg/lib/services/pipeline.py:78 | `(k.` or `(kr.` followed by a body is matched as a call with that flag |
| CurrentStages.KeywordFindSpec | tcg/lib/services/pipeline.py:78 | a well-formed call is matched in full, with its flag, name and arguments as written |
| CurrentStages.CallTextSplit | tcg/lib/services/pipeline.py:78 | a call's spelling is its head followed by its body |
| CurrentStages.KeywordFindBare | tcg/lib/services/pipeline.py:78 | a call without arguments is matched in full with empty arguments |
| CurrentStages.KeywordFindSound | tcg/lib/services/pipeline.py:78 | conversely, every match is `(k.` or `(kr.`, a name free of whitespace and `/`, then either `/)` at once with empty arguments or one whitespace character, arguments free of `/` and `/)` |
| CurrentStages.BodySound | tcg/lib/services/pipeline.py:78 | the part after the head is the name, an optional whitespace character and the arguments, ending where `/)` starts |
| CurrentStages.BareCallTextSplit | tcg/lib/services/pipeline.py:78 | an argument-free call's spelling is its head followed by its body |
| CurrentStages.KeywordReplace | tcg/lib/services/pipeline.py:83-98 | the keyword stage updates the dict it was given and returns that same dict |
| CurrentStages.KeywordReplaceSpec | tcg/lib/services/pipeline.py:83-98 | a text starting with a call becomes the call's expansion followed by the replaced rest; an exception in either leaves the record as it was and is raised |
| CurrentStages.AutoReminder | tcg/lib/services/pipeline.py:107-111 | the reminder stage updates the dict it was given and returns that same dict |
| CurrentStages.AutoReminderSpec | tcg/lib/services/pipeline.py:107-111 | the reminder is added in front of the text exactly when the cost has two or more colours, and no other entry changes |
| CurrentStages.ManaFind | tcg/lib/types/color.py:77 | a cost match is non-empty and fits in the text |
| CurrentStages.ManaFinder | tcg/lib/types/color.py:77 | cost matches are non-empty and fit in the text, so `sub` can scan with them |
| CurrentStages.ManaReplace | tcg/lib/services/pipeline.py:60-67 | the cost stage updates the dict it was given and returns that same dict |
| CurrentStages.ManaTokenSpec | tcg/lib/services/pipeline.py:62-66 | a cost token at the start of the text becomes the badge of its value and colours, which always exists, followed by the replaced rest |
| CurrentStages.ManaFindToken | tcg/lib/types/color.py:77 | `(value letters)` is matched in full, with that value and the colours of its letters, which are not empty |
| CurrentStages.ManaEnrichRecord | tcg/lib/services/pipeline.py:46-57 | the enrichment on records: a fresh record on success, the argument itself, unchanged, when it raises |
| CurrentStages.TypelineInPlace | tcg/lib/services/pipeline.py:124-132 | the typeline stage on a record, one assignment at a time: its fields and error are those of the specification |
| CurrentStages.KeywordReplaceInPlace | tcg/lib/services/pipeline.py:83-98 | the keyword stage on a record in place: fields and error as specified |
| CurrentStages.AutoReminderInPlace | tcg/lib/services/pipeline.py:107-111 | the reminder stage on a record in place: fields and error as specified |
| CurrentStages.ManaReplaceInPlace | tcg/lib/services/pipeline.py:60-67 | the cost stage on a record in place: fields and error as specified |
| CurrentPipeline.MeaningIsStep | tcg/lib/services/pipeline.py:135-168 | the meaning handed to the pipeline is the call of each primitive stage of `CardPipeline` |
| CurrentPipeline.StepInPlace | tcg/lib/services/pipeline.py:135-168 | one primitive stage on a record: the record as the stage leaves it, the record returned (itself for an in-place stage, a fresh one for a dict-building one) and the exception, all those of the specification |
| CurrentPipeline.Apply | tcg/lib/services/pipeline.py:27-31 | the loop `result = pipeline(result)` over nested pipelines on records: the caller's record, the record returned and the exception are those of the specification |
| CurrentPipeline.FieldsOf | tcg/lib/services/pipeline.py:19-20 | the dict of each record of a list, in order |
| CurrentPipeline.Tracks | tcg/lib/services/pipeline.py:19-20 | the call of the stage on each dict of a list, each on its own |
| CurrentPipeline.RunAllSpec | tcg/lib/services/pipeline.py:19-20 | the batch succeeds exactly when every record does, then lists each result in order; otherwise it raises the exception of the first record that fails, after the ones before it succeeded |
| CurrentPipeline.RunMultiple | tcg/lib/services/pipeline.py:19-20 | `run_multiple` on distinct records: an error exactly when the specification fails, with its exception; otherwise the returned records hold the specified dicts. Every record the loop reaches, the failing one included, is left as its stage left it, and the records after a failure keep their fields |
| CurrentPipeline.ApplyAt | tcg/lib/services/pipeline.py:20 | `self(data)` on one record of a list of distinct records changes that record as the stage does and leaves the others alone |
| CurrentPipeline.CardPipelineFlat | tcg/lib/services/pipeline.py:135-171 | however the four sub-pipelines nest, `CardPipeline` runs its primitive stages one after the other |
| CurrentPipeline.CardStageOrder | tcg/lib/services/pipeline.py:137-168 | nineteen stages: the three enrichments, the keyword stage, the reminder, twelve HTML rewrites ending with the mana tokens, then `~` and the format |
| CurrentPipeline.CardPipelineKeepsInput | tcg/lib/services/pipeline.py:137-143 | the caller's dict is never changed: the prefix stage builds a new dict and every later stage works on that one |
| CurrentPipeline.EnrichFrame | tcg/lib/services/pipeline.py:137-143 | after the enrichments no key is `cost__names`, and the card text is the `text` column, untouched |
| CurrentPipeline.CardPrefix | tcg/lib/services/pipeline.py:139 | after the `card__` prefix no key is `cost__names`, and `card__text` holds the `text` column |
| CurrentPipeline.MeaningOfPrefix | tcg/lib/services/pipeline.py:139 | the prefix stage is the prefix helper |
| CurrentPipeline.MeaningOfManaEnrich | tcg/lib/services/pipeline.py:140 | the mana-cost stage is `ManaCostEnrichmentPipeline` |
| CurrentPipeline.MeaningOfTypeline | tcg/lib/services/pipeline.py:141 | the typeline stage is `TypelineEnrichmentPipeline` |
| CurrentPipeline.MeaningOfKeywords | tcg/lib/services/pipeline.py:144 | the keyword stage is `KeywordReplacePipeline` over the catalog |
| CurrentPipeline.KeysAvoid | tcg/lib/services/pipeline.py:50-57 | neither enrichment writes `cost__names` or the card text |
| CurrentPipeline.ComplicatedStageFails | tcg/lib/definitions/keywords.py:16 | the keyword stage on a record without `cost__names` whose text starts with a `kr.complicated` call raises `KeyError` |
| CurrentPipeline.KeywordStageRaises | tcg/lib/services/pipeline.py:137-144 | after the enrichments, the keyword stage raises `KeyError` on such a text, since nothing writes `cost__names` |
| CurrentPipeline.CurrentComplicatedFails | tcg/lib/services/pipeline.py:135-171 | `CardPipeline` over the catalog raises `KeyError` for `cost__names` on a card whose text starts with a `kr.complicated` call |
| CurrentPipeline.KeywordStageDecides | tcg/lib/services/pipeline.py:166-168 | when the enrichment runs through and the keyword stage raises, the card pipeline raises that exception |
| CurrentPipeline.ActivationSplit | tcg/lib/services/pipeline.py:147 | the opening activation tag holds no `>` before its end |
| CurrentPipeline.BlockerTapSpan | tcg/lib/services/pipeline.py:147-148 | the blocker reminder's `<<tap>>` becomes an activation-cost span and the rest is kept |
| EarlyStages.ManaLetterIsName | tcg/endtoend.py:45-47 | the colour letters of the pattern are exactly the keys of `MANA_NAMES` |
| EarlyStages.ManaScan | tcg/endtoend.py:47 | a cost match is non-empty and fits in the text |
| EarlyStages.ManaFinder | tcg/endtoend.py:47 | cost matches are non-empty and fit in the text, so `sub` can scan with them |
| EarlyStages.LetterKind | tcg/endtoend.py:45-47 | a colour letter is neither a digit nor `)` |
| EarlyStages.ManaScanToken | tcg/endtoend.py:47 | every token (one or two digits, a letter, an optional second letter, in parentheses) at the start of a text is matched in full, with its groups as written |
| EarlyStages.ManaScanSound | tcg/endtoend.py:47 | conversely, whatever the pattern matches is a token, and the matched text is its spelling |
| EarlyStages.InformationSpec | tcg/endtoend.py:50-59 | for a token, `mana_information` gives the value, the first name, the second name or `None`, the name list of one or two names and their join with spaces |
| EarlyStages.InputOrder | tcg/endtoend.py:57-58 | there is no canonical order: `(2AD)` and `(2DA)` list their names in the order written |
| EarlyStages.JoinTwo | tcg/endtoend.py:58 | two names joined by a space |
| EarlyStages.EarlyKeysAvoid | tcg/endtoend.py:66 | the enrichment writes neither the card text nor the card cost |
| EarlyStages.ManaEnrichSpec | tcg/endtoend.py:62-66 | the argument is never changed; the stage succeeds exactly when `card__cost` is a string that starts with a token, and when it raises the caller still holds the dict it passed |
| EarlyStages.InformationPrefixed | tcg/endtoend.py:66 | the prefixed information is the five entries under their `cost__` keys |
| EarlyStages.ManaEnrichSuccess | tcg/endtoend.py:62-66 | a cost starting with a token gives a new dict: the old entries plus the five `cost__` entries of the token |
| EarlyStages.MergeFive | tcg/endtoend.py:66 | `data \| {...}` with the five entries: the old keys plus the five, each other entry copied |
| EarlyStages.ManaEnrichFrame | tcg/endtoend.py:62-66 | whatever happens, the dict returned has only the old keys and the five entries, and every other entry is copied |
| EarlyStages.TokensAccepted | tcg/endtoend.py:71-73 | every match is a token whose information exists, so `_repl` never raises |
| EarlyStages.ManaText | tcg/endtoend.py:75 | the rewrite of a text never raises |
| EarlyStages.ManaTextToken | tcg/endtoend.py:71-75 | a token at the start becomes the span of its names, in input order, around its value, and the scan goes on after it |
| EarlyStages.ManaTextPlain | tcg/endtoend.py:75 | a text without `(` comes back unchanged |
| EarlyStages.ManaReplace | tcg/endtoend.py:69-77 | the cost stage updates the dict it was given and returns that same dict |
| EarlyStages.ManaReplaceSpec | tcg/endtoend.py:69-77 | a missing or non-string text raises with the dict as it was; a missing or non-string cost raises after the text was rewritten; otherwise both are rewritten and nothing else changes |
| EarlyStages.LowerRun | tcg/endtoend.py:88 | the name group's run fits in the text |
| EarlyStages.LowerRunSpec | tcg/endtoend.py:88 | `[a-z]+` is greedy: lower-case letters, up to the first other character |
| EarlyStages.OpenRun | tcg/endtoend.py:88 | the argument group's run fits in the text |
| EarlyStages.OpenRunSpec | tcg/endtoend.py:88 | `[^\)]*` is greedy: no `)`, up to the first one |
| EarlyStages.Body | tcg/endtoend.py:88 | a matched body is non-empty and fits in the text |
| EarlyStages.KeywordFind | tcg/endtoend.py:88 | a keyword match is non-empty and fits in the text |
| EarlyStages.KeywordFinder | tcg/endtoend.py:88 | keyword matches are non-empty and fit, so `sub` can scan with them |
| EarlyStages.LowerRunStops | tcg/endtoend.py:88 | the name group stops at the first character that is not a lower-case letter |
| EarlyStages.OpenRunStops | tcg/endtoend.py:88 | the argument group stops at the first `)` |
| EarlyStages.BodySpec | tcg/endtoend.py:88 | `name(args)` is matched with that name and those arguments |
| EarlyStages.BodyAt | tcg/endtoend.py:88 | the pieces of a body's spelling |
| EarlyStages.BodySound | tcg/endtoend.py:88 | whatever the body pattern matches is a well-formed body, spelled by the matched text |
| EarlyStages.SliceFour | tcg/endtoend.py:88 | a matched prefix cut into name, `(`, arguments and `)` |
| EarlyStages.HeadFound | tcg/endtoend.py:88 | a match after the head is a match of the body |
| EarlyStages.KeywordFindSpec | tcg/endtoend.py:88 | a well-formed call is matched in full, with its flag, name and arguments as written |
| EarlyStages.CallFound | tcg/endtoend.py:88 | the call is found as soon as its body is |
| EarlyStages.CallTextSplit | tcg/endtoend.py:88 | a call's spelling is its head followed by its body |
| EarlyStages.KeywordFindSound | tcg/endtoend.py:88 | conversely, whatever the pattern matches is a well-formed call, spelled by the matched text |
| EarlyStages.HeadOf | tcg/endtoend.py:88 | a match starts with the head its flag names |
| EarlyStages.KeywordReplace | tcg/endtoend.py:93-108 | the keyword stage updates the dict it was given and returns that same dict |
| EarlyStages.KeywordReplaceSpec | tcg/endtoend.py:93-108 | a text starting with a call becomes the call's expansion followed by the replaced rest; an exception in either leaves the record as it was and is raised |
| EarlyStages.ManaEnrichRecord | tcg/endtoend.py:62-66 | the enrichment on records: a fresh record on success, the argument itself, unchanged, when it raises |
| EarlyStages.ManaReplaceInPlace | tcg/endtoend.py:69-77 | the two assignments on a record in place: fields and error as specified |
| EarlyStages.KeywordReplaceInPlace | tcg/endtoend.py:93-108 | the keyword stage on a record in place: fields and error as specified |
| EarlyPipeline.StepInPlace | tcg/endtoend.py:22-139 | one primitive stage of this generation on a record: the record as the stage leaves it, the record returned and the exception, all those of the specification |
| EarlyPipeline.Apply | tcg/endtoend.py:26-30 | the loop `result = pipeline(result)` over nested pipelines on records, stopped by the first exception, as specified |
| EarlyPipeline.PseudoFlat | tcg/endtoend.py:117-118 | `to_pseudo_pipeline` runs the prefix, the mana cost and keyword expansion one after the other |
| EarlyPipeline.PseudoPrimitives | tcg/endtoend.py:117-118 | `to_pseudo_pipeline` nests exactly those three primitive stages |
| EarlyPipeline.FormattedFlat | tcg/endtoend.py:117-139 | however the four pipelines nest, `to_formatted_pipeline` runs its primitive stages one after the other |
| EarlyPipeline.StageOrder | tcg/endtoend.py:117-139 | seventeen stages: the prefix, the mana cost, keyword expansion, twelve rewrites ending with the mana tokens, then `~` and the format |
| EarlyPipeline.KeepsInput | tcg/endtoend.py:117 | the caller's dict is never changed: the prefix builds a new dict and every later stage works on it |
| EarlyPipeline.MeaningOfPrefix | tcg/endtoend.py:117 | the first stage is the prefix helper |
| EarlyPipeline.MeaningOfManaEnrich | tcg/endtoend.py:117 | the second stage is `ManaCostEnrichment` |
| EarlyPipeline.MeaningOfKeywords | tcg/endtoend.py:118 | the keyword stage is `KeywordReplacePipeline(KEYWORDS)` |
| EarlyPipeline.CardPrefix | tcg/endtoend.py:80-83 | after the `card__` prefix, the text and the cost are found under their new keys |
| EarlyPipeline.EnrichCard | tcg/endtoend.py:62-66 | a card whose cost starts with a token runs through the enrichment: the text is kept and `cost__names` holds the letters' names in input order |
| EarlyPipeline.ComplicatedShape | tcg/lib/definitions/keywords.py:16 | `kr.complicated(args)` with `)`-free arguments is a call the pattern matches |
| EarlyPipeline.NoCalls | tcg/endtoend.py:88 | a text without `k` holds no keyword call and is kept |
| EarlyPipeline.EarlyComplicatedExpands | tcg/endtoend.py:117-118 | in this generation `kr.complicated` expands: the reminder shows the cost's colour names in input order, since the enrichment writes `cost__names` |
| EarlyPipeline.KeywordSpanKeepsParen | tcg/endtoend.py:128-129 | the opening rewrite drops the `(` of `k(`, but `)k` becomes `)</span>`, so a keyword's display text is followed by a stray `)` |
| Grammar.Run | tcg/lib/services/parser/grammar.py:15-16 | a greedy run: every character in it satisfies the class, and the next one does not |
| Grammar.RunStops | tcg/lib/services/parser/grammar.py:15-16 | a run stops right after a prefix of class characters followed by a character outside the class |
| Grammar.ManaToken | tcg/lib/services/parser/grammar.py:23 | a matched cost consumes input |
| Grammar.Enclosed | tcg/lib/services/parser/grammar.py:38-43 | a matched ability consumes input |
| Grammar.Keyword | tcg/lib/services/parser/grammar.py:29-35 | a matched keyword consumes input |
| Grammar.BulletList | tcg/lib/services/parser/grammar.py:46 | a matched list consumes input |
| Grammar.Atom | tcg/lib/services/parser/grammar.py:48 | a matched atom consumes input, so the repetitions end |
| Grammar.TextLine | tcg/lib/services/parser/grammar.py:49 | a matched line consumes input |
| Grammar.TextList | tcg/lib/services/parser/grammar.py:28 | a matched argument list consumes input |
| Grammar.MoreLines | tcg/lib/services/parser/grammar.py:50 | `ZeroOrMore` always matches, possibly nothing |
| Grammar.Leads | tcg/lib/services/parser/grammar.py:17-48 | each alternative of `ATOM` can match only at its own first character |
| Grammar.AtomAlternative | tcg/lib/services/parser/grammar.py:48 | the first alternative of `ATOM` that matches, or raises, decides the atom |
| Grammar.NoLineAtEnd | tcg/lib/services/parser/grammar.py:48-49 | no atom, and so no line, starts at the end, at `\|`, `,`, `)`, `]` or `>>` |
| Grammar.WordSpec | tcg/lib/services/parser/grammar.py:16 | `WORD` matches exactly when the text starts with a word character, and then takes the longest run of them, which holds none of `( ) < > [ ] ~ \| ,` |
| Grammar.ManaTokenComplete | tcg/lib/services/parser/grammar.py:23 | every cost token (digits, then one or more colour letters, repeats allowed, in parentheses) is matched with its value and letters, leaving the text after it |
| Grammar.ManaTokenSound | tcg/lib/services/parser/grammar.py:23 | conversely, whatever is matched is such a token followed by the text left over |
| Grammar.RunPrefix | tcg/lib/services/parser/grammar.py:15 | the characters of a run's prefix satisfy the class |
| Grammar.RejoinToken | tcg/lib/services/parser/grammar.py:23 | a text cut around a matched token is the token's spelling followed by the rest |
| Grammar.ManaTokenExamples | tcg/lib/services/parser/grammar.py:15-23 | `X` is not a number here, and repeated letters are kept: `(2DD)` is read with colours `DD` |
| Grammar.CardNameAtom | tcg/lib/services/parser/grammar.py:17 | `~` is read as the `{name}` field |
| Grammar.AbilitySpans | tcg/lib/services/parser/grammar.py:38-43 | the activation and trigger templates put the rendered line inside their span |
| Grammar.TemplatePieces | tcg/lib/services/parser/grammar.py:39-42 | the ability templates are brace-free text around the one field `text` |
| Grammar.RenderList | tcg/lib/services/parser/grammar.py:28 | a rendered argument list has one item per line |
| Grammar.PrintNodeStart | tcg/lib/services/parser/grammar.py:48 | a printed atom is never empty, and starts with a word character only when it is a word |
| Grammar.NodeRoundTrip | tcg/lib/services/parser/grammar.py:48 | a printed atom is read back as its rendering, or raises what its rendering raises |
| Grammar.ListAtomTrip | tcg/lib/services/parser/grammar.py:46-48 | the same for a bullet list |
| Grammar.KeywordAtomTrip | tcg/lib/services/parser/grammar.py:35-48 | the same for a keyword call |
| Grammar.ManaAtomTrip | tcg/lib/services/parser/grammar.py:24-48 | the same for a mana cost: it becomes its badge |
| Grammar.ActivatedAtomTrip | tcg/lib/services/parser/grammar.py:38-48 | the same for an activated ability |
| Grammar.TriggeredAtomTrip | tcg/lib/services/parser/grammar.py:41-48 | the same for a triggered ability |
| Grammar.WordAtomTrip | tcg/lib/services/parser/grammar.py:16-48 | the same for a word not followed by a word character |
| Grammar.ListNodeTrip | tcg/lib/services/parser/grammar.py:46 | `>l(items)` is read back as the list of the rendered items, or raises |
| Grammar.KeywordNodeTrip | tcg/lib/services/parser/grammar.py:35 | a printed keyword call is read back as the expansion of its rendered arguments, or raises |
| Grammar.NoArgsTrip | tcg/lib/services/parser/grammar.py:35 | `>k.name()` is handed to the expansion without arguments |
| Grammar.ArgsTrip | tcg/lib/services/parser/grammar.py:35 | `>k.name(args)` is handed the rendered arguments |
| Grammar.KeywordHead | tcg/lib/services/parser/grammar.py:29-34 | `>k.name(` or `>kr.name(` is read as the name and the flag |
| Grammar.ReminderHead | tcg/lib/services/parser/grammar.py:29-34 | `>kr.name(` sets the reminder flag |
| Grammar.PlainHead | tcg/lib/services/parser/grammar.py:29-34 | `>k.name(` leaves the flag unset |
| Grammar.CallAfterFlag | tcg/lib/services/parser/grammar.py:32-33 | after the flag, the dot and the lower-case name are read |
| Grammar.HeadRest | tcg/lib/services/parser/grammar.py:33 | the name's run stops at its `(` |
| Grammar.EnclosedTrip | tcg/lib/services/parser/grammar.py:38-43 | an ability printed between its brackets is read back as the template around its rendered line, or raises |
| Grammar.EnclosedStep | tcg/lib/services/parser/grammar.py:38-43 | once the inner line has been read up to the closing text, the ability is formatted, or raises the line's exception |
| Grammar.PhraseRoundTrip | tcg/lib/services/parser/grammar.py:49 | a printed line is read back as its rendering up to a place where lines stop |
| Grammar.AtomsRoundTrip | tcg/lib/services/parser/grammar.py:49 | the same for a non-empty sequence of atoms |
| Grammar.LastAtomTrip | tcg/lib/services/parser/grammar.py:49 | the same for a line's last atom |
| Grammar.MoreAtomsTrip | tcg/lib/services/parser/grammar.py:49 | the same for an atom followed by more of the line |
| Grammar.LineLast | tcg/lib/services/parser/grammar.py:49 | `OneOrMore(ATOM)` stops where no further atom matches |
| Grammar.LineStep | tcg/lib/services/parser/grammar.py:49 | `Combine` joins the first atom with the rest of the line, and an exception in either is the line's |
| Grammar.ListRoundTrip | tcg/lib/services/parser/grammar.py:28 | a printed argument list is read back up to its closing parenthesis, one item per line, commas dropped |
| Grammar.MoreRoundTrip | tcg/lib/services/parser/grammar.py:50 | printed further lines are read back, each `\|` becoming `<br>` |
| Grammar.MoreConsTrip | tcg/lib/services/parser/grammar.py:19-50 | the same after at least one `\|` |
| Grammar.MoreStep | tcg/lib/services/parser/grammar.py:19-50 | after one `\|` and its line, the repetition goes on, or raises the line's exception |
| Grammar.TextRoundTrip | tcg/lib/services/parser/grammar.py:50 | printed card text is read back as its rendering; what follows where no further line starts is left over |
| Grammar.ParseTextRoundTrip | tcg/lib/services/parser/parser.py:9-13 | `parse_text` of printed card text is its rendering, whatever follows where no further line starts |
| Grammar.ParseTextNoLine | tcg/lib/services/parser/parser.py:9-13 | the empty text and text starting where a line stops raise `ParseException` |
| Grammar.ParseCostSpec | tcg/lib/services/parser/parser.py:15-16 | `parse_cost` succeeds exactly when the text starts with a cost token, and then gives the dict of its value and letters |
| Grammar.AbilityStopsAtBar | tcg/lib/services/parser/grammar.py:38-50 | a `\|` ends the line inside `<<...>>`, so `<<a\|b>>` does not parse |
| Grammar.BarInsideAbility | tcg/lib/services/parser/grammar.py:38-50 | an ability opened before a word and a `\|` is never closed, and the text does not parse |
| Grammar.AtomAngle | tcg/lib/services/parser/grammar.py:48 | an atom starting with `<` can only be an activated ability |
| Grammar.TrailingBarsDropped | tcg/lib/services/parser/parser.py:9-13 | what follows the last line is dropped: `a\|\|b` keeps only `a` |
| Grammar.SinglePhrase | tcg/lib/services/parser/grammar.py:49 | a line of one atom is printed and rendered as that atom |
| Grammar.TwoLines | tcg/lib/services/parser/grammar.py:19-50 | two lines are written with a `\|` between them and rendered with a `<br>` |
| Replacer.FormatReplaceOne | tcg/lib/services/parser/replacer.py:17-23 | a template with one field between brace-free text substitutes that token's text, whatever it holds |
| Replacer.ClassList | tcg/lib/services/parser/replacer.py:32 | one class name per colour letter, in the letters' order |
| Replacer.ColorClassesSplit | tcg/lib/services/parser/replacer.py:32-33 | splitting the class string on spaces gives back one class per letter, repeats included |
| Replacer.ManaDictElement | tcg/lib/services/parser/replacer.py:35-36 | the dict form has exactly the keys `value`, `color_classes` and `element`; its element is what the plain form returns |
| Replacer.JoinQuoteFree | tcg/lib/services/parser/replacer.py:33 | joining quote-free class names gives a quote-free string |
| Replacer.ManaElementInjective | tcg/lib/services/parser/replacer.py:34 | the badge determines its value and its class string |
| Replacer.ClassesOfElement | tcg/lib/services/parser/replacer.py:34 | two badge heads agree on the class string and on what follows it |
| Replacer.ValueOfTail | tcg/lib/services/parser/replacer.py:34 | the badge's tail determines the value |
| Replacer.ElementSplit | tcg/lib/services/parser/replacer.py:34 | the badge is its head, the class string's closing quote and the tail |
| Replacer.ListItemsAppend | tcg/lib/services/parser/replacer.py:56 | the items of a concatenation are the items of each part, in order |
| Replacer.ListReplaceInjective | tcg/lib/services/parser/replacer.py:54-57 | two lists of `<`-free items render alike only when they are the same list |
| Replacer.ListItemsInjective | tcg/lib/services/parser/replacer.py:56 | the same for the items without the surrounding tags |
| CardConstructor.ConstructCards | tcg/lib/services/card_constructor.py:15-16 | one dict per row, in order, exactly when every row converts; each is that row's conversion |
| CardConstructor.RowToDictSpec | tcg/lib/services/card_constructor.py:11-13 | a row converts exactly when its cost parses, its text parses and the parsed text formats with the row; the dict then holds the row's cells, the `cost_`-prefixed cost entries over them, and the formatted text under `text` |
| CardConstructor.PrefixedKeys | tcg/lib/services/card_constructor.py:8-9 | the keys of the prefixed cost dict are the cost's keys with the prefix |
| CardConstructor.MergedFields | tcg/lib/services/card_constructor.py:13 | `{**row, **cost, "text": ...}`: the keys of both and `text`; the cost's entries win over the row's |
| CardConstructor.RowToDictErrors | tcg/lib/services/card_constructor.py:12-13 | the errors in the order the conversion meets them: a missing `cost`, a failed cost parse, a missing `text` |
| CardConstructor.ConstructCardsFirstError | tcg/lib/services/card_constructor.py:15-16 | a failed call carries the error of the first row that fails |
| CardConstructor.ExampleCard | tcg/lib/services/card_constructor.py:19-27 | the module's example row converts: `~\|other text` becomes the name, a line break and `other text`; the cost gives value `2` and the classes of `A` and `D` in the order written; the other cells are kept |
| CardConstructor.MergedLookup | tcg/lib/services/card_constructor.py:13 | a merged key other than `text` holds the cost's entry if there is one, and the row's otherwise |
| CardConstructor.ExampleSteps | tcg/lib/services/card_constructor.py:11-13 | the conversion of the example row, step by step |
| CardConstructor.RowSteps | tcg/lib/services/card_constructor.py:11-13 | the conversion when each of its steps succeeds |
| CardConstructor.ExampleText | tcg/lib/services/parser/parser.py:9-13 | `~\|other text` parses as the name field, a line break and the word |
| CardConstructor.NameThenWord | tcg/lib/services/parser/grammar.py:17-50 | `~\|` and a word parse as the name field, a line break and the word |
| CardConstructor.ExampleFormat | tcg/lib/services/card_constructor.py:13 | the parsed example text formatted with a row that has a name |
| CardConstructor.ExampleCost | tcg/lib/services/parser/parser.py:15-16 | `(2AD)` parses as the dict of value `2` and the letters `AD` |
| CardConstructor.ClassesOfTwo | tcg/lib/services/parser/replacer.py:32-33 | two letters give their classes joined by a space |

## Left out

- Grammar keyword expansion: `KEYWORD`'s parse action is `KeywordReplacer(KEYWORDS, TEXT)`, which cannot be built as written, because the class takes no constructor arguments and the catalog is a list, not a dict. The expansion is therefore a parameter of `Grammar.Actions`.
- `MANA_CLASSES`: it is not among the modelled files, so the letter-to-class table is the parameter `manaClass`.
- pyparsing's skipping of whitespace between tokens, and the exact token packaging of `Combine`, `Optional` and results names:
  - the grammar is read as a PEG over characters with no skipped whitespace;
  - an argument list is always a list, even with one item.
- Exceptions that a parse action could raise beyond the ones modelled (`Raised` carries only the errors of `Result`).
- The `__main__` blocks of `card_constructor.py` and `tcg/endtoend.py`: they print. Their example inputs are modelled as lemmas (`CardConstructor.ExampleCard`, `EarlyPipeline.EarlyComplicatedExpands`).
- `CardConstructor.RowToDictSpec`: sheet cells are strings (`Row` maps strings to strings); cells of other types are not modelled.
- `CurrentPipeline.RunMultiple`: requires the records to be distinct objects. The Python list may hold the same dict twice, and then later calls see earlier updates; that aliasing is not modelled.
- `ManaCosts.ParseToken`: `\d` is taken as the ASCII digits; Python's `\d` also matches other Unicode decimal digits.
- `EarlyStages.ManaScan`: `[\d]` in the first generation's cost pattern is taken as the ASCII digits (`EarlyStages.Digit`), as for `ManaCosts.ParseToken`; Python's `\d` also matches other Unicode decimal digits.
- `Grammar.ParseText`: pyparsing's `parse_string` first replaces each tab by spaces up to the next multiple of eight columns (`str.expandtabs`), so `"a\tb"` is read as `a`, seven spaces and `b`. The model parses the text as given, so it agrees with the source on text without tabs only.
- `Template.Format`: a replacement field's name is looked up whole. Python splits off a format spec after `:`, a conversion after `!` and attribute or index access after `.` or `[`, and applies them; the model instead raises `KeyError` for the whole text, as in `MissingKey("card__name:>9")` for `{card__name:>9}`. The fields in the code's templates are plain names.
- `Template.FormatField`: inherits the whole-name lookup of `Template.Format`; it says nothing about fields with `:`, `!`, `.` or `[`.
- `Template.FormatOneField`: the same whole-name lookup as `Template.Format`.
- `Template.FormatFieldThen`: the same whole-name lookup as `Template.Format`.
- `Records.Repr`: for characters above U+00FF, `repr` of a string keeps every character. Python escapes the ones its Unicode database marks as not printable, such as format characters, separators other than the space, private-use characters and unassigned ones, as `\uXXXX` or `\UXXXXXXXX`. Characters up to U+00FF are escaped as Python does.
- `Records.Rendered`: inherits the `Records.Repr` gap for string items of a list.
- The text of a Python float, as in the gradient's break percents: it is the parameter `floatText`. The ints `0` and `100` are rendered in decimal.
- Backslash escapes in `re.sub` replacement strings: the replacements in the code contain no backslash, so they are taken literally.
- Dict key order: `PipelineData` is a `map`, so the model does not say in what order a dict's entries are listed. The order of `sorted_colors` and of the colour lists is modelled, and it is the order that matters in the code.
- `CurrentStages.DisplayMap`: the `DISPLAY_MAP` strings are kept exactly as the source file spells them (UTF-8 emoji read back as Latin-1/cp1252 characters).
- `\s` in the keyword pattern and `str.strip()` are modelled as `str.isspace`.
- `EarlyStages.Information`: the path where a first letter outside `MANA_NAMES` puts `None` into the name list, which `" ".join` rejects with `TypeError`, is modelled. Every letter the pattern accepts has a name, so that path is never taken.
- `KeywordDefinition.list_from_dataframe` converts a pandas data frame, which has no counterpart here. `google_sheets_reader.py` reads the sheet over the network and `tcg/app.py` serves the cards over HTTP. None of the three is part of this model.
- Concurrency and I/O: none of the modelled code uses them; `print` calls are left out.
