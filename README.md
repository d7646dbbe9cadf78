# BabelFish core in Dafny

BabelFish reads an app's English localisation tables and generates Swift source that gives every entry a typed name. This project models the core of that generator and proves properties about it:

- **Reading the tables.** The core reads `Localizable.strings` (one `"key" = "value";` line per entry) and `Localizable.stringsdict` (a property-list dictionary of plural rules). It turns each entry into a `LocalizedKeyTerm`, which holds the bundle, the key, the comment terms and the format specifiers (`%d`, `%@`, ...) found in the text.
- **Emitting code.** The enum emitter writes nested `public enum`s with one `case` per entry, plus `LocalizableSupport` extensions that map each case to its key, arguments and bundle. The struct emitter writes nested `public struct`s with one static property or static function per entry.
- **Command-line arguments.** The core reads `--source<n>`, `--bundle<n>` and `--output` into a list of `ArgumentProperties`.
- **SwiftLint directives.** Both emitters put `// swiftlint:` directives around what they generate.

Every Swift function with a loop is a Dafny `method`, and each method is proved to compute a declarative specification function. The properties are stated about those functions, in `ensures` clauses and lemmas. Straight-line code that only builds a value is a function. The modules follow the Swift files:

| module | file | models |
|---|---|---|
| `SwiftLint` | swift_lint.dfy | `SwiftLint.swift` |
| `FormatSpecifiers` | format_specifier.dfy | `FormatSpecifier` in `LocalizedStringsParser.swift` |
| `LocalizedStringsParser` | localized_strings_parser.dfy | `LocalizedKeyTerm` and both parsers |
| `BuilderGroups` | builder_group.dfy | the group tree and the rendering code both emitters share |
| `EnumBuilder` | enum_builder.dfy | `EnumBuilder.swift` |
| `StructBuilder` | struct_builder.dfy | `StructBuilder.swift` |
| `ArgumentsParser` | arguments_parser.dfy | `ArgumentsParser.swift` |
| `Text`, `Collections`, `Wrappers` | text.dfy, collections.dfy, wrappers.dfy | string helpers, key orderings, `Option`/`Result` |

The model follows the code in these places, including where the code's own comments or the documented intent differ:

- **The specifier scan.** It uses the character class `@dDuUxXoOfeEgGcCSaAf`, so `f` is listed twice and neither `s` nor `F` is recognised. `%s` and `%F` in a strings value therefore produce no specifier.
- **`from`.** It maps `C` and `S` to `unsigned8BitCharacters`, and falls back to `any` for `s` and for everything unknown. `FormatSpecifiers.FromAsSpecifier` states exactly which specifiers survive the round trip through `asSpecifier`.
- **Struct member names.** The `With` suffix is commented out in the struct emitter, so a struct member's name does not depend on the entry's specifiers. In the enum emitter it does.
- **Subgroup order in `buildCaseExtensions`.** Cases are written in stored order, not sorted, and subgroups are visited in Swift dictionary order. That order is not specified, so the model takes it as an input.
- **`gather` reading a value twice.** The repeatable flags are checked in the order `source`, then `bundle`, and the consumed value replaces the current argument. So a `--source` value starting with `bundle` is read again as a `--bundle` flag, and the value `output` of either flag is read again as `--output`. A `--bundle` value `bundle` is only checked against `output` afterwards, so it is stored as the bundle name. `ArgumentsParser.ConsumedValueReadAsBundle`, `ArgumentsParser.ConsumedValueReadAsOutput` and `ArgumentsParser.BundleNamedBundleStep` state the outcomes.

## Model

| member | source | states |
|---|---|---|
| SwiftLint.RawValue | BabelFish/Builder/SwiftLint.swift:14-21 | a rule's text is non-empty and contains no space, and it is `file_length` exactly for the file-length rule |
| SwiftLint.Description | BabelFish/Builder/SwiftLint.swift:23-32 | every directive starts with `// swiftlint:`, followed by `disable ` or `enable ` and the rule's raw value |
| SwiftLint.DescriptionInjective | BabelFish/Builder/SwiftLint.swift:23-32 | different directives have different texts, so a directive can be recovered from its text |
| FormatSpecifiers.AsSpecifier | BabelFish/Parser/LocalizedStringsParser.swift:27-44 | every specifier is written as `%` followed by one character that is not `%` |
| FormatSpecifiers.From | BabelFish/Parser/LocalizedStringsParser.swift:46-70 | once every `%` is removed, an empty value or a value longer than one character classifies as `any` |
| FormatSpecifiers.FromCaseSensitive | BabelFish/Parser/LocalizedStringsParser.swift:46-70 | concrete classifications: `%D` is integer and `%U` unsigned; `%C` and `%S` are 8-bit strings; `%s` falls back to `any`; `%F` is decimal; `%%d` and `d` are integer; `%lu` is `any` |
| FormatSpecifiers.FromIgnoresPercent | BabelFish/Parser/LocalizedStringsParser.swift:47 | classification depends only on the value with every `%` removed |
| FormatSpecifiers.FromToken | BabelFish/Parser/LocalizedStringsParser.swift:47-69 | a two-character token `%c` classifies exactly as its letter `c` does |
| FormatSpecifiers.FromAsSpecifier | BabelFish/Parser/LocalizedStringsParser.swift:27-70 | `from(asSpecifier(f)) == f` holds exactly when `f` is not unicharacter, 8-bit characters or 16-bit characters |
| FormatSpecifiers.ClassifyScanLetter | BabelFish/Parser/LocalizedStringsParser.swift:74 | no letter the scan accepts classifies as decimal notation, unicharacter or 16-bit characters |
| FormatSpecifiers.MatchPositions | BabelFish/Parser/LocalizedStringsParser.swift:74-78 | every reported position is a `%` followed by a scanned letter, at or after the start; matches do not overlap and come in increasing order |
| FormatSpecifiers.MatchPositionsComplete | BabelFish/Parser/LocalizedStringsParser.swift:74-78 | a position is reported if and only if it lies at or after the start and a match begins there (both directions) |
| FormatSpecifiers.FromMatches | BabelFish/Parser/LocalizedStringsParser.swift:79-81 | converting a matched two-character token with `from` gives the classification of its letter |
| FormatSpecifiers.In | BabelFish/Parser/LocalizedStringsParser.swift:72-86 | one specifier per match, in text order, each the classification of the matched letter |
| FormatSpecifiers.InShape | BabelFish/Parser/LocalizedStringsParser.swift:72-86 | a text of n characters yields at most n/2 specifiers; a text without `%` yields none; `%s` and `%F` are never matched; the scan never yields decimal notation, unicharacter or 16-bit characters |
| LocalizedStringsParser.ParseLine | BabelFish/Parser/LocalizedStringsParser.swift:123-133 | a line yields a key term exactly when it starts with `"` and splits on `=` into two parts; the term has the parser's bundle, one comment term, the specifiers found in that term, and neither key nor term contains `=` |
| LocalizedStringsParser.EntryLineSplit | BabelFish/Parser/LocalizedStringsParser.swift:124 | a well-formed entry line splits on `=` into the quoted key with its trailing space and the quoted value with its leading space and `;` |
| LocalizedStringsParser.TrimQuotedKey | BabelFish/Parser/LocalizedStringsParser.swift:129 | trimming the key part leaves the key in its quotes |
| LocalizedStringsParser.TrimQuotedValue | BabelFish/Parser/LocalizedStringsParser.swift:130 | trimming the value part leaves the quoted value with its `;` |
| LocalizedStringsParser.ParseEntryLine | BabelFish/Parser/LocalizedStringsParser.swift:122-133 | the round trip: parsing the line written for a key and a value (neither containing `=`) gives back that key, that value as the only term, and the value's specifiers |
| LocalizedStringsParser.ParsePaddedEntryLine | BabelFish/Parser/LocalizedStringsParser.swift:122-133 | the round trip for any spacing: a line with any whitespace around `=` and after `;` gives back its key, its value as the only term, and the value's specifiers |
| LocalizedStringsParser.ParseStrings | BabelFish/Parser/LocalizedStringsParser.swift:116-140 | the loop returns the key terms of the entry lines in file order, the candidate lines warned about as ignored, and each key warned about as a duplicate once per repeat |
| LocalizedStringsParser.LinesStep | BabelFish/Parser/LocalizedStringsParser.swift:122-133 | one more line adds that line's key term, or that line to the ignored lines when it is a candidate that is not an entry |
| LocalizedStringsParser.KeysStep | BabelFish/Parser/LocalizedStringsParser.swift:135-139 | one more key term adds its key to the keys seen, and adds a duplicate warning exactly when that key was seen before |
| LocalizedStringsParser.ParsedLinesAppend | BabelFish/Parser/LocalizedStringsParser.swift:122-140 | parsing concatenated line sequences concatenates their key terms, so file order is kept |
| LocalizedStringsParser.CandidatesAccountedFor | BabelFish/Parser/LocalizedStringsParser.swift:123-128 | every line starting with `"` is either parsed or ignored, never both, and other lines are dropped silently |
| LocalizedStringsParser.DuplicatesKept | BabelFish/Parser/LocalizedStringsParser.swift:133-139 | duplicates are kept: key terms = distinct keys + duplicate warnings |
| LocalizedStringsParser.ParsedEntryLine | BabelFish/Parser/LocalizedStringsParser.swift:122-133 | a table of one entry line parses to exactly that entry's key term |
| LocalizedStringsParser.DuplicateKeyExample | BabelFish/Parser/LocalizedStringsParser.swift:133-139 | two lines with the same key both appear in the output, and that key is warned about once |
| LocalizedStringsParser.AsStringMap | BabelFish/Parser/LocalizedStringsParser.swift:176 | the `as? [String: String]` cast succeeds exactly for a dictionary whose values are all strings, and keeps every key with its text |
| LocalizedStringsParser.PresentBucketsFrom | BabelFish/Parser/LocalizedStringsParser.swift:187-205 | lists, in increasing order, exactly the plural buckets from the given one on that the format dictionary defines |
| LocalizedStringsParser.CommentTermsAreBuckets | BabelFish/Parser/LocalizedStringsParser.swift:187-205 | one comment term per defined bucket, in the fixed zero/one/two/few/many/other order, each the bucket's label followed by its text |
| LocalizedStringsParser.PluralComments | BabelFish/Parser/LocalizedStringsParser.swift:187-205 | the six bucket checks in sequence produce exactly the comment terms of the defined buckets |
| LocalizedStringsParser.CommentStep | BabelFish/Parser/LocalizedStringsParser.swift:188-205 | each bucket check appends that bucket's term when the bucket is defined and nothing otherwise |
| LocalizedStringsParser.DictionaryEntry | BabelFish/Parser/LocalizedStringsParser.swift:167-207 | an entry yields a key term exactly when it passes the value, format-key, format-dictionary and value-type guards; the term has the parser's bundle, the entry's key, the single specifier `from` gives for the value type, and one comment term per defined plural bucket in bucket order, each that bucket's label and text |
| LocalizedStringsParser.SliceFormatKey | BabelFish/Parser/LocalizedStringsParser.swift:172 | the format key is the text between `#@` and the next `@` |
| LocalizedStringsParser.ParseDictionary | BabelFish/Parser/LocalizedStringsParser.swift:166-210 | the loop returns the key terms of the valid entries in enumeration order, and the keys of the skipped entries |
| LocalizedStringsParser.DictionaryTermsShape | BabelFish/Parser/LocalizedStringsParser.swift:166-210 | every entry is either turned into a key term or skipped; every key term has the parser's bundle, exactly one specifier and at most six comment terms |
| BuilderGroups.InsertDescending | BabelFish/Builder/EnumBuilder.swift:48-50 | inserting into a descending list keeps it descending, and adds exactly the new case |
| BuilderGroups.SortCases | BabelFish/Builder/EnumBuilder.swift:48-50 | the cases in descending order of raw name, as a permutation of the input |
| BuilderGroups.ChildKeys | BabelFish/Builder/EnumBuilder.swift:55 | the subgroup keys in strictly ascending order, each exactly once |
| BuilderGroups.ParameterLabel | BabelFish/Builder/EnumBuilder.swift:90 | a parameter label is `p` followed by decimal digits |
| BuilderGroups.ParameterLabelInjective | BabelFish/Builder/EnumBuilder.swift:89-91 | different positions get different parameter labels |
| BuilderGroups.LoweredName | BabelFish/Builder/EnumBuilder.swift:66 | the trimmed name with its first character lowercased and the rest kept: as long as the trimmed name, never longer than the raw name, and never starting with whitespace |
| Text.CamelJoinCharacters | BabelFish/Builder/EnumBuilder.swift:69-72 | camel-joining is, character by character, the name without its spaces, with exactly the first character of every word after the first uppercased |
| EnumBuilder.FixEnumName | BabelFish/Builder/EnumBuilder.swift:35-42 | the Swift keywords `Type` and `For` are replaced by `TypeOf` and `` `For` ``, any other name is kept, and the result is never a bare keyword |
| EnumBuilder.FixEnumNameIdempotent | BabelFish/Builder/EnumBuilder.swift:35-42 | fixing a fixed name changes nothing |
| EnumBuilder.CaseStem | BabelFish/Builder/EnumBuilder.swift:66-73 | the case stem contains no space; `for` becomes `` `for` ``; a name without spaces is kept as is; a name with spaces is camel-joined, so it keeps its first word and loses only its spaces |
| EnumBuilder.CaseName | BabelFish/Builder/EnumBuilder.swift:65-82 | the case name is the stem followed by exactly `Plural` when there are several terms and then exactly `With` when there are specifiers, and contains no space |
| EnumBuilder.CaseNameSuffixes | BabelFish/Builder/EnumBuilder.swift:75-80 | two entries with the same raw name get the same case name only when they agree on being plural and on having specifiers |
| EnumBuilder.CaseNameSuffixOrder | BabelFish/Builder/EnumBuilder.swift:75-80 | a plural entry with specifiers ends in `PluralWith`, in that order |
| EnumBuilder.ToCase | BabelFish/Builder/EnumBuilder.swift:84-100 | the method writes the comment lines followed by the case declaration, joined by newlines |
| EnumBuilder.CaseDeclarationShape | BabelFish/Builder/EnumBuilder.swift:85-93 | without specifiers the declaration is `case <name>`; with specifiers it is `case <name>(` + all parameters joined by `, ` + `)`, so it opens with the first parameter, ends with `)` and holds `_ p<i>: <type>` for every specifier |
| EnumBuilder.EnumLayout | BabelFish/Builder/EnumBuilder.swift:44-63 | item 0 is the header; item 1+i is the i-th case in descending order of raw name; the item after the cases at offset j is the subgroup with the j-th smallest key, one level deeper; the last item is the closing brace |
| EnumBuilder.ToCases | BabelFish/Builder/EnumBuilder.swift:51-53 | the loop renders every case in order |
| EnumBuilder.BuildEnum | BabelFish/Builder/EnumBuilder.swift:44-63 | the recursive method writes the group's enum text: header, sorted cases, subgroups in ascending key order one level deeper, closing brace |
| EnumBuilder.EnumTextShape | BabelFish/Builder/EnumBuilder.swift:46-60 | an enum text opens with its `public enum <fixed name> {` header and ends with the closing brace at its own indentation |
| EnumBuilder.EnumTextHoldsChildren | BabelFish/Builder/EnumBuilder.swift:55-59 | the enum of every subgroup, one level deeper, occurs inside its parent's enum |
| EnumBuilder.BuildArgumentArm | BabelFish/Builder/EnumBuilder.swift:126-137 | the arm returns `nil` without specifiers, and otherwise binds and returns `p0...` |
| EnumBuilder.BuildKeyArms | BabelFish/Builder/EnumBuilder.swift:117-119 | the loop writes the key arm of every case in order |
| EnumBuilder.BuildArgumentArms | BabelFish/Builder/EnumBuilder.swift:125-138 | the loop writes the arguments arm of every case in order |
| EnumBuilder.BuildBundleArms | BabelFish/Builder/EnumBuilder.swift:144-146 | the loop writes the bundle arm of every case in order |
| EnumBuilder.BuildExtension | BabelFish/Builder/EnumBuilder.swift:112-152 | the method writes one group's `LocalizableSupport` extension: header, three switches, closing lines |
| EnumBuilder.BuildCaseExtensions | BabelFish/Builder/EnumBuilder.swift:106-158 | the recursive method writes the group's own extension (when it has cases) followed by those of all its subgroups |
| EnumBuilder.BuildChildExtensions | BabelFish/Builder/EnumBuilder.swift:154-156 | the subgroup loop concatenates the extensions of all subgroups in enumeration order |
| EnumBuilder.ExtensionListsEveryCase | BabelFish/Builder/EnumBuilder.swift:113-151 | an extension has 18 fixed lines plus 3 per case, and each case has its key, arguments and bundle arm at matching offsets |
| EnumBuilder.ExtensionWhenCases | BabelFish/Builder/EnumBuilder.swift:109-156 | a group with cases opens its extension with `extension <dotted path>: LocalizableSupport {`; a group without cases writes nothing of its own |
| EnumBuilder.ExtensionsVisitChildren | BabelFish/Builder/EnumBuilder.swift:154-156 | the extensions of every subgroup occur inside those of its parent |
| EnumBuilder.KeyArmShape | BabelFish/Builder/EnumBuilder.swift:118 | a key arm names the case and returns the raw key in quotes |
| EnumBuilder.BundleArmShape | BabelFish/Builder/EnumBuilder.swift:145 | a bundle arm names the case and returns `Bundle.<bundle>` |
| EnumBuilder.ArgumentArmShape | BabelFish/Builder/EnumBuilder.swift:126-137 | an arguments arm names the case; it returns `nil` exactly when there are no specifiers; otherwise it opens with the case and the `let p<i>` bindings joined by `, `, binds every `p<i>`, and returns the list `p0...p<n-1>` |
| EnumBuilder.Build | BabelFish/Builder/EnumBuilder.swift:13-29 | the method writes the thirteen items of the file, in order, joined by newlines |
| EnumBuilder.FileShape | BabelFish/Builder/EnumBuilder.swift:13-29 | the file opens with the file-length disable and `import Foundation`, ends with the enable directives in reverse order, and contains the master enum |
| StructBuilder.FixStructName | BabelFish/Builder/StructBuilder.swift:74-82 | the trimmed name, with `Type` and `For` replaced as in the enum emitter; never a bare keyword |
| StructBuilder.FixStructNameAgrees | BabelFish/Builder/StructBuilder.swift:74-82 | for a name without surrounding whitespace, the struct and enum emitters fix it identically |
| StructBuilder.StructStem | BabelFish/Builder/StructBuilder.swift:111-122 | the stem contains no space; `for`, `in` and `is` are put in backticks; any other name without spaces is kept; a name with spaces is camel-joined |
| StructBuilder.StructCaseName | BabelFish/Builder/StructBuilder.swift:110-131 | the member name is the stem followed by exactly `Plural` when there are several terms and by nothing otherwise; there is no `With` suffix |
| StructBuilder.StructCaseNameIgnoresSpecifiers | BabelFish/Builder/StructBuilder.swift:124-129 | an entry with specifiers and one without get the same struct member name but different enum case names |
| StructBuilder.CaseNamesAgree | BabelFish/Builder/StructBuilder.swift:110-131 | apart from `in` and `is`, the enum case name is the struct member name followed by `With` when there are specifiers |
| StructBuilder.ParameterLists | BabelFish/Builder/StructBuilder.swift:95-100 | the loop builds the parameter list and the argument list side by side, one entry per specifier |
| StructBuilder.Comments | BabelFish/Builder/StructBuilder.swift:87-89 | the loop writes one comment line per term |
| StructBuilder.Format | BabelFish/Builder/StructBuilder.swift:84-108 | the method writes the comments, then a static property (no specifiers) or a static function, then an empty line |
| StructBuilder.MemberKind | BabelFish/Builder/StructBuilder.swift:90-105 | right after the comments there is a `public static var` line exactly when there are no specifiers, and a `public static func` line exactly when there are some |
| StructBuilder.MemberLooksUpKey | BabelFish/Builder/StructBuilder.swift:92-103 | the member's `return "` line contains the raw key and the bundle name unchanged |
| StructBuilder.MemberEndsWithNewline | BabelFish/Builder/StructBuilder.swift:106-107 | a member's text ends with a newline |
| StructBuilder.StructLayout | BabelFish/Builder/StructBuilder.swift:54-67 | item 0 is the header; item 1+i is the i-th member in descending order of raw name; the item after the members at offset j is the subgroup with the j-th smallest key, one level deeper |
| StructBuilder.Members | BabelFish/Builder/StructBuilder.swift:58-60 | the loop renders every case in order |
| StructBuilder.BuildStruct | BabelFish/Builder/StructBuilder.swift:54-72 | the recursive method writes the group's struct text: items joined by newlines, the last character dropped when it is whitespace, then the closing brace and a newline |
| StructBuilder.StructTextShape | BabelFish/Builder/StructBuilder.swift:56-69 | a struct text opens with its `public struct <fixed name> {` header and ends with a newline, the closing brace at its indentation and a newline |
| StructBuilder.StructTextHoldsChildren | BabelFish/Builder/StructBuilder.swift:63-67 | the struct of every subgroup, one level deeper, occurs inside its parent's struct |
| StructBuilder.StructTextEndsInNewline | BabelFish/Builder/StructBuilder.swift:68-69 | a struct text ends with a newline |
| StructBuilder.DropLastKeepsPrefix | BabelFish/Builder/StructBuilder.swift:68 | dropping a trailing whitespace character never cuts into the header |
| StructBuilder.Build | BabelFish/Builder/StructBuilder.swift:36-48 | the method writes the nine items of the file, in order, joined by newlines |
| StructBuilder.FileShape | BabelFish/Builder/StructBuilder.swift:36-52 | the file opens with the file-length disable and `import Foundation`, ends with the enable directives, and contains the trimmed master struct, which ends in `}` |
| ArgumentsParser.OutputTypeFrom | BabelFish/Support/ArgumentsParser.swift:12-15 | `OutputType(rawValue:)` succeeds exactly for `struct` and `enum`, and the result's raw value is the input |
| ArgumentsParser.OutputTypeRoundTrip | BabelFish/Support/ArgumentsParser.swift:12-15 | every output type is recovered from its raw value |
| ArgumentsParser.ErrorOrValueAt | BabelFish/Support/ArgumentsParser.swift:55-60 | succeeds exactly for an index inside the input, giving the element there; otherwise fails with `missingArgumentAt(index)` |
| ArgumentsParser.GroupIndexOf | BabelFish/Support/ArgumentsParser.swift:90-93 | a flag with no number is group 0; a flag followed by the decimal digits of n is group n |
| ArgumentsParser.Record | BabelFish/Support/ArgumentsParser.swift:100-105 | recording a parameter appends it to its group, creating the group if needed, and leaves every other group as it was |
| ArgumentsParser.RepeatablesFrom | BabelFish/Support/ArgumentsParser.swift:86-107 | the repeatable-flag checks never move back, only fail for a missing value at the end of the input, and never lose a group |
| ArgumentsParser.ArgumentStep | BabelFish/Support/ArgumentsParser.swift:71-119 | one loop pass moves forward and only appends outputs; it fails only with a missing argument at the end or an unknown output type; an argument without `--` is skipped |
| ArgumentsParser.AfterScan | BabelFish/Support/ArgumentsParser.swift:109-118 | the `output` check moves forward, keeps the groups and appends at most outputs; it fails only with a missing argument or an unknown output type |
| ArgumentsParser.Collect | BabelFish/Support/ArgumentsParser.swift:71-119 | the loop either consumes all arguments, having only appended outputs, or fails with a missing argument at the end or an unknown output type |
| ArgumentsParser.ExtendsTransitive | BabelFish/Support/ArgumentsParser.swift:71-119 | extending by outputs, repeated over loop passes, is still extending by outputs |
| ArgumentsParser.LastBundle | BabelFish/Support/ArgumentsParser.swift:131-136 | a bundle name is found exactly when the group holds one, and what is found is one of them |
| ArgumentsParser.LastPath | BabelFish/Support/ArgumentsParser.swift:131-136 | a source path is found exactly when the group holds one, and what is found is one of them |
| ArgumentsParser.GroupPropertyIff | BabelFish/Support/ArgumentsParser.swift:122-147 | a group yields a bundle property exactly when it has two values of different kinds, and that property pairs its bundle name with its path in either order |
| ArgumentsParser.GroupProperties | BabelFish/Support/ArgumentsParser.swift:122-148 | the group loop yields at most one property per group, all of them bundles, and a property is yielded exactly when some group in the order yields it |
| ArgumentsParser.GroupPropertiesConcat | BabelFish/Support/ArgumentsParser.swift:122-148 | the loop over two key sequences in a row yields the properties of the first followed by those of the second, so properties come in key order |
| ArgumentsParser.OrderedProperties | BabelFish/Support/ArgumentsParser.swift:122-148 | over an ordering of every group key, a property is yielded exactly when some group yields it |
| ArgumentsParser.Gathered | BabelFish/Support/ArgumentsParser.swift:62-151 | `noArguments` exactly when there is at most one argument; a missing-argument error always names the input's length; on success every output precedes every bundle property |
| ArgumentsParser.Bundles | BabelFish/Support/ArgumentsParser.swift:122-148 | every property from the groups is a bundle, and a property is present exactly when some group yields it |
| ArgumentsParser.OutputsThenBundles | BabelFish/Support/ArgumentsParser.swift:62-151 | outputs followed by bundles keep every output before every bundle |
| ArgumentsParser.RemoveDashes | BabelFish/Support/ArgumentsParser.swift:84 | removing `--` from `--name` gives `name` when the name has no dash |
| ArgumentsParser.OutputStep | BabelFish/Support/ArgumentsParser.swift:110-118 | `--output` as the last argument is a missing argument; otherwise the next argument is an output type or an unknown-output-type error, and both are consumed |
| ArgumentsParser.OutputIsNoRepeatable | BabelFish/Support/ArgumentsParser.swift:86-107 | `output` matches no repeatable flag, so nothing is recorded for it |
| ArgumentsParser.SourceStep | BabelFish/Support/ArgumentsParser.swift:86-107 | `--source<n> path` records the path in group n and consumes both arguments, when the path does not itself look like a flag name |
| ArgumentsParser.TrailingFlagStep | BabelFish/Support/ArgumentsParser.swift:86-96 | a `--source<n>` or `--bundle<n>` flag as the last argument fails the pass with `missingArgumentAt` the input's length |
| ArgumentsParser.TrailingFlag | BabelFish/Support/ArgumentsParser.swift:62-151 | `gather` on a program name and one trailing `--source<n>` or `--bundle<n>` flag fails with `missingArgumentAt(2)` |
| ArgumentsParser.BundleStep | BabelFish/Support/ArgumentsParser.swift:86-107 | `--bundle<n> name` records the bundle name in group n and consumes both arguments, when the name is not `output` |
| ArgumentsParser.SkipsUnflagged | BabelFish/Support/ArgumentsParser.swift:78-81 | arguments without `--` are skipped and change nothing |
| ArgumentsParser.RepeatablesIgnoreFirst | BabelFish/Support/ArgumentsParser.swift:86-107 | the repeatable checks never read the program name |
| ArgumentsParser.StepIgnoresFirst | BabelFish/Support/ArgumentsParser.swift:71-119 | a loop pass never reads the program name |
| ArgumentsParser.CollectIgnoresFirst | BabelFish/Support/ArgumentsParser.swift:70-119 | the loop never reads the program name, since it starts at index 1 |
| ArgumentsParser.FirstArgumentIgnored | BabelFish/Support/ArgumentsParser.swift:62-151 | the result does not depend on the first argument, the program name |
| ArgumentsParser.CollectThrough | BabelFish/Support/ArgumentsParser.swift:71-119 | after a successful pass the loop continues from the new state |
| ArgumentsParser.GatheredAfter | BabelFish/Support/ArgumentsParser.swift:62-151 | when the loop succeeds, the result is its outputs followed by the bundles of its groups |
| ArgumentsParser.PairedFlags | BabelFish/Support/ArgumentsParser.swift:62-151 | `--source<n> path --bundle<n> name` gives exactly one bundle property pairing name and path |
| ArgumentsParser.BundleNamedOutputStep | BabelFish/Support/ArgumentsParser.swift:86-118 | `--bundle output t` records `output` as a bundle name, then reads `t` as an output type in the same pass |
| ArgumentsParser.BundleNamedBundleStep | BabelFish/Support/ArgumentsParser.swift:86-118 | `--bundle bundle x` records `bundle` as the bundle name in group 0 and consumes both arguments; `x` is left for the next pass |
| ArgumentsParser.ConsumedValueReadAsOutput | BabelFish/Support/ArgumentsParser.swift:62-151 | `--bundle output t` gives just the output `t`: the half-filled group is dropped |
| ArgumentsParser.SourceNamedBundleStep | BabelFish/Support/ArgumentsParser.swift:86-107 | `--source bundle name` records `bundle` as the path, then reads `name` as a bundle name in the same pass |
| ArgumentsParser.ConsumedValueReadAsBundle | BabelFish/Support/ArgumentsParser.swift:62-151 | `--source bundle name` gives a bundle property with path `bundle` |
| ArgumentsParser.ScanRepeatables | BabelFish/Support/ArgumentsParser.swift:86-107 | the loop over the repeatable flags computes the scan its specification describes |
| ArgumentsParser.ResolveGroup | BabelFish/Support/ArgumentsParser.swift:124-147 | the guards on one group give its bundle property, or none |
| ArgumentsParser.GroupsToProperties | BabelFish/Support/ArgumentsParser.swift:122-148 | the loop over the groups gives the properties of the valid groups in the given key order |
| ArgumentsParser.StepArgument | BabelFish/Support/ArgumentsParser.swift:76-118 | the loop body computes one loop pass |
| ArgumentsParser.ReadOutput | BabelFish/Support/ArgumentsParser.swift:109-118 | the `output` check computes its specification |
| ArgumentsParser.CollectArguments | BabelFish/Support/ArgumentsParser.swift:66-119 | the argument loop from index 1 computes its specification |
| ArgumentsParser.Gather | BabelFish/Support/ArgumentsParser.swift:62-151 | the method computes `Gathered`, whose contract states the error cases and the ordering |

## Left out

- Reading files is left out: the file-existence checks and the plist and UTF-8 decoding are not modelled. The strings parser receives the file's lines, and the dictionary parser receives the top-level entries.
- Warnings are left out: `notify` and `warning` output is not modelled. The lines, keys and groups that cause a warning are returned or dropped as the code does.
- `NSRegularExpression` is not modelled; the specifier scan is modelled by `FormatSpecifiers.MatchPositions`. That function finds the same leftmost, non-overlapping two-character matches of the pattern. The invalid-regex branch cannot happen for this constant pattern.
- The CoreExtensions helpers are not part of this model; module `Text` gives them concrete definitions:
  - `trimmed` removes spaces, tabs, LF and CR at both ends;
  - `trailingTrimmed` removes them at the end only;
  - `dropLastIfWhiteSpace` drops one character;
  - `lowercasedFirst` and `uppercasedFirst` map ASCII letters only;
  - `slice(from:to:)` takes the text between the first `#@` and the next `@`;
  - `StringJoiner` is `Join`.
- Several orders are not specified by Swift, so the model takes them as inputs:
  - the iteration order of the plist dictionary, as an entry sequence;
  - the order of `group.groups` in `buildCaseExtensions`, as an `enumerate` function that lists each key once;
  - the order of `inputGroups` in `gather`, as an `enumerate` function that lists each key once.
- Swift's `String` comparison is modelled as lexicographic order on characters, without Unicode canonical ordering.
- Strings are sequences of Dafny `char`s. Swift's `split(separator:)`, `dropFirst`/`dropLast`, `hasPrefix` and `contains` work on grapheme clusters (LocalizedStringsParser.swift:123-130), and `NSRegularExpression` scans UTF-16 code units (LocalizedStringsParser.swift:74-81). The model treats each character as one unit, so text with combining sequences or characters outside the Basic Multilingual Plane may split and match differently.
- The tie order of `sorted` for equal raw case names is not modelled. Swift's sort is not stable, so the model fixes one tie order.
- `asParameter`, the Swift type name for each specifier, is used by the emitters (EnumBuilder.swift:90, StructBuilder.swift:98) but defined in none of the modelled files, so the model takes it as a parameter of every emitter operation.
- Swift's `Int(groupKey)` is modelled as an optional sign followed by decimal digits, with a value inside the 64-bit range. Any other group suffix, including one that overflows, falls back to group 0.
- The `AbstractBuilder` base class and the grouping of key terms into the `BuilderGroup` tree are not part of this model. So `build` receives the master group rather than the key terms.
- `BabelFish.swift`, `main.swift`, `Builder.swift` and the commented-out code are not part of this model.
- The protocol text constants and `localisedExtensions` are reproduced. Only where they appear in the file is proved about them.
- EnumBuilder.FileShape: whether the trimmed extensions are placed after an empty line is not stated; only the start, the end and the presence of the master enum are.
- StructBuilder.MemberLooksUpKey: states that the key and the bundle occur in the `return` line, not their exact position inside the quotes.
