# Proteas, modelled in Dafny

Proteas builds LLM prompts from reusable pieces. A **prompt template unit** is
one named fragment of text with an optional explicit order, an optional prefix
and suffix line, and an enabled flag. It renders itself with PEP 292 `$`
placeholders filled in through `string.Template.safe_substitute`. The
**assembler** (`Proteas`) keeps (insertion index, unit) entries. It compiles
them by sorting on (order, with no order after every explicit one; insertion
index), keeping enabled units, rendering them, dropping empty renders and
joining the rest with a separator. The **combination generator** builds one
assembler per subset of a list of units, by increasing size, and counts those
subsets. Two older modules are modelled separately: the legacy unit with its
question mode and string builders, and `Bin`, a list-backed store searched by
name and category.

The modules follow the program:

| module | file | models |
|---|---|---|
| `Wrappers` | wrappers.dfy | `Option` (Python's `None`) and `Result` (a raised `ValueError`) |
| `Text` | text.dfy | `str.join`, `str()` of an int, `repr()` of a str, substring facts |
| `SafeTemplate` | safe_template.dfy | `string.Template.safe_substitute`, as a scanner over `seq<char>` |
| `Unit` | unit.dfy | proteas/unit.py |
| `Assembler` | assembler.dfy | proteas/proteas.py |
| `Combinations` | combinations.dfy | proteas/combinations.py |
| `LegacyUnit` | legacy_unit.dfy | proteas/prompt_template_unit.py |
| `Bin` | bin.dfy | proteas/bin.py |

State that the source changes in place is modelled with classes:

- `Unit.PromptTemplateUnit` has a mutable `enabled` and constant other fields, because no code reassigns them.
- `Assembler.Proteas` has mutable `entries` and `counter`. Its invariant `Valid()` says the insertion indices strictly increase and all stay below the counter.
- `LegacyUnit.PromptTemplateUnit` has mutable `markedAsQuestion` and `answered`.
- `Bin.Bin` has mutable `storage` and `questinables` (the source's spelling).

Loops in the source are methods with loop invariants. Each is proved against a specification function:

- `Compile` against `Compiled`;
- `GetUnit` against `FirstNamed`;
- `Bring` against `FirstWithName`;
- `BringByCategory` against `WithCategory`;
- `CountCombinations` against `CombinationCount`;
- `GenerateCombinations` against `SizedCombos`.

The lemmas are stated about those functions.

Keyword arguments (`**kwargs`) are a `map<string, string>`. Python truthiness of an optional string is `Wrappers.Present`: given and non-empty. `float('inf')` in the sort key is `None` in an `Option<int>`, ordered after every integer.

Where the documentation and the code disagree, the model follows the code:

- The compile docstring (proteas/proteas.py:75) and the placeholder tests (proteas/tests/test_proteas.py:134-158) use `{name}` placeholders. `render` only performs `$` substitution (proteas/unit.py:61), so braces are ordinary text in this model.
- `render` decides whether to keep the content part by testing the original content, not the substituted text. A non-empty content that substitutes to `""` still contributes an empty line part (proteas/unit.py:58-64). `Unit.PromptTemplateUnit.Render` states exactly that.

## Model

| member | source | states |
|---|---|---|
| SafeTemplate.Scan | proteas/unit.py:61 | the template is cut into well-formed tokens: plain characters other than `$`, `$$`, `$id` with a valid identifier, `${id}`, or a lone `$` |
| SafeTemplate.Marker | proteas/unit.py:61 | the marker is a well-formed non-literal token spelling a prefix of the text at the `$`, and one ensures per rule fixes which rule applies: `$$` exactly when `$` follows, a named placeholder exactly when an identifier start follows (and then the longest identifier), braced exactly when `{id}` follows, invalid exactly when none of these does; EscapeCollapsed, NamedReplaced, BracedReplaced and InvalidKept state what each outcome substitutes to |
| SafeTemplate.IdRun | proteas/unit.py:61 | identifiers are matched greedily: the run is a prefix of identifier characters and the next character is not one |
| SafeTemplate.IdRunOf | proteas/unit.py:61 | an identifier followed by a non-identifier character is matched as exactly that identifier |
| SafeTemplate.ScanSpellsTemplate | proteas/unit.py:61 | scanning loses and invents nothing: the tokens spell the template back exactly |
| SafeTemplate.LiteralCopied | proteas/unit.py:26-28 | any character other than `$`, braces included, is copied unchanged |
| SafeTemplate.EscapeCollapsed | proteas/unit.py:61 | `$$` becomes a single `$` |
| SafeTemplate.NamedReplaced | proteas/unit.py:61 | `$id` becomes the mapped value when `id` is a key and is kept verbatim otherwise |
| SafeTemplate.BracedReplaced | proteas/unit.py:61 | `${id}` becomes the mapped value when `id` is a key and is kept verbatim otherwise |
| SafeTemplate.InvalidKept | proteas/unit.py:61 | a `$` that starts no placeholder is kept, and scanning resumes right after it |
| SafeTemplate.DollarFreeCopied | proteas/unit.py:26-28 | a stretch of text without `$` is copied as a whole |
| SafeTemplate.NoDollarUnchanged | proteas/unit.py:26-28 | content without `$` is returned unchanged, whatever the mapping |
| SafeTemplate.EmitVerbatim | proteas/unit.py:61 | tokens that are neither `$$` nor a known placeholder come out as they were written |
| SafeTemplate.Emit | proteas/unit.py:61 | defines what one token writes: a literal itself, `$$` a single `$`, a placeholder its value when the key is present and its own spelling otherwise, a lone `$` itself; EmitVerbatim and EmitAgrees are the lemmas about it |
| SafeTemplate.EmitAll | proteas/unit.py:61 | defines the output of a token list as the outputs of its tokens in order; EmitVerbatim, EmitAgrees and DollarFreeCopied are the lemmas about it |
| SafeTemplate.SafeSubstitute | proteas/unit.py:61 | defines `safe_substitute` as scanning then emitting; its behaviour is stated by the rule lemmas LiteralCopied, EscapeCollapsed, NamedReplaced, BracedReplaced and InvalidKept and by NoDollarUnchanged, UnknownPlaceholdersVerbatim and ExtraKeysIgnored |
| SafeTemplate.UnknownPlaceholdersVerbatim | proteas/unit.py:61 | a template without `$$` whose placeholders are all unknown keys is left exactly as written |
| SafeTemplate.EmitAgrees | proteas/unit.py:61 | two mappings that agree on the placeholders present produce the same output |
| SafeTemplate.ExtraKeysIgnored | proteas/unit.py:61 | keys that name no placeholder of the template have no effect |
| SafeTemplate.NamedAfterText | proteas/unit.py:61 | text without `$` before a `$id` is copied and the placeholder is then resolved |
| SafeTemplate.BracedAfterText | proteas/unit.py:61 | text without `$` before a `${id}` is copied and the placeholder is then resolved |
| SafeTemplate.NamedInText | proteas/unit.py:26-28 | in `before$id after` only the placeholder changes; the surrounding text is kept |
| SafeTemplate.BracedInText | proteas/unit.py:26-28 | in `before${id}after` only the placeholder changes; the surrounding text, braces included, is kept |
| Text.Join | proteas/unit.py:69 | defines `sep.join(parts)`: the parts in order with the separator between neighbours; JoinEmptyIff and JoinContainsParts are the lemmas about it |
| Text.JoinEmptyIff | proteas/proteas.py:97 | joining non-empty parts gives `""` exactly when there are no parts |
| Text.JoinContainsParts | proteas/proteas.py:97 | every part occurs in the joined text |
| Text.JoinPair | proteas/unit.py:69 | a proof step of Unit.PromptTemplateUnit.Render: two parts join to the first, the separator and the second |
| Text.JoinTriple | proteas/unit.py:69 | a proof step of Unit.PromptTemplateUnit.Render: three parts join with the separator between each neighbouring pair |
| Text.NatToString | proteas/unit.py:105 | `str(n)` of a natural number is non-empty, all digits, with no leading zero unless n is 0 |
| Text.IntToString | proteas/unit.py:105 | `str(i)` starts with `-` exactly for negative i |
| Text.ParseNatToString | proteas/unit.py:105 | the decimal numeral of n reads back as n |
| Text.ParseSigned | proteas/unit.py:105 | a minus sign in front of a numeral negates its value |
| Text.NegativeReadsBack | proteas/unit.py:105 | the numeral of a negative order reads back as that order |
| Text.ParseIntToString | proteas/unit.py:105 | the decimal numeral of an int reads back as that int |
| Text.EndsWithExtended | proteas/prompt_template_unit.py:136 | an ending of the last piece is an ending of the whole statement |
| Text.IntToStringInjective | proteas/unit.py:105 | distinct orders print differently |
| Text.Repr | proteas/unit.py:106 | `repr` of a str is wrapped in the quote character it chooses |
| Text.ReprOfPlain | proteas/unit.py:106 | printable ASCII text without quotes or backslashes is shown as itself between single quotes |
| Unit.PromptTemplateUnit.constructor | proteas/unit.py:32-37 | the dataclass defaults: empty content, no order, prefix or suffix, enabled |
| Unit.PromptTemplateUnit.Body | proteas/unit.py:59-63 | with an empty mapping the content is used verbatim (`$name` stays), and content without `$` is unchanged under any mapping |
| Unit.PromptTemplateUnit.Render | proteas/unit.py:39-69 | a disabled unit renders `""`; an enabled one renders the present parts among prefix, (substituted) content and suffix, in that order, joined by newlines, for each of the eight combinations |
| Unit.PromptTemplateUnit.Enable | proteas/unit.py:71-74 | sets `enabled`, returns the same object; the other fields are constant |
| Unit.PromptTemplateUnit.Disable | proteas/unit.py:76-79 | clears `enabled`, returns the same object; the other fields are constant |
| Unit.PromptTemplateUnit.WithContent | proteas/unit.py:81-90 | a fresh unit equal to the receiver in every field but the content; the receiver is untouched |
| Unit.PromptTemplateUnit.WithOrder | proteas/unit.py:92-101 | a fresh unit equal to the receiver in every field but the order (None allowed); the receiver is untouched |
| Unit.PromptTemplateUnit.OrderText | proteas/unit.py:105 | `order=<n>` when an order is set, `order=auto` otherwise |
| Unit.PromptTemplateUnit.Str | proteas/unit.py:103-106 | defines `__str__` from the repr of the name, the order text and the status; StrShowsName, StrShowsPlainName, StrShowsOrder and StrShowsStatus are the lemmas about it |
| Unit.StrShowsName | proteas/unit.py:106 | the summary contains the repr of the name |
| Unit.StrShowsPlainName | proteas/unit.py:106 | a plain name appears in the summary between single quotes |
| Unit.StrShowsOrder | proteas/unit.py:105-106 | the summary contains `order=<n>` for a set order and `order=auto` otherwise |
| Unit.StatusEndingsDiffer | proteas/unit.py:104 | a proof step of StrShowsStatus: the `disabled` ending does not end in the `enabled` ending |
| Unit.StrShowsStatus | proteas/unit.py:104-106 | the summary ends in `, enabled)` exactly when the unit is enabled and in `, disabled)` exactly when it is not |
| Assembler.KeyLess | proteas/proteas.py:83-86 | defines the sort key `(order if set else infinity, index)` as a comparison; KeyOrder proves it a strict total order and OrderingLaw what it means for the sorted list |
| Assembler.KeyOrder | proteas/proteas.py:81-87 | the sort key is a strict total order on entries with distinct insertion indices |
| Assembler.Insert | proteas/proteas.py:81-87 | one insertion step keeps every entry and adds the new one |
| Assembler.SortEntries | proteas/proteas.py:81-87 | the sorted copy is a permutation of the entries |
| Assembler.ConsSorted | proteas/proteas.py:81-87 | a head below every element of a sorted list gives a sorted list |
| Assembler.HeadBelowTail | proteas/proteas.py:81-87 | the head of a sorted list is below everything after it |
| Assembler.InsertMembers | proteas/proteas.py:81-87 | an insertion step adds only the inserted entry |
| Assembler.InsertSorted | proteas/proteas.py:81-87 | inserting into a key-sorted list keeps it key-sorted |
| Assembler.SortEntriesSorted | proteas/proteas.py:81-87 | with distinct insertion indices the sorted copy is strictly ordered by key |
| Assembler.SortedTail | proteas/proteas.py:81-87 | the tail of a key-sorted list is key-sorted |
| Assembler.SortedSameHead | proteas/proteas.py:81-87 | two key-sorted arrangements of the same entries start alike |
| Assembler.SortedUnique | proteas/proteas.py:81-87 | there is only one key-sorted arrangement of a set of entries, so the order is fully determined by the key |
| Assembler.OrderingLaw | proteas/proteas.py:81-87 | after sorting, explicit orders come first and ascend, no order comes after all of them, and equal orders go by insertion index |
| Assembler.Renders | proteas/proteas.py:90-95 | no kept render is empty, and there are at most as many as entries |
| Assembler.RendersMembers | proteas/proteas.py:90-95 | every kept render comes from an enabled unit, and every enabled unit's non-empty render is kept |
| Assembler.RendersSnoc | proteas/proteas.py:91-95 | one more entry adds its render at the end exactly when the unit is enabled and the render is non-empty |
| Assembler.RendersAppend | proteas/proteas.py:90-95 | rendering keeps list order: renders of a concatenation are the concatenated renders |
| Assembler.EnabledOf | proteas/proteas.py:173-176 | only enabled units, each taken from an entry, every enabled entry's unit included, at most as many as entries; order and repetitions are fixed by EnabledOfOne and EnabledOfAppend |
| Assembler.EnabledOfOne | proteas/proteas.py:176 | one entry contributes its unit exactly when that unit is enabled |
| Assembler.EnabledOfAppend | proteas/proteas.py:176 | the filter distributes over concatenation, so the enabled units keep insertion order and each entry counts once |
| Assembler.EnabledOfAll | proteas/proteas.py:176 | the filter returns all units exactly when every unit is enabled |
| Assembler.UnitsOf | proteas/proteas.py:168-171 | the units of the entries, position by position |
| Assembler.FirstNamed | proteas/proteas.py:109-112 | the first position with that name, or none exactly when no unit has it |
| Assembler.WithoutName | proteas/proteas.py:124 | exactly the entries whose unit has another name |
| Assembler.WithoutNameAppend | proteas/proteas.py:124 | removal keeps the surviving entries in their order |
| Assembler.IncreasingTail | proteas/proteas.py:33-34 | the tail of an increasing index list is increasing and above its head |
| Assembler.ConsIncreasing | proteas/proteas.py:33-34 | a head with a smaller index extends an increasing list |
| Assembler.WithoutNameIncreasing | proteas/proteas.py:124 | removal keeps the insertion indices strictly increasing |
| Assembler.Numbered | proteas/proteas.py:61-62 | the entries that adding units one by one from a counter creates |
| Assembler.UnitSetOfPermutation | proteas/proteas.py:81-87 | sorting refers to the same unit objects as the stored list |
| Assembler.Compiled | proteas/proteas.py:81-97 | defines the compiled text: the separator-join of the kept renders of the key-sorted entries; Proteas.Compile is proved equal to it, and CompiledFromAnySortedArrangement, CompiledEmptyIff and CompiledShowsEachRender are the lemmas about it |
| Assembler.CompiledFromAnySortedArrangement | proteas/proteas.py:81-97 | compiling equals rendering and joining any key-sorted arrangement of the entries |
| Assembler.CompiledEmptyIff | proteas/proteas.py:90-97 | the compiled text is `""` exactly when no enabled unit renders to anything (so also with no units) |
| Assembler.CompiledShowsEachRender | proteas/proteas.py:90-97 | every enabled unit's non-empty render occurs in the compiled text |
| Assembler.Proteas.constructor | proteas/proteas.py:26-35 | an empty assembler with counter 0 and the given separator (default two newlines) |
| Assembler.Proteas.Add | proteas/proteas.py:37-49 | appends (counter, unit), advances the counter, keeps the invariant and returns the assembler |
| Assembler.Proteas.AddMany | proteas/proteas.py:51-63 | the same entries and counter as adding the units one by one in order |
| Assembler.Proteas.Compile | proteas/proteas.py:65-97 | the separator-join of the non-empty renders of the enabled units in key order; nothing is modified |
| Assembler.Proteas.GetUnit | proteas/proteas.py:99-112 | the first unit with that name in insertion order, or None |
| Assembler.Proteas.Remove | proteas/proteas.py:114-125 | drops every entry with that name, keeps the others in order, leaves the counter, keeps the invariant |
| Assembler.Proteas.Clear | proteas/proteas.py:127-136 | no entries and the counter back at 0 |
| Assembler.Proteas.Enable | proteas/proteas.py:138-151 | enables the first unit with that name; no other unit changes; no-op when the name is absent |
| Assembler.Proteas.Disable | proteas/proteas.py:153-166 | disables the first unit with that name; no other unit changes; no-op when the name is absent |
| Assembler.Proteas.Units | proteas/proteas.py:168-171 | the stored units, one per entry, position by position in insertion order |
| Assembler.Proteas.EnabledUnits | proteas/proteas.py:173-176 | only enabled stored units, every enabled stored unit included, at most one per entry; order and repetitions as EnabledOfAppend states |
| Assembler.Proteas.Len | proteas/proteas.py:178-179 | the number of entries, equal to the number of units listed |
| Assembler.Proteas.Str | proteas/proteas.py:181-184 | defines `__str__` from the enabled and total counts; StrReportsCounts is the lemma about it |
| Assembler.StrReportsCounts | proteas/proteas.py:181-184 | the summary shows enabled over total, and enabled never exceeds total |
| Assembler.ValidDistinct | proteas/proteas.py:33-34 | the invariant gives distinct insertion indices, so compile's sort is strict |
| Combinations.Binom | proteas/combinations.py:97 | defines `math.comb(n, k)` by Pascal's rule; BinomEdges and BinomBeyond give its edge values, and IndexCombosCount proves it counts the combinations |
| Combinations.BinomEdges | proteas/combinations.py:97 | C(n, 0) and C(n, n) are 1 and C(n, 1) is n |
| Combinations.BinomBeyond | proteas/combinations.py:97 | C(n, k) is 0 for k > n, as `math.comb` returns |
| Combinations.SumBinom | proteas/combinations.py:96-97 | defines the sum of C(n, k) over a size range; SumBinomBeyond, SumBinomClamped and SumBinomSnoc are the lemmas about it, and CountCombinations is proved to compute it |
| Combinations.SumBinomBeyond | proteas/combinations.py:96-97 | sizes above n contribute nothing to the count |
| Combinations.SumBinomClamped | proteas/combinations.py:48-49 | summing up to any maximum at or above n equals summing up to n, matching the clamp |
| Combinations.SumBinomSnoc | proteas/combinations.py:96-97 | the running total grows by C(n, size) at each step |
| Combinations.CombinationCount | proteas/combinations.py:74-98 | an empty size range counts 0; otherwise a negative n or size raises, as `math.comb` does |
| Combinations.CountCombinations | proteas/combinations.py:74-98 | the loop computes the sum of C(n, k) over the size range, max defaulting to n, or the error |
| Combinations.IndexCombos | proteas/combinations.py:57 | defines `itertools.combinations` over positions start to n - 1 by first-element recursion; IndexCombosCount, IndexCombosShape, IndexCombosComplete, IndexCombosLexOrdered and IndexCombosDistinct are the lemmas about it |
| Combinations.Prepend | proteas/combinations.py:57 | puts one position in front of each combination |
| Combinations.LexLessIrreflexive | proteas/combinations.py:57 | no combination is lexicographically before itself |
| Combinations.IndexCombosCount | proteas/combinations.py:57 | there are C(n - start, k) k-combinations of the positions from start |
| Combinations.IndexCombosShape | proteas/combinations.py:57 | each has k strictly increasing positions in range |
| Combinations.ComboTail | proteas/combinations.py:57 | a combination starting at the first position continues with a combination of the remaining positions |
| Combinations.ComboRaise | proteas/combinations.py:57 | a combination not using the first position is a combination of the remaining positions |
| Combinations.PrependMember | proteas/combinations.py:57 | a combination with the first position in front is among the prefixed ones |
| Combinations.IndexCombosComplete | proteas/combinations.py:57 | every strictly increasing k-list of positions in range is produced |
| Combinations.IndexCombosLexOrdered | proteas/combinations.py:57 | they come in strictly increasing lexicographic order of positions |
| Combinations.IndexCombosDistinct | proteas/combinations.py:57 | no combination of one size repeats |
| Combinations.SizedCombos | proteas/combinations.py:56-57 | defines the combinations of every size in the range, smaller sizes first; SizedCombosSnoc, SizedCombosCount, SizedCombosOrdered and SizedCombosDistinct are the lemmas about it |
| Combinations.SizedCombosSnoc | proteas/combinations.py:56-57 | the next size's combinations follow the smaller sizes |
| Combinations.SizedCombosCount | proteas/combinations.py:56-57 | as many combinations as the sum of C(n, k) over the size range |
| Combinations.SizedCombosOrdered | proteas/combinations.py:56-57 | sizes lie in the range and ascend; within a size, lexicographic order |
| Combinations.SizedCombosDistinct | proteas/combinations.py:56-57 | no combination occurs twice in the output |
| Combinations.Bounds | proteas/combinations.py:42-51 | min below 1 is an error; max defaults to the unit count and is clamped to it; min above the clamped max is an error; otherwise 1 <= min <= max <= n |
| Combinations.CountMatchesGenerated | proteas/combinations.py:42-51 | for accepted bounds, the count equals the number of combinations generated |
| Combinations.Select | proteas/combinations.py:66-67 | the units at the chosen positions, in input order |
| Combinations.NamesOf | proteas/combinations.py:70 | the names of the chosen units, in order |
| Combinations.BuildAssembler | proteas/combinations.py:59-67 | a fresh assembler with the given separator holding the base units and then the chosen units, numbered from 0 |
| Combinations.BuildSize | proteas/combinations.py:57-71 | for one size, one pair per combination in lexicographic order, each with a fresh and distinct assembler |
| Combinations.Enumerate | proteas/combinations.py:56-71 | for sizes lo to hi, the pairs of every size in turn, each with a fresh and distinct assembler |
| Combinations.GenerateCombinations | proteas/combinations.py:15-71 | either the bounds' error, or one pair per combination in size-then-lexicographic order, each with the combination's names and a fresh, distinct assembler built from base units then chosen units |
| LegacyUnit.FormatInfo | proteas/prompt_template_unit.py:31-35 | info followed by a newline when present, `""` exactly when absent or empty |
| LegacyUnit.FormatPlaceholder | proteas/prompt_template_unit.py:37-43 | the braced placeholder after `:` and a newline, ending in a rule, when pretty; after `: `, ending in a newline, otherwise; `""` exactly without a placeholder |
| LegacyUnit.FramedShape | proteas/prompt_template_unit.py:40-42 | the framed placeholder starts with its lead, contains the braced name and ends with `}` and its tail |
| LegacyUnit.FormatSuffix | proteas/prompt_template_unit.py:45-49 | `## ` plus the suffix in Markdown mode when it is present, the suffix itself otherwise, and `""` exactly for None or an empty suffix |
| LegacyUnit.Headline | proteas/prompt_template_unit.py:128-133 | suffix and proclamation joined by a space when both are there, the one that is there alone, or nothing |
| LegacyUnit.PromptTemplateUnit.constructor | proteas/prompt_template_unit.py:3-12 | a falsy statement suffix becomes `Here is`; question suffix `What is `; neither marked as a question nor answered |
| LegacyUnit.PromptTemplateUnit.MakeQuestion | proteas/prompt_template_unit.py:20-21 | marks the unit as a question |
| LegacyUnit.PromptTemplateUnit.CloseQuestion | proteas/prompt_template_unit.py:23-25 | unmarks the question and records the answered flag, true by default |
| LegacyUnit.PromptTemplateUnit.QuestionProclamation | proteas/prompt_template_unit.py:122 | `placeholder_proclamation or ""`: the proclamation whenever one is given, an empty one included, and `""` for None |
| LegacyUnit.PromptTemplateUnit.ConstructStatement | proteas/prompt_template_unit.py:117-138 | always starts with the info line; a question is suffix, space, proclamation and `?`; without a placeholder just the info line; otherwise headline then formatted placeholder |
| LegacyUnit.QuestionShape | proteas/prompt_template_unit.py:118-123 | a question starts with the info line and the (Markdown) question suffix, ends in `?`, and does not depend on pretty-printing |
| LegacyUnit.StatementEndsWithPlaceholder | proteas/prompt_template_unit.py:126-136 | with a placeholder the statement contains it in braces and ends with the pretty or inline tail |
| LegacyUnit.StatementShowsSuffix | proteas/prompt_template_unit.py:126-133 | with a non-empty statement suffix the statement shows the suffix then the proclamation, so the proclamation-only branch is never taken for a constructed unit |
| Bin.FirstWithName | proteas/bin.py:18-20 | the first stored item with that name, none exactly when no item has it |
| Bin.FirstWithNameAppend | proteas/bin.py:7-20 | adding an item never hides an earlier match |
| Bin.FirstWithNameSplit | proteas/bin.py:18-20 | a match with none before it is the first match |
| Bin.WithCategory | proteas/bin.py:24-26 | exactly the stored items of that category |
| Bin.WithCategoryAppend | proteas/bin.py:24-26 | filtering keeps storage order: filtering a concatenation filters each part |
| Bin.WithCategoryIdempotent | proteas/bin.py:24-26 | filtering twice by one category changes nothing |
| Bin.Bin.constructor | proteas/bin.py:3-5 | empty storage and questionable list |
| Bin.Bin.Add | proteas/bin.py:7-8 | appends to the storage |
| Bin.Bin.Reset | proteas/bin.py:10-11 | empties the storage and leaves the questionable list alone |
| Bin.Bin.Bring | proteas/bin.py:13-20 | the first stored item with that name, or None; the storage is not modified |
| Bin.Bin.BringByCategory | proteas/bin.py:22-27 | the stored items of that category in storage order; the storage is not modified |
| Bin.Bin.FindQuestionablePrompts | proteas/bin.py:28-35 | sets the questionable list to the stored `context_prompts` items in order; the storage is not modified |

## Left out

- Text.Repr: characters from U+0080 on are copied as they are. Python escapes the non-printable ones with `\x`, `\u` or `\U`. Only printable ASCII names are proved to appear unchanged.
- Substitution values are strings. The `str()` coercion of other values that `safe_substitute` applies is not modelled.
- The regular expression engine behind `string.Template` is replaced by the scanner it implements: the PEP 292 rules over `seq<char>`.
- `float('inf')` in the sort key is modelled as `None` ordered after every integer. Python's `sorted` is modelled as an insertion sort. Because insertion indices are distinct, the sorted result is unique (`SortedUnique`), so the algorithm does not matter.
- `generate_combinations` is a lazy generator that raises its `ValueError` only on the first `next()`. The model returns the finished list of pairs, or the error, at once.
- A single unit object shared by several assemblers is modelled by reference: every generated assembler refers to the same base unit objects. Enabling a unit through one assembler is visible through all of them. No lemma is stated about that sharing.
- The chaining return value `self` is modelled for `enable`, `disable`, `add`, `add_many`, `remove` and `clear`. Python's `if unit:` test in `enable`/`disable` is always true for a found unit, and is modelled as "a unit was found".
- Bin.Bin.Bring: the first loop over the storage has no effect and is not modelled.
- `Bin` stores any object in Python; the model stores legacy prompt units, the only objects the store's lookups are written for.
- The commented-out `construct_statement` variants (proteas/prompt_template_unit.py:51-115) are not part of this model. Neither are the `__repr__` aliases of `__str__` or the commented-out `answered` method.
- setup.py (packaging and reading README.md) and proteas/__init__.py (re-exports) are not part of this model.
- The `{name}` placeholder tests in proteas/tests/test_proteas.py:134-158 are not modelled, because the code they test performs `$` substitution only.
