# consistent-data-testid, modelled in Dafny

This project models the ESLint rule `consistent-data-testid` from
eslint-plugin-testing-library. The rule checks JSX test ids. Every string
literal given to the configured attribute (default `data-testid`) must match
the configured `testIdPattern`. In the pattern, `{fileName}` stands for the
logical name of the file being linted. A failing value is reported as
`` `<attr>` "<value>" should match `/<pattern>/` ``, where the pattern shown
is the one after substitution.

The rule's implementation is not part of this model. Its behaviour is taken
from its RuleTester case table. In `rule_cases.dfy` each lemma named
`Valid…` or `Invalid…` restates one case of that table. The other lemmas
there derive the facts those cases rest on: path segments, stems, logical
names, the substituted patterns and the message texts.

Files, one module each:

- `strings.dfy` (`Strings`): `split` on one character, `join`, prefix and
  substring tests. `Split` and `Join` are proved inverse in both directions.
- `file_name.dfy` (`FileName`): the logical file name. The path is split on
  `/` and the stem of the base name is the text before its first `.`. A stem
  of `index` is replaced by the name of the parent directory.
- `template.dfy` (`Template`): replacement of every `{fileName}` in a
  template. The scan goes left to right and never rescans inserted text.
- `rule.dfy` (`ConsistentDataTestId`):
  - the options and their defaults;
  - the message;
  - the check of one attribute occurrence (`EvaluateOccurrence`);
  - the diagnostics of one file (`Lint`).

  Regular-expression matching is a parameter `matches(pattern, value)`,
  standing for `RegExp(pattern).test(value)`. Some lemmas assume it is
  `PlainFaithful`: on a pattern with no ECMAScript syntax character it tests
  substring containment, as ECMA-262 section 22.2 (RegExp Objects) has it.
  `SubstringMatcher` meets that assumption.
- `rule_cases.dfy` (`ConsistentDataTestIdCases`): one lemma per valid and
  per invalid test case. Further lemmas derive the logical names of the
  three test paths, the substituted patterns and the exact message texts.

## Model

| member | source | states |
|---|---|---|
| Strings.Contains | tests/lib/rules/consistent-data-testid.js:31-37 | substring containment (`includes`): some index where `p` occurs; it is the meaning of a plain pattern, and ContainsPrefix and ContainsOnlyCharsOf describe it |
| Strings.Join | tests/lib/rules/consistent-data-testid.js:70 | `join` with a separator string; JoinSplit and SplitJoin prove it inverse to `Split` |
| Strings.Split | tests/lib/rules/consistent-data-testid.js:70 | the segments of a path hold no separator; there is at least one; the first is the text before the first separator; there is exactly one when the separator does not occur |
| Strings.JoinSplit | tests/lib/rules/consistent-data-testid.js:70 | joining the segments of a split with the separator gives the original path back |
| Strings.SplitJoin | tests/lib/rules/consistent-data-testid.js:108 | splitting a join of separator-free segments gives the segments back, so a path and its segments determine each other |
| Strings.SplitNoSeparator | tests/lib/rules/consistent-data-testid.js:70 | a string without the separator is a single segment |
| Strings.ContainsPrefix | tests/lib/rules/consistent-data-testid.js:31-37 | a string contains each of its prefixes (`cool` contains `cool`) |
| Strings.ContainsOnlyCharsOf | tests/lib/rules/consistent-data-testid.js:191-197 | every character of a contained string occurs in the containing one |
| FileName.Stem | tests/lib/rules/consistent-data-testid.js:70 | the stem is a prefix of the base name, holds no `.`, and is followed by a `.` unless it is the whole name |
| FileName.LogicalName | tests/lib/rules/consistent-data-testid.js:53-128 | the logical name is a single path component (holds no `/`); LogicalNameOfFile and LogicalNameOfIndexFile give its value for ordinary and index files |
| FileName.StemOfDotted | tests/lib/rules/consistent-data-testid.js:89 | for a dot-free name followed by `.` and an extension, the stem is that name |
| FileName.LogicalNameOfFile | tests/lib/rules/consistent-data-testid.js:67-70 | for a base name whose stem is not `index`, the logical name is that stem, whatever the directories |
| FileName.LogicalNameOfIndexFile | tests/lib/rules/consistent-data-testid.js:97-108 | for a base name whose stem is `index`, the logical name is the directory that holds it, whatever lies above it |
| FileName.LogicalNameOfRootIndex | tests/lib/rules/consistent-data-testid.js:97-108 | the index rule applied directly under the root: `/index.js` takes the empty segment before the root `/` as its name |
| FileName.LogicalNameWithoutDirectory | tests/lib/rules/consistent-data-testid.js:67-70 | a path without `/` has its stem as its logical name, even when the stem is `index` |
| FileName.IndexFileNamedLikeSibling | tests/lib/rules/consistent-data-testid.js:53-109 | `Name.ext` and `Name/index.ext2` in the same directory get the same logical name |
| Template.ReplaceAll | tests/lib/rules/consistent-data-testid.js:266-276 | the left-to-right replacement of every token; ReplaceAllJoin and ReplaceAllAbsent state what it does |
| Template.Substitute | tests/lib/rules/consistent-data-testid.js:216-225 | a template without `{fileName}` is left unchanged |
| Template.ReplaceAllAbsent | tests/lib/rules/consistent-data-testid.js:216-225 | where the token does not occur, replacement changes nothing |
| Template.ReplaceAllToken | tests/lib/rules/consistent-data-testid.js:124-127 | a token at the front is replaced and the scan continues after it |
| Template.ReplaceAllBeforeToken | tests/lib/rules/consistent-data-testid.js:266-275 | text without the token, followed by the token, is copied verbatim and the token is replaced, when the token's first character does not recur in it |
| Template.ReplaceAllJoin | tests/lib/rules/consistent-data-testid.js:266-275 | pieces joined by the token become the same pieces joined by the replacement: every occurrence is replaced and the text between is kept, for any pieces free of the token (they may hold `{`) |
| Template.PlaceholderHeadOnce | tests/lib/rules/consistent-data-testid.js:268 | the `{` of `{fileName}` does not recur inside it |
| Template.SubstituteJoin | tests/lib/rules/consistent-data-testid.js:266-276 | every `{fileName}` in a template is replaced by the name and the text between placeholders is kept, whatever it holds |
| Template.ReplaceAllLeavesNoHead | tests/lib/rules/consistent-data-testid.js:266-275 | if every `{` of the template opens a placeholder and the name holds no `{`, the result holds no `{` |
| Template.NoPlaceholderRemains | tests/lib/rules/consistent-data-testid.js:266-275 | under the same conditions no `{fileName}` is left after substitution |
| Template.InsertedTextNotRescanned | tests/lib/rules/consistent-data-testid.js:124-127 | the bare template `{fileName}` becomes exactly the logical name |
| ConsistentDataTestId.SubstringMatcherIsPlainFaithful | tests/lib/rules/consistent-data-testid.js:25-38 | substring containment satisfies the matcher assumption, so the assumption can be met |
| ConsistentDataTestId.PlainVerdict | tests/lib/rules/consistent-data-testid.js:197-201 | on a plain pattern a faithful matcher's verdict is containment of the pattern in the value |
| ConsistentDataTestId.PlainTemplateHasNoPlaceholder | tests/lib/rules/consistent-data-testid.js:216-225 | a plain template has no placeholder, so it resolves to itself on every path |
| ConsistentDataTestId.ConfigOf | tests/lib/rules/consistent-data-testid.js:37 | a given option is used as given; a missing attribute becomes `data-testid` and a missing pattern the always-matching empty pattern |
| ConsistentDataTestId.ResolvePattern | tests/lib/rules/consistent-data-testid.js:216-225 | a template without placeholder is the pattern itself, on any path |
| ConsistentDataTestId.Message | tests/lib/rules/consistent-data-testid.js:200 | the message format `` `<attr>` "<value>" should match `/<pattern>/` ``; MessageDeterminesValue and the `…MessageText` lemmas state its properties and the four texts of the tests |
| ConsistentDataTestId.MessageDeterminesValue | tests/lib/rules/consistent-data-testid.js:198-201 | the message names the offending value: two values with the same message are equal |
| ConsistentDataTestId.EvaluateOccurrence | tests/lib/rules/consistent-data-testid.js:129-147 | an occurrence is reported exactly when it has the configured attribute, a literal value and no match against the substituted pattern; the report is the message with that attribute, value and substituted pattern |
| ConsistentDataTestId.Lint | tests/lib/rules/consistent-data-testid.js:198-202 | a file gets at most one diagnostic per occurrence |
| ConsistentDataTestId.LintAppend | tests/lib/rules/consistent-data-testid.js:228-253 | occurrences are checked independently: the diagnostics of a concatenation are those of the parts, in order |
| ConsistentDataTestId.LintReports | tests/lib/rules/consistent-data-testid.js:228-253 | a message is reported exactly when some occurrence fails with it |
| ConsistentDataTestId.LintSilentIff | tests/lib/rules/consistent-data-testid.js:24-183 | a file is clean exactly when no occurrence fails |
| ConsistentDataTestId.LintSkipsIrrelevant | tests/lib/rules/consistent-data-testid.js:39-52 | occurrences of other attributes and dynamic values never give a diagnostic, whatever the pattern and matcher |
| ConsistentDataTestId.LintIgnoresPathWithoutPlaceholder | tests/lib/rules/consistent-data-testid.js:204-227 | with a template that has no placeholder, the file path makes no difference to the diagnostics |
| ConsistentDataTestId.DefaultConfigReportsNothing | tests/lib/rules/consistent-data-testid.js:37 | the default attribute is `data-testid`, and with both defaults no occurrence is ever reported |
| ConsistentDataTestIdCases.JoinSix | tests/lib/rules/consistent-data-testid.js:70 | a six-segment join spelled out |
| ConsistentDataTestIdCases.AwesomeJoin | tests/lib/rules/consistent-data-testid.js:70 | `/my/cool/file/path/Awesome.js` is the join of its six segments |
| ConsistentDataTestIdCases.ParentIndexJoin | tests/lib/rules/consistent-data-testid.js:108 | `/my/cool/file/Parent/index.js` is the join of its six segments |
| ConsistentDataTestIdCases.TestsParentIndexJoin | tests/lib/rules/consistent-data-testid.js:127 | `/my/cool/__tests__/Parent/index.js` is the join of its six segments |
| ConsistentDataTestIdCases.AwesomeSegments | tests/lib/rules/consistent-data-testid.js:70 | the segments of `/my/cool/file/path/Awesome.js`, leading empty segment included |
| ConsistentDataTestIdCases.ParentIndexSegments | tests/lib/rules/consistent-data-testid.js:108 | the segments of `/my/cool/file/Parent/index.js` |
| ConsistentDataTestIdCases.TestsParentIndexSegments | tests/lib/rules/consistent-data-testid.js:127 | the segments of `/my/cool/__tests__/Parent/index.js` |
| ConsistentDataTestIdCases.AwesomeStem | tests/lib/rules/consistent-data-testid.js:70 | the stem of `Awesome.js` is `Awesome` |
| ConsistentDataTestIdCases.IndexStemOfIndexJs | tests/lib/rules/consistent-data-testid.js:108 | the stem of `index.js` is `index` |
| ConsistentDataTestIdCases.AwesomeName | tests/lib/rules/consistent-data-testid.js:67-70 | `/my/cool/file/path/Awesome.js` has logical name `Awesome` |
| ConsistentDataTestIdCases.ParentIndexName | tests/lib/rules/consistent-data-testid.js:97-108 | `/my/cool/file/Parent/index.js` has logical name `Parent` |
| ConsistentDataTestIdCases.TestsParentIndexName | tests/lib/rules/consistent-data-testid.js:116-127 | `/my/cool/__tests__/Parent/index.js` has logical name `Parent`, not `__tests__` |
| ConsistentDataTestIdCases.ComponentTemplateText | tests/lib/rules/consistent-data-testid.js:67 | the component template is `^{fileName}(__([A-Z]+[a-z]*?)+)*$` |
| ConsistentDataTestIdCases.ComponentPattern | tests/lib/rules/consistent-data-testid.js:266-276 | substituting a name into the component template puts the name after `^` and keeps the suffix |
| ConsistentDataTestIdCases.AwesomePatternText | tests/lib/rules/consistent-data-testid.js:67-70 | the pattern for `Awesome` is `^Awesome(__([A-Z]+[a-z]*?)+)*$` |
| ConsistentDataTestIdCases.ParentPatternText | tests/lib/rules/consistent-data-testid.js:275 | the pattern for `Parent` is `^Parent(__([A-Z]+[a-z]*?)+)*$` |
| ConsistentDataTestIdCases.CoolIsPlain | tests/lib/rules/consistent-data-testid.js:37 | `cool` holds no syntax character |
| ConsistentDataTestIdCases.ParentIsPlain | tests/lib/rules/consistent-data-testid.js:116-127 | `Parent` holds no syntax character |
| ConsistentDataTestIdCases.ErrorIsPlain | tests/lib/rules/consistent-data-testid.js:197 | `error` holds no syntax character |
| ConsistentDataTestIdCases.MatchMeIsPlain | tests/lib/rules/consistent-data-testid.js:218 | `matchMe` holds no syntax character |
| ConsistentDataTestIdCases.ErrorNotInAwesomeCoolStuff | tests/lib/rules/consistent-data-testid.js:191-197 | `Awesome__CoolStuff` does not contain `error` |
| ConsistentDataTestIdCases.MismatchMessageText | tests/lib/rules/consistent-data-testid.js:200 | the message for `Awesome__CoolStuff` against `error` is the test's text |
| ConsistentDataTestIdCases.PlainTemplateMessageText | tests/lib/rules/consistent-data-testid.js:224 | the message for `Nope` against `matchMe` is the test's text |
| ConsistentDataTestIdCases.CustomAttributeMessageHead | tests/lib/rules/consistent-data-testid.js:250 | the text of the custom-attribute message up to the value |
| ConsistentDataTestIdCases.CustomAttributeMessageBody | tests/lib/rules/consistent-data-testid.js:250 | the text of the custom-attribute message up to the pattern |
| ConsistentDataTestIdCases.CustomAttributeMessageText | tests/lib/rules/consistent-data-testid.js:249-250 | the message for `my-custom-attr` `WrongComponent__cool` against the `Parent` pattern is the test's text |
| ConsistentDataTestIdCases.WrongComponentMessageHead | tests/lib/rules/consistent-data-testid.js:275 | the text of the wrong-component message up to the value |
| ConsistentDataTestIdCases.WrongComponentMessageBody | tests/lib/rules/consistent-data-testid.js:275 | the text of the wrong-component message up to the pattern |
| ConsistentDataTestIdCases.WrongComponentMessageText | tests/lib/rules/consistent-data-testid.js:274-275 | the message for `WrongComponent__cool` against the `Parent` pattern is the test's text |
| ConsistentDataTestIdCases.ValidLiteralMatch | tests/lib/rules/consistent-data-testid.js:25-38 | `data-testid="cool"` against `cool` gives no diagnostic on any path |
| ConsistentDataTestIdCases.ValidNoMarkerAttribute | tests/lib/rules/consistent-data-testid.js:39-52 | `className="cool"` gives no diagnostic, for any matcher |
| ConsistentDataTestIdCases.ValidAwesomeCoolStuff | tests/lib/rules/consistent-data-testid.js:53-71 | in a file named `Awesome` the pattern is `^Awesome…`, and `Awesome__CoolStuff` is not reported when it matches |
| ConsistentDataTestIdCases.ValidAwesome | tests/lib/rules/consistent-data-testid.js:72-90 | in a file named `Awesome`, `Awesome` is not reported when it matches `^Awesome…` |
| ConsistentDataTestIdCases.ValidParentIndex | tests/lib/rules/consistent-data-testid.js:91-109 | in a file named `Parent` the pattern is `^Parent…`, and `Parent` is not reported when it matches |
| ConsistentDataTestIdCases.ValidBarePlaceholder | tests/lib/rules/consistent-data-testid.js:110-128 | the template `{fileName}` becomes `Parent` and `data-testid="Parent"` gives no diagnostic |
| ConsistentDataTestIdCases.ValidCustomAttribute | tests/lib/rules/consistent-data-testid.js:129-147 | with `custom-attr` configured, `data-testid="wrong"` is ignored and `custom-attr="right-1"` is not reported when it matches |
| ConsistentDataTestIdCases.ValidDataTestIdAttribute | tests/lib/rules/consistent-data-testid.js:148-167 | with `data-test-id` configured and template `{fileName}`, `data-test-id="Parent"` gives no diagnostic |
| ConsistentDataTestIdCases.ValidDynamicValue | tests/lib/rules/consistent-data-testid.js:168-182 | a dynamic value gives no diagnostic, for any matcher |
| ConsistentDataTestIdCases.InvalidLiteralMismatch | tests/lib/rules/consistent-data-testid.js:185-203 | `Awesome__CoolStuff` against `error` gives exactly the one expected message |
| ConsistentDataTestIdCases.InvalidPlainTemplate | tests/lib/rules/consistent-data-testid.js:204-227 | `Nope` against `matchMe` gives exactly the one expected message, on any path |
| ConsistentDataTestIdCases.InvalidCustomAttribute | tests/lib/rules/consistent-data-testid.js:228-253 | with `my-custom-attr` configured, `data-testid="Parent__cool"` is ignored, and the custom attribute's non-matching value gives exactly the expected message, which names `my-custom-attr` and shows `^Parent…` |
| ConsistentDataTestIdCases.InvalidWrongComponent | tests/lib/rules/consistent-data-testid.js:254-278 | `WrongComponent__cool` gives exactly the expected message, which shows the substituted pattern and not the template |

## Left out

- The ESLint RuleTester harness, parser options and JSX traversal are host plumbing. A file's attributes are given as a list of `Occurrence`s in document order.
- The implementation file `lib/rules/consistent-data-testid.js` is not part of this model. The behaviour modelled is what its test cases pin down.
- The JavaScript `RegExp` engine is not modelled. Matching is a parameter, constrained only on patterns without syntax characters (`PlainFaithful`).
- ConsistentDataTestIdCases.ValidAwesomeCoolStuff: holds for any matcher that accepts `Awesome__CoolStuff` against `^Awesome(__([A-Z]+[a-z]*?)+)*$`, because that verdict belongs to the regular-expression engine. ValidAwesome, ValidParentIndex and ValidCustomAttribute are stated the same way.
- ConsistentDataTestIdCases.InvalidCustomAttribute: holds for any matcher that rejects `WrongComponent__cool` against `^Parent(__([A-Z]+[a-z]*?)+)*$`, for the same reason. InvalidWrongComponent is stated the same way.
- ConsistentDataTestIdCases.ValidLiteralMatch: this and the other case lemmas that name a file hold for every path with the test file's logical name. AwesomeName, ParentIndexName and TestsParentIndexName show that the test paths have those names.
- Invalid regular expressions in `testIdPattern` are not modelled: no case exercises them.
- Stripping of test-grouping directories such as `__tests__` is not modelled. In every case `__tests__` is above the parent of `index.js`, never its parent, so the stripping cannot be observed.
- Only `index` marks an index file, and only `/` separates path segments. No other index name and no Windows separator appears in the cases.
- A root-level `index` file has no parent directory, and no case shows one. In the model `/index.js` takes the empty segment before the root `/` as its name (LogicalNameOfRootIndex). Only a path without any `/`, such as `index.js`, keeps the name `index` (LogicalNameWithoutDirectory).
- FileName.Stem: the stem is the text before the first `.`. No case has a base name with more than one dot, so that choice is not pinned down.
- Template.Substitute: every `{fileName}` is replaced. Each case has at most one placeholder, so the cases do not tell this apart from replacing only the first. JavaScript's `$`-patterns in replacement strings are not modelled, since logical names in the cases hold no `$`.
- ConsistentDataTestId.ConfigOf: no case omits `testIdPattern`. The default is modelled as the empty pattern, which every value matches.
- An empty string literal is treated as any other literal.
