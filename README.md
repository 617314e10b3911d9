# Diagnostic messages for experiment-description validation

This project is a Dafny model of the module in the task engine that turns JSON-Schema
validation errors into readable text. It covers `src/dioptra/task_engine/error_message.py`.
A declarative experiment description has three top-level sections: `parameters`, `tasks` and
`graph`. When the description fails validation, the validator reports errors. Each error has:

- an instance path,
- a schema path,
- the failing keyword,
- the keyword's value,
- nested context errors,
- a message.

The module rewrites each error as lines of text. The first line names the location in the
description's own vocabulary, for example `parameter #3` or `step "train" dependencies`. For
the `oneOf` keyword, it explains which alternatives were satisfied, or lists each
alternative's own errors, indented one level deeper.

The modules follow the order of the source file:
| file | module | what it holds |
|---|---|---|
| `results.dfy` | `Results` | `Option`, and a `Result` that carries a `Failure` kind for each exception the Python code can raise |
| `py_text.dfy` | `PyText` | `str.join`, `str.split`, `str(int)`, `int(str)` and Python's negative list indexing, written out |
| `json_data.dfy` | `JsonData` | JSON values, path tokens (string or integer), Python truthiness |
| `paths.dfy` | `Paths` | in-place indentation, the slash rendering of a path, reference fragments as paths, location descriptions |
| `schema_resolver.dfy` | `SchemaResolver` | walking a schema path through the schema document, restarting at the root at each `$ref` |
| `alternative_names.dfy` | `AltNaming` | the names of the alternatives of a `oneOf` |
| `messages.dfy` | `Messages` | the two `oneOf` explanations, the composer over nested errors, and the two public entry points |

Each loop in the source is modelled as a `method`. These are:

- the in-place indentation loop,
- the name-counting loop,
- the probing loop of the "too many satisfied" case,
- the grouping and emitting loops of the "none satisfied" case.

Each method's postcondition ties its result to a declarative function. Lemmas then prove
the source's promises about that function. The parts that are expressions or structural
recursion are modelled as functions:

- the path helpers,
- the location description,
- the schema walk,
- the composer,
- the entry points.

Python exceptions are modelled as `Err(kind)` values. Where several can occur, the model
reports the one Python raises first.

## Model
| member | source | states |
|---|---|---|
| Paths.Indented | src/dioptra/task_engine/error_message.py:20-32 | indentation keeps the number and order of lines, and line i becomes four spaces followed by the original line i |
| Paths.IndentLines | src/dioptra/task_engine/error_message.py:20-32 | rewriting the lines in place leaves the array holding exactly the indented old lines |
| Paths.JsonPathToString | src/dioptra/task_engine/error_message.py:35-47 | the rendering of any path starts with `/` |
| Paths.JsonPathToStringSegments | src/dioptra/task_engine/error_message.py:47 | the empty path renders as `/`; any other path renders as each token's text preceded by `/`, an independent definition |
| Paths.JoinIsSlashed | src/dioptra/task_engine/error_message.py:47 | `"/" + "/".join(...)` of a non-empty path equals the slash-before-each-segment rendering |
| Paths.SchemaReferenceToPath | src/dioptra/task_engine/error_message.py:50-76 | the path is empty exactly for `#`, and no component contains `/` |
| Paths.ReferenceExamples | src/dioptra/task_engine/error_message.py:66-74 | `#` gives `[]`, `#/a/b` gives `["a","b"]` with every component left a string, and `#/` gives `[""]` |
| Paths.ReferenceRoundTrip | src/dioptra/task_engine/error_message.py:47-74 | `#` followed by the slash rendering of a non-empty list of string keys parses back to those keys when no key contains `/`; the empty list renders as `#/`, which names the key `""` |
| Paths.EmptyPathReference | src/dioptra/task_engine/error_message.py:47-74 | the empty path renders as `/`, and `#/` parses to the one key `""`, so the empty path does not round-trip |
| Paths.InstancePathToDescription | src/dioptra/task_engine/error_message.py:79-144 | defined branch by branch as the source: the root, the `parameters` section (a quoted name or `#<n+1>`), the `tasks` section (`task plugin "t"`, then `outputs` or `plugin ID`), the `graph` section (`step "s"`, then `dependencies`), and otherwise the slash fallback; the lemmas below state each case |
| Paths.DescriptionFallbackIff | src/dioptra/task_engine/error_message.py:91-144 | the `experiment description location /...` fallback is used if and only if the path is non-empty and does not start with `parameters`, `tasks` or `graph` |
| Paths.DescribeParameters | src/dioptra/task_engine/error_message.py:94-113 | root level, the global parameters section, `parameter "name"` and `parameter #<n+1>` for any tail |
| Paths.DescribeSections | src/dioptra/task_engine/error_message.py:115-117 | `[tasks]` gives `tasks section` and `[graph]` gives `graph section`; the same lines cover 128-130 |
| Paths.DescribeTaskBare | src/dioptra/task_engine/error_message.py:118-126 | `[tasks, t]` followed by nothing, or by a token other than `outputs` and `plugin`, gives the bare `task plugin "t"` |
| Paths.DescribeTaskDetail | src/dioptra/task_engine/error_message.py:118-126 | `[tasks, t, outputs]` or `[tasks, t, plugin]` followed by any tail gives `task plugin "t"` with ` outputs` or ` plugin ID` appended |
| Paths.DescribeStepBare | src/dioptra/task_engine/error_message.py:128-135 | `[graph, s]` followed by nothing, or by a token other than `dependencies`, gives the bare `step "s"` |
| Paths.DescribeStepDependencies | src/dioptra/task_engine/error_message.py:128-135 | any path of at least three tokens starting `graph`, then a step, then `dependencies` gives `step "s" dependencies` |
| Paths.ParameterIndexExample | src/dioptra/task_engine/error_message.py:99-113 | `[parameters, 2]` gives `parameter #3` |
| Paths.FallbackTwoKeys | src/dioptra/task_engine/error_message.py:137-142 | a path of two keys whose first is not `parameters`, `tasks` or `graph` is described as `experiment description location /a/b` |
| PyText.SplitThenJoin | src/dioptra/task_engine/error_message.py:74 | joining the pieces of a split with the separator restores the string |
| PyText.JoinThenSplit | src/dioptra/task_engine/error_message.py:74 | splitting a join of a non-empty list of separator-free pieces gives back the pieces (an empty list joins to `""`, which splits to `[""]`) |
| PyText.IntToStringRoundTrip | src/dioptra/task_engine/error_message.py:113 | `int(str(i)) == i` for every integer, so index labels are faithful |
| PyText.PyIndex | src/dioptra/task_engine/error_message.py:226 | a list index is valid exactly when it lies in `[-len, len)`, and a negative one counts from the end |
| SchemaResolver.ExtractBySchemaPath | src/dioptra/task_engine/error_message.py:147-232 | defined as the source walks: a `null` node stands for the root; a `$ref` node restarts at the root with the reference path followed by the remaining path; an empty path or a falsy first token returns the node; otherwise one step and the rest of the path; the lemmas below state each case |
| SchemaResolver.ExtractByReference | src/dioptra/task_engine/error_message.py:235-246 | extracting by a reference is walking the reference's path from the root |
| SchemaResolver.ListIndex | src/dioptra/task_engine/error_message.py:209-216 | defined as the source computes: an integer token is itself and a string token goes through `int()`, a non-numeric string failing; `StepByNodeKind`, `ListStepParsesText` and `MissingStepIsError` state its use on lists |
| SchemaResolver.Step | src/dioptra/task_engine/error_message.py:209-226 | only a list, a mapping or a string can be stepped into; any other node is an error |
| SchemaResolver.ReferenceTokens | src/dioptra/task_engine/error_message.py:188-191 | a `$ref` value yields a path exactly when it is a string |
| SchemaResolver.ReferenceNodeIsExtractByReference | src/dioptra/task_engine/error_message.py:170-197 | resolving the empty path at a `$ref` node equals extracting by that reference, whatever the sibling keys |
| SchemaResolver.ReferenceRestartsFromRoot | src/dioptra/task_engine/error_message.py:170-197 | at a `$ref` node the walk continues from the root with the reference's path followed by the remaining path, and sibling keys are ignored |
| SchemaResolver.ReferenceFailures | src/dioptra/task_engine/error_message.py:188-197 | a non-string `$ref` is an error, and so is a reference reached with no hops left |
| SchemaResolver.SelfReferenceNeverResolves | src/dioptra/task_engine/error_message.py:170-197 | a schema that is `{"$ref": "#"}` exhausts the hop limit on any path |
| SchemaResolver.EmptyOrFalsyPathReturnsNode | src/dioptra/task_engine/error_message.py:201-205 | an empty path, or a first token `0` or `""`, returns the current node unchanged |
| SchemaResolver.StepByNodeKind | src/dioptra/task_engine/error_message.py:201-230 | for any non-falsy token: on a list the token is converted with `int()` and a negative index counts from the end; on a mapping without `$ref` a string token is the key; on a string an integer token picks one character, an index past either end is an error, and a string token is an error |
| SchemaResolver.ListStepParsesText | src/dioptra/task_engine/error_message.py:214-222 | on a list, stepping by the text of a non-zero integer is stepping by that integer |
| SchemaResolver.MissingStepIsError | src/dioptra/task_engine/error_message.py:209-226 | for a non-falsy token, a missing key, a non-numeric token on a list or an index past either end is an error, never a default (a falsy token stops the walk instead) |
| SchemaResolver.NullChildRestartsAtRoot | src/dioptra/task_engine/error_message.py:167-168 | stepping into a `null` child continues the walk from the root |
| SchemaResolver.ResolvedIsNotReference | src/dioptra/task_engine/error_message.py:167-232 | a successful walk never ends on a `$ref` node, and ends on `null` only when the root is `null` |
| SchemaResolver.NullNodeIsRoot | src/dioptra/task_engine/error_message.py:167-168 | starting at `null` is starting at the root |
| SchemaResolver.ExtractAppend | src/dioptra/task_engine/error_message.py:201-230 | walking `a + b` is walking `a` and then `b` from where `a` ended, with the hops `a` left |
| SchemaResolver.DereferenceThenResolve | src/dioptra/task_engine/error_message.py:170-197 | a path below a reference node resolves from the reference's target, when the reference's own walk reaches its end without stopping at an empty segment |
| SchemaResolver.DereferenceThenResolveNeedsNonEmptySegments | src/dioptra/task_engine/error_message.py:204-205 | with reference `#/` the empty segment stops the walk, so the rest of the path is ignored |
| AltNaming.Candidates | src/dioptra/task_engine/error_message.py:268-285 | defined as the source's loop visits the alternatives: one candidate per alternative, in order, stopping at the first failure; its contract gives one candidate per alternative, and `CandidatesAt`, `CandidatesAllOk` and `CandidatesFirstFailure` state that candidate i is alternative i's and which failure wins |
| AltNaming.CandidateName | src/dioptra/task_engine/error_message.py:270-285 | what alternative idx contributes: the dereferenced title, the fallback `Alternative #<idx+1>`, or a failure; a name it gives is never empty |
| AltNaming.CandidatesAt | src/dioptra/task_engine/error_message.py:270-285 | candidate i is exactly what alternative i contributes |
| AltNaming.CandidatesAllOk | src/dioptra/task_engine/error_message.py:270-285 | the candidates exist whenever every alternative contributes one |
| AltNaming.CandidatesFirstFailure | src/dioptra/task_engine/error_message.py:270-285 | the first alternative that fails decides the failure of the candidates and of the names |
| AltNaming.Uniquified | src/dioptra/task_engine/error_message.py:287-293 | one name per title, in order, each beginning with its title |
| AltNaming.AlternativeNames | src/dioptra/task_engine/error_message.py:249-295 | defined as the source computes: the candidates, uniquified by the `name_counts` rule, or a failure; its contract gives one name per alternative, and `AlternativeNamesFromTitles`, `AlternativeNamesAreTitles`, `AlternativeNamesNonString`, `UniquifiedDistinct` and `GetOneOfAlternativeNames` state its meaning |
| AltNaming.AlternativeNamesFromTitles | src/dioptra/task_engine/error_message.py:249-295 | when alternative i contributes title t_i for every i, the names are exactly the uniquified titles: one per alternative, in input order, name i being t_i suffixed by how often t_i occurred before |
| AltNaming.AlternativeNamesAreTitles | src/dioptra/task_engine/error_message.py:249-295 | names exist only when every alternative contributes a string name |
| AltNaming.AlternativeNamesNonString | src/dioptra/task_engine/error_message.py:272-295 | a number or boolean title makes the naming fail, as the joins at lines 348 and 393 would |
| AltNaming.GetOneOfAlternativeNames | src/dioptra/task_engine/error_message.py:268-295 | the loop with its `name_counts` map computes exactly the declarative names |
| AltNaming.NonMappingUsesFallback | src/dioptra/task_engine/error_message.py:283-285 | a non-mapping alternative is named `Alternative #<idx+1>` |
| AltNaming.MappingCandidate | src/dioptra/task_engine/error_message.py:272-281 | a mapping alternative is named after the node it dereferences to: that failure, an error for a non-mapping node, the fallback for a missing or falsy title, the title when it is a non-empty string, a failure for a list or mapping title, a non-string candidate for a number or boolean title |
| AltNaming.MappingUsesTitle | src/dioptra/task_engine/error_message.py:272-281 | without a reference: a non-empty string title is the name; an absent or falsy title gives the fallback; a non-empty list title fails; a non-zero number or `true` title is a non-string candidate |
| AltNaming.ReferenceAlternativeUsesTargetTitle | src/dioptra/task_engine/error_message.py:272-281 | an alternative `{"$ref": ref}` is named by the title of the node the reference reaches, or by its position when that node has no usable title |
| AltNaming.UniquifiedAt | src/dioptra/task_engine/error_message.py:287-293 | a first occurrence is unchanged, and a repeat after k earlier copies becomes `name(k+1)` |
| AltNaming.UniquifiedExample | src/dioptra/task_engine/error_message.py:287-293 | titles A, A, B give A, A(2), B |
| AltNaming.UniquifiedCanRepeat | src/dioptra/task_engine/error_message.py:265-293 | titles A, A, A(2) give A, A(2), A(2): suffixing does not always make names unique |
| AltNaming.UniquifiedDistinct | src/dioptra/task_engine/error_message.py:265-293 | when no title contains `(`, the names are pairwise distinct |
| AltNaming.SuffixedInjective | src/dioptra/task_engine/error_message.py:293 | for titles without `(`, a suffixed name determines the title and its count |
| Messages.SatisfiedNames | src/dioptra/task_engine/error_message.py:351-358 | defined as the source's `zip` loop: the names whose alternative passes the probe, in order; `SatisfiedNamesMembers` and `SatisfiedNamesExtremes` state its meaning |
| Messages.SatisfiedNamesMembers | src/dioptra/task_engine/error_message.py:350-358 | a name is listed as satisfied if and only if an alternative with that name passes the probe |
| Messages.SatisfiedNamesExtremes | src/dioptra/task_engine/error_message.py:350-358 | all alternatives passing lists every name in order; none passing lists none |
| Messages.TooManyLine | src/dioptra/task_engine/error_message.py:346-364 | defined as the source formats it: `Must be exactly one of: <names>.  Content satisfied more than one alternative: <satisfied>.`; `TooManyMessage` and `TooManyAllSatisfied` state it inside whole messages |
| Messages.TooManySatisfiedLines | src/dioptra/task_engine/error_message.py:330-366 | the "too many satisfied" explanation is exactly one line |
| Messages.TooManyAlternativesSatisfiedMessageLines | src/dioptra/task_engine/error_message.py:330-366 | the probing loop produces exactly the declarative one-line explanation |
| Messages.TooManyAllSatisfied | src/dioptra/task_engine/error_message.py:344-366 | when every alternative passes, the line lists all names twice |
| Messages.TooManyMessage | src/dioptra/task_engine/error_message.py:462-482 | a `oneOf` error without context becomes `In <loc>: Must be exactly one of: ... .  Content satisfied more than one alternative: ... .` |
| Messages.ContextAltNames | src/dioptra/task_engine/error_message.py:406-425 | defined as the source's loop over `error.context`: one alternative name per context error, in order, stopping at the first failure; its contract gives one name per error, and `ContextAltNamesAt` and `ContextAltNamesFirstFailure` state that entry i is error i's name and which failure wins |
| Messages.ContextAltName | src/dioptra/task_engine/error_message.py:412-424 | the token after the `oneOf` schema path must exist and be an integer naming an alternative; the context error then belongs to that alternative's name, negative indices counting from the end |
| Messages.ContextAltNamesAt | src/dioptra/task_engine/error_message.py:412-424 | entry i is the alternative name of context error i, and all exist whenever each one does |
| Messages.ContextAltNamesFirstFailure | src/dioptra/task_engine/error_message.py:412-424 | the first context error without an alternative name decides the failure |
| Messages.Dedup | src/dioptra/task_engine/error_message.py:404-427 | defined as the keys of the `defaultdict` come out: the distinct names, in the order first met; its contract keeps at least one group for a non-empty context, and `DedupMembers`, `DedupDistinct` and `DedupFirstEncountered` state its meaning |
| Messages.DedupMembers | src/dioptra/task_engine/error_message.py:404-427 | the groups are exactly the alternative names that occur |
| Messages.DedupDistinct | src/dioptra/task_engine/error_message.py:404-427 | each group appears once |
| Messages.DedupFirstEncountered | src/dioptra/task_engine/error_message.py:404-427 | groups come in the order their names are first met |
| Messages.Members | src/dioptra/task_engine/error_message.py:406-425 | defined as the list the source appends to for one name: the context errors filed under that name, in order; its contract keeps them among the context errors, and `MembersAt`, `MembersCount` and `GroupsPartitionContext` state exactly which errors and how many |
| Messages.MembersAt | src/dioptra/task_engine/error_message.py:412-425 | an error is in group k exactly when some context position holds it with alternative name k |
| Messages.MembersCount | src/dioptra/task_engine/error_message.py:412-425 | group k holds as many errors as there are context errors named k |
| Messages.GroupsPartitionContext | src/dioptra/task_engine/error_message.py:404-425 | the groups, one per distinct name, together hold exactly as many errors as the context: none lost or duplicated |
| Messages.GroupByAlternative | src/dioptra/task_engine/error_message.py:404-425 | the grouping loop fails as the declarative names fail, or yields a map from each name to its errors in order, with names in first-met order |
| Messages.FileUnder | src/dioptra/task_engine/error_message.py:412-425 | appending context error i to the list of its name, and opening that list when the name is new, keeps the groups equal to the declarative groups of the first i+1 errors, with names in first-met order |
| Messages.MessageLines | src/dioptra/task_engine/error_message.py:443-492 | defined as the source composes: the location, then the `oneOf` explanation chosen by whether there is context, or the validator's own message, framed by `Located`; `GenericErrorMessage`, `TooManyMessage`, `NoneSatisfiedMessage`, `OneContextError` and `MessageOpensWithLocation` state its cases |
| Messages.NoneSatisfiedLines | src/dioptra/task_engine/error_message.py:369-440 | the "none satisfied" explanation has at least two lines |
| Messages.GroupLinesFrom | src/dioptra/task_engine/error_message.py:427-438 | the lines of the groups from position i on; each group contributes at least its header |
| Messages.BlockLines | src/dioptra/task_engine/error_message.py:434-438 | the lines of a group's errors from position j on, each error's lines indented one level, in order |
| Messages.NoAlternativesSatisfiedMessageLines | src/dioptra/task_engine/error_message.py:369-440 | the grouping and emitting loops produce exactly the declarative explanation |
| Messages.AppendGroups | src/dioptra/task_engine/error_message.py:427-438 | emitting the groups appends exactly each header and its indented errors |
| Messages.AlternativeBlockLines | src/dioptra/task_engine/error_message.py:434-438 | each sub-error's lines follow in order, indented four spaces |
| Messages.IndentedCopy | src/dioptra/task_engine/error_message.py:436-438 | in-place indentation of a sub-message gives its indented lines |
| Messages.OneContextError | src/dioptra/task_engine/error_message.py:386-440 | one context error under alternative k gives the header, `Errors associated with alternative "<name k>":` and the sub-error's lines indented |
| Messages.GenericErrorMessage | src/dioptra/task_engine/error_message.py:459-482 | any keyword other than `oneOf` gives the single line `In <loc>: <message>` |
| Messages.NoneSatisfiedMessage | src/dioptra/task_engine/error_message.py:462-490 | a `oneOf` error with context gives `In <loc>:` followed by the explanation indented |
| Messages.Located | src/dioptra/task_engine/error_message.py:481-490 | defined as the source frames an explanation: one line joins `In <loc>: `, several go below `In <loc>:` indented; `LocatedOpens` states that the first line opens with the location |
| Messages.LocatedOpens | src/dioptra/task_engine/error_message.py:481-490 | whether the explanation is one line or several, the first line starts with `In <loc>:` |
| Messages.MessageOpensWithLocation | src/dioptra/task_engine/error_message.py:459-492 | every message's first line starts with `In <loc>:` |
| Messages.ValidationErrorToMessage | src/dioptra/task_engine/error_message.py:495-514 | defined as the source computes: the message lines joined with newlines; `MessageSplitsIntoLines` states that the lines can be recovered |
| Messages.MessageSplitsIntoLines | src/dioptra/task_engine/error_message.py:495-514 | splitting the single-error message at newlines gives back its lines when none holds a newline |
| Messages.Collect | src/dioptra/task_engine/error_message.py:531-534 | the list comprehension yields one message per error, in order |
| Messages.CollectFails | src/dioptra/task_engine/error_message.py:531-534 | the comprehension fails exactly when some element fails, and then with the first failure |
| Messages.ValidationErrorsToMessage | src/dioptra/task_engine/error_message.py:517-538 | defined as the source computes: each error's message, joined with blank lines, or the first failure; `ErrorsToMessageSmall`, `ErrorsToMessageAppend` and `ErrorsToMessageFails` state its meaning |
| Messages.ErrorsToMessageSmall | src/dioptra/task_engine/error_message.py:517-538 | no errors give the empty string; one error gives its own message |
| Messages.ErrorsToMessageAppend | src/dioptra/task_engine/error_message.py:536 | one more error after a non-empty list appends a blank line and its message |
| Messages.ErrorsToMessageFails | src/dioptra/task_engine/error_message.py:531-538 | the combined message fails exactly when one error's message fails, and then with the first such failure |

## Left out

- `_is_valid_for_sub_schema` calls into the JSON-Schema library. It is a parameter of the model, a total predicate over (full schema, sub-schema, instance). JSON-Schema evaluation itself is not modelled.
- Python's recursion limit is modelled as a bound of `MaxRefHops` (1000) on `$ref` hops. Exceeding it gives `ReferenceTooDeep`. The real limit is shared with the caller's stack depth, so a chain that fails in Python at a different depth fails here only after 1000 hops. Ordinary path steps, which recurse once per step (src/dioptra/task_engine/error_message.py:228-230), and the recursion through nested context errors also use up Python's limit; the model does not count them, so a very long schema path or a very deeply nested error that Python would abort with `RecursionError` is followed to the end here.
- `int()` accepts an optional sign followed by ASCII digits. Surrounding whitespace, `_` separators and non-ASCII digits, which Python also accepts, are not modelled.
- JSON numbers are integers. Floating-point values in a schema or in a path do not occur in the model.
- A `oneOf` value that is not an array is reported as `AlternativesNotList`. Python would instead iterate over a string's characters or a mapping's keys. The JSON-Schema meta-schema forbids such values.
- `name_counts` is keyed by strings only. Titles that are numbers or booleans stop the result with `TitleNotString`, because the joins at lines 348 and 393 raise on a non-string name. Their effect on the counts of other names is not modelled.
- Messages.MessageLines, Messages.ValidationErrorToMessage and Messages.ValidationErrorsToMessage: carry no postcondition of their own. Their properties are the lemmas listed above.
- Paths.InstancePathToDescription, SchemaResolver.ListIndex, SchemaResolver.ExtractBySchemaPath, SchemaResolver.ExtractByReference, Messages.SatisfiedNames, Messages.TooManyLine, Messages.ContextAltName, Messages.BlockLines and Messages.Located: carry no postcondition of their own either. The lemmas listed above state their cases.
- AltNaming.ReferenceAlternativeUsesTargetTitle: the dereference of an alternative spends one hop of the `MaxRefHops` bound before the reference's own walk, so the target is stated with `MaxRefHops - 1` hops.
- Logging is not part of the module and is not modelled.

## Where the code and its comments differ

- The comment at lines 265-267 says counter suffixes make names unique. `AltNaming.UniquifiedCanRepeat` shows that titles A, A, A(2) give the name A(2) twice. `AltNaming.UniquifiedDistinct` proves uniqueness when no title contains `(`.
- The docstring at lines 153-155 says references are transparently dereferenced. For a reference with an empty segment, such as `#/`, the falsy-token check at line 204 stops the walk there. `SchemaResolver.DereferenceThenResolveNeedsNonEmptySegments` shows that the remaining path is then ignored.

## Behaviour worth knowing

Under `parameters`, `tasks` or `graph`, a path with an unrecognised token after the first two is still described by its section. For example, `task plugin "t"`. It does not fall back to the slash rendering. `Paths.DescribeTaskBare` and `Paths.DescribeStepBare` state these bare descriptions, and `Paths.DescriptionFallbackIff` states exactly when the fallback is used.

The empty path renders as `/`, so the reference written for it is `#/`. Parsing `#/` gives the one key `""`, not the empty path: `#` is the reference to the root. `Paths.EmptyPathReference` states this, and `Paths.ReferenceRoundTrip` therefore holds for non-empty key lists only.
