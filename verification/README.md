# Eutheto generator: a verified model

Eutheto's `xtask` turns domain-pack contracts into checked artefacts: it inlines the schemas of a pack, compiles them to
TypeScript types and run-time guards, emits a desktop client whose operations talk to a native backend, and keeps the
generated files of the repository in step. This project models the parts of that work that carry the hard guarantees
and proves them in Dafny 4.11. `dafny verify dfyconfig.toml` checks everything.

## How it is organised

**Schema compiler.** `Json` is a schema as serde holds it, `Values` is what JavaScript sees at the wire, `Unicode` ties
UTF-16 texts to code points, `Numbers` says which whole numbers JavaScript can hold. `SchemaMeaning` says which values a
schema accepts, in the reading the wire boundary gives it: lengths, formats and bounds qualify the declared type, `oneOf`
means exactly one, integers are the safe ones, an array is judged by the elements it holds. Constants are compared as JSON
(`AsJson`) or as `===` compares them (`AsWire`). A `$ref` costs one unit of fuel and `FuelMonotone` makes the answer
independent of it. `Expansion` is the reference-inlining plan, `Expander` the class that
carries it out under its budgets, `ExpansionLaws`, `ExpansionMeaning` and `PackSchemas` the theorems. `Guards` and `Types`
are the two back ends as syntax trees with an evaluator and an inhabitation relation; `GuardExactness`, `TypeSoundness`,
`GuardLinking`, `ConstantReadings` and `GuardAgreement` prove them right. `Vocabulary`, `GuardVocabulary` and
`TypeVocabulary` say word by word, with the words as a schema writes them, which schemas render and what a schema, its
guard and its type ask of a value.

**Client protocols.** `OperationRun` and `PortableReviews` are state machines: each synchronous stretch between two awaits
is one step, and replies, failures, user requests and microtasks interleave freely. Their theorems quantify over all
step sequences. `OperationOutcomes` and `ReviewOutcomes` say exactly when a step sends, delivers, succeeds, fails, opens,
starts, releases or drops something.

**Fast checks.** `TextChecks`, `BoundedJson`, `Timestamps` and `DepthScanner` prove counters and shortcuts equal to plain
definitions: code points, UTF-8, the bytes of a compact JSON text, instants in nanoseconds, nesting of concrete syntax.
`FormatGrammar` writes the string formats from the parts of their grammar. `JsonText` is the text the generator's size
bound measures, and `JsonWriters` proves that the client's byte counter measures the same one.

**Generation and rules.** `Inventory`, `Generation`, `OwnedNames` and `SourcePaths` cover `generate` and `check`,
`Reachability` the dependency rules, `HexFrames` the golden frames.

## What does not hold as one might hope

- A guard compares constants with `===`, and JavaScript rounds integer literals beyond 2^53. The guard of a constant is
  exact on all values if and only if the constant is comparable: a scalar that JavaScript holds as written, or a container
  with a number that it cannot hold, which no value equals anyway (`ConstantsMustBeComparable`). `RoundedConstant` shows
  9007199254740993 accepting 9007199254740992. Only `GuardExact` and `EmittedExact`, which speak of JSON equality, ask for
  comparable constants; linking, agreement of the two guard forms and guard-implies-type hold for all constants.
- An object schema with declared properties and an `additionalProperties` schema renders as an intersection type that the
  guard does not check. `ObjectInhabits` gives the exact condition; `TangledCounterexample` accepts a value outside the
  type. The condition `Untangled` on schemas excludes that family.
- A successful `generate` leaves a tree that `check` accepts if and only if no output lies inside a directory bearing an
  owned name (`Generation.Repository.Generate`, `NestedOutputDrifts`). In the directories the generators write to that
  cannot happen, so there `generate` followed by `check` succeeds (`SourcePaths.SourceConverges`).
- `boundedJson`'s inner visit can return true with an overdrawn counter: `BoundedJson.Budget.Visit` says exactly when,
  `SlackOverdraws` that this happens if and only if the value has slack, and `EmptyArrayOverdraws` shows `[]` with nothing
  left. The final test of the counter repairs it (`BoundedJson.Accepts`).
- `boundedJson` passes over the holes of a sparse array, which are written as `null`. Its verdict is the byte limit if and
  only if the value has no holes (`HolesUndercount`); `SparseArrayUndercounts` shows `[,]`.

## Model

| member | source | states |
|---|---|---|
| `Expander.SchemaExpander.constructor` | xtask/src/phase02_generate.rs:387-393 | an expander starts with an empty stack, no used names, no nodes and the full byte budget |
| `Expander.SchemaExpander.Charge` | xtask/src/phase02_generate.rs:429-441 | a charge succeeds exactly when the budget covers it and otherwise changes nothing |
| `Expander.SchemaExpander.Expand` | xtask/src/phase02_generate.rs:443-509 | succeeds exactly when the plan exists and fits depth, node and byte limits left; then returns the planned output, spends exactly the bill, adds exactly the plan's names and restores the stack, which failure restores too |
| `Expander.SchemaExpander.ExpandReference` | xtask/src/phase02_generate.rs:449-470 | the same for a reference, popped on both outcomes |
| `Vocabulary.ReferenceExpands` | xtask/src/phase02_generate.rs:449-470 | an object that is `#/$defs/` and an identifier, alone under `$ref`, expands exactly when its definition does, to the same output, and uses its name |
| `Vocabulary.OtherReferencesRefused` | xtask/src/phase02_generate.rs:449-464 | every other object with `$ref` is refused: siblings, other texts, unresolved names, names being expanded |
| `Vocabulary.ReferencesSpelled` | xtask/src/phase02_generate.rs:453-457 | a `$ref` value names a definition exactly when it is `#/$defs/` and that identifier |
| `Vocabulary.IdentifiersSpelled` | xtask/src/phase02_generate.rs:512-519 | identifiers are 1 to 160 ASCII letters, digits and underscores, a letter first |
| `Expander.SchemaExpander.ExpandKeywords` | xtask/src/phase02_generate.rs:471-508 | the same for the keyword loop, with braces, names and separators charged as the source does |
| `Expander.SchemaExpander.ExpandPropertyMap` | xtask/src/phase02_generate.rs:478-488 | the same for a `properties` map |
| `Expander.SchemaExpander.ExpandUnion` | xtask/src/phase02_generate.rs:491-500 | the same for a `oneOf` array |
| `ExpansionLaws.PlanRefFree` | xtask/src/phase02_generate.rs:443-509 | every planned output has no `$ref` left in any schema position |
| `ExpansionLaws.PlanBytes` | xtask/src/phase02_generate.rs:471-508 | the bytes charged equal the output's compact size plus one per nonempty object, `properties` map or `oneOf` array built |
| `ExpansionLaws.PlanHeight` | xtask/src/phase02_generate.rs:444-446 | the depth the limit is compared with is the schema nesting of the output |
| `ExpansionLaws.PlanNames` | xtask/src/phase02_generate.rs:459-470 | the names used hold the schema's references and are closed under them |
| `ExpansionLaws.NamesLeast` | xtask/src/phase02_generate.rs:459-470 | the names used are contained in every closed set holding the schema's references |
| `ExpansionLaws.PossibleIffAcyclic` | xtask/src/phase02_generate.rs:449-470 | limits aside, expansion is possible if and only if a ranking certifies that reachable references stand alone, resolve and close no cycle |
| `ExpansionLaws.Unblocked` | xtask/src/phase02_generate.rs:459-469 | a plan does not depend on what was on the stack, so repeated references expand alike |
| `ExpansionMeaning.MeaningPreserved` | xtask/src/phase02_generate.rs:443-509 | the output read without definitions accepts exactly the values the schema accepts under them |
| `ExpansionMeaning.FuelMonotone` | xtask/src/phase02_generate.rs:1329-1342 | following references further never changes a decided answer, so a schema whose guard calls guards has one meaning |
| `PackSchemas.ExpandPackSchemas` | xtask/src/phase02_generate.rs:381-414 | succeeds exactly when all names are identifiers, the roots fit the shared limits and every definition is reachable from a root; returns the planned outputs |
| `PackSchemas.CountDecides` | xtask/src/phase02_generate.rs:412-414 | comparing the two cardinalities decides reachability of all definitions |
| `PackSchemas.RootNamesClosed` | xtask/src/phase02_generate.rs:394-414 | names used over all roots are closed under references |
| `PackSchemas.RootNamesLeast` | xtask/src/phase02_generate.rs:394-414 | and are the least such set |
| `PackSchemas.TotalBytes` | xtask/src/phase02_generate.rs:387-411 | all outputs together stay within 16 MiB, however often definitions repeat |
| `PackSchemas.LimitsSpelled` | xtask/src/phase02_generate.rs:443-446 | the limits are 100000 visits, 16777216 bytes, 32 levels of schemas and 32 of references |
| `JsonText.SizeIsLength` | crates/eutheto-domain-api/src/schema.rs:54-80 | the size charged for a document is the length in bytes of its compact JSON text |
| `PackSchemas.PackPreserved` | xtask/src/phase02_generate.rs:394-411 | every emitted root is reference-free and keeps its meaning on every value |
| `Formats.DeltaAgrees` | crates/eutheto-domain-api/src/schema.rs:440-446 | the native signed-delta parser and the pattern the guard uses accept the same texts |
| `FormatGrammar.DeltaSpelled` | xtask/src/phase02_generate.rs:1430-1432 | a signed delta is accepted exactly when it is the decimal spelling of an integer from -4294967295 to 4294967295 |
| `FormatGrammar.UuidSpelled` | xtask/src/phase02_generate.rs:1235-1280 | an identifier is accepted exactly when it is written from its digit groups, version 7 and variant: in lowercase with hyphens, or in CSV also in either case, as a URN, in braces or without hyphens |
| `FormatGrammar.ChangePathSpelled` | xtask/src/phase02_generate.rs:1425-1429 | a change path is `/settings`, anything below it, or anything below `/domain` |
| `Unicode.EncodeDecodes` | xtask/src/phase02_generate.rs:1405-1446 | the code points read from a UTF-16 literal are those of the schema's string |
| `GuardExactness.Exact` | xtask/src/phase02_generate.rs:1316-1403 | for every schema that renders, at any place, depth and environment, evaluating the guard yields the schema's wire reading and never throws |
| `GuardExactness.UnionExact` | xtask/src/phase02_generate.rs:1347-1356 | the sum of branch results compared with one means exactly one branch |
| `GuardExactness.TextExact` | xtask/src/phase02_generate.rs:1405-1446 | string guards, with the default length ceiling, formats and patterns, equal the string rules |
| `GuardExactness.ArrayExact` | xtask/src/phase02_generate.rs:1375-1390 | array guards, with the default item ceiling, equal the array rules on every array, sparse ones included |
| `GuardExactness.ObjectExact` | xtask/src/phase02_generate.rs:1448-1533 | object guards equal the object rules, constant tags first and `true` clauses dropped |
| `GuardExactness.ObjectSplits` | xtask/src/phase02_generate.rs:1466-1533 | tags, other properties and remaining keys together are the whole object, in whatever order |
| `Vocabulary.NodeSpelled` | xtask/src/phase02_generate.rs:1344-1396 | a schema without a reference accepts a value exactly when it equals the constant, one `oneOf` branch accepts it and the rule of its `type` word holds, all written with the words of the schema |
| `Vocabulary.TextSpelled` | xtask/src/phase02_generate.rs:1405-1446 | a text is accepted exactly when it is well formed, has at least `minLength` (0) and at most `maxLength` (1048576) code points, and meets `format` and the literal prefix of `pattern` |
| `Vocabulary.IntegerSpelled` | xtask/src/phase02_generate.rs:1359-1374 | an integer is accepted exactly when it is safe and between `minimum` and `maximum` |
| `Vocabulary.ArraySpelled` | xtask/src/phase02_generate.rs:1375-1390 | an array is accepted exactly when it has at least `minItems` (0) and at most `maxItems` (1000000) places and `items` accepts every element it holds |
| `Vocabulary.ObjectSpelled` | xtask/src/phase02_generate.rs:1448-1533 | an object is accepted exactly when every `required` name is there, every declared key satisfies its schema and every other key the rule of `additionalProperties` |
| `Vocabulary.UnionSpelled` | xtask/src/phase02_generate.rs:1347-1356 | `oneOf` accepts exactly when one place in its list accepts and no other |
| `Vocabulary.ScalarsEqual` | xtask/src/phase02_generate.rs:1344-1346 | a scalar constant equals one value and no other; a container literal is identical to nothing |
| `GuardVocabulary.RendersExactly` | xtask/src/phase02_generate.rs:1316-1533 | the guard compiler succeeds exactly on schemas at most 32 levels deep whose references stand alone, whose words are the known ones, whose bounds are safe integers, whose patterns have a caret, whose arrays have items and whose required names are declared |
| `GuardVocabulary.TagsSpelled` | xtask/src/phase02_generate.rs:1469-1477 | the properties tested first are those whose schema has a constant |
| `GuardVocabulary.GuardSpelled` | xtask/src/phase02_generate.rs:1316-1403 | a rendered guard holds exactly of the values the words of its schema ask for |
| `GuardVocabulary.RootSpelled` | xtask/src/phase02_generate.rs:1316-1403 | the same for reference-free schemas with no condition but that they render |
| `GuardVocabulary.BareWords` | xtask/src/phase02_generate.rs:1373-1374 | `boolean` renders and holds exactly of the Booleans, `null` exactly of null, at every place |
| `GuardVocabulary.WordsSpelled` | xtask/src/phase02_generate.rs:1357-1395 | `string`, `integer`, `array`, `object` and no word at all, each with its own keywords |
| `GuardVocabulary.OtherWordsRefused` | xtask/src/phase02_generate.rs:1395 | every other word of `type` does not render |
| `GuardAgreement.GuardReads` | xtask/src/phase02_generate.rs:1316-1403 | on reference-free schemas the guard yields the wire reading of every value, sparse arrays and values outside JSON included |
| `GuardAgreement.GuardExact` | xtask/src/phase02_generate.rs:1316-1403 | on reference-free schemas with comparable constants the guard is exact on every value, sparse arrays and values outside JSON included |
| `GuardAgreement.BothFormsAgree` | xtask/src/phase02_generate.rs:1329-1342 | the guard with one function per definition and the guard of the expanded schema agree on every value whenever both render, whatever the constants |
| `GuardAgreement.EmittedReads` | xtask/src/phase02_generate.rs:1147-1192 | the guards emitted for a complete set of definitions, calling each other, yield the wire reading of every expandable root on every value |
| `GuardAgreement.EmittedExact` | xtask/src/phase02_generate.rs:1147-1192 | with comparable constants in the root and in what it reaches, they decide it exactly as JSON |
| `GuardAgreement.LinkedDecides` | xtask/src/phase02_generate.rs:1329-1342 | the calls of linked guards come to an end within the reference nesting, on every value |
| `GuardAgreement.GuardImpliesType` | xtask/src/phase02_generate.rs:1007-1103 | for untangled schemas, whatever their constants, a value the guard accepts inhabits the rendered type |
| `GuardAgreement.CsvGuardImpliesType` | xtask/src/phase02_generate.rs:1282-1312 | a value the guard of an expanded row schema accepts, raw UUID spellings allowed, inhabits the type of its definition |
| `ConstantReadings.ConstantsMustBeComparable` | xtask/src/phase02_generate.rs:1344-1346 | the compiled guard of a constant equals its meaning on all values if and only if the constant is comparable |
| `ConstantReadings.RoundedConstant` | xtask/src/phase02_generate.rs:1344-1346 | the guard of 9007199254740993 accepts 9007199254740992, which the schema rejects |
| `ConstantReadings.ReadingsCoincide` | xtask/src/phase02_generate.rs:1344-1346 | with comparable constants, in the schema and in all it refers to, both readings give one answer |
| `Numbers.NearestIsNearest` | xtask/src/phase02_generate.rs:1344-1346 | the number a printed integer literal denotes is as close to it as any number JavaScript can hold |
| `Numbers.NearestHeld` | xtask/src/phase02_generate.rs:1344-1346 | that number denotes itself |
| `Numbers.TiesToEven` | xtask/src/phase02_generate.rs:1344-1346 | halfway between two numbers that can be held the even significand is taken, at every scale and for both signs |
| `TypeSoundness.AcceptedInhabits` | xtask/src/phase02_generate.rs:1007-1103 | every value an untangled schema accepts inhabits its type, references included |
| `TypeVocabulary.TypesExactly` | xtask/src/phase02_generate.rs:1007-1103 | the type renderer succeeds exactly on schemas at most 32 levels deep with lone references, scalar constants, unions without object keywords beside them, known words and renderable parts, and on the empty schema |
| `TypeVocabulary.TypeSpelled` | xtask/src/phase02_generate.rs:1007-1103 | the inhabitants of a schema's type are exactly the values its words name: texts, numbers, Booleans, null, the constant, those of some branch, arrays of inhabitants, objects whose declared fields inhabit theirs with the required ones present |
| `TypeVocabulary.NamedSpelled` | xtask/src/phase02_generate.rs:1014-1024 | a reference is the named type of its definition |
| `TypeSoundness.ObjectInhabits` | xtask/src/phase02_generate.rs:1060-1100 | an accepted object inhabits its type exactly when its declared fields also fit the type of additional members |
| `TypeSoundness.TangledCounterexample` | xtask/src/phase02_generate.rs:1082-1098 | a concrete accepted object outside its rendered intersection type |
| `GuardLinking.GuardReferences` | xtask/src/phase02_generate.rs:1147-1165 | the loop succeeds exactly when a complete set of definitions exists and returns the least one |
| `GuardLinking.CallsAreRefs` | xtask/src/phase02_generate.rs:1329-1342 | a compiled guard calls only definitions its schema refers to |
| `GuardLinking.RefsCollected` | xtask/src/phase02_generate.rs:1105-1128 | every reference in a schema position is collected |
| `GuardLinking.CollectExactly` | xtask/src/phase02_generate.rs:1105-1128 | collecting fails exactly when some object of the document has a `$ref` that is not local, and else finds exactly the names mentioned anywhere |
| `GuardLinking.EmittedLink` | xtask/src/phase02_generate.rs:1182-1192 | every guard call emitted for a complete set resolves to an emitted guard of that definition |
| `OperationRun.Reachable` | xtask/src/generate.rs:6800-6954 | every reachable scope is consistent: log, links, channel and body phase of every run agree |
| `OperationRun.EachCallOnce` | xtask/src/generate.rs:6828-6861 | command, cancel and release go out at most once; a finished or released run has unregistered exactly the channels it opened |
| `OperationRun.ReleasedUnlessDelivered` | xtask/src/generate.rs:6937-6942 | a finished run with a reservation and no microtask left has released it once, or not at all when its phase is success and nobody asked |
| `OperationRun.CommandAllowed` | xtask/src/generate.rs:6872-6909 | the command goes out only with a reservation, while current, and after every cancellation asked for before is acknowledged |
| `OperationRun.StaleForever` | xtask/src/generate.rs:6722-6726 | after disposal or release, no later schedule issues the command or delivers progress |
| `OperationRun.ProgressOrdered` | xtask/src/generate.rs:6883-6903 | delivered progress numbers strictly increase |
| `OperationRun.BoundedEffort` | xtask/src/generate.rs:6869-6943 | progress aside, at most eleven steps of any schedule change a run |
| `OperationRun.NeverStuck` | xtask/src/generate.rs:6869-6943 | an unfinished run that is owed no native reply can always take a step |
| `OperationOutcomes.ScopeExactly` | xtask/src/generate.rs:6722-6726 | a scope has one run for every start before its disposal and is disposed exactly when asked |
| `OperationOutcomes.RequestsExactly` | xtask/src/generate.rs:6803-6868 | a run knows exactly what the schedule asked of it: cancellation, release by the caller or by disposal before its end, and the first reply to its reservation |
| `OperationOutcomes.SucceedsExactly` | xtask/src/generate.rs:6909-6936 | a step takes a run to success exactly when it answers its outstanding command with success |
| `OperationOutcomes.FailsExactly` | xtask/src/generate.rs:6872-6942 | a step takes a run to failure exactly when it answers the outstanding command with a failure or the body gives up before sending it |
| `OperationOutcomes.SendsExactly` | xtask/src/generate.rs:6819-6941 | each step sends the command, a cancellation, a release or an unregistration exactly when the run is cleared for it, it was asked for, or it is due |
| `OperationOutcomes.CancelSettles` | xtask/src/generate.rs:6828-6842 | a cancellation is acknowledged or fails exactly by its reply, or fails unsent with a refused reservation |
| `OperationOutcomes.ReleaseSettles` | xtask/src/generate.rs:6843-6861 | so does a release |
| `OperationOutcomes.CommandFollows` | xtask/src/generate.rs:6872-6911 | with the reservation granted, the run current and every cancellation acknowledged, two wakes of the body send the command |
| `OperationOutcomes.KeptOnSuccess` | xtask/src/generate.rs:6935-6942 | a run that succeeded and that nobody asks to release is never released in any later schedule |
| `OperationOutcomes.DeliversExactly` | xtask/src/generate.rs:6883-6903 | a progress report is delivered exactly when it matches, the channel is open, the run is current and the number is above all before |
| `OperationOutcomes.OthersUntouched` | xtask/src/generate.rs:6722-6726 | a step on another run changes nothing here; disposal only unregisters an open channel |
| `PortableReviews.Reachable` | xtask/src/generate.rs:7702-7829 | the flow's invariant: unsettled or consumed reviews have a tracked operation, removed ones were settled, idle and cancelled or never reserved |
| `PortableReviews.OneConsumer` | xtask/src/generate.rs:7786-7829 | at most one active consumer per review, and only on a review still in the set |
| `PortableReviews.ConsumedAgainOnlyIfRetained` | xtask/src/generate.rs:7804-7829 | all but the last consumption of a review ended retained, which only a restore can; other kinds are consumed at most once |
| `PortableReviews.LeavesOnlySettled` | xtask/src/generate.rs:7721-7738 | a step removes a review only when settled and not consumed, after an acknowledged creator cancel or a failed reservation |
| `PortableReviews.SpentReviewsClose` | xtask/src/generate.rs:7778-7828 | a review whose creator gave no preview, whose last consumption used it up, or that left the set is closing and never available again |
| `PortableReviews.AtMostThree` | xtask/src/generate.rs:7712-7719 | each of the two capacity groups holds at most three reviews |
| `PortableReviews.NothingStarts` | xtask/src/generate.rs:7708-7710 | no schedule starts an operation or a review on a disposed flow |
| `PortableReviews.DisposalResolves` | xtask/src/generate.rs:7956-7969 | when disposal resolves no review remains, every operation has ended, every review was cancelled or unreserved, and it stays so |
| `PortableReviews.DisposalNeverStuck` | xtask/src/generate.rs:7956-7969 | an unfinished disposal that is owed no native reply can take a step, itself or through an operation that leaves the tracked set |
| `ReviewOutcomes.ThreeOfEach` | xtask/src/generate.rs:7712-7719 | at most three live reviews are exports or backups and at most three are imports, restores or unopened, in every reachable state |
| `ReviewOutcomes.PreviewExactly` | xtask/src/generate.rs:7712-7784 | a preview opens one review of its kind exactly when the flow is not disposed and fewer than three of its group, kinds written out, are live; else nothing changes |
| `ReviewOutcomes.ConsumeExactly` | xtask/src/generate.rs:7786-7813 | an operation starts on a review exactly when it is previewed, settled, unused, open and the flow not disposed; a start that throws closes the review |
| `ReviewOutcomes.ReplyIsKept` | xtask/src/generate.rs:7773-7777 | the reply of a creator makes its preview known |
| `ReviewOutcomes.CreatorSettlesExactly` | xtask/src/generate.rs:7778-7782 | a settled creator leaves its review ready, or starts a cleanup and waits for it exactly when there is no preview, the review is closing, the flow disposed or the operation stale |
| `ReviewOutcomes.ConsumerSettlesExactly` | xtask/src/generate.rs:7814-7828 | a settled consumer leaves its review ready exactly when a restore retained it and nothing closes it; else a cleanup starts |
| `ReviewOutcomes.EndsExactly` | xtask/src/generate.rs:7740-7755 | an operation leaves the tracked set exactly when it has settled and the cleanup it waits for is over |
| `ReviewOutcomes.CleanupStartsExactly` | xtask/src/generate.rs:7721-7722 | a release starts a cleanup and closes the review |
| `ReviewOutcomes.ReleasesExactly` | xtask/src/generate.rs:7723-7724 | a cleanup asks for the release of the consumer, then of the creator, whatever they answer |
| `ReviewOutcomes.IdentifyExactly` | xtask/src/generate.rs:7725-7731 | then for the identifier, granted or refused once; a refusal ends the cleanup |
| `ReviewOutcomes.CancelExactly` | xtask/src/generate.rs:7732-7737 | then for the cancellation, which ends it or rejects it |
| `ReviewOutcomes.LeavesExactly` | xtask/src/generate.rs:7725-7738 | a review leaves the set exactly at the last reply of one of its cleanups, settled and not consumed |
| `ReviewOutcomes.DisposedExactly` | xtask/src/generate.rs:7956-7957 | the flow is disposed exactly when asked |
| `ReviewOutcomes.DisposeExactly` | xtask/src/generate.rs:7956-7959 | asking starts a round over the operations now tracked unless one is under way or done |
| `ReviewOutcomes.DisposalExactly` | xtask/src/generate.rs:7958-7968 | a disposal sweeps every live review, waits for cleanups and operations, sweeps again, and resolves exactly when all last cleanups succeeded; a rejected one lets it be asked for again |
| `ReviewOutcomes.OtherwiseNothing` | xtask/src/generate.rs:7702-7829 | a step that is not enabled changes nothing |
| `TextChecks.WireString` | xtask/src/phase02_generate.rs:1243-1259 | accepts exactly well-formed texts whose code-point count is within the bounds; the code-unit exits change nothing |
| `TextChecks.IsCsvText` | xtask/src/generate.rs:5876-5887 | accepts exactly well-formed texts whose UTF-8 length is within the bound |
| `TextChecks.UnitsBound` | xtask/src/phase02_generate.rs:1244 | code points, units and UTF-8 bytes bound each other as the early exits assume |
| `BoundedJson.Accepts` | xtask/src/generate.rs:3319-3374 | accepts exactly values within depth 144, container and string limits whose compact JSON text, without four bytes for each hole, has at most the given bytes |
| `BoundedJson.Budget.ChargeText` | xtask/src/generate.rs:3321-3350 | succeeds exactly for well-formed strings of at most 1 MiB whose quoted form fits, and charges its length |
| `BoundedJson.Budget.Visit` | xtask/src/generate.rs:3351-3372 | succeeds exactly when the value fits and the counter covers its charge less its slack, and then charges the whole |
| `BoundedJson.ChargeIsSize` | xtask/src/generate.rs:3354-3369 | the charge is the length of the compact JSON text less four bytes for each hole |
| `BoundedJson.ElementsSize` | xtask/src/generate.rs:3359-3362 | separators charged up front plus elements equal the array's bytes less its holes |
| `BoundedJson.EntriesSize` | xtask/src/generate.rs:3363-3367 | separators and colons charged up front plus entries equal the object's bytes less the holes below |
| `BoundedJson.LimitsSpelled` | xtask/src/generate.rs:3346-3370 | the limits are 144 levels, 1000000 entries and 1048576 bytes of a string; numbers must be finite |
| `JsonWriters.WritersAgree` | xtask/src/generate.rs:3318-3369 | for every document of exact integers the text the client counts is the compact text the generator's bound measures, byte for byte |
| `JsonWriters.BothCountAlike` | xtask/src/generate.rs:3318-3369 | so what the client charges for it is the size the generator charges |
| `JsonWriters.HolesSpelled` | xtask/src/generate.rs:3359-3362 | a hole is written like null |
| `BoundedJson.HolesUndercount` | xtask/src/generate.rs:3359-3362 | for a value within the limits the verdict is the byte limit if and only if it has no holes |
| `BoundedJson.SparseArrayUndercounts` | xtask/src/generate.rs:3359-3362 | `[,]` is written in six bytes and accepted within two |
| `BoundedJson.SlackOverdraws` | xtask/src/generate.rs:3351-3373 | a visit never overdraws the counter if and only if the value has no slack |
| `BoundedJson.EmptyArrayOverdraws` | xtask/src/generate.rs:3359-3362 | `[]` is visited with success when nothing is left |
| `Timestamps.TimestampExact` | xtask/src/generate.rs:3292-3316 | the shortcut accepts exactly matching texts with valid fields whose instant, to the nanosecond, is in the supported range |
| `Timestamps.InnerYearsSupported` | xtask/src/generate.rs:3309-3315 | years strictly between the extremes never leave the range, whatever the offset |
| `Timestamps.ExecSound` | xtask/src/generate.rs:3294-3298 | a match splits the text into parts of the required shapes |
| `Timestamps.ExecComplete` | xtask/src/generate.rs:3294-3298 | every text of those parts matches, with exactly those parts |
| `Timestamps.DaysAreConsecutive` | xtask/src/generate.rs:3282-3289 | the calendar check and the day count agree: successive calendar dates have successive day numbers |
| `Timestamps.FractionInSecond` | xtask/src/generate.rs:3310-3315 | one to nine fraction digits stay below a second, so whole seconds decide |
| `Timestamps.YearSpelled` | xtask/src/generate.rs:3295-3299 | a year is four digits or a sign and six; a minus negates it and is refused on zero |
| `Timestamps.MiddleSpelled` | xtask/src/generate.rs:3295 | dashes in the date, a `T` of either case, colons in the time |
| `Timestamps.FractionSpelled` | xtask/src/generate.rs:3295 | a fraction is a point and one to nine digits |
| `Timestamps.BillionthsSpelled` | xtask/src/generate.rs:3312-3313 | it counts in billionths of a second |
| `Timestamps.ZoneSpelled` | xtask/src/generate.rs:3305-3313 | a zone is `Z` of either case or a signed offset in hours and minutes |
| `Timestamps.CalendarSpelled` | xtask/src/generate.rs:3282-3289 | the twelve month lengths, leap years and the years -9999 to 9999 |
| `Timestamps.ClockSpelled` | xtask/src/generate.rs:3307-3308 | hours below 24, minutes and seconds below 60, in the time and in the offset |
| `Timestamps.EpochSpelled` | xtask/src/generate.rs:3314-3315 | days are counted from 1970-01-01, 86400 seconds each |
| `Timestamps.RangeSpelled` | xtask/src/generate.rs:3310-3315 | the range runs from -9999-01-02T01:59:59Z to the end of the second 9999-12-30T22:00:00Z, as the constants say |
| `Inventory.AllGenerated` | xtask/src/generate.rs:8983-9000 | succeeds exactly when no path has two owners and then lists the same files sorted and distinct |
| `Inventory.EnsureUnique` | xtask/src/generate.rs:9002-9013 | comparing neighbours of a sorted list decides global uniqueness |
| `Inventory.ArrangeSorts` | xtask/src/generate.rs:8997 | sorting by path yields a sorted permutation |
| `Inventory.OrderSpelled` | xtask/src/generate.rs:8997 | the order of paths: a prefix, or smaller where they first differ |
| `Generation.Repository.Generate` | xtask/src/generate.rs:8911-8934 | succeeds exactly when possible; then the outputs lie over what is kept, and `Check` accepts exactly for flat outputs; unowned files never change; on a converged tree nothing is written or removed |
| `Generation.Repository.Check` | xtask/src/generate.rs:8936-8964 | accepts exactly the converged trees |
| `Generation.Repository.RemoveObsolete` | xtask/src/protocol_generate.rs:127-154 | removes exactly the regular files under the owned roots that are not expected |
| `Generation.Repository.UnexpectedFiles` | xtask/src/phase02_generate.rs:264-314 | fails exactly on a matching nonregular entry, else lists the unexpected owned names |
| `Generation.Repository.WriteAll` | xtask/src/generate.rs:8918-8931 | succeeds exactly when all outputs can be written side by side; writes nothing that is already in place |
| `Generation.NestedOutputDrifts` | xtask/src/phase02_generate.rs:303-304 | a concrete output that generation accepts and the check then refuses |
| `OwnedNames.RootsSpelled` | xtask/src/protocol_generate.rs:33-37 | the protocol generator owns what lies below its three directories, written out |
| `OwnedNames.OwnedSpelled` | xtask/src/phase02_generate.rs:269-286 | the pack generator owns exactly the names that begin as its nine directory and prefix pairs do, written out |
| `OwnedNames.ConvergedSpelled` | xtask/src/generate.rs:8936-8964 | `check` accepts exactly when every output is in place byte for byte, regular files below protocol directories are outputs, and entries with pack names are outputs and plain files |
| `OwnedNames.KeptSpelled` | xtask/src/generate.rs:8911-8934 | `generate` removes exactly the owned entries it does not produce |
| `SourcePaths.SourcePathsFlat` | xtask/src/phase02_generate.rs:41-76 | plain file names in the generators' directories are flat for every owned name |
| `SourcePaths.SourceConverges` | xtask/src/generate.rs:8983-9000 | for outputs in those directories a successful `generate` leaves a tree that `check` accepts |
| `DepthScanner.Scan` | xtask/src/solver_artifact.rs:1510-1534 | the loop accepts exactly when the byte-wise run stays within the limit and ends balanced outside a string |
| `DepthScanner.ScannerFaithful` | xtask/src/solver_artifact.rs:1510-1534 | on every well-formed document it ends balanced if nesting is at most 8 and refuses otherwise, whatever the strings contain |
| `DepthScanner.PeakIsNesting` | xtask/src/solver_artifact.rs:1524-1526 | the same for every limit, so the peak depth is the nesting |
| `DepthScanner.SyntaxSpelled` | xtask/src/solver_artifact.rs:1513-1528 | the quote, the backslash, the separators and the four brackets |
| `Reachability.RejectReachable` | xtask/src/architecture.rs:238-263 | terminates on every graph and finds a forbidden package exactly when one is reachable by one or more edges |
| `Reachability.Monotone` | xtask/src/architecture.rs:238-263 | adding edges never turns a rejection into acceptance |
| `Reachability.WorkspaceOnly` | xtask/src/architecture.rs:217-236 | only workspace packages are ever reached |
| `Reachability.DependenciesOnlyAdd` | xtask/src/architecture.rs:217-263 | adding packages or dependencies never repairs a violated rule |
| `HexFrames.EncodeHex` | xtask/src/protocol_generate.rs:1110-1119 | the loop writes two lowercase digits per byte and a newline |
| `HexFrames.DigitsSpelled` | xtask/src/protocol_generate.rs:1111 | the sixteen digits written |
| `HexFrames.NibblesSpelled` | xtask/src/protocol.rs:1439-1446 | the digits read, in either case |
| `HexFrames.SpacesSpelled` | xtask/src/protocol.rs:1421-1424 | the whitespace skipped |
| `HexFrames.PlacesSpelled` | xtask/src/protocol_generate.rs:734-737 | the place value of each of the four bytes of the length |
| `HexFrames.PrefixSpelled` | xtask/src/protocol.rs:1345-1348 | and how they read |
| `HexFrames.DecodesEncoded` | xtask/src/protocol.rs:1420-1446 | decoding undoes encoding for all bytes |
| `HexFrames.ReencodesCanonical` | xtask/src/protocol.rs:1420-1446 | re-encoding any decodable text gives it without whitespace, in lowercase, with a newline |
| `HexFrames.FrameRoundTrips` | xtask/src/protocol_generate.rs:734-745 | a frame read back has the payload's length as big-endian prefix and the payload after it |

## Left out

- Text of the generated TypeScript, C++, Rust and Markdown: guards and types are syntax trees, so quoting, layout and
  headers are not covered. An empty `oneOf` renders text that is no TypeScript; its tree evaluates to false.
- Fractions: a number with a fractional part is a real, its rounding to binary is not modelled. Rounding of whole numbers
  is; bounds are always safe integers. Minus zero is zero.
- JavaScript objects other than plain ones, and duplicate keys: an object is its list of own properties. Reading a hole of
  a sparse array as `undefined`: a hole holds no element, so an array is judged by the others.
- The native evaluator's own reading of schemas (crates/eutheto-domain-api/src/schema.rs), where formats, bounds and
  lengths apply whatever the type, apart from its signed-delta format.
- `bounded_json_size` of the whole pack after expansion (xtask/src/phase02_generate.rs:415-416): a second size limit over
  fields this model does not carry.
- The input checks and request building at the head of `OperationScope.run`, and the contents of messages: runs are
  modelled from the reservation on, with replies and matching progress as parameters.
- Scheduling order of microtasks, the revision checks of `#owned`, and when `isCurrent` of a portable operation turns
  false: the model allows every order and every answer, which only adds behaviours. `PortableReviews` lets a cleanup start
  at any time for the same reason.
- `CsvImportFlow` and `SettingsImportFlow`: relatives of the portable flow with weaker guarantees.
- The extra identifier test that guards of imported rows add to the compiled guard: it only narrows what they accept.
- `BoundedJson.Accepts`: number formatting is a parameter of the model.
- Symbolic links, permissions, empty directories, directory listing order and failing disks in `generate` and `check`; the
  generators themselves are the parameter `produced`, and are taken to read only sources.
- UTF-8 validation, parsing and the canonical comparison around the depth scanner.
- The rule table of `verify_metadata`: each rule is one call of the search.
- Process launching, hashing, protobuf encoding, fixed inventories, licence tables and the data-transfer shapes: they
  would only add easy members.
