# Dash Forge, verified core

Dash Forge keeps repositories, issues, pull requests, reviews, releases and check runs as documents
on Dash Platform. Nobody serves them: what a document may say, who may write it and how it may change
is decided by consensus rules written into the data contracts. This project models those rules as a
protocol and proves what every run of the chain keeps. It also proves the tools around the contracts:
the schema transformations that build them, the checker that judges their references, the JSON Schema
validator for `dg --json`, and the token substitution that makes the web build reproducible.

`dafny verify dfyconfig.toml` checks everything.

## The parts

**The chain** (`Rules`, `Chain`, `ForgeContracts`, `Totals`, `Membership`). `Rules` is the rule language
with its evaluator; `Chain` judges creates, replaces and deletes against a contract and proves once, for
every contract, what runs keep; `ForgeContracts` holds the rules of the four-contract mainnet set as
data, for the types that carry the hard guarantees. The theorems over all runs are in `Privacy`,
`Audience`, `Threads`, `ThreadAuthority`, `Numbering`, `Verdicts`, `CheckRuns`, `Releases`, `Packs` (with
`Triangular`), `BotPush` and `BotPushExact`; `Story` is a short run that meets its premises.
Most of them hold only because several rules interact: nothing freezes a check run's `status`, and no
rule says that a private repository holds no plaintext.

**Ref names** (`RefNames`). The patterns as regular expressions, against the rules of `git check-ref-format`.

**Schema transformations and their checker** (`SchemaDefs`, `SplitMeta`, `PropertyKinds`, `Shorthand`,
`ShorthandChains`, `Literals`, `References`, `WhereCheck`, `Registration`, `Riders`).

**The JSON Schema validator and the combinators that feed it** (`JsonValues`, `JsonPointers`,
`JsonSchema`, `Chains`, `SchemaCycles`, `SchemaDraft`, `JsonCheck`, `SchemaWriter`).

**The reproducible build** (`HashTokens`, `StableMinifier`, `MinifierPlugin`).

## Assumptions

- A document's id is its position in the log; an identity is a number. Time moves by `Tick`.
- Totals (`sumOf`, `countOf`) include the document being written. `divide` and `modulo` are Euclidean.
- In a rule, an absent integer reads 0; a comparison with any other absent property is false.
- On a replace, a reference to a type whose documents can be deleted is judged again
  (`docs/contracts/forge-v2.md`, line 17, says so of `ownerRefersTo`, `build.py`, lines 1171-1172, of
  `asMember`). That any other reference is judged again only when its value changed is an assumption. A
  chain that judged more would accept fewer replaces, so what holds over all runs here holds over its
  runs too.
- The concrete rules, required fields, bounds, frozen lists and unique indexes are those of
  `forge-contracts/contracts/mainnet/`, which is what `build` writes with the mainnet flags.
- `sha256` is an arbitrary function to sixteen hex digits; the file-name test for JavaScript and
  `re.search` are parameters; the minifier is arbitrary in `LeftoverIff` and the identity in `RunUnminified`.
- Dictionaries are finite maps, so their order is not modelled. Numbers that are not integers are reals.

## Findings

- `const` and `enum` compare nested booleans with 0 and 1 as equal (`NestedBooleanPassesAsNumber`);
  `SameIsJsonEqual` gives the literals for which the comparison is JSON's.
- `integer` refuses 1.0 (`WholeFloatIsRefused`); `TypesDifferIff` shows that whole floats are the only
  difference from the draft's types.
- A `$ref` skips the empty keys of its pointer and never enters an array (`ReferenceDropsEmptyKeys`);
  `ReachesRfcNodeIff` says for which paths it reaches the node RFC 6901 names.
- The plugin does not notice a word that happens to be a placeholder beside a content hash
  (`UncheckedWord`); `RunUnminified` shows that this is the only way to lose a source.
- Two builds that differ in nothing but their content hashes can hand the minifier different text, when a
  source of one holds a content hash of the other as an ordinary word (`UnstableInput`); `TwoBuilds` gives
  the exact condition, for every asset of both builds.
- The check for leftover placeholders reports a source that comes back unharmed when it holds a content
  hash that is also a placeholder (`RestoredHashIsReported`, with two such chunks in `FalseAlarmHappens`);
  `LeftoverIff` says exactly what it reports.
- `.lock`: tags, default branches and the ref names of a pull request (`baseRefName`, `sourceRefName`) that
  end in it pass, and so do refs with such a component in the middle (`LocksThatPass`). `TagsAreGitIff`,
  `RefsAreGitIff` and `BranchesAreGitIff` give the exact test.
- `split_meta` looks for stranded references in the contracts that stay, not among the moved types
  (`SplitLosesReferent`); `MovedReferencesStandIff` gives the exact condition.
- `shorthand` changes the kind of some properties whose `$ref` site overrides a keyword
  (`DirtySiteChangesKind`); `ChainKindIff` says which, through any chain of references. A stray
  `size` wins over the array's own length (`StraySizeIff`).
- A condition's literal is not held against the enum of an integer, boolean, identifier or byte property
  (`IntegerEnumIsIgnored`); `PassedLiteralsAreValuesIff` says where that is harmless (an integer enum is so
  only if it lists all between two bounds).
- Greedy `riders` falls short when a flag is listed before one it needs (`WrongOrderFallsShort`).

## Model

| member | source | states |
|---|---|---|
| Chain.RunSound | forge-contracts/scripts/lib/offline-chain.mjs:232-331 | In every reachable state of any contract every stored document still satisfies what is judged on it alone, bears its position as its id, was not created in the future, and no two live documents of a type share a unique key |
| Chain.RunGrows | forge-contracts/scripts/lib/offline-chain.mjs:300-331 | From any moment of a run to its end: types never change, deleted documents never return, immutable types keep their view, undeletable ones stay, properties frozen outright keep their value |
| Chain.Created | forge-contracts/scripts/lib/offline-chain.mjs:273-298 | Every document of a reachable state was created by one accepted operation, at the moment the log had its position as length, and by no other |
| Chain.OverRun | forge-contracts/schema/vectors.py:635-668 | A relation that every accepted replace and delete keeps holds between a document at any moment and the same document at the end of the run |
| Privacy.VisibilityOneWay | forge-contracts/schema/build.py:1150-1152 | Over any run a repository's visibility is private for a while and then public for ever |
| Privacy.OwnerMayOpen | forge-contracts/schema/build.py:1150-1152 | The one way is always open: in every reachable state the owner's replace of a private repository by the same one made public is accepted |
| Privacy.PrivateReposHoldNoPlaintext | forge-contracts/schema/build.py:1126-1168 | In every reachable state no ref update, config, release, issue, pull request, comment, review or check run of a private repository carries any of its type's plaintext fields |
| Privacy.RunStamped | forge-contracts/schema/build.py:1154-1168 | In every reachable state a document's `vis` is private whenever its repository is still private |
| Audience.AudienceOpensOnce | forge-contracts/schema/build.py:1126-1148 | From any moment to the end: `aud` keeps its first value until it is dropped and is then absent for ever; the late plaintext fields change at most once, from absent to present, only across that drop; under `vis` private the drop never happens |
| Threads.SumIsThreadCode | forge-contracts/schema/build.py:660-674 | Over every run the per-target sum of deltas is the code of the plain machine's state: 0, 1, 2, 8 or 9, plus 16 exactly when locked |
| Threads.AcceptedIffMove | forge-contracts/schema/build.py:660-674 | In every reachable state a transition that passes every other check is accepted exactly when the plain machine {open, closed, merged, draft, draft-closed} x {unlocked, locked} has that move |
| Threads.MoveHappens | forge-contracts/schema/vectors.py:437-468 | An accepted transition takes the thread exactly where the plain machine's move goes |
| Threads.MergedForEver | forge-contracts/schema/build.py:660-674 | A thread merged at any moment of a run stays merged |
| ThreadAuthority.CommentGateReadsLock | forge-contracts/schema/build.py:675-679 | In every reachable state the gate on a new comment passes exactly when the writer proves membership or the thread is unlocked |
| ThreadAuthority.ReviewGateReadsLock | forge-contracts/schema/build.py:680-682 | The same for a new review and its pull request |
| ThreadAuthority.KindFitsTarget | forge-contracts/schema/vectors.py:437-468 | An accepted transition names a live issue or pull request of its own repository, by its number and kind, and issue kinds name issues exactly |
| ThreadAuthority.IssuesOpenOrClosed | forge-contracts/schema/vectors.py:437-468 | Over every run an issue is open or closed, never merged or draft |
| ThreadAuthority.MergesAndLocksAreMembers | forge-contracts/schema/build.py:660-674 | Accepted merges are by maintainers or role-1 writers, accepted locks and unlocks by maintainers or role-1 or role-2 writers, of the repository the named thread is in, at that moment |
| Numbering.NumbersCountUp | forge-contracts/schema/build.py:1328-1336 | In every reachable state the issues and pull requests of a repository bear, in the order they were opened, the numbers 1, 2, 3, ... |
| Releases.TagsAlternate | forge-contracts/schema/build.py:564-574 | For every interleaving over all repositories and tags each tag's publishes and unpublishes strictly alternate starting with a publish, and its sum is 0 or 1 |
| Releases.ReleaseAcceptedIff | forge-contracts/schema/build.py:564-574 | A release that passes every other check is accepted exactly when the tag's live count admits it: edit or unpublish only while live, publish only while not, sealed revisions only if they move nothing |
| Triangular.TotalsSayInitial | forge-contracts/schema/build.py:506-524 | For every n: distinct naturals have count n and sum n(n-1)/2 exactly when they are 0 to n-1 |
| Packs.RuleSaysComplete | forge-contracts/schema/build.py:506-524 | In every sound state the rule on the two totals holds exactly when the pack's chunks 0 to chunkCount-1, and no others, are in the log |
| Packs.AcceptedManifestIsComplete | forge-contracts/schema/build.py:506-524 | An accepted manifest of a Platform-stored pack has exactly its chunks present at that moment |
| Packs.PackStaysReadable | forge-contracts/schema/build.py:506-524 | Every chunk an accepted manifest counted is still there at the end of any longer run |
| BotPush.BotPushesAreGranted | forge-contracts/schema/build.py:1239-1296 | Every ref update accepted with r = 4 stands under exactly one grant: same repository and bot, its writer a maintainer now, written at most 90 days before, an exact grant only for the sealed ref of its scope and a prefix grant only for a plaintext name extending its refs/heads/ prefix |
| BotPushExact.BotPushAcceptedIff | forge-contracts/schema/build.py:1239-1288 | In every reachable state a ref update with r = 4 is accepted exactly when its document stands on its own, it names a live repository and bears its visibility, its writer has a maintainer's or bot's row there, and it stands under a grant |
| BotPushExact.BranchPushIsAccepted | forge-contracts/schema/build.py:1239-1288 | In every reachable state, for any public repository, bot with a row there, live grant of a maintainer and branch name under the granted prefix (not ending in .lock), the bot's push of that branch to any commit is accepted |
| Story.GrantsAreReachable | forge-contracts/schema/build.py:1258-1274 | Four writes from the empty chain reach such a repository, bot and grant |
| BotPush.PushersMayPush | forge-contracts/schema/build.py:1445-1449 | No ref update is accepted on a triage or reader row alone |
| Verdicts.CountedReviewsStay | forge-contracts/schema/build.py:1347-1351 | An approve or request-changes review in the log at any moment is there, unchanged, at the end of the run |
| Verdicts.EveryCountedReviewIsRight | forge-contracts/schema/build.py:1170-1184 | In every reachable state each approve or request-changes review stands as the one operation that created it wrote it, and the signer of that operation maintained the repository or held role 1 in it at that very moment and does not own the pull request |
| CheckRuns.CheckRunsAdvance | forge-contracts/schema/build.py:771-779 | From any moment of any run to its end a check run's status rank never falls; once completed its conclusion, outcome, times, summary, links, log and artifacts never change and it is never deleted |
| RefNames.TagPatternMeans | forge-contracts/schema/build.py:385-395 | The tag pattern accepts exactly the well-formed names: not empty, allowed characters, no `/` or `.` at either end, none of `..`, `//`, `/.`, `@{` |
| RefNames.TagsAreGitIff | forge-contracts/schema/build.py:385-395 | git accepts a tag exactly when the pattern does and `.lock` neither ends the name nor stands before a slash |
| RefNames.RefPatternMeans | forge-contracts/schema/build.py:385-395 | The ref pattern accepts exactly `refs/` followed by a well-formed name |
| RefNames.RefsAreGitIff | forge-contracts/schema/build.py:471-472 | Of the names under `refs/` git accepts exactly those that pass the pattern and `noLock` and hold no `.lock/` |
| RefNames.BranchPatternMeans | forge-contracts/schema/build.py:385-395 | The branch pattern accepts exactly the well-formed names that do not start with `-` and whose first component is not made of `@` alone |
| RefNames.BranchesAreGitIff | forge-contracts/schema/build.py:466-469 | Of the branches it accepts git accepts exactly those where `.lock` neither ends the name nor stands before a slash; of those git accepts it refuses exactly the ones with a leading `-` or a first component of `@`s |
| RefNames.MiddleLockPasses | forge-contracts/schema/build.py:381-384 | Every well-formed branch name with `.lock/` in it that does not end in `.lock` passes as a ref under the pattern and `noLock`, and git refuses it |
| RefNames.EndLockPasses | forge-contracts/schema/build.py:473-474 | Every well-formed branch name that ends in `.lock` passes as a ref name of a pull request, which has the pattern without `noLock`, and git refuses it |
| RefNames.LocksThatPass | forge-contracts/schema/build.py:466-474 | `v1.lock` as a tag, `m.lock` as a branch, `refs/heads/a.lock/b` as a ref and `refs/heads/m.lock` as a ref of a pull request pass; git refuses all four |
| SchemaDefs.DefsUsed | forge-contracts/schema/build.py:1489-1502 | The worklist ends, with exactly the definitions reachable by `$ref`, or fails exactly when a reachable name is not defined |
| SplitMeta.SplitContracts | forge-contracts/schema/build.py:1505-1551 | A split moves the listed types with exactly the definitions they use and prunes the others to what they reach; it is refused exactly when a name is undefined, two used definitions of one name differ, or a reference is left behind |
| SplitMeta.SplitLeavesContractsWhole | forge-contracts/schema/build.py:1505-1551 | After a split every `$ref` of all contracts resolves in its own contract and no unreachable definition remains |
| SplitMeta.MovedReferencesKeepTheirTargets | forge-contracts/schema/build.py:1519-1535 | Every reference of a moved type, and of the definitions it uses, names the same contract and type as before |
| SplitMeta.NamingKeepsTargets | forge-contracts/schema/build.py:1524-1527 | Naming the source contract in a tree fixes what it refers to, from whatever contract it is read |
| SplitMeta.StayingReferencesStand | forge-contracts/schema/build.py:1537-1545 | Every type a staying contract refers to is still where it was |
| SplitMeta.MovedReferencesStandIff | forge-contracts/schema/build.py:1519-1545 | The types on the list of moves keep all their referents exactly when none of them refers to a type on it |
| SplitMeta.SplitLosesReferent | forge-contracts/schema/build.py:1537-1545 | For any contract with two moved types, one naming the other, the split goes through and the named type is gone from where it is looked for |
| Shorthand.ShortTwice | forge-contracts/schema/build.py:1558-1583 | A second pass changes nothing, on any JSON |
| Shorthand.ShorthandKeepsKind | forge-contracts/schema/wherecheck.py:42-93 | The kind of every property is preserved through every `$ref` whose site overrides no byte-array keyword |
| Shorthand.ShorthandKeepsLengths | forge-contracts/schema/build.py:1558-1583 | So is the set of accepted byte lengths, unless the long form carries a `size` |
| Shorthand.StraySizeIff | forge-contracts/schema/build.py:1579-1582 | With a `size` of its own a rewritten byte array keeps its lengths exactly when the two are equal |
| ShorthandChains.ChainKindIff | forge-contracts/schema/wherecheck.py:42-93 | For every contract and every property, through any chain of `$ref`s, dirty or not: the kind is the same after the rewrite exactly when the chain leads nowhere or its layers keep it, a condition on the `type`, `byteArray` and `contentMediaType` of the property and the definitions |
| ShorthandChains.FoldedIsMerge | forge-contracts/schema/wherecheck.py:42-47 | `resolve` is the merge of the layers, each over the one it refers to, and fails exactly when the chain does |
| Shorthand.SiteKindIff | forge-contracts/schema/wherecheck.py:42-47 | For a `$ref` to a plain definition, the same condition spelled out: on the site's own `type`, `byteArray` and `contentMediaType` over the definition |
| Shorthand.MergedKindIff | forge-contracts/schema/wherecheck.py:42-47 | The same for one merge of a definition and a site, whatever they are |
| Shorthand.DirtySiteChangesKind | forge-contracts/schema/wherecheck.py:42-47 | A `$ref` site that makes a fixed byte array an identifier is read as bytes after the rewrite |
| WhereCheck.Check | forge-contracts/schema/wherecheck.py:189-329 | The nested loops report no problem exactly when every reference of every contract is right: target in the same or an earlier contract, lifetimes agree, `findBy` on a unique index over exactly its keys which a replace cannot change, `where` pairs of single values of one kind, conditions that fit the kind |
| WhereCheck.CheckLeaf | forge-contracts/schema/wherecheck.py:202-217 | 40121 is reported exactly when no contract up to this one defines the target |
| WhereCheck.CheckAgreement | forge-contracts/schema/wherecheck.py:300-328 | A pair is refused exactly when its sides are not single values of one kind, or the reference is compared with itself |
| WhereCheck.CheckOperator | forge-contracts/schema/wherecheck.py:265-298 | A condition is refused exactly when its literal, list, unequal value or bound does not fit the referenced kind |
| Literals.LiteralProblem | forge-contracts/schema/wherecheck.py:140-162 | The branches of the literal check decide: of the kind's form, inside the bounds, and for a string in the enum |
| Literals.PassedLiteralsAreValuesIff | forge-contracts/schema/wherecheck.py:140-162 | Every literal that passes is a value of the property (kind, enum, bounds) exactly when the property is a string or no single value, has no enum, lists both booleans, or is an integer with both bounds whose enum lists every integer between them |
| Literals.IntegerEnumIsIgnored | forge-contracts/schema/wherecheck.py:156-162 | `tk = 7` passes for an issue's `tk`, a byte whose enum is 0 alone |
| WhereCheck.CheckFindBy | forge-contracts/schema/wherecheck.py:230-250 | `findBy` is refused exactly when one of its four demands fails |
| Registration.PrefixesRegister | forge-contracts/schema/wherecheck.py:189-212 | A set checks clean exactly when every prefix of its registration order does |
| Registration.AppendingChecksTheLast | forge-contracts/schema/wherecheck.py:189-212 | A contract added at the end asks nothing new of those before it |
| Registration.FindByNamesOneDocument | forge-contracts/schema/wherecheck.py:230-250 | A `findBy` that passes matches at most one document of a state that keeps its unique indexes, and still matches it after any replace |
| Registration.KeysFixedIff | forge-contracts/schema/wherecheck.py:240-250 | A document keeps matching through every replace exactly when each key is fixed once written: unlisted keys and keys frozen under a condition can slip |
| Riders.Ride | forge-contracts/schema/variants.py:103-109 | The loop's result as a function of the flags, on which the next rows are proved |
| Riders.DependenciesFirstIsGreatest | forge-contracts/schema/variants.py:98-109 | With dependencies listed first the greedy list is the greatest set that keeps every implication |
| Riders.RidersAreGreatestIff | forge-contracts/schema/variants.py:98-109 | For every list a greatest set that keeps every implication exists; the greedy list lies in it, and is it exactly when each flag of that set stands after what it needs |
| Riders.UnionIsAllowed | forge-contracts/schema/build.py:251-288 | Allowed sets are closed under union, for any table of needs |
| Riders.WrongOrderFallsShort | forge-contracts/schema/variants.py:103-109 | A flag listed before one it needs is lost although both together are allowed |
| JsonValues.SameIsJsonEqual | e2e/cli/json_check.py:160-161 | `same` is JSON equality for every value exactly when the literal nests no boolean, 0 or 1 |
| JsonValues.NestedBooleanPassesAsNumber | e2e/cli/json_check.py:160-161 | `[true]` passes as `[1]` although `true` does not pass as 1 |
| JsonPointers.EscapeRoundTrip | e2e/cli/json_check.py:63-64 | Undoing `~1` before `~0` gives every key back (section 4 of RFC 6901) |
| JsonPointers.ReferenceDropsEmptyKeys | e2e/cli/json_check.py:58-65 | A reference written by RFC 6901 for any path of keys resolves to what its non-empty keys reach, in the file of its name without the directory, or in its own |
| JsonPointers.ReachesRfcNodeIff | e2e/cli/json_check.py:58-65 | The code reaches the node RFC 6901 names, in every document, exactly when no key of the path is empty and none is an array index |
| JsonCheck.Validate | e2e/cli/json_check.py:67-113 | For all values and all schema files that can be ranked: no errors exactly when the value satisfies the keywords, types and literals read as the code reads them; a schema with an unknown keyword is never passed; a supported one is never refused |
| SchemaCycles.AcyclicIffRanked | e2e/cli/json_check.py:67-77 | The files can be ranked exactly when no reference leads back to itself on one value |
| SchemaDraft.TypesDifferIff | e2e/cli/json_check.py:35-43 | The code reads a type otherwise than section 6.1.1 of the validation draft exactly for `integer` and a float with zero fractional part |
| SchemaDraft.WholeFloatIsRefused | e2e/cli/json_check.py:35-43 | `integer` refuses 1.0, which the draft accepts |
| SchemaDraft.VerdictIsTheDrafts | e2e/cli/json_check.py:67-113 | On a value without such floats, through schemas whose literals nest no boolean, 0 or 1, the verdict is the draft's |
| JsonCheck.ValidateMembers | e2e/cli/json_check.py:86-98 | No errors exactly when the required members are present and every member meets its property schema or `additionalProperties` |
| JsonCheck.OneOfCounts | e2e/cli/json_check.py:107-112 | `oneOf` holds, one branch satisfied and every other not, exactly when the count of branches without errors is 1 |
| JsonSchema.RankIsImmaterial | e2e/cli/json_check.py:67-77 | The meaning does not depend on the ranking of references used to show termination |
| SchemaWriter.NullableMeans | docs/schemas/generate.py:40-44 | For every t, a value satisfies `nl(t)` exactly when it is null or satisfies t |
| SchemaWriter.ArrayMeans | docs/schemas/generate.py:47-48 | `A(items)`: an array whose every item satisfies `items` |
| SchemaWriter.ObjectMeans | docs/schemas/generate.py:51-55 | `O(props, req)`: an object with every required field, whose named fields satisfy their schemas |
| SchemaWriter.WordsMean | docs/schemas/generate.py:58-59 | `E(*words)`: one of the words |
| SchemaWriter.DescribedMeans | docs/schemas/generate.py:66-67 | `D(desc, t)` means what t means |
| SchemaWriter.NewFieldsAreIgnored | docs/schemas/generate.py:1047-1060 | Adding a top-level field that neither the schema nor a `oneOf` branch names changes no verdict, in either direction |
| HashTokens.TokensAreMatches | forge-web/next.config.js:79 | The scanner's tokens are exactly the matches of the pattern: sixteen hex digits with no hex digit on either side |
| HashTokens.RewriteAtToken | forge-web/next.config.js:115-120 | A rewrite puts the image of each match at its place |
| HashTokens.RewriteElsewhere | forge-web/next.config.js:115-120 | and changes no other character |
| HashTokens.RewriteTwice | forge-web/next.config.js:115-134 | A second rewrite meets exactly the images of the first one's tokens: maximal hex runs are stable under same-length substitution |
| HashTokens.TokensRewritten | forge-web/next.config.js:115-134 | The tokens of a rewritten text are the images of its tokens, in order |
| StableMinifier.RoundTripIff | forge-web/next.config.js:91-140 | With no clash reported, the text of an asset that is rewritten and restored comes back exactly when none of its tokens is a placeholder without being a content hash |
| StableMinifier.ClashIffLost | forge-web/next.config.js:101-110 | A clash is reported exactly when some content hash would not be put back |
| MinifierPlugin.UncheckedWord | forge-web/next.config.js:111-140 | A run of the plugin on any one chunk whose source holds its hash and, beside it, its placeholder as a word: the word is changed to the hash, no clash and no leftover is reported |
| StableMinifier.LeftoverIff | forge-web/next.config.js:134-139 | Whatever the minifier did, a placeholder is reported as left exactly when the text it left has a token that is put back as that very placeholder, or holds it inside a longer run of hex digits |
| StableMinifier.RestoredHashIsReported | forge-web/next.config.js:134-139 | A source that comes back is reported all the same when it holds a content hash that is also some placeholder |
| MinifierPlugin.FalseAlarmHappens | forge-web/next.config.js:127-143 | A run of the plugin on two chunks whose names and digest chain their hashes: both sources come back, no clash, and one is reported as holding a placeholder |
| StableMinifier.MinifierInputIsStableIff | forge-web/next.config.js:91-124 | For two builds that differ only by a renaming of content hashes, injective on those of the first: a text and its renaming reach the minifier as one text exactly when the second build leaves alone every word of it that is no content hash of the first |
| MinifierPlugin.TwoBuilds | forge-web/next.config.js:88-126 | The first pass run over all assets of two such builds hands the minifier equal sources exactly when that holds of every source it rewrites |
| MinifierPlugin.UnstableInput | forge-web/next.config.js:113-120 | Any two one-chunk builds whose first source holds, beside its own hash, the second's hash as a word (which is not the placeholder): they differ in nothing but hashes, and the minifier gets different texts |
| MinifierPlugin.StableMinifierInput.FillPlaceholders | forge-web/next.config.js:91-100 | The nested loops fill the placeholder table its specification gives |
| MinifierPlugin.StableMinifierInput.FillRestore | forge-web/next.config.js:101-110 | The restore map, and one error for every clash |
| MinifierPlugin.StableMinifierInput.ReplaceHashes | forge-web/next.config.js:113-120 | The scan is the specified substitution, and notes exactly whether a content hash was met |
| MinifierPlugin.StableMinifierInput.RewriteAssets | forge-web/next.config.js:111-124 | Exactly the eligible assets are substituted, and exactly those that named a hash are touched |
| MinifierPlugin.StableMinifierInput.BeforeMinifier | forge-web/next.config.js:88-126 | The whole first pass |
| MinifierPlugin.StableMinifierInput.AfterMinifier | forge-web/next.config.js:127-143 | The second pass restores exactly the touched assets and reports exactly the placeholders left in them |
| MinifierPlugin.StableMinifierInput.RunUnminified | forge-web/next.config.js:71-146 | With a minifier that changes nothing and no clash: every asset comes back exactly when, in each source that names a content hash, no other word is a placeholder; the leftovers are exactly the placeholders those sources then hold |

## Left out

- Document types outside the guarantees above (labels, topics, events, milestones, policies, stars, webhooks, profiles, repo keys, bans, boards, cards, vault entries, pack mirrors): only easy members.
- String patterns and lengths inside the chain model, except the ref-name patterns proved in `RefNames`; refusal codes; fees, proofs, keys, signatures and encryption (`enc` is an opaque byte sequence).
- References judged inside one replace as deleted in the same block; contract registration as a chain step.
- `ref_patterns` without the `@{` rule, and the URL, topic, label and title patterns.
- SchemaDefs.DefsUsed: `_walk` with its callback is the function that collects the names in a tree.
- SplitMeta.SplitContracts: two definitions of one name are compared structurally, where Python takes `True` and 1 as equal; descriptions, ids and versions of the contracts are not carried.
- `flattened` and `declarations` of `wherecheck.py`: `WhereCheck` starts from their result, the flattened and resolved properties of each type and its list of declarations.
- WhereCheck.Check: problems are counted by code; their texts are not modelled. Two properties without any `type` count as one kind, as in the code.
- JsonPointers.ReferenceDropsEmptyKeys: percent-encoding in a reference's fragment, which the code does not undo either.
- JsonCheck.Validate: an error names its keyword, not the path and the text; a keyword of the wrong shape is refused where Python would raise or misread it; invalid regular expressions are not modelled.
- `command_of`, `check` and the capture reader of `json_check.py`; the file cache of `load`.
- SchemaWriter.NewFieldsAreIgnored: the branches are those `cmd` writes, `O(props, required)`.
- The rest of `next.config.js`, webpack, the minifier itself, the React application, the Rust crates and the command-line parts of `build.py`, `variants.py` and `vectors.py`.
