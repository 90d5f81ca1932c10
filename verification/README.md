# Monster catalogue: a verified model of its data rules

The repository is a Next.js site that shows monsters (Pokémon with Japanese names and
type labels) read from JSON files, plus the offline scripts that build those files from
PokeAPI. This project models the deterministic rules underneath, in Dafny:

- **Ingestion scripts.**
  - ID discovery follows the paginated list endpoint and takes the trailing number of every result URL.
  - One per-ID retry policy serves the six bulk fetchers: five attempts and a doubling backoff.
  - Record projections cover pokemon, forms and species; the species name is looked up under `ja-Hrkt`, with `不明` as the fallback.
  - Monster assembly guards the record's shape at run time and translates English type names into Japanese labels.
- **Client-side validation.**
  - The zod `MonsterSchema` and `validateApiResponse`.
  - `formatZodError`.
  - The three `isValidData` predicates of the monster cards.
  - The cards' four-way render priority.
- **List and stats pages.**
  - The type menu, search, filters and sort orders.
  - Pagination by twenty and the five-button page window.
  - The sort-column toggle and its icons.
  - The colour bands and type badge colours.
- **Test API routes.**
  - The random ID choice that never repeats the previous ID.
  - The invalid-payload routes, with their pattern-to-status mapping.

Network responses, disk contents and `Math.random()` draws are inputs; the files written
and the HTTP responses sent are outputs. A parsed JSON payload is the `Json` datatype;
a JavaScript `undefined` is `None` of `Value`. Errors that the code throws are `Err`/`None`
results, so every failure path is part of the model.

Modules (one file each):

- `Wrappers`, `Sequences`, `Strings`: shared types, and the ECMAScript string operations the code relies on (`trim`, `toLowerCase`, `includes`, `parseInt`, `toString`).
- `Json`, `Io`:
  - JSON values, property access, truthiness and `??`;
  - fetch results, files on disk and writes.
- `Retry`, `Projections`, `FetchScripts`, `IdDiscovery`, `BuildMonster`: the scripts.
- `JsObject`, `TypeTranslation`: the type table and its lookups.
- `PokemonData`: src/utils/pokemonData.ts.
- `Schema`: src/schemas/monster.ts.
- `Cards`: the monster cards.
- `Monsters`, `MonsterList`, `PokemonStats`: the two list pages.
- `RandomApi`: the test routes.

Two behaviours of the code are worth stating up front:

- scripts/build-monster.ts writes `{id, name, types, image}` with no `stats`, although the `Monster` type of src/types/monster.ts declares six stats (`BuildMonster.Monster` has no stats field).
- The ID discovery loop of scripts/monster-all/counter.ts runs `while (nextUrl)`, so it stops on any falsy `next`: `null`, `undefined` or `""`.

## Model

| member | source | states |
|---|---|---|
| Json.Get | scripts/monster-all/fetch-all-pokemon.ts:28-40 | reading a property of `undefined` or `null` throws, and of an object yields exactly its own member |
| Json.Path | scripts/monster-all/fetch-all-pokemon.ts:40 | a chain of reads is the value itself when empty and throws when it starts from `undefined`/`null` |
| Json.Coalesce | scripts/fetch-species.ts:16 | `v ?? fallback` is `v` unless `v` is nullish, and then exactly the fallback |
| Io.IdPathInjective | scripts/monster-all/fetch-all-pokemon.ts:43 | two different IDs never write the same `<dir>/<id>.json` file |
| Strings.TrimStart | src/components/MonsterCardVt4.tsx:48 | the result is a suffix whose dropped prefix is all whitespace and which starts with a non-whitespace character |
| Strings.TrimEnd | src/components/MonsterCardVt4.tsx:48 | the result is a prefix whose dropped suffix is all whitespace and which ends with a non-whitespace character |
| Strings.TrimEmptyIffBlank | src/components/MonsterCardVt4.tsx:48 | `s.trim() === ''` holds exactly when every character of `s` is whitespace |
| Strings.ToLower | src/pages/monster-list.tsx:31 | lower-casing keeps the length and maps each character on its own |
| Strings.ContainsIffOccurs | src/pages/monster-list.tsx:31-32 | `includes` holds exactly when the pattern occurs at some position |
| Strings.ContainsEmpty | src/pages/monster-list.tsx:31 | every string includes the empty string |
| Strings.IndexOf | src/utils/pokemonData.ts:90 | the index found is the first occurrence, and `None` means there is none |
| Strings.RemoveFirst | src/utils/pokemonData.ts:90 | `replace` with a string pattern removes only its first occurrence: putting the pattern back at that position restores the input, and it occurs nowhere earlier; an absent pattern changes nothing |
| Strings.NatToString | src/pages/monster-list.tsx:32 | `toString` of a natural number is a nonempty digit string without leading zeros |
| Strings.NatToStringRoundTrip | src/pages/monster-list.tsx:32 | the digits printed for `n` read back as `n` |
| Strings.NatToStringInjective | src/pages/monster-list.tsx:32 | distinct numbers print differently |
| Strings.DigitPrefix | src/utils/pokemonData.ts:90 | the longest leading run of decimal digits |
| Strings.ParseInt | src/utils/pokemonData.ts:90 | `parseInt(s, 10)` is NaN exactly when no digit follows the optional whitespace and sign |
| Strings.ParseIntRoundTrip | src/utils/pokemonData.ts:90 | `parseInt` reads back the decimal form of every integer |
| Strings.ParseIntOfNumeral | src/utils/pokemonData.ts:90 | `parseInt` skips leading whitespace, applies one `+` or `-`, ignores leading zeros and stops at the first non-digit: `parseInt(" +007abc")` is 7 |
| Retry.BackoffDoubles | scripts/monster-all/fetch-all-pokemon.ts:59 | each backoff delay is twice the previous one |
| Retry.AttemptOnce | scripts/monster-all/fetch-all-pokemon.ts:21-45 | one attempt succeeds exactly when the fetch resolves (ok, when checked), the body parses, the projection does not throw and the write succeeds; its record is the projection of the body |
| Retry.RetryFrom | scripts/monster-all/fetch-all-pokemon.ts:20-61 | the loop makes at most five attempts; every attempt before the last failed; the delays follow the schedule; a record is the last attempt's; giving up happens only after the fifth failure |
| Retry.Retry | scripts/monster-all/fetch-all-pokemon.ts:17-62 | from the first attempt, between one and five attempts with one delay fewer than attempts |
| Retry.FirstSuccess | scripts/monster-all/fetch-all-pokemon.ts:48 | reference: the first successful attempt among the first five, or none |
| Retry.RetryStopsAtFirstSuccess | scripts/monster-all/fetch-all-pokemon.ts:43-57 | the loop saves the record of the first successful attempt and stops there; with no success it makes five attempts and saves nothing |
| Retry.RetryDelaySchedule | scripts/monster-all/fetch-all-pokemon.ts:59-60 | the delays requested are a prefix of 500, 1000, 2000, 4000 ms, none after the last attempt |
| Retry.FourFailuresThenSuccess | scripts/monster-all/fetch-all-pokemon.ts:20-60 | four failures and then a success give five attempts, four delays and the record |
| Retry.FiveFailuresGiveUp | scripts/monster-all/fetch-all-pokemon.ts:54-57 | five failures give five attempts, four delays and no record, and later outcomes are never consulted |
| Retry.SaveWithRetry | scripts/monster-all/fetch-all-pokemon.ts:17-62 | at most one file is written, exactly when some attempt succeeds, at `<dir>/<id>.json` with the record of the last attempt made; every attempt before it failed, and the delays requested are 500, 1000, 2000, 4000 ms cut to one fewer than the attempts |
| FetchScripts.AttemptsSucceedIff | scripts/monster-all/fetch-all-pokemon.ts:23-45 | with the status checked, an attempt succeeds exactly when the response is ok, parses, projects and can be written |
| FetchScripts.StoringRun | scripts/monster-all/fetch-all-pokemon.ts:17-62 | with the status checked, a file is written exactly when some attempt stores; it holds the record of the last attempt made, every earlier attempt failed, and the delays follow the 500·2ⁿ schedule |
| FetchScripts.FetchAndSavePokemon | scripts/monster-all/fetch-all-pokemon.ts:17-62 | a pokemon file is written exactly when one of the five attempts stores; it holds the record of the last attempt made, and every earlier attempt failed; otherwise all five attempts are used; the delays follow the 500·2ⁿ schedule |
| FetchScripts.FetchAndSaveForm | scripts/monster-all/fetch-all-forms.ts:40-97 | the same policy for forms: one file exactly when an attempt's payload projects; the file is the form literal of the last attempt's record, which projects back to that record, while every earlier attempt failed, with the same delay schedule |
| FetchScripts.FetchAndSaveRaw | scripts/monster-all-raw/fetch-raw-pokemon.ts:10-43 | the raw mirrors write the parsed body of the first delivered response unmodified to `<raw dir>/<id>.json` (no earlier attempt was delivered), nothing when all five attempts fail, with the same delay schedule |
| FetchScripts.NonOkIsNeverStored | scripts/monster-all-raw/fetch-raw-species.ts:18 | a non-ok response is a failed attempt even when its body parses: five of them store nothing and request the four backoff delays |
| FetchScripts.RawDirsDistinct | scripts/monster-all-raw/fetch-raw-forms.ts:5 | the three raw mirrors write to three different directories |
| FetchScripts.Sequential | scripts/fetch-pokemon.ts:32-37 | IDs are written in ascending order to their own files, and the loop aborts exactly at the first attempt that throws |
| FetchScripts.FetchPokemonMain | scripts/fetch-pokemon.ts:32-37 | `main` writes `data/pokemon/<k>.json` for IDs 1, 2, … in order, each holding the basic record projected from that ID's response; it stops before ID 10 exactly when an ID throws, and then that ID's attempt failed |
| FetchScripts.FetchSpeciesMain | scripts/fetch-species.ts:31-36 | `main` writes `data/species/<k>.json` for IDs 1, 2, … in order, each holding the species record projected from that ID's response; it stops before ID 10 exactly when an ID throws, and then that ID's attempt failed |
| FetchScripts.FirstFailureStopsLoop | scripts/fetch-species.ts:31-36 | a throw at one ID aborts the loop and no later ID is written |
| FetchScripts.StatusIgnored | scripts/fetch-pokemon.ts:14-15 | without a status check, a 404 whose body projects is still written |
| Projections.ArrayItems | scripts/monster-all/fetch-all-pokemon.ts:38 | `.map`/`.find` succeed exactly on an array and see its items |
| Projections.PropsLookup | scripts/monster-all/fetch-all-forms.ts:50-76 | with distinct keys, reading back a property of a written object literal gives the value put there |
| Projections.MembersOfProps | scripts/monster-all/fetch-all-forms.ts:50-76 | writing an object literal and reading its members back is the identity |
| Projections.TypeNames | scripts/monster-all/fetch-all-pokemon.ts:38 | `types.map(t => t.type.name)` succeeds exactly when `types` is an array whose every entry has a readable `type`, and keeps their names in order |
| Projections.StatsBelow | scripts/monster-all/fetch-all-pokemon.ts:28-33 | the first `n` base stats are read in order, and the reads fail exactly when one of them throws |
| Projections.Stats | scripts/monster-all/fetch-all-pokemon.ts:28-33 | the six base stats, HP to speed, each `Number(base_stat)`, or a throw when one cannot be read |
| Projections.ProjectPokemon | scripts/monster-all/fetch-all-pokemon.ts:26-41 | the projection succeeds exactly when the stats, the type names and the artwork can be read, and copies `id` and `name` as they are |
| Json.NumberReadsNumerals | scripts/monster-all/fetch-all-pokemon.ts:28-33 | `Number` reads back a number and the decimal form of any integer, counts `null` and `''` as 0, and gives NaN for a missing value |
| Json.SingletonArrayNumber | scripts/monster-all/fetch-all-pokemon.ts:28-33 | `Number` of a one-item array is `Number` of the item's text: a number, a string or a nested array gives what the item gives, `null` gives 0, and a boolean or an object gives NaN |
| Json.NestedArrayNumbers | scripts/monster-all/fetch-all-pokemon.ts:28-33 | `Number([[50]])` is 50 and `Number([[]])` is 0 |
| Projections.MalformedPokemonThrows | scripts/monster-all/fetch-all-pokemon.ts:28-40 | a payload without `stats` or without `sprites` throws inside the `try` |
| Projections.ProjectEncodedPokemon | scripts/monster-all/fetch-all-pokemon.ts:35-41 | on a well-formed payload the record keeps the ID, the name, the type names in order, the six base stats in order and the official artwork URL |
| Projections.EncodedIdAndName | scripts/monster-all/fetch-all-pokemon.ts:36-37 | a well-formed payload's `id` and `name` are read back as sent |
| Projections.ProjectFromParts | scripts/monster-all/fetch-all-pokemon.ts:35-41 | the record is assembled from the four reads |
| Projections.EncodedStats | scripts/monster-all/fetch-all-pokemon.ts:28-33 | the six stats read from a well-formed payload are its base stats |
| Projections.EncodedTypes | scripts/monster-all/fetch-all-pokemon.ts:38 | the type names read from a well-formed payload are its type names, in order |
| Projections.EncodedArtwork | scripts/monster-all/fetch-all-pokemon.ts:40 | the artwork read from a well-formed payload is its official-artwork `front_default` |
| Projections.ProjectBasic | scripts/fetch-pokemon.ts:17-22 | the record of fetch-pokemon.ts succeeds exactly when the type names and the artwork can be read |
| Projections.BasicAgreesWithFull | scripts/fetch-pokemon.ts:17-22 | wherever the full projection succeeds, the basic one succeeds with the same four members |
| Projections.BasicIgnoresStats | scripts/fetch-pokemon.ts:6-11 | the basic projection never reads `stats`: a payload without them still projects |
| Projections.SameReads | scripts/fetch-pokemon.ts:20-21 | the type names and the artwork depend only on the `types` and `sprites` members |
| Projections.BasicJson | scripts/fetch-pokemon.ts:24-29 | the written object has only `id`, `name`, `types` and `image`, and never `stats` |
| Projections.ProjectFormType | scripts/monster-all/fetch-all-forms.ts:69-75 | one `types` entry projects exactly when it is not null and its `type` is not nullish, keeping `slot`, `type.name` and `type.url` |
| Projections.ProjectForm | scripts/monster-all/fetch-all-forms.ts:50-76 | the form record copies the eight scalar members, `pokemon.{name,url}`, the four sprite URLs and every `types` entry in order, and throws exactly when one of those reads throws |
| Projections.ProjectedFormWellSized | scripts/monster-all/fetch-all-forms.ts:50-76 | every projected record has the shape of the literal |
| Projections.FormFieldsDistinct | scripts/monster-all/fetch-all-forms.ts:50-76 | the literal's keys are pairwise distinct at every level |
| Projections.FormRoundTrip | scripts/monster-all/fetch-all-forms.ts:50-83 | projecting a written form file again yields the same record: every copied member is stored unchanged |
| Projections.ProjectFormOfMembers | scripts/monster-all/fetch-all-forms.ts:50-76 | an object whose members are a record's projects to that record |
| Projections.FormTypeRoundTrip | scripts/monster-all/fetch-all-forms.ts:69-75 | a written `types` entry projects back to itself |
| Projections.FormTopMembers | scripts/monster-all/fetch-all-forms.ts:50-76 | the members of a written form file are those of its record |
| Projections.FindJaHrkt | scripts/fetch-species.ts:15 | `names.find` returns the first entry in language `ja-Hrkt`, `undefined` when none, and throws at the first unreadable entry before a match |
| Projections.ProjectSpecies | scripts/fetch-species.ts:14-21 | the species record copies `id`; its name is the `name` of the first `ja-Hrkt` entry (or `不明` when that entry has no name), and `不明` when there is no such entry |
| Projections.SpeciesJson | scripts/fetch-species.ts:18-28 | the written species object has only `id` and `name` |
| Projections.FindOnEncoded | scripts/fetch-species.ts:15 | on well-formed entries, the search finds exactly the first `ja-Hrkt` name of the reference |
| Projections.ProjectEncodedSpecies | scripts/fetch-species.ts:15-21 | on a well-formed payload the stored name is the first `ja-Hrkt` entry's, or `不明`, and the ID is copied |
| IdDiscovery.TrailingDigitCount | scripts/monster-all/counter.ts:24 | the length of the run of digits that ends the string |
| IdDiscovery.UrlIdOfShape | scripts/monster-all/counter.ts:24-26 | every URL `…/<digits>` or `…/<digits>/` yields the value of those digits |
| IdDiscovery.TrailingRunOfShape | scripts/monster-all/counter.ts:24 | after a `/`, a run of digits is exactly the trailing run |
| IdDiscovery.UrlIdOfResourceUrl | scripts/monster-all/counter.ts:24-26 | a PokeAPI resource URL `…/25/` yields 25 |
| IdDiscovery.UrlIdSound | scripts/monster-all/counter.ts:24-26 | conversely, every accepted URL has the shape `…/<digits>` with an optional final `/`, and its ID is those digits |
| IdDiscovery.UrlIdRejectsNonNumeric | scripts/monster-all/counter.ts:25 | URLs without a trailing number, or with two final slashes, throw |
| IdDiscovery.PageOf | scripts/monster-all/counter.ts:19-27 | a page is read only from an ok response with a parsable body whose `results` is an array of well-formed URLs |
| IdDiscovery.Walk | scripts/monster-all/counter.ts:9-31 | the loop makes no request exactly when the cursor is falsy, and otherwise first requests the cursor |
| IdDiscovery.Paginate | scripts/monster-all/counter.ts:9-31 | the same over the raw responses |
| IdDiscovery.WalkStep | scripts/monster-all/counter.ts:9-31 | one round of the loop: a truthy cursor met a well-formed page, and the rest ran from its `next` |
| IdDiscovery.WalkPagesWellFormed | scripts/monster-all/counter.ts:19-27 | every page a successful run fetched was well formed |
| IdDiscovery.WalkCursorsChain | scripts/monster-all/counter.ts:30 | each request after the first is the previous page's `next` |
| IdDiscovery.WalkLastCursorFalsy | scripts/monster-all/counter.ts:9-30 | the loop stops exactly at the first page whose `next` is falsy |
| IdDiscovery.WalkIds | scripts/monster-all/counter.ts:29 | the IDs are the fetched pages' lists concatenated in page order |
| IdDiscovery.ConcatIdsOfPages | scripts/monster-all/counter.ts:29 | concatenating the raw pages' IDs equals concatenating the parsed pages' IDs |
| IdDiscovery.ConcatIds | scripts/monster-all/counter.ts:29 | an ID is collected exactly when it is on some page, and the number collected is the pages' total result count |
| IdDiscovery.PaginateTrace | scripts/monster-all/counter.ts:9-31 | a successful run fetched well-formed pages that chain by `next`, stopped at the first falsy `next`, and returned their IDs concatenated |
| IdDiscovery.FetchAllItemIds | scripts/monster-all/counter.ts:5-34 | the first request is `endpoint + '?limit=50'`, and the ID count is the result count of the pages fetched |
| IdDiscovery.WalkAborts | scripts/monster-all/counter.ts:19-25 | a reached page that is not well formed fails the whole walk |
| IdDiscovery.MalformedPageAborts | scripts/monster-all/counter.ts:19-25 | a non-ok status, a bad body or a URL without a trailing number on a reached page fails the discovery |
| IdDiscovery.RunCounter | scripts/monster-all/counter.ts:37-57 | the pokemon ID file is written exactly when its discovery and its write succeed; the species file only after it and exactly when everything succeeds; the exit code is 1 exactly when a discovery or a write failed |
| JsObject.LookupKey | config/pokemon-type-translations.ts:55 | `obj[key]` yields an own value for an own key, an inherited built-in for an `Object.prototype` name, and `undefined` otherwise |
| TypeTranslation.EnglishDistinct | config/pokemon-type-translations.ts:11-30 | the 18 English keys are pairwise distinct |
| TypeTranslation.JapaneseDistinct | config/pokemon-type-translations.ts:11-30 | the 18 Japanese labels are pairwise distinct |
| TypeTranslation.NameLengths | config/pokemon-type-translations.ts:11-30 | keys have at least three characters and labels exactly one |
| TypeTranslation.NamesDistinct | config/pokemon-type-translations.ts:11-30 | 18 keys and 18 labels, each distinct, and no label is a key |
| TypeTranslation.PositionOfDistinct | config/pokemon-type-translations.ts:11-30 | in a list without repeats, the position of the i-th element is i |
| TypeTranslation.LabelsAreListed | config/pokemon-type-translations.ts:11-30 | the table's values are exactly the listed labels |
| TypeTranslation.TranslateOne | scripts/translate-type.ts:12 | `typeMap[t] ?? t` is the mapped value for a key and `t` itself otherwise |
| TypeTranslation.TranslateSinglePokemonType | config/pokemon-type-translations.ts:54-56 | a known English type gets its Japanese label, and anything else is returned unchanged |
| TypeTranslation.TranslatePokemonTypes | config/pokemon-type-translations.ts:43-47 | `translatePokemonTypes` keeps the length |
| TypeTranslation.LoadTypeMap | config/pokemon-type-translations.ts:63-65 | `loadTypeMap` returns the translation table itself, with its 18 keys |
| TypeTranslation.TranslatePokemonTypesPointwise | config/pokemon-type-translations.ts:43-56 | element by element, the list translation is the single-type translation |
| TypeTranslation.LegacyTranslationAgrees | config/pokemon-type-translations.ts:63-76 | `translateTypes(xs, loadTypeMap())` equals `translatePokemonTypes(xs)` |
| TypeTranslation.TableAt | config/pokemon-type-translations.ts:11-30 | each English type maps to the label at its position |
| TypeTranslation.TableKeys | config/pokemon-type-translations.ts:11-30 | the table has exactly the 18 English names as keys |
| TypeTranslation.TableInjective | config/pokemon-type-translations.ts:11-30 | distinct English types get distinct labels |
| TypeTranslation.TranslationIdempotent | config/pokemon-type-translations.ts:11-47 | no label is a key, so translating twice is translating once |
| TypeTranslation.EmptyMapIsIdentity | scripts/translate-type.ts:12 | with an empty map `translateTypes` returns the list unchanged |
| TypeTranslation.TranslateTypesConcat | scripts/translate-type.ts:11-13 | `translateTypes` distributes over concatenation |
| TypeTranslation.TranslateSingleAsWritten | config/pokemon-type-translations.ts:55 | the lookup as written agrees with the intended one on every name outside `Object.prototype` |
| TypeTranslation.PrototypeKeyIsNotUnchanged | config/pokemon-type-translations.ts:55 | the unknown type `toString` comes back as a built-in function instead of unchanged |
| TypeTranslation.NoTypeStartsWithT | config/pokemon-type-translations.ts:11-30 | no English key starts with `t` |
| BuildMonster.FallbacksUnreachable | scripts/build-monster.ts:63-68 | once both guards pass, the `unknown` and `""` fallbacks are never used |
| BuildMonster.ReadJson | scripts/build-monster.ts:47-51 | reading a file throws exactly when it is missing or not valid JSON |
| BuildMonster.Build | scripts/build-monster.ts:46-82 | a monster is built exactly when both files read and parse, both guards pass and the write succeeds; it holds the pokemon's ID, types (translated) and image, and the species' name |
| BuildMonster.Loop | scripts/build-monster.ts:87-93 | every ID is written or skipped; an ID is skipped exactly when its build fails; every write is a successful build's file |
| BuildMonster.LoopWrites | scripts/build-monster.ts:87-93 | every ID that builds is written by the loop |
| BuildMonster.BuildFrom | scripts/build-monster.ts:87-93 | over the inputs, a failure is logged and skipped and later IDs are still built |
| BuildMonster.BuildMain | scripts/build-monster.ts:84-94 | `main` handles exactly the IDs 1..10: ID `k` is skipped exactly when its build fails, and otherwise written to `data/monster/<k>.json`; nothing else is written |
| BuildMonster.EveryBuiltIdIsWritten | scripts/build-monster.ts:87-93 | every ID that builds is written to `data/monster/<id>.json`, whatever happened to the IDs before it |
| BuildMonster.FetchedPokemonPassesGuard | scripts/build-monster.ts:28-36 | a file written by fetch-all-pokemon.ts from a well-formed payload passes `isPokemonData` |
| BuildMonster.RecordPassesGuard | scripts/build-monster.ts:28-36 | the file of a record projected from a well-formed payload passes `isPokemonData` |
| BuildMonster.PokemonJsonMembers | scripts/monster-all/fetch-all-pokemon.ts:35-45 | the members of a written pokemon file are those of its record |
| BuildMonster.FetchedSpeciesPassesGuard | scripts/build-monster.ts:38-43 | a file written by fetch-species.ts from a well-formed payload passes `isSpeciesData` |
| BuildMonster.BuildFromFetchedFiles | scripts/build-monster.ts:60-75 | end to end, the monster built from well-formed payloads has the pokemon's ID, the first `ja-Hrkt` name or `不明`, the translated types in order, and the artwork URL |
| PokemonData.LoadPokemonData | src/utils/pokemonData.ts:63-77 | `loadPokemonData` returns the parsed content exactly when the file exists and parses, and `null` otherwise |
| PokemonData.SameDirectory | src/utils/pokemonData.ts:65 | the raw species mirror writes into the directory the loader reads |
| PokemonData.LoadAfterRawSave | src/utils/pokemonData.ts:63-77 | a species payload stored by the raw mirror is loaded back unchanged |
| PokemonData.ListedIds | src/utils/pokemonData.ts:88-91 | the IDs are exactly those of the `.json` entries whose stem parses |
| PokemonData.LoadAllPokemonIds | src/utils/pokemonData.ts:79-99 | `[]` when the directory is missing or unreadable; otherwise a permutation of the parsed IDs, in ascending order |
| PokemonData.FileIdOfIdFile | src/utils/pokemonData.ts:89-90 | a file written as `<n>.json` passes the filter and parses back as `n` |
| PokemonData.IdFilesListed | src/utils/pokemonData.ts:88-91 | the IDs listed from such a directory are the IDs written, in listing order |
| PokemonData.LoadWrittenIds | src/utils/pokemonData.ts:79-99 | the IDs of the files written are loaded back, each with its multiplicity |
| Schema.NameIssues | src/schemas/monster.ts:12 | `name` passes exactly when it is a string of length at least 1 (a blank name passes) |
| Schema.ElementIssues | src/schemas/monster.ts:13 | the elements of `types` pass exactly when each is a string |
| Schema.TypesIssues | src/schemas/monster.ts:13 | `types` passes exactly when it is a nonempty array of strings (empty strings allowed) |
| Schema.ImageIssues | src/schemas/monster.ts:14 | `image` passes exactly when it is `""` or a string the URL check accepts |
| Schema.ValidateMonsterData | src/schemas/monster.ts:44-46 | `safeParse` succeeds exactly on a valid monster, returns its name, types and image as given, and otherwise reports at least one issue |
| Schema.FormatZodError | src/schemas/monster.ts:66-73 | only the first issue is reported, prefixed by its path and `: ` when the path is nonempty; no issue gives the fixed message |
| Schema.FormatTopLevelIssue | src/schemas/monster.ts:66-73 | an issue at a top-level key reads `key: message` |
| Schema.ValidateApiResponse | src/schemas/monster.ts:80-105 | success exactly when the schema accepts, with the parsed monster; otherwise always `不正なデータです` |
| Schema.ApiErrorIsNotMonster | src/schemas/monster.ts:92-104 | an error payload matches the error schema and still gets the same fixed error |
| Schema.ValidRoundTrip | src/schemas/monster.ts:11-15 | a monster that meets the rules round-trips through its JSON form |
| Cards.IsValidData | src/components/MonsterCardVt4.tsx:43-57 | a string counts exactly when it is not blank; an array exactly when some item is present and not blank; a missing value never |
| Cards.IsValidDataOrSentinel | src/components/MonsterCard.tsx:15-20 | as above, and the placeholder `---` counts as missing, alone or as an item |
| Cards.BlankIffTrimmedEmpty | src/components/MonsterCard.tsx:17 | for every string, trimming gives `''` exactly when it is blank |
| Cards.SentinelIsStricter | src/components/MonsterCard.tsx:15-20 | the plain card accepts a subset of what the other cards accept, and `---` separates them |
| Cards.PlainCard | src/components/MonsterCard.tsx:22-63 | the name and types are shown when valid and replaced by `名前不明`/`タイプ不明` otherwise; the image appears exactly when valid |
| Cards.PlainCardShowsMonster | src/components/MonsterCard.tsx:36-63 | a well-formed monster is shown as it is, its types joined by a full-width space |
| Cards.ValidateMonsterData | src/components/MonsterCardVt4.tsx:62-76 | no monster gives three false flags; otherwise each flag is set exactly when its field holds some non-blank string |
| Cards.ValidIffHasText | src/components/MonsterCardVt4.tsx:43-57 | `isValidData` accepts exactly the fields that hold a non-blank string, whatever their shape |
| Cards.Render | src/components/MonsterCardVt4.tsx:450-467 | the spinner wins when loading with it enabled; then a nonempty error; then the empty card, transparent exactly while loading; then the data card, where each valid field is shown with its text (a `types` array joined by a full-width space) and the others are left blank |
| Cards.EmptyErrorIsIgnored | src/components/MonsterCardV4.tsx:299-301 | an empty error string never shows the error card |
| Cards.RenderCases | src/components/MonsterCardV4.tsx:294-311 | every combination of props renders exactly one state, and the data card exactly when there is a monster and nothing takes priority |
| Cards.LoadingWithoutSpinnerKeepsData | src/components/MonsterCardVt4.tsx:450-467 | without the spinner, the loading flag alone never hides a monster that is present |
| Monsters.EmptySearchMatchesAll | src/pages/monster-list.tsx:31-32 | an empty search matches every monster |
| Monsters.SearchFindsOwnKeys | src/pages/pokemon-stats.tsx:29-31 | a monster is found by its full number and by any piece of its lower-cased name |
| Monsters.MatchesSearch | src/pages/pokemon-stats.tsx:29-31 | a monster matches exactly when the lower-cased search occurs somewhere in its lower-cased name, or the search occurs somewhere in its number |
| Monsters.ReadAll | src/pages/monster-list.tsx:415-422 | the records of the `.json` entries in listing order, present exactly when every such entry reads and parses |
| Monsters.LoadMonsters | src/pages/monster-list.tsx:407-441 | the records sorted by ascending ID as a permutation of the files, records with the same ID in listing order; no monsters at all when the directory or any file fails |
| Monsters.LoadedMonstersAreTheFiles | src/pages/pokemon-stats.tsx:332-366 | the loaded list holds exactly the records of the `.json` entries |
| Monsters.OneBadFileEmptiesPage | src/pages/monster-list.tsx:433-440 | one `.json` file that does not parse empties the page |
| Monsters.SortedListingKept | src/pages/monster-list.tsx:425 | a listing already in ID order is kept as it is (the sort is stable) |
| MonsterList.TypesOf | src/pages/monster-list.tsx:21-27 | a type appears exactly when some monster has it |
| MonsterList.AllTypes | src/pages/monster-list.tsx:21-27 | the type menu is strictly increasing and lists exactly the types some monster has |
| MonsterList.AllTypesDistinct | src/pages/monster-list.tsx:21-27 | the menu lists no type twice |
| MonsterList.Filtered | src/pages/monster-list.tsx:31-36 | a monster is kept exactly when it matches the search and the selected type, and the kept ones stay in their order |
| MonsterList.Displayed | src/pages/monster-list.tsx:39-49 | the shown list is a permutation of the filtered one, ordered by ID ascending, by name rank, or by HP descending; monsters with equal keys keep their filtered order |
| Sequences.InsertWithKey | src/pages/monster-list.tsx:39-49 | inserting an element puts it in front of every element with the same key, leaving their order alone |
| Sequences.SortStable | src/pages/monster-list.tsx:39-49 | the sort is stable: the elements with any given key appear in the same order before and after |
| MonsterList.KeyOrder | src/pages/monster-list.tsx:39-49 | what being sorted by each comparator means for the monsters' fields |
| MonsterList.NoFilterShowsAll | src/pages/monster-list.tsx:31-36 | with an empty search and no type, every monster is kept |
| MonsterList.DefaultViewIsLoadedOrder | src/pages/monster-list.tsx:39-49 | the default view shows the loaded list in its order |
| MonsterList.TotalPages | src/pages/monster-list.tsx:55 | the fewest pages of twenty that hold all items |
| MonsterList.JsSlice | src/pages/monster-list.tsx:56-60 | `slice` within bounds is the subsequence and never longer than the list |
| MonsterList.PageSlice | src/pages/monster-list.tsx:56-60 | page `p` holds the items from `(p-1)·20` up to `p·20`, clamped, at most twenty |
| MonsterList.FirstPagesArePrefix | src/pages/monster-list.tsx:56-60 | the first `k` pages laid end to end are the list's first `k·20` items |
| MonsterList.PagesPartition | src/pages/monster-list.tsx:55-60 | the pages together are the whole list, each item once and in order |
| MonsterList.PageSizes | src/pages/monster-list.tsx:55-60 | every page before the last is full and the last holds the remainder, never nothing |
| MonsterList.RangeLabelMatchesPage | src/pages/monster-list.tsx:222-223 | the range label names the first and last positions the page shows |
| MonsterList.Window | src/pages/monster-list.tsx:281-291 | `min(5, totalPages)` consecutive page numbers within range: pages 1.. when there are at most five, starting at 1 near the start, ending at the last page near the end, and otherwise with the current page in the middle |
| MonsterList.Step | src/pages/monster-list.tsx:230-336 | a filter change resets to page 1; 前へ and 次へ clamp when enabled and do nothing when disabled; a numbered button goes to the page it shows, and a missing one does nothing |
| MonsterList.StepKeepsPageValid | src/pages/monster-list.tsx:241-336 | every event keeps the page within the list's pages |
| MonsterList.NextThenPrev | src/pages/monster-list.tsx:241-336 | 次へ then 前へ returns to the starting page, unless it was the last |
| MonsterList.CurrentPageShown | src/pages/monster-list.tsx:281-291 | the current page is always one of the numbered buttons |
| PokemonStats.WithTotals | src/pages/pokemon-stats.tsx:20-25 | each row keeps its monster and adds the sum of the six stats |
| PokemonStats.SumOfSix | src/pages/pokemon-stats.tsx:23 | `reduce` over six stats is their sum |
| PokemonStats.Displayed | src/pages/pokemon-stats.tsx:28-84 | the shown rows are a permutation of the matching rows, non-decreasing in the column ascending and non-increasing descending, rows with equal values keeping their original order |
| PokemonStats.DirectionOrder | src/pages/pokemon-stats.tsx:76-80 | what each direction of the comparator means for the column's values |
| PokemonStats.OppositeDirectionsSameRows | src/pages/pokemon-stats.tsx:35-81 | changing only the direction shows the same rows |
| PokemonStats.HandleSort | src/pages/pokemon-stats.tsx:86-93 | clicking selects the column; the same column flips the direction, a new one starts descending |
| PokemonStats.HandleSortTwice | src/pages/pokemon-stats.tsx:86-93 | clicking the sorted column twice restores the sort |
| PokemonStats.NewColumnTwiceIsAscending | src/pages/pokemon-stats.tsx:86-93 | clicking a new column twice sorts it ascending |
| PokemonStats.SortIcon | src/pages/pokemon-stats.tsx:95-98 | `↕️` exactly on an unsorted column, `↑` exactly when ascending, `↓` exactly when descending |
| PokemonStats.IconMatchesOrder | src/pages/pokemon-stats.tsx:35-98 | the arrow on the sorted column matches the order of the rows |
| PokemonStats.Band | src/pages/pokemon-stats.tsx:313-330 | the number of increasing bounds a value reaches |
| PokemonStats.StatColor | src/pages/pokemon-stats.tsx:313-320 | a stat gets the palette entry of its band among 60, 80, 100, 120, 150 |
| PokemonStats.TotalColor | src/pages/pokemon-stats.tsx:323-330 | a total gets the palette entry of its band among 300, 400, 500, 600, 700 |
| PokemonStats.FiveBands | src/pages/pokemon-stats.tsx:313-320 | the band among five bounds, written out |
| PokemonStats.BandMonotone | src/pages/pokemon-stats.tsx:313-330 | a higher value never gets a lower band |
| PokemonStats.BandBounds | src/pages/pokemon-stats.tsx:313-330 | a value reaches every bound below its band and none above, so each value has exactly one band |
| PokemonStats.TypeColor | src/pages/pokemon-stats.tsx:288-310 | a label in the table gets its colour, anything else `#68A090` |
| PokemonStats.ColorsCoverLabels | src/pages/pokemon-stats.tsx:288-310 | the colour table covers exactly the labels the type translation produces |
| PokemonStats.NoColorIsDefault | src/pages/pokemon-stats.tsx:288-310 | no badge colour equals the default |
| PokemonStats.TranslatedTypesAreColored | src/pages/pokemon-stats.tsx:288-310 | every translated type gets its own badge colour, never the default |
| PokemonStats.TypeColorAsWritten | src/pages/pokemon-stats.tsx:309 | the lookup as written agrees with the intended one outside `Object.prototype` names |
| PokemonStats.PrototypeKeyIsNotDefaultColor | src/pages/pokemon-stats.tsx:309 | a type named `constructor` gets a function instead of the default colour |
| RandomApi.Scale | src/pages/api/random-monster-invalid.ts:59 | `Math.floor(d·n)` is the index below `n` whose cell contains `d·n` |
| RandomApi.ScaleReachesEvery | src/pages/api/random-monster-invalid.ts:59 | every index is drawn by some draw |
| RandomApi.RandomId | src/pages/api/random-monster-delay.ts:57 | a drawn ID lies in `1..monster_count` |
| RandomApi.RandomIdCoversRange | src/pages/api/random-monster-delay.ts:57 | every ID in `1..monster_count` can be drawn |
| RandomApi.SomeDrawDiffers | src/pages/api/random-monster-delay.ts:55-58 | with 200 monsters some draw always escapes the previous ID |
| RandomApi.ChooseId | src/pages/api/random-monster-delay.ts:55-58 | the ID chosen is the first draw that differs from `lastId`, and every draw before it repeated `lastId` |
| RandomApi.RandomMonsterDelay | src/pages/api/random-monster-delay.ts:55-78 | the ID is in range and differs from `lastId`, which becomes the ID; 200 with the file exactly when it exists and parses, otherwise 500 with the error body |
| RandomApi.NoImmediateRepeat | src/pages/api/random-monster-delay.ts:55-60 | two consecutive requests never serve the same ID, even when the first read failed |
| RandomApi.FirstRequestTakesFirstDraw | src/pages/api/random-monster-delay.ts:19-58 | the first request accepts its first draw |
| RandomApi.Keys | src/pages/api/random-monster-invalid.ts:62 | `Object.keys` lists each entry's name at the entry's position |
| RandomApi.Values | src/pages/api/random-monster-invalid.ts:58 | `Object.values` lists each entry's payload at the entry's position |
| RandomApi.GetRandomInvalidData | src/pages/api/random-monster-invalid.ts:57-66 | the name and payload returned belong to the same entry of the table |
| RandomApi.EveryPatternReachable | src/pages/api/random-monster-invalid-delay.ts:69-79 | every entry is served for some draw |
| RandomApi.StatusFor | src/pages/api/random-monster-invalid.ts:99-124 | 400 exactly for `MALFORMED`, 422 exactly for `TYPE_MISMATCH`, 200 for everything else |
| RandomApi.InvalidResponse | src/pages/api/random-monster-invalid.ts:126 | the response is some entry's payload with that entry's status |
| RandomApi.RandomMonsterInvalid | src/pages/api/random-monster-invalid.ts:87-126 | the route serves one of its entries with status 200, 400 or 422; 400 exactly when the payload has no `name`, 422 exactly when `name` is a number |
| RandomApi.RandomMonsterInvalidDelay | src/pages/api/random-monster-invalid-delay.ts:100-147 | the same for the delayed route, from its own table |
| RandomApi.ServedStatusReflectsName | src/pages/api/random-monster-invalid.ts:99-126 | whichever table a response is drawn from, its status tells whether `name` is missing or a number |
| RandomApi.TablesShareNames | src/pages/api/random-monster-invalid-delay.ts:11-50 | both routes have the same five pattern names in the same order |
| RandomApi.PatternStatuses | src/pages/api/random-monster-invalid-delay.ts:120-145 | the five entries are served with 200, 200, 200, 422, 400 |
| RandomApi.EntryStatusReflectsName | src/pages/api/random-monster-invalid.ts:9-47 | the same, entry by entry, for both tables |
| RandomApi.FirstIssueAtName | src/schemas/monster.ts:66-73 | when `name` fails, the message reports the first `name` issue |
| RandomApi.FirstIssueAtTypes | src/schemas/monster.ts:66-73 | when `name` passes and `types` is empty, the message reports the length check |
| RandomApi.PatternsFirstIssues | src/pages/api/random-monster-invalid.ts:9-47 | the message each served payload gets, whatever counts as a URL |
| RandomApi.ServedPayloadsAreRejected | src/pages/api/random-monster-invalid.ts:9-47 | no payload either route serves passes `MonsterSchema`, even those sent with 200 |
| Wrappers.MapResult | scripts/monster-all/counter.ts:23-27 | mapping over a list fails at the first element that throws, and otherwise maps every element |

## Left out

- Console logging, `setTimeout` sleeps, spinner delays and `AbortController` timeouts: the model keeps only the delay values the backoff requests.
- `mkdir` as a step of its own (IdDiscovery.RunCounter folds it into the pokemon disk flag; the other scripts assume the directory exists), pretty-printing and the Cache-Control header. Every write is the parsed JSON value it stores.
- Concurrency:
  - the `pLimit(30)` pools of the bulk fetchers;
  - scripts/monster-all/all_fetch.ts and scripts/monster-all-raw/fetch-all-raw.ts;
  - scripts/monster-basic/all-scripts_runnning.ts, whose imported modules are not part of this model.

  Each ID's task is modelled on its own.
- `loadTypeMap` of scripts/translate-type.ts reads data/mapping/type_map.json. Build and the `main` loop take the map as a parameter, and a failed read of that file is not modelled.
- config/endpoint.ts is not part of this model: the endpoints are parameters of `IdDiscovery.RunCounter`.
- `Math.random()` is a stream of draws in [0, 1). `RandomApi.ChooseId` and `RandomApi.RandomMonsterDelay` return `None` when the given draws all repeat the previous ID, and stand for the do-while drawing on.
- RandomApi.RandomMonsterDelay: the 500 body carries the runtime's error message as the parameter `readError`; which message a missing or broken file produces is not modelled.
- The 500 branches of the two invalid-data routes are not modelled, because nothing in their `try` blocks can throw once the table is fixed.
- src/pages/api/random-monster.ts and src/pages/api/random-monster-timeout.ts only read a random file after a delay.
- Presentation components with no statable logic:
  - layout, header, footer, placeholder;
  - the loading, empty and error cards;
  - MonsterList.tsx, ApiTestPanel.tsx and the JSON viewer;
  - the index page and the v1–v4/vt4 random pages;
  - the request lock of monster-random-v1.tsx;
  - trash/.
- Numbers are integers. `Number()` of a string other than a signed decimal integer (decimals, exponents, hex, `Infinity`) is modelled as NaN, and base stats are integers in PokeAPI. An array is converted through its string form only as far as that form is one integer numeral or empty; a one-item array holding a multi-item array prints with a comma and is NaN, as in JavaScript.
- Strings.ToLower: maps only `A`–`Z`. Unicode case mapping of other letters is not modelled.
- Strings are sequences of code points. JavaScript's default sort compares UTF-16 code units, which can differ for characters outside the Basic Multilingual Plane.
- MonsterList.Displayed: the name order `localeCompare` induces is a caller-supplied rank function, so the contract orders names only by that rank; which names tie is up to it.
- Schema.ImageIssues: zod's `.url()` is the parameter `isUrl`, and the exact issue messages of zod are modelled only for the cases the schema produces here.
- The pages' monster record is trusted to have six stats (`JSON.parse(...) as Monster` is unchecked). Files written by scripts/build-monster.ts carry no stats, and what the pages do with them is not modelled.
- Cards.PlainCard: a field of the other kind (an array `name`, a string `types`) is shown by its joined text. React would concatenate an array name without a separator, and `join` on a string throws.
- Cards.Render: the same simplification in the data card. A string `types` is shown as its text, although `monster!.types.join("　")` throws on a string. An array `name` is shown joined by a full-width space, although React concatenates its items with no separator.
- `JSON.parse` failing on a file is the `Unparsable` file state; how the text is parsed is not modelled.
- The `?? fallback` lookups in `translateTypes` over a parsed `type_map.json` share the prototype issue of the findings below. `TypeTranslation.TranslateOne` models the intended own-key lookup.
- TypeTranslation.TranslatePokemonTypes: `translatePokemonTypes` (config/pokemon-type-translations.ts:45) has the same `?? type` lookup as line 55, so `translatePokemonTypes(["toString"])` also yields the inherited function. The model maps each element through the corrected `TranslateSinglePokemonType` (`TypeTranslation.TranslatePokemonTypesPointwise`); the as-written half of that finding is modelled for the single-type function only.

## Findings

| source | as written | input that shows it | evidently intended | confidence | as-written member | corrected member |
|---|---|---|---|---|---|---|
| config/pokemon-type-translations.ts:55 | `pokemonTypeTranslations[t] ?? t` also finds members inherited from `Object.prototype` | `translateSinglePokemonType("toString")` returns the built-in function, not `"toString"` | an unknown type is returned unchanged | not executed | TypeTranslation.TranslateSingleAsWritten (shown by TypeTranslation.PrototypeKeyIsNotUnchanged) | TypeTranslation.TranslateSinglePokemonType |
| src/pages/pokemon-stats.tsx:309 | `typeColors[type] \|\| '#68A090'` also finds members inherited from `Object.prototype` | `getTypeColor("constructor")` returns the `Object` constructor, not `#68A090` | any label outside the table gets the default colour | not executed | PokemonStats.TypeColorAsWritten (shown by PokemonStats.PrototypeKeyIsNotDefaultColor) | PokemonStats.TypeColor |
