# prefetch-chunk-plugin, modelled in Dafny

The plugin hooks the bundler's `requireExtensions` extension point. The callback
runs once for each chunk that is being finalised. It receives the bootstrap
source generated so far. It appends a definition of `<requireFn>.pfc(chunkId)`, a
runtime function that application code calls to prefetch a chunk by id or by
name.

The model has three parts:

- `NameMap` (`name_map.dfy`) models the single pass over the host's id -> name
  pairs. That pass builds the inverted name -> id table, where the last write
  wins. It also raises the `needsMap` flag when some id differs from its name.
  The table is also given as the ordered list of entries the loop creates:
  one per name, at the place of its first write, holding its last id.
  The host's map is a sequence of `(id, name)` pairs in `for ... in` order, so
  that the tie-break between ids that share a name is visible.
- `Runtime` (`runtime.dfy`) models what the emitted function does in the browser.
  It resolves the argument through the embedded table, if the fragment has one.
  When the `installedChunks` table has no entry for the resolved id, it sets the
  entry to pending (`null`) and emits one prefetch link. An emitted link is
  recorded by appending the resolved id to a log.
- `Fragment` (`fragment.dfy`) models the text the callback returns, as a list of
  lines. Each line carries a depth tag for its indentation. A `Parse` function
  reads a fragment back into its varying pieces. Emitting and parsing are proved
  inverse in both directions.

`Options` (`options.dfy`) holds the usual `Option` type.

## Model

| member | source | states |
|---|---|---|
| NameMap.Invert | index.js:10-14 | the keys of the inverted table are exactly the names in the input; each name maps to the id of the last entry that carries it; every value is an id that carried that name |
| NameMap.NeedsMap | index.js:11-17 | the flag is true exactly when some entry's id differs from its name |
| NameMap.BuildNameIdMap | index.js:9-18 | the source's single loop computes exactly the inverted table and the flag |
| NameMap.EmptyInput | index.js:10-18 | an empty input gives an empty table and no translation |
| NameMap.LastWriteWins | index.js:12-14 | when an earlier entry shares a name with the last entry carrying it and has a different id, the table holds the later id and not the earlier one |
| NameMap.FirstWriteOrder | index.js:12-14 | lists every input name exactly once, and each name before every name whose first write came later |
| NameMap.TableEntries | index.js:10-14 | the ordered entries of the table object: each name of the inverted table exactly once, with its last-written id, in the order the names were first written |
| NameMap.FirstWriteOrderOfTwo | index.js:12-14 | two entries with distinct names create their names in input order |
| NameMap.TableEntriesInInputOrder | index.js:12-14 | `[("a","x"), ("b","y")]` gives the entries `[("x","a"), ("y","b")]` |
| NameMap.TableEntriesInReversedOrder | index.js:12-14 | `[("b","y"), ("a","x")]` gives the entries `[("y","b"), ("x","a")]`, so the order of the entries follows the input, not the table alone |
| NameMap.FirstWriteOrderRewrittenName | index.js:12-14 | with `[("1","x"), ("2","y"), ("3","x")]` the names are created in the order `x`, `y` |
| NameMap.TableEntriesRewrittenName | index.js:12-14 | with `[("1","x"), ("2","y"), ("3","x")]` the entries are `[("x","3"), ("y","2")]`, so a rewritten name keeps its first place but takes the later id |
| NameMap.InvertIsInverse | index.js:12-14 | when the names are distinct, every entry's name maps back to that entry's id |
| NameMap.NoMismatchMeansIdentity | index.js:11-17 | when every id equals its name, the flag stays false and the table maps each name to itself |
| Runtime.Plan | index.js:24-25 | the emitted function carries a table exactly when some id differs from its name, and that table's keys are the input names |
| Runtime.PlannedTableIsSerialised | index.js:24-25 | the table the emitted function looks names up in is exactly the table whose ordered entries the translation statement serialises |
| Runtime.Resolve | index.js:25 | the argument changes only when it is a key of the emitted table, and then it becomes one of the table's ids; its full meaning in terms of the input is stated by `Runtime.ResolveMeaning` |
| Runtime.ResolveMeaning | index.js:25 | whether or not a table was emitted, an argument that is an input name resolves to the id of the last entry carrying it, and any other argument passes through unchanged |
| Runtime.PrefetchChunk | index.js:27-31 | a call for an id with no entry sets it to pending and logs one link; a call for an id with an entry changes nothing; entries for other ids keep their presence and value |
| Runtime.PrefetchIdempotent | index.js:27-31 | a second call with the same argument changes nothing and emits nothing |
| Runtime.PrefetchAll | index.js:25-31 | repeated calls only add table entries and links: earlier entries stay and the earlier log is a prefix of the new one; `Runtime.PrefetchAllTable` and `Runtime.PrefetchAllOncePerChunk` state what is added |
| Runtime.PrefetchKeepsConsistent | index.js:27-31 | one call keeps the log free of duplicates and every logged id in the table |
| Runtime.PrefetchAllKeepsConsistent | index.js:27-31 | any run of calls keeps the log free of duplicates and every logged id in the table |
| Runtime.RequestedCons | index.js:25 | the ids a run of calls resolves to are those of its first call plus those of the rest |
| Runtime.PrefetchAllTable | index.js:27-29 | a run of calls adds exactly the requested ids to the table, each added entry holds pending (`null`), and earlier entries' values are left alone |
| Runtime.PrefetchAllOncePerChunk | index.js:27-31 | a run of calls emits exactly one link for each requested id that had no entry at the start, and no link for any other id |
| Runtime.FreshRunOncePerChunk | index.js:25-31 | from a page with no entries, a run emits one link per distinct requested chunk, and the table then holds exactly those chunks, each marked pending |
| Runtime.NamedChunkScenario | index.js:9-31 | with `{"1": "1", "2": "app"}` the table is `{"1": "1", "app": "2"}`, and a call with `"app"` marks chunk `"2"` and emits one link for it |
| Runtime.UnnamedChunkScenario | index.js:9-25 | with `{"1": "1"}` no table is emitted and the argument is used directly as the chunk id |
| Runtime.NameOrIdScenario | index.js:12-25 | with `{"a": "x", "b": "y"}`, `"x"` resolves to `"a"`, `"y"` to `"b"`, and `"a"` passes through unchanged |
| Fragment.StripAffixes | index.js:23-25 | the middle it extracts, put back between the prefix and the suffix, gives the original line |
| Fragment.StripAffixesOfJoin | index.js:23-25 | a line built as prefix + middle + suffix gives back exactly that middle |
| Fragment.Emit | index.js:19-36 | the layout has ten lines, or eleven with the translation statement; it starts with the source and ends with `};`, and the link snippet is one of its lines; `Fragment.ParseEmit` and `Fragment.EmitParse` prove it can be read back |
| Fragment.ParseEmit | index.js:19-36 | reading back an emitted fragment recovers the source, the require function's name, the table text and the link snippet |
| Fragment.EmitParse | index.js:19-36 | every fragment that reads back is exactly what its pieces emit, so the layout is unambiguous |
| Fragment.RequireExtensions | index.js:8-36 | the fragment starts with the incoming source unchanged, then a blank line, the plugin header and the `pfc` definition line; it ends with `};`; when a table is needed the translation line comes right before the guard and holds the serialisation of the table's entries in creation order; otherwise the guard comes first |
| Fragment.TranslationIffNeedsMap | index.js:24-27 | the fragment has a translation line exactly when some id differs from its name |

## Left out

- Plugin registration, `apply` and the two `tap` calls (index.js:5-8, 40-42) are host wiring. The model starts at the callback's arguments.
- `chunk.getChunkMaps().name` (index.js:9) is a host call. Its result is the input sequence of pairs, in the host's iteration order. The model does not restate JavaScript's key-ordering rule for integer-like keys. The input order is taken as given.
- `JSON.stringify` (index.js:25) is the function parameter `stringify`. Its exact text is library behaviour.
- Fragment.RequireExtensions: `stringify` receives the table's entries in property-creation order. JavaScript prints integer-like keys first, in ascending order, and then the other keys in creation order. That reordering is left to `stringify`, which has all it needs to do it.
- `Template.asString` and `Template.indent` (index.js:19, 24, 28) become depth tags on lines. The model does not produce tab characters or newline-joined text.
- The `linkPrefetch` hook's snippet (index.js:30) is an opaque string. At runtime, the snippet plus `document.head.appendChild(link)` (index.js:31) becomes one logged link event. The DOM and the network prefetch itself are not modelled.
- Runtime.PrefetchChunk: a call that passes the guard is taken to emit exactly one link. index.js declares no `link` variable, so `document.head.appendChild(link)` (index.js:31) works only when the host's snippet (index.js:30) declares `link` and does not throw. With a snippet that does neither, the emitted code writes `null` (index.js:29) and then throws without adding a link. The one-link-per-chunk results (`Runtime.PrefetchAllOncePerChunk`, `Runtime.FreshRunOncePerChunk`) rest on this assumption.
- NameMap.Invert: `nameIdMap` is an ordinary object literal (index.js:10). For a chunk named `__proto__`, the write at index.js:14 goes to the prototype setter and adds no key. The model treats every name as an ordinary key, so "the keys are exactly the input names" is not true of the program for that name.
- Runtime.Resolve: ids and names are strings, and the lookup is "the table's value if the argument is a key, else the argument". The model does not cover JavaScript's `||` falling back when the table maps a name to a falsy id such as `""`. It also does not cover number/string key coercion or inherited object keys such as `__proto__`.
- The host's later transitions of an entry, from pending to installed, belong to the host's own loader. `InstallState.Installed` exists only so that states holding such entries can be expressed.
- A name of one chunk that equals the id of a different chunk is resolved as a name, because the translation runs first. That is the source's behaviour, and the model keeps it.
