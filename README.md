# ICD-10-PCS coding assistant: a Dafny model of the code-suggestion core

This project models the core of an ICD-10-PCS coding assistant in Dafny and proves properties of that model. The assistant reads a clinical note and suggests seven-character procedure codes. It has three groups of parts:

- **Reference-data loaders:**
  - the tables trie built from the PCS tables file (`pcs_tables_engine.py`);
  - the alphabetic index, loaded two ways (`pcs_index.py` and `utils/index_parser.py`);
  - the operation definitions (`pcs_definitions.py`);
  - the definitions store (`utils/definitions.py`).
- **Engines:**
  - the full tables engine (`pcs_tables_engine.py`);
  - the "tables-lite" engine (`utils/tables_engine.py`).
- **Three suggestion pipelines:**
  - `suggest_from_index.py`;
  - `pipeline_suggest.py`;
  - the v1 coder `utils/coder.py`.

## Modules

| file | module | models |
|---|---|---|
| common.dfy | `Common` | Option, `Take`, duplicate removal, stable insertion sort, multiset lemmas |
| text.dfy | `Text` | ASCII case mapping, `strip`, `" ".join`, whitespace `split`, lexicographic order |
| fuzzy.dfy | `Fuzzy` | the fuzzy matcher `process.extract` as an oracle with its documented guarantees |
| index_tree.dfy | `IndexTree` | the parsed alphabetic index, as a tree of letters and terms |
| trie.dfy | `PcsTrie` | `TrieNode`/`TablesTrie` with `add_code`, `walk` and `expand` |
| tables.dfy | `PcsTables` | `TablesEngine.from_bytes` (the row fold) and its queries |
| pcs_index.dfy | `PcsIndex` | `PCSIndex` |
| index_parser.dfy | `IndexParser` | `IndexEntry`, `IndexStore` |
| suggest.dfy | `SuggestFromIndex` | `_ngram_terms`, `suggest_from_index` |
| pipeline.dfy | `PipelineSuggest` | `_extract_terms`, `suggest_codes_from_note` |
| lite_tables.dfy | `LiteTables` | the tables-lite `TablesEngine` |
| coder.dfy | `Coder` | `detect_approach`, `is_biopsy`, `suggest_codes` |
| pcs_definitions.dfy | `PcsDefinitions` | `PCSDefinitions.from_bytes` and `describe_code` |
| definitions.dfy | `Definitions` | `DefinitionsStore.find` |

## Modelling decisions

**Code that updates state in place is imperative.**
- The trie is a class (`PcsTrie.TablesTrie`) with methods that modify it.
- Its nodes live in an arena: a sequence of nodes, with node objects as indices and the root at 0.
- Each node keeps its child characters in insertion order, as the Python dictionary iterates them.
- Ghost fields hold the path of every node, the inserted codes and their prefixes.

**Loops become methods with invariants.**
- Each loop is a method proved against a function of its inputs.
- Examples: the trie `expand` depth-first search, the row fold, the index walks, the scoring loops and the coder's loop over hits.
- The properties the source relies on are lemmas about those functions.

**XML parsing becomes abstract input.**
- The table and definitions loaders receive an event sequence.
- The index loaders receive a tree of terms.

**Numbers and text.**
- Fuzzy scores are integers between the cutoff and 100.
- Floating-point confidences and score sums are integer hundredths. Sums such as `0.7 + 0.2`, which Python rounds below `0.9`, become exact, so a few ties order differently; "## Left out" lists them.
- Case mapping and whitespace are ASCII.

## Model

| member | source | states |
|---|---|---|
| PcsTrie.TablesTrie.constructor | pcs_tables_engine.py:15-17 | A new trie holds no codes and counts one node, the root. |
| PcsTrie.TablesTrie.AddCode | pcs_tables_engine.py:19-26 | The code joins the code set and the trie gains exactly its missing prefixes. The node counter grows by the number of new prefixes. Re-adding a code changes nothing. The trie invariant is kept. |
| PcsTrie.InsertCode | pcs_tables_engine.py:19-26 | On the node arena alone: the trie of the old codes becomes the trie of the old codes plus `code`, grown by exactly the missing prefixes, and unchanged when `code` was already present. |
| PcsTrie.TablesTrie.Walk | pcs_tables_engine.py:28-34 | A node is found exactly when the token is a prefix of an inserted code, and that node spells the token. |
| PcsTrie.TablesTrie.FindSpec | pcs_tables_engine.py:28-34 | The same as `Walk`, for the function `Find` that the specifications use. |
| PcsTrie.TablesTrie.TerminalSpec | pcs_tables_engine.py:26 | A walked node is terminal exactly when its token is an inserted code. |
| PcsTrie.TablesTrie.ChildrenSpec | pcs_tables_engine.py:22-23 | The child characters of a node are exactly those that extend its path to another prefix. |
| PcsTrie.TablesTrie.Expand | pcs_tables_engine.py:36-48 | The result is strictly increasing, has at most `limit` items, and each item is an inserted seven-character code that starts with the prefix. An unknown prefix gives []. When fewer than `limit` codes come back, every matching code is among them. |
| PcsTrie.PopPush | pcs_tables_engine.py:43-47 | One iteration pops the top entry, emits it when it is a terminal seven-character code, and pushes its children in insertion order. |
| PcsTrie.DfsStep | pcs_tables_engine.py:42-47 | One iteration keeps the search invariant and strictly shrinks the set of prefixes still pending. The invariant covers entry shape, emitted codes, entries not being prefixes of each other, and completeness. |
| PcsTables.AxisValues | pcs_tables_engine.py:95-100 | The axis values are exactly the `code` attributes of its labels. Labels without one are skipped. |
| PcsTables.RecordLabelsLastWins | pcs_tables_engine.py:96-103 | Each (position, value) label is the text of the last label with that code and non-empty text. Other positions are untouched. |
| PcsTables.Prefixed | pcs_tables_engine.py:81-82 | One product step yields exactly the concatenations `x + y`. |
| PcsTables.ProductSingleChars | pcs_tables_engine.py:81-82 | With one-character values, a string is a combination of the product exactly when its k-th character is a value of axis k. |
| PcsTables.ProductSound | pcs_tables_engine.py:81-82 | Every combination takes its k-th character from axis k. |
| PcsTables.ProductComplete | pcs_tables_engine.py:81-82 | Every string built from one value per axis is a combination. |
| PcsTables.RowCodes | pcs_tables_engine.py:80-84 | A row missing an axis position contributes nothing, and every contributed code has seven characters. |
| PcsTables.RowCodesSingleChars | pcs_tables_engine.py:80-84 | For single-character axes, a row contributes exactly the seven-character codes whose character p is a value of axis p. |
| PcsTables.StepEffects | pcs_tables_engine.py:72-108 | Only a row's end adds codes, and it adds that row's codes. An axis outside a row changes nothing. An axis inside a row records its values only when it has some. |
| PcsTables.RunCodes | pcs_tables_engine.py:72-108 | Every code in the trie comes from a complete row of the stream. |
| PcsTables.RunCodesComplete | pcs_tables_engine.py:77-84 | Every complete row's codes end up in the trie. |
| PcsTables.RunCodesGrow | pcs_tables_engine.py:72-108 | The code set only grows along the stream. |
| PcsTables.RunCodesSeven | pcs_tables_engine.py:83-84 | Every inserted code has seven characters. |
| PcsTables.ReadAxis | pcs_tables_engine.py:94-105 | The label loop of an axis returns its values and the labels with its texts recorded. |
| PcsTables.AddRow | pcs_tables_engine.py:81-84 | The inner loop adds exactly the seven-character combinations to the trie. |
| PcsTables.FromEvents | pcs_tables_engine.py:56-110 | The engine's trie holds exactly the codes of the row fold, its labels are the fold's labels, and every code has seven characters. Labels reach their axis intact: the clearing at lines 106-108 is modelled by `PcsTables.ClearedLoadsNothing`. |
| PcsTables.FromEventsAsWritten | pcs_tables_engine.py:62 | As written, loading raises `NameError` on every input. |
| PcsTables.AsWrittenNeverLoads | pcs_tables_engine.py:62-67 | No input stream is loaded by the code as written. |
| PcsTables.Cleared | pcs_tables_engine.py:106-108 | An axis end keeps its position and its number of labels, but every label has lost its `code` and text. Other events are unchanged. |
| PcsTables.ClearedLoadsNothing | pcs_tables_engine.py:94-108 | With each label cleared at its own end, before its axis ends, no axis gets values, so no code and no label text is ever recorded. |
| PcsTables.ClearingLosesRow | pcs_tables_engine.py:81-108 | A row end whose axes give a code loads that code from intact labels, and not from cleared ones. |
| PcsTables.TablesEngine.constructor | pcs_tables_engine.py:52-54 | The engine keeps the given trie and labels. |
| PcsTables.TablesEngine.IsValid | pcs_tables_engine.py:112-116 | True exactly when the stripped, upper-cased code has seven characters and is an inserted code. |
| PcsTables.TablesEngine.IsPotentialPrefix | pcs_tables_engine.py:118-121 | True exactly when the normalised token has 1 to 7 characters and is a prefix of an inserted code. |
| PcsTables.TablesEngine.ValidIsPotentialPrefix | pcs_tables_engine.py:112-121 | Every valid code is a potential prefix. |
| PcsTables.TablesEngine.Expand | pcs_tables_engine.py:123-125 | Same as the trie's `expand`, for the normalised prefix. |
| PcsTables.TablesEngine.Label | pcs_tables_engine.py:130-131 | Returns the recorded label, or the value itself when none was recorded. |
| PcsTables.TablesEngine.ExplainParts | pcs_tables_engine.py:137-143 | Part k reads "k+1:c = label" for the code's (k+1)-th character. |
| PcsTables.TablesEngine.Explain | pcs_tables_engine.py:133-144 | An invalid code gives "Not a legal 2025 PCS code.". A valid one gives its seven parts joined by " \| ". |
| PcsTables.TablesEngine.NextChars | pcs_tables_engine.py:148-152 | The options are ascending and distinct, and are exactly the characters that extend the token to a prefix. |
| PcsTables.TablesEngine.NextParts | pcs_tables_engine.py:155 | Part k reads "pos:c=label" for the k-th option. |
| PcsTables.TablesEngine.NearestExplanations | pcs_tables_engine.py:146-156 | An unknown token gives the not-in-tables message. A known token with no one-character extension gives the dead-end message. A known token with extensions has a node, and gives the options at position len+1. |
| PcsIndex.Texts | pcs_index.py:28-31 | Only elements with text are kept, stripped, in order. |
| PcsIndex.AppendTexts | pcs_index.py:28-31 | The loop appends exactly `Texts` of the elements. |
| PcsIndex.Walk | pcs_index.py:20-42 | `walk` appends exactly the items of `Flatten`. |
| PcsIndex.WalkAll | pcs_index.py:41-42 | The child loop appends the children's items in order. |
| PcsIndex.FlattenSpec | pcs_index.py:20-42 | Every titled term yields exactly one item, and every item's titles extend the path it was walked under with non-empty titles. |
| PcsIndex.FlattenAllSpec | pcs_index.py:41-42 | The same for a list of sibling terms. |
| PcsIndex.PreOrder | pcs_index.py:33-42 | A titled term's own item, with deduplicated codes, comes before the items of its sub-terms. |
| PcsIndex.KeysOf | pcs_index.py:12 | Key i is item i's titles joined by " > ". |
| PcsIndex.NewIndex | pcs_index.py:9-12 | The index keeps the items, and `_keys[i]` is item i's joined titles. |
| PcsIndex.FromLetters | pcs_index.py:14-49 | The index holds the items of every main term of every letter, in document order. |
| PcsIndex.FlattenLettersSpec | pcs_index.py:34-47 | Every stored item carries the letter title, at least one non-empty own title, and distinct codes. |
| PcsIndex.HitsFor | pcs_index.py:57-61 | There is one hit per match. |
| PcsIndex.Search | pcs_index.py:51-62 | An empty index or blank query gives []. Otherwise there is one hit per fuzzy match over the keys, in match order. |
| PcsIndex.SearchOf | pcs_index.py:51-62 | What `search` returns: at most `limit` hits. |
| PcsIndex.SearchOfOk | pcs_index.py:51-62 | Every hit is a stored item, with its titles joined by " > " as its path and a score between the cutoff and 100. |
| PcsIndex.SearchEachSpec | pipeline_suggest.py:40-41 | Over several queries there are at most `limit` hits per query, each a stored item within the cutoff. |
| PcsIndex.HitsSpec | pcs_index.py:55-61 | There are at most `limit` hits. Each is a stored item, its `path` is its joined titles, and its score lies between the cutoff and 100. |
| IndexParser.Present | utils/index_parser.py:33-34 | One text per present element: never longer than the input, and as long as it when every element is present. |
| IndexParser.PresentMembers | utils/index_parser.py:33-34 | Every present code text is kept, stripped, duplicates included, and missing ones are dropped. |
| IndexParser.NonEmpty | utils/index_parser.py:37 | The `use` texts kept are exactly the non-empty ones. |
| IndexParser.NonEmptyTexts | utils/index_parser.py:41-45 | The `see` texts kept are exactly the non-empty ones. |
| IndexParser.PathOf | utils/index_parser.py:30 | The joined path has no ' ' or '>' at either end. |
| IndexParser.CollectSpec | utils/index_parser.py:26-52 | There is one entry per titled term. Each has a title and a trimmed path. |
| IndexParser.CollectAllSpec | utils/index_parser.py:51-52 | The same for a list of sibling terms. |
| IndexParser.CollectUnfold | utils/index_parser.py:47-52 | A titled term's entry precedes its children's entries. An untitled term contributes only its children's entries, collected with an empty path segment. |
| IndexParser.UntitledSegment | utils/index_parser.py:29-30 | An untitled middle term leaves the empty segment "A >  > b" in its child's path. |
| IndexParser.CollectInto | utils/index_parser.py:26-52 | `collect` appends exactly the entries of `Collect`. |
| IndexParser.CollectChildren | utils/index_parser.py:51-52 | The child loop appends the children's entries in order. |
| IndexParser.Paths | utils/index_parser.py:19 | `corpus[i]` is entry i's path. |
| IndexParser.NewStore | utils/index_parser.py:16-19 | The store keeps the entries, and the corpus lists their paths. |
| IndexParser.FromLetters | utils/index_parser.py:22-59 | The store holds the entries of every main term of every letter. |
| IndexParser.CollectLettersOk | utils/index_parser.py:47-57 | Every stored entry has a title and a trimmed path. |
| IndexParser.PathMapKeys | utils/index_parser.py:72 | The path map has a key exactly for each entry path. |
| IndexParser.PathMapLast | utils/index_parser.py:72 | A path maps to the last entry with that path. |
| IndexParser.Search | utils/index_parser.py:61-78 | A blank phrase gives []. Otherwise the result is the hits of the fuzzy matches on the corpus, mapped back through the path map. |
| IndexParser.HitsSpec | utils/index_parser.py:72-77 | There is one hit per match. Each carries the matched path and score, and the last entry with that path. |
| SuggestFromIndex.Tokens | suggest_from_index.py:12 | The tokens are non-empty runs of ASCII letters and digits. |
| SuggestFromIndex.KGrams | suggest_from_index.py:15-16 | There are len-k+1 grams (0 when too few tokens), and gram i joins tokens i..i+k-1 with spaces. |
| SuggestFromIndex.GramsSpec | suggest_from_index.py:14-16 | A string is a gram exactly when it is k consecutive tokens joined by spaces, for a requested k. |
| SuggestFromIndex.GramsInto | suggest_from_index.py:15-16 | The inner loop appends exactly the k-grams. |
| SuggestFromIndex.NgramTerms | suggest_from_index.py:11-22 | The result is the first 500 of the distinct grams, in first-occurrence order. |
| SuggestFromIndex.NgramTermsSpec | suggest_from_index.py:17-22 | There are at most 500 distinct terms, each a gram of the note. |
| SuggestFromIndex.RawOfToks | suggest_from_index.py:37-39 | Every raw entry matches `CODE_RE`, is one of the split pieces, and carries the hit's path and score. |
| SuggestFromIndex.RawOfCodes | suggest_from_index.py:35-39 | The same over all code strings of a hit. |
| SuggestFromIndex.RawOf | suggest_from_index.py:33-39 | Every raw entry matches `CODE_RE` and carries the score of some hit. |
| SuggestFromIndex.TokensInto | suggest_from_index.py:37-39 | The token loop appends exactly `RawOfToks`. |
| SuggestFromIndex.CodesInto | suggest_from_index.py:35-39 | The code loop appends exactly `RawOfCodes`. |
| SuggestFromIndex.CollectRaw | suggest_from_index.py:33-39 | The nested loops build exactly `RawOf`. |
| SuggestFromIndex.BumpOk | suggest_from_index.py:45 | `max(scored.get(c, 0), v)` keeps the dictionary well formed. |
| SuggestFromIndex.FoldSpec | suggest_from_index.py:42-49 | The keys are exactly the codes contributed. Each value is at least every contribution to its code, and is one of them (or 0). |
| SuggestFromIndex.RankLeIsTotalPreorder | suggest_from_index.py:52 | The key (-score, code) is a total preorder. |
| SuggestFromIndex.Items | suggest_from_index.py:52 | `scored.items()` lists every key in insertion order with its value. |
| SuggestFromIndex.Firsts | suggest_from_index.py:53 | Takes the codes of the pairs, in order. |
| SuggestFromIndex.SortedItems | suggest_from_index.py:52 | The sorted items are a permutation of the items, in key order. |
| SuggestFromIndex.RankedNoDup | suggest_from_index.py:52-53 | No code appears twice in the ranking. |
| SuggestFromIndex.RankedKeys | suggest_from_index.py:52-53 | The ranking holds exactly the scored codes. |
| SuggestFromIndex.RankedAll | suggest_from_index.py:52-53 | The ranking lists every scored code once, best first. |
| SuggestFromIndex.RankSpec | suggest_from_index.py:51-53 | The result has no duplicates and only scored codes, best first. It holds min(max_codes, #codes) of them, and every code left out ranks after every code kept. |
| SuggestFromIndex.ValidToken | suggest_from_index.py:44 | True exactly for a seven-character code of the tables. |
| SuggestFromIndex.ExpandToken | suggest_from_index.py:47 | The result is what `expand(tok, limit=80)` returns. It holds at most 80 strictly increasing seven-character table codes that extend the token, and all of them when fewer than 80 come back. |
| SuggestFromIndex.BumpAll | suggest_from_index.py:48-49 | Every expansion is recorded with the entry's score. |
| SuggestFromIndex.ScoreOne | suggest_from_index.py:42-48 | The dict after one raw entry is the fold of the log plus that entry's contributions. An exact valid token contributes score + 20. Otherwise each expansion of a 3-6 character token contributes the score, the expansions being what `expand(tok, limit=80)` returns. |
| SuggestFromIndex.ScoreRaw | suggest_from_index.py:41-48 | The loop's dict is the fold of every entry's contributions, in order, for expansions `expand` returns. |
| SuggestFromIndex.ScoredOf | suggest_from_index.py:41-48 | The folded dict is well formed: one value per code, in insertion order. |
| SuggestFromIndex.LogOfSound | suggest_from_index.py:42-48 | Every contribution is to a seven-character code of the tables, justified by a raw entry: its exact token at score + 20, or an expansion of it at the score. |
| SuggestFromIndex.LogOfHas | suggest_from_index.py:42-48 | Every contribution of one raw entry is in the log. |
| SuggestFromIndex.LogOfExact | suggest_from_index.py:43-44 | An exact seven-character token of the tables contributes score + 20. |
| SuggestFromIndex.LogOfExpanded | suggest_from_index.py:45-48 | Each expansion of a 3-6 character token contributes at the entry's score. When fewer than 80 come back, every seven-character table code extending the token does. |
| SuggestFromIndex.SearchAll | suggest_from_index.py:26-30 | The hits are those of the note's search, then those of the searches of its first 50 grams with limit 5, in order. |
| SuggestFromIndex.SearchAllSpec | suggest_from_index.py:26-30 | There are at most topk_hits + 250 hits, each a stored item scored 70 to 100. |
| SuggestFromIndex.Suggest | suggest_from_index.py:24-53 | The result is the ranking of the dict folded from the raw tokens of all the searches' hits: best score first, then code, at most `max_codes`. The suggestions are distinct seven-character codes of the tables. |
| PipelineSuggest.Blank | pipeline_suggest.py:11 | Characters other than `[A-Za-z0-9\-/\s]` become spaces. The length is unchanged. |
| PipelineSuggest.CleanSpec | pipeline_suggest.py:11-12 | The cleaned text has only word characters and single inner spaces. |
| PipelineSuggest.Chunks | pipeline_suggest.py:16 | `re.split` always yields at least one piece. |
| PipelineSuggest.ChunksNoSep | pipeline_suggest.py:16 | A text without '.', ';' or newline is one chunk. |
| PipelineSuggest.CleanOneChunk | pipeline_suggest.py:12-17 | After cleaning, the text is one chunk and already stripped. |
| PipelineSuggest.KeepOf | pipeline_suggest.py:16-24 | At most one kept term per chunk. |
| PipelineSuggest.ExtractTerms | pipeline_suggest.py:10-32 | The loops compute `Terms`. |
| PipelineSuggest.TermsSpec | pipeline_suggest.py:10-32 | There are one or two distinct terms, and the first 4000 characters of the cleaned text are among them. The cleaned text is itself a term exactly when it is relevant. |
| PipelineSuggest.CodeCharsOf | pipeline_suggest.py:46 | Keeps only characters of `[0-9A-Z]`. |
| PipelineSuggest.CodeCharsOfCode | pipeline_suggest.py:46 | A string of code characters is kept whole. |
| PipelineSuggest.TokenOfCode | pipeline_suggest.py:46 | A piece of code characters is its own token. |
| PipelineSuggest.StemsOfPieces | pipeline_suggest.py:45-48 | Every stem has 1 to 7 code characters. |
| PipelineSuggest.StemsOfCodes | pipeline_suggest.py:44-48 | The same for all code strings of a hit. |
| PipelineSuggest.StemsOf | pipeline_suggest.py:40-48 | The same for all hits. |
| PipelineSuggest.PiecesInto | pipeline_suggest.py:45-48 | The piece loop adds exactly the stems of the pieces. |
| PipelineSuggest.CollectStems | pipeline_suggest.py:39-48 | The nested loops collect exactly `StemsOf(hits)`. |
| PipelineSuggest.ValidStem | pipeline_suggest.py:52 | True exactly for a seven-character stem in the tables. |
| PipelineSuggest.AddExpansions | pipeline_suggest.py:56-58 | `exp` is what `expand(s, limit=500)` returns. The codes added are exactly the expansions `is_valid` accepts, each once, and the earlier codes are kept. |
| PipelineSuggest.ValidStemAccepted | pipeline_suggest.py:52 | A seven-character stem of code characters that the tables hold passes `is_valid`. |
| PipelineSuggest.FinalizeStem | pipeline_suggest.py:51-58 | The codes stay distinct, accepted by `is_valid` and in the tables. A seven-character stem of the tables is added. For a shorter stem, every expansion `is_valid` accepts is added. Every new code is the seven-character stem itself or an element of what `expand` returned. |
| PipelineSuggest.Finalize | pipeline_suggest.py:50-58 | The result is distinct codes accepted by `is_valid`. A seven-character stem is in it exactly when the tables hold it. For each shorter stem, every expansion `is_valid` accepts is in it. Every code is a seven-character stem or in `exps[s]`, the expansion of a shorter stem `s`. |
| PipelineSuggest.SourcedFromStem | pipeline_suggest.py:50-58 | A code so obtained extends one of the stems. |
| PipelineSuggest.SearchTerms | pipeline_suggest.py:40-41 | The hits are those of the search of each term with limit `topk`, concatenated in term order. |
| PipelineSuggest.Suggest | pipeline_suggest.py:34-60 | No engine or index gives []. Otherwise the hits are the searches of `Terms(text)`. The result is strictly increasing and accepted by `is_valid`. It holds a seven-character stem of the hits exactly when the tables hold it, and every accepted expansion of each shorter stem. Every code is a seven-character stem or in the expansion `exps[s]` of a shorter stem `s`. |
| PipelineSuggest.SuggestAsWritten | pipeline_suggest.py:34-48 | For the hits of the searches of `Terms(text)`, the first hit with any code raises `AttributeError`. Otherwise the result is []. |
| PipelineSuggest.SplitsList | pipeline_suggest.py:42-44 | True exactly when some hit carries a non-empty list of codes. |
| PipelineSuggest.AsWrittenCrashExample | pipeline_suggest.py:44 | A hit with code "0JH" makes the code as written raise, while the corrected split finds stem "0JH". |
| LiteTables.NoneEngine | utils/tables_engine.py:14-16 | The empty engine: no tables, empty metadata. |
| LiteTables.FromBytes | utils/tables_engine.py:18-28 | Tables are present exactly for non-empty, parseable bytes. The version falls back to "unknown". Otherwise the result is the empty engine. |
| LiteTables.IsValid | utils/tables_engine.py:30-38 | Never accepts a code. |
| LiteTables.BodyPartsSpelled | utils/tables_engine.py:46 | The body-part characters are "A".."Z" then "0".."9". |
| LiteTables.Grid3 | utils/tables_engine.py:45-51 | Completion i uses body part i / 4 and approach i % 4. |
| LiteTables.Grid4 | utils/tables_engine.py:52-57 | Completion i uses approach i. |
| LiteTables.CompletionFormat | utils/tables_engine.py:49 | A completion matches `^[0-9A-Z]{7}$` exactly when the prefix is made of code characters. |
| LiteTables.Expand3 | utils/tables_engine.py:45-51 | The nested loops give the 144-cell grid, or [] when the prefix has a non-code character. |
| LiteTables.Expand4 | utils/tables_engine.py:52-57 | The loop gives the four approach completions, or []. |
| LiteTables.ExpandFromPrefix | utils/tables_engine.py:40-58 | Computes `Defaults` of the normalised prefix. |
| LiteTables.GridPairs | utils/tables_engine.py:46-47 | Distinct grid cells differ in body part or approach. |
| LiteTables.Grid3Spec | utils/tables_engine.py:45-51 | The 144 completions are distinct and each is a completion of the prefix. |
| LiteTables.Grid4Spec | utils/tables_engine.py:52-57 | The 4 completions are distinct and each is a completion of the prefix. |
| LiteTables.DefaultsSpec | utils/tables_engine.py:40-58 | The completions are distinct, well formed, start with the prefix and end in "ZZ". There are 144, 4 or 0 of them. |
| Coder.FirstHint | utils/coder.py:22-25 | The result is "" or the value of some hint. |
| Coder.FirstHintSpec | utils/coder.py:20-25 | The result is "" exactly when no hint key occurs. Otherwise it is the value of the first key that occurs. |
| Coder.PercutaneousEndoscopicGivesThree | utils/coder.py:10-25 | A note with "percutaneous endoscopic" and without "open" gives "3", never "4", because "percutaneous" comes first. |
| Coder.AnyInSpec | utils/coder.py:29 | `any` is true exactly when some word occurs. |
| Coder.IsBiopsySpec | utils/coder.py:27-29 | True exactly when a biopsy word occurs in the lower-cased note. |
| Coder.PhrasesSpec | utils/coder.py:36 | Every phrase has at least four characters, starts with a letter, and uses only letters, ' ', '-', '/'. |
| Coder.Rewrite | utils/coder.py:54-56 | Under biopsy, a trailing "Z" becomes "X". Everything else is unchanged. |
| Coder.WithApproach | utils/coder.py:74 | Keeps exactly the seven-character completions with the approach character. |
| Coder.ApproachFilter | utils/coder.py:73-74 | Keeps a subset, empty only when the input is empty. It is filtered by the approach whenever some completion has it. |
| Coder.InvFacts | utils/coder.py:45-64 | `seen` is exactly the suggested codes, and no suggestion is validated. |
| Coder.DirectOne | utils/coder.py:49-64 | An unseen seven-character code appends exactly one suggestion for this hit: the code rewritten under biopsy, at min(99, score), and adds it to `seen`. A seen or shorter code changes nothing (`AfterDirect`). The loop invariant is kept. |
| Coder.AddCompletion | utils/coder.py:77-85 | An unseen completion appends exactly one suggestion at min(85, score-5) and joins `seen`. A seen one changes nothing (`AfterCompletion`). The loop invariant is kept. |
| Coder.AddCompletions | utils/coder.py:76-85 | The first five completions, in order, each appended when unseen (`AfterCompletions`). All of them are suggested afterwards. |
| Coder.PartialOne | utils/coder.py:67-85 | A seen code changes nothing. An unseen code of three or four characters runs the completion loop over its first five approach-filtered defaults (`AfterPartial`). Afterwards the code was already suggested, or each of those completions is. |
| Coder.DirectLoop | utils/coder.py:49-64 | The first inner loop over one hit's codes computes `AfterDirects`, and every full code of the hit is handled. |
| Coder.PartialLoop | utils/coder.py:67-85 | The second inner loop over one hit's codes computes `AfterPartials`, and every code of the hit is handled. |
| Coder.OneHit | utils/coder.py:47-85 | The new list and `seen` are `AfterHit` of the old ones: the first inner loop, then the second. Every full and partial code of the hit is handled. |
| Coder.NormCodes | utils/coder.py:50 | Each code of an entry is stripped and upper-cased, in order. |
| Coder.SuggestionLeIsTotalPreorder | utils/coder.py:88 | The key (-confidence, code) is a total preorder. |
| Coder.RankedSpec | utils/coder.py:88-89 | At most 30, sorted, drawn from the list, and all of them when there are at most 30. |
| Coder.SuggestCodes | utils/coder.py:31-89 | No store gives []. Otherwise the hits are the search of `Query(text)` with top-k 30 and cutoff 72. The unsorted list is exactly `AllOf` of the hits: the loop over hits in order, where the first hit to yield a code sets its suggestion. The result is its first 30 in key order. Every suggestion is justified by a hit and `validated` is false. |
| Coder.HitsLoop | utils/coder.py:44-85 | The loop over the hits computes `AllOf`; `seen` is exactly the suggested codes, every suggestion is justified by a hit, and every code of every hit is handled. |
| Coder.AllOfDistinct | utils/coder.py:45-85 | Without the biopsy rewrite, no code is suggested twice. |
| Coder.FirstHitWins | utils/coder.py:47-64 | Two hits with the same full code, scored 95 then 75: only the first is suggested, at 95. |
| Coder.BiopsyRepeats | utils/coder.py:49-64 | Under a biopsy, a code listed twice is suggested twice, rewritten, because `seen` receives the rewritten code. |
| Coder.BiopsyDirects | utils/coder.py:49-64 | The first inner loop of that example: both copies pass the `seen` check. |
| Coder.PartialSpec | utils/coder.py:71-85 | A completion has seven characters, starts with the partial code and ends in "ZZ". Its confidence is min(85, score-5). It has the detected approach whenever a default does. |
| Coder.DirectSpec | utils/coder.py:50-63 | A direct suggestion keeps the first six characters, with confidence at most 99. The qualifier "Z" becomes "X" under biopsy, and nothing else changes. |
| PcsDefinitions.FromEventsAsWritten | pcs_definitions.py:13-32 | As written, the loop computes `RunAsWritten`. |
| PcsDefinitions.AsWrittenPos | pcs_definitions.py:19-25 | After any number of events, `current_pos` is the position of the last axis that ended. |
| PcsDefinitions.StoredStep | pcs_definitions.py:26-30 | An event is stored exactly when the axis that ended before it had position 3; a stored label sets its code's text, any other event leaves that code's presence and text alone. |
| PcsDefinitions.KeysTo | pcs_definitions.py:19-30 | After the first k events, a code is a key exactly when one of them stored it. |
| PcsDefinitions.LastWinsTo | pcs_definitions.py:26-30 | After the first k events, a code maps to the text of the last of them that stored it. |
| PcsDefinitions.AsWrittenKeys | pcs_definitions.py:26-30 | A code is a key exactly when some label is stored under it. |
| PcsDefinitions.AsWrittenLastWins | pcs_definitions.py:26-30 | The last stored label for a code gives its text. |
| PcsDefinitions.OperationLabelMissed | pcs_definitions.py:19-30 | A position-3 axis with its label: as written, nothing is stored; the corrected loop stores the label. |
| PcsDefinitions.NextAxisLabelTaken | pcs_definitions.py:19-30 | As written, a label of the axis after a position-3 axis is stored; the corrected loop stores nothing. |
| PcsDefinitions.AxisFrom | pcs_definitions.py:21-25 | Finds the first axis end at or after an event. |
| PcsDefinitions.FromEvents | pcs_definitions.py:13-32 | The corrected loop computes `Run`, attributing each label to its enclosing axis. |
| PcsDefinitions.RecordPending | pcs_definitions.py:29-30 | Stores pending labels in order, the later one winning. |
| PcsDefinitions.RecordAllKeys | pcs_definitions.py:29-30 | Recording adds exactly the pending codes. |
| PcsDefinitions.RunPendingLabels | pcs_definitions.py:26-30 | The labels held back are among those with no axis end after them yet; `RunPendingComplete` gives the converse. |
| PcsDefinitions.RunStored | pcs_definitions.py:26-30 | Every stored code comes from a label enclosed by an axis with position 3. |
| PcsDefinitions.RunStoredComplete | pcs_definitions.py:26-30 | Every label whose enclosing axis has position 3 is stored: the converse of `RunStored`. |
| PcsDefinitions.RunPendingComplete | pcs_definitions.py:19-30 | Every label with no axis end after it is still pending. |
| PcsDefinitions.DescribeCode | pcs_definitions.py:34-52 | The result is "Needs 7 characters." exactly when the normalised code does not have seven characters. |
| PcsDefinitions.LineSpec | pcs_definitions.py:40-51 | Each line names the axis, the character and the engine label. Only the operation line adds a definition, exactly when one exists and differs. |
| Definitions.FirstCaseless | utils/definitions.py:38-40 | Finds the first key that equals the query ignoring case. |
| Definitions.FindSpec | utils/definitions.py:33-41 | An exact key wins. Otherwise the first key equal ignoring case gives the answer. The result is None exactly when no key matches. |
| Definitions.FindSound | utils/definitions.py:33-41 | Any answer is the definition of a key equal to the query ignoring case. |
| Definitions.FindCaseInsensitive | utils/definitions.py:38-40 | Whether a definition is found does not depend on the query's case. Without exact keys, the answer does not either. |

## Left out

- XML parsing, `io`, lxml's `iterparse`, `findall` and `xpath` are replaced by abstract event streams and term trees. The tables loader's `el.clear()` on every end event is not part of `PcsTables.FromEvents`; its effect is modelled apart, under "## Findings". Namespace stripping (`tag.split('}')[-1]`) is taken as already done. `int(el.get("pos"))` is given as an optional integer.
- `rapidfuzz` scoring is an oracle: the model assumes only its documented result shape, not the `token_set_ratio` values.
- Document order of `.//code` searches is taken as a term's own elements first, then its sub-terms.
- Floating-point confidences are integer hundredths.
- SuggestFromIndex.Suggest: an exact code scores `score/100.0 + 0.2` in the source, which for scores 70 to 73 falls just below the expansion score 0.90 to 0.93 (`0.7 + 0.2 < 0.9` in floating point). The model ties them at 90 to 93 and orders the tie by code, so such a pair can come out in the other order.
- Coder.SuggestCodes: a completion's confidence `min(0.85, score/100.0 - 0.05)` can fall just below a hundredth (a score of 85 gives `0.7999…`, not `0.80`). The model ties it with a direct code at 80 and orders the tie by code.
- IndexParser.Search: `IndexStore.search` passes the fuzzy score through unrounded (utils/index_parser.py:74-77), unlike `PCSIndex.search`, which takes `int(score)` (pcs_index.py:60). The model's scores are integers, so the coder's confidences and its "score" text are those of the integer part.
- IndexParser.PathOf: a `title` element with no text is modelled as an empty title. The source then joins `None` into the path (utils/index_parser.py:28-30) and raises `TypeError`; the model does not model that failure.
- Unicode case mapping and whitespace are reduced to ASCII.
- `TablesEngine.stats` is not modelled; the node counter it reports is modelled as `nodes`.
- `DefinitionsStore.from_bytes` (XPath harvest) and the version lookup of `utils/tables_engine.from_bytes` are not modelled; the parse result is an input.
- PcsTrie.TablesTrie.Expand: completeness is stated only when fewer than `limit` codes return. With more matches, which codes make the cut depends on stack order; only the bound and soundness are stated.
- SuggestFromIndex.ExpandToken, PipelineSuggest.AddExpansions: when `expand` hits its limit, which codes make the cut depends on the trie's stack order; only the bound and soundness are stated for that case.
- A direct suggestion of `suggest_codes` is checked against `seen` before the biopsy rewrite, while `seen` receives the rewritten code. Under a biopsy a code listed twice is therefore suggested twice (`Coder.BiopsyRepeats`). The model keeps this behaviour; distinctness is proved only without the rewrite (`Coder.AllOfDistinct`).
- Coder.SuggestCodes: `validated` is false for every suggestion, because the tables-lite `is_valid` never accepts (also for the rewritten code).
- `defs_store` is passed to `suggest_codes` but never used, so the model omits it.
- `_ngram_terms` is modelled for positive gram sizes, the ones the callers pass.
- The `path` of a `suggest_from_index` raw entry is carried but never used for scoring.
- The shadowing of "percutaneous endoscopic" by "percutaneous" is stated as a property (`Coder.PercutaneousEndoscopicGivesThree`), not changed.
- `PcsTables.FromEvents` models the loader as evidently intended: with the `io` import in place and with each label's `code` and text still present when its axis ends. The code as written is modelled separately for both defects (see "## Findings").
- Streamlit and CLI front ends, the Gemini client, and text extraction are not part of this model.

## Findings

| source | as written | input that shows it | evidently intended | confidence | as-written member | corrected member |
|---|---|---|---|---|---|---|
| pipeline_suggest.py:44 | `(h.get("codes") or "").split()` calls `split` on the list of codes | one hit with codes `["0JH"]` raises `AttributeError` | split each code string on whitespace | not executed | PipelineSuggest.SuggestAsWritten, PipelineSuggest.AsWrittenCrashExample | PipelineSuggest.Suggest |
| pcs_definitions.py:19-30 | with end-events, a label ends before its enclosing axis, so it is judged by the previous axis's `pos` | `label B "Excision"` then `axis pos=3` stores nothing; `axis pos=3`, `label 0 "Brain"`, `axis pos=4` stores "Brain" as an operation | store the labels of the axis with `pos` 3 | not executed | PcsDefinitions.FromEventsAsWritten, PcsDefinitions.OperationLabelMissed | PcsDefinitions.FromEvents |
| pcs_tables_engine.py:106-108 | `el.clear()` runs on every end event, and a `label` ends before its enclosing `axis`, so the axis branch finds only labels with no `code` | any stream, e.g. `label code="0"`, `axis pos=1`, …, `row` end: no axis gets values and no code loads, even with `io` imported | read each axis's labels before clearing them | not executed | PcsTables.ClearedLoadsNothing, PcsTables.ClearingLosesRow | PcsTables.FromEvents |
| pcs_tables_engine.py:62 | `io.BytesIO` is used but `io` is never imported (only `io as _io` later) | any input raises `NameError` | parse the stream once with an imported `io` | not executed | PcsTables.FromEventsAsWritten, PcsTables.AsWrittenNeverLoads | PcsTables.FromEvents |
