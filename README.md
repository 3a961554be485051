# minecraft_translator, modelled in Dafny

This project models minecraft_translator, a tool that machine-translates a
Minecraft modpack's English texts into another language, normally Russian
(`ru_ru`). It covers the translation engine and every file processor it
drives:

- **The engine** is the `Translator` class. It serves single strings through
  a translation cache and a chat-completion provider. It also translates
  lists of strings: duplicates are removed, the rest is cut into batches,
  a failed batch falls back to one request per string, and in strict mode
  an answer whose placeholders differ from the source is rejected.
- **The cache** maps each source string to its translation. It is loaded
  from disk once and written back after updates.
- **The processors** work on one file format each:
  - Minecraft lang dictionaries (`en_us.json`);
  - generic JSON documents, such as Patchouli books and tips;
  - FTB Quests `.snbt` files, in a regex form and in two structured NBT forms;
  - KubeJS scripts;
  - lang files inside mod jars.
- **The drivers** are the two whole-pack tools. The mirroring walk writes
  translated copies of a pack. The resource-pack builder collects lang,
  Patchouli and tips files from every source of the pack into one
  resource pack.

Each Python module becomes one Dafny module.

- Pure code becomes functions and lemmas.
- The cache and the translator are classes whose methods update fields.
- Loops become methods with loop invariants, and each such method is
  proved against a specification function.
- The provider is an oracle object (`Provider.Endpoint`). It holds the
  replies it will give and logs the requests it receives. `Provider.Retry`
  is the specification of the retry loop.
- Regular expressions are modelled by explicit scans. `Pieces` cuts a text
  into kept stretches and matches, which is what `re.sub` with a callback
  does. Where the lazy `(?:\\.|(?!\1).)*?` bodies can backtrack, the scan
  lists every possible match end in the order the regex engine tries them.
- File contents, directory trees, zip listings and JSON/SNBT parsers are
  values or function parameters.

| Dafny file | source |
|---|---|
| text.dfy, json.dfy, wrappers.dfy, files.dfy | Python built-ins used throughout: `str` methods, `os.path.join`, `os.walk`, parsed JSON values |
| config.dfy | src/config.py |
| helpers.dfy | src/utils/helpers.py |
| tokens.dfy | the module-level helpers of src/translators.py |
| cache.dfy | src/utils/cache.py |
| provider.dfy, engine.dfy | the `Translator` class of src/translators.py |
| lang_json.dfy | src/processors/lang_json.py |
| generic_json.dfy | src/processors/generic_json.py |
| escaping.dfy, pieces.dfy, literals.dfy, ftb_snbt.dfy | src/processors/ftb_snbt.py |
| escaping.dfy, pieces.dfy, literals.dfy, kubejs.dfy | src/processors/kubejs_js.py |
| snbt_structured.dfy | src/processors/snbt_structured.py |
| snbt_legacy.dfy | src/snbt_structured.py |
| jar_lang.dfy | src/processors/jar_lang.py |
| mirror.dfy | src/mirrorer.py |
| scanner.dfy | src/scanner.py |

## Model

| member | source | states |
|---|---|---|
| Helpers.SearchNamespace | src/utils/helpers.py:8 | the namespace regex finds a match exactly when some colon has an identifier character on each side |
| Helpers.IsProbablyText | src/utils/helpers.py:10-25 | a string counts as prose exactly when all of these hold: it is non-empty, no longer than the limit, holds an ASCII letter, holds none of the heavy symbols of line 10 and holds no `id:id` namespace |
| Helpers.ProbablyTextMonotone | src/utils/helpers.py:17-18 | raising the length limit never turns prose into non-prose |
| Helpers.ProbablyTextExamples | src/utils/helpers.py:21-24 | a resource id such as `minecraft:stone` and a format string such as `Mine %s` are not prose |
| Tokens.SortSpec | src/translators.py:36 | the token sort returns a sorted permutation of its input |
| Tokens.SortedUnique | src/translators.py:36 | two sorted sequences with the same multiset are equal, so the sorted token tuple is unique |
| Tokens.ExtractTokensSpec | src/translators.py:29-36 | the extracted tuple is sorted and holds exactly the placeholders and namespaced ids the scan `RawTokens` finds, with their counts (the scan reads `\w` and `\d` narrowed, as listed under Left out) |
| Tokens.TokensAgreeIffSameMultiset | src/translators.py:176-178 | comparing sorted token tuples, as strict mode does, is the same as comparing token multisets; the order of appearance does not matter |
| Tokens.FindAll | src/translators.py:20-24 | every token the placeholder and namespace scan reports is non-empty |
| Tokens.HasLatin | src/translators.py:44-45 | true exactly when some character is an ASCII letter |
| Tokens.LooksRussianOnly | src/translators.py:39-41 | a Cyrillic-only string is non-empty and holds no Latin letter |
| Tokens.LangNameFromMcCode | src/translators.py:48-65 | a known locale code, in any letter case, gives its language name; any other code is returned unchanged |
| Tokens.AcceptArray | src/translators.py:85-90 | a parsed reply is accepted exactly when it is a JSON array of the expected length (or any length when none is expected); the result holds `str(x)` of each item |
| Tokens.CoerceJsonArray | src/translators.py:68-105 | an accepted reply has the expected length and comes from a slice of the fence-stripped text; when the whole text parses as an acceptable array, that array is the answer; otherwise the answer is the array parsed from the first `[` to the last `]` after it; the `RuntimeError` (None) comes exactly when neither attempt gives an acceptable array |
| Tokens.BracketRetry | src/translators.py:92-102 | the second attempt parses the slice from the first `[` to the last `]` when that comes after it; it fails exactly when there is no such pair or the slice gives no acceptable array |
| Tokens.OuterBracketsUnique | src/translators.py:93-95 | the bracket pair the second attempt cuts at is the first `[` and the last `]` of the text |
| Cache.TranslationCache.constructor | src/utils/cache.py:15-18 | a new cache is empty and not loaded, with the given path |
| Cache.TranslationCache.Load | src/utils/cache.py:21-31 | loading happens once: a missing path or file keeps the map, an unreadable file empties it, and a readable one replaces it |
| Cache.TranslationCache.Save | src/utils/cache.py:33-39 | with a path, the file afterwards holds exactly the map; without one, nothing is written |
| Cache.TranslationCache.Get | src/utils/cache.py:42-44 | answers exactly for stored sources, with the stored translation |
| Cache.TranslationCache.Put | src/utils/cache.py:46-48 | afterwards the source maps to the new translation and every other lookup is unchanged |
| Cache.TranslationCache.Size | src/utils/cache.py:50-51 | the number of stored sources |
| Cache.FromDisk | src/utils/cache.py:21-31 | the map `load` leaves for each disk state: missing, unreadable or stored |
| Cache.PutSize | src/utils/cache.py:46-51 | a put grows the size by one exactly when the source was new |
| Provider.Endpoint.Request | src/translators.py:305-378 | one request answers with the next scripted reply and is logged |
| Provider.RetrySpec | src/translators.py:280-302 | the retry loop makes between 1 and `max_attempts` requests; every request before the last failed transiently; a value is the last reply; None comes only after a non-transient failure or when the attempts run out |
| Provider.RetryFromSpec | src/translators.py:283-302 | the same promises from any attempt on, proved by induction on the remaining attempts |
| Provider.RetryFirstOk | src/translators.py:283-286 | a first reply that succeeds is returned after one request |
| Provider.RetryExhausts | src/translators.py:287-302 | when every reply is a transient failure, the loop uses every attempt and returns None |
| Provider.RetryCallsPositive | src/translators.py:283-284 | with at least one attempt allowed, at least one request is made |
| Provider.BatchReply | src/translators.py:340-378 | a batch reply is the provider's error, or the coerced array, or (when coercion fails) a non-transient error |
| Engine.PassThroughIffNoLatin | src/translators.py:155-164 | the three pass-through tests of `translate` (empty, Cyrillic-only, no Latin letter) reduce to having no Latin letter |
| Engine.ChunksSpec | src/translators.py:244-245 | the batches put together are the unique strings in order; each holds between 1 and `batch_size` strings, and all but the last exactly `batch_size` |
| Engine.ChunksCover | src/translators.py:244-245 | the batches, put together, are the unique strings in order |
| Engine.ChunksSizes | src/translators.py:244-245 | every batch has between 1 and `batch_size` strings, and all but the last exactly `batch_size` |
| Engine.Translator.constructor | src/translators.py:113-144 | stores the settings and loads the cache |
| Engine.Translator.Validated | src/translators.py:176-178 | in strict mode an answer whose tokens differ from the source's is replaced by the source; otherwise the answer is kept; in strict mode the result always has the source's tokens |
| Engine.Translator.ValidatedIdempotent | src/translators.py:176-178 | validating an already validated answer changes nothing |
| Engine.Translator.RecordSpec | src/translators.py:259-266 | after the puts of a chunk, each stored pair is in the cache, each fallback not stored keeps its old entry, and every other key is unchanged |
| Engine.Translator.RecordAppend | src/translators.py:259-266 | recording two chunks one after the other is recording their concatenation |
| Engine.Translator.UniqueBatchedSpec | src/translators.py:202-235 | the batch queue holds each string that needs a batch exactly once, and nothing else |
| Engine.Translator.RetryCall | src/translators.py:280-302 | the retry loop's outcome and request count are those `Provider.Retry` specifies for the endpoint's replies; the same request is sent once per attempt |
| Engine.Translator.Translate | src/translators.py:147-184 | pass-through strings and cached strings come back without a request; any other string is requested with retries, falls back to itself, and is validated; the cache is updated and saved exactly when `Stores` says so; in strict mode the result keeps the source's tokens |
| Engine.Translator.SingleRunAt | src/translators.py:166-178 | in a run of `translate` calls that reach the endpoint, the k-th result is the validated reply of the k-th string's retries (or the string itself when none came), the retries starting from the replies the earlier calls left |
| Engine.Translator.SingleRunLast | src/translators.py:166-178 | the results of a run with one more call are those before it, then that call's validated reply |
| Engine.Translator.SingleRunAppend | src/translators.py:166-172 | a run of calls split in two: the second part starts from the replies the first left, and the results concatenate |
| Engine.Translator.SingleSentAppend | src/translators.py:166-172 | the requests of a run split the same way: those of the first part, then those of the second |
| Engine.Translator.SingleSentRequests | src/translators.py:166-172 | with at least one attempt allowed, every string of a run of `translate` calls is in the run's requests |
| Engine.Translator.SingleRunStep | src/translators.py:166-178 | one more `translate` call that reaches the endpoint extends the run by its result, by the replies it consumes and by the requests it sends |
| Engine.Translator.ClassifyComplex | src/translators.py:222-229 | a long, multi-line, chat-JSON or colour-coded string that is not cached is translated on its own, with the effects of `translate`: its result is the next call of the first pass's single-string run (`SingleRun`), whose replies and request log advance by that call, and the cache entries the pass added stay results of that run |
| Engine.Translator.RunStateStep | src/translators.py:222-229 | translating one complex string of the first pass extends the run by that call: its result joins the run's results, the replies and the log advance, and every answer given so far stays the result of its call |
| Engine.Translator.ClassifyOne | src/translators.py:202-235 | one step of the first pass keeps the first-pass invariant: each position holds its pass-through or cached answer, or the result of its own call in the single-string run, or is queued for a batch; the run grows by one call exactly when the string is complex, not passed through and not cached |
| Engine.Translator.Classify | src/translators.py:202-235 | after the first pass, positions that need a batch are exactly the empty ones, and the batch queue is `UniqueBatched` of the inputs; the complex strings sent on their own form one run of `translate` calls over the single endpoint's replies, each uncached complex string's result is that of its own call, and the endpoint's replies and log afterwards are those the run leaves; with at least one attempt allowed, every uncached complex string is in the new part of the log |
| Engine.Translator.ClassifyDone | src/translators.py:202-235 | once the first pass has covered every input, its queue is `UniqueBatched` of all the inputs |
| Engine.Translator.ComplexRequested | src/translators.py:222-229 | with at least one attempt allowed, every complex string not cached at the start is requested during the first pass |
| Engine.Translator.SingleOne | src/translators.py:255-256 | one fallback call per string of a failed batch keeps the fallback invariant: the results so far, the endpoint's remaining replies and its log are those of `SingleRun` on the chunk's first strings |
| Engine.Translator.SinglesStateStep | src/translators.py:255-256 | one more string of a failed batch sent through `translate` extends the fallback state: its validated result joins the run's results, the replies, the log and the cache advance as `translate` leaves them, and the string is logged as requested |
| Engine.Translator.Singles | src/translators.py:255-256 | a failed batch falls back to `translate` on each of its strings in order: the results and the endpoint's remaining replies are `SingleRun` of the chunk, and the requests logged are `SingleSent` of it |
| Engine.Translator.ZipChunk | src/translators.py:259-266 | each string of the chunk gets its validated answer in the outputs, other outputs are untouched, and the cache records the pairs `Stores` selects |
| Engine.Translator.ProcessChunk | src/translators.py:245-269 | one batch is requested with retries; a usable answer is validated, otherwise the results are the run of `translate` calls on the chunk (`SingleRun`) on the single endpoint's replies; the single endpoint advances by exactly those fallback calls (none when the batch was usable); the outputs and the cache record the validated answers and the cache is saved |
| Engine.Translator.ChunkAnswers | src/translators.py:254-256 | a usable batch answer is taken and the single endpoint is untouched; otherwise the results are `SingleRun` of the chunk on the endpoint's replies, with its requests logged |
| Engine.Translator.SinglesStep | src/translators.py:244-269 | after each chunk, the fallbacks so far are one run of `translate` calls and each failed chunk's results are its own segment of that run |
| Engine.Translator.BatchOne | src/translators.py:244-269 | one iteration of the batch loop keeps the batch invariant and advances by one batch |
| Engine.Translator.BatchesAtStep | src/translators.py:244-269 | a chunk handled as `ProcessChunk` promises moves the batch loop's state on by that chunk: chunks sent, batch replies and log, outputs, cache and its file, and the single-string run |
| Engine.Translator.Batches | src/translators.py:244-269 | the batch loop sends exactly the `Chunks` of the queue, in order, and leaves outputs, cache and request logs as the batch invariant describes; the fallbacks of all failed chunks form one run of `translate` calls, each chunk's results its own segment of it |
| Engine.Translator.BatchesStart | src/translators.py:244 | the batch invariant holds before the first batch |
| Engine.Translator.BatchesEnd | src/translators.py:244-269 | once the loop has covered the queue, the batches it sent are `Chunks(queue, batch_size)` |
| Engine.Translator.FanOut | src/translators.py:272-277 | each input position gets its first-pass answer, or else the batch output for its string |
| Engine.Translator.ManyOutputs | src/translators.py:196-277 | in the final list, pass-through strings are unchanged, cached strings get the cached value, batched strings get their batch output, and in strict mode every new answer keeps its source's tokens |
| Engine.Translator.ManyCache | src/translators.py:181-266 | afterwards the cache keeps every old entry, gains only non-pass-through inputs that `Stores` selects (with their tokens kept in strict mode), and holds each batch output exactly when it is stored |
| Engine.Translator.EarlyState | src/translators.py:238-239 | when nothing needs a batch, the first-pass results are the answer and no batch is sent |
| Engine.Translator.LateState | src/translators.py:241-277 | after the batch loop and the fan-out, the full `translate_many` postcondition holds |
| Engine.Translator.BatchPhase | src/translators.py:241-277 | the batch phase establishes the `translate_many` postcondition from the first-pass state |
| Engine.Translator.TranslateMany | src/translators.py:187-277 | `translate_many` returns one answer per input with the guarantees of `ManyOutputs`, sends the batches `Chunks` describes, and leaves the cache as `ManyCache` describes; every single-string result, of a complex string or of a failed batch, is that of its own call in one run of `translate` calls over the single endpoint's replies, and the endpoint is left as that run leaves it (`ManySingles`) |
| Engine.Translator.ManySinglesJoin | src/translators.py:202-269 | the first pass's single calls followed by the chunk loop's fallbacks form one run from the endpoint's replies at the start; each uncached complex string's answer and each failed chunk's results come from calls of that run |
| LangJson.RankSpec | src/processors/lang_json.py:46-49 | a string member's rank is its index in both the `keys` and the `values` list |
| LangJson.RewrittenShape | src/processors/lang_json.py:44-54 | the written dictionary has the same keys and shape as the input, and non-string members are copied |
| LangJson.AnswerUnderKey | src/processors/lang_json.py:53-54 | the i-th answer lands under the i-th string key |
| LangJson.RewrittenOwnValues | src/processors/lang_json.py:53-54 | writing back the original values reproduces the input dictionary |
| LangJson.RewrittenNothing | src/processors/lang_json.py:51 | with no answers the dictionary is copied unchanged |
| LangJson.RewrittenPrefix | src/processors/lang_json.py:53 | `zip` stops at the shorter list: extra answers are ignored |
| LangJson.SetKey | src/processors/lang_json.py:54 | assignment to an existing key keeps its place; a new key goes last |
| LangJson.CollectStrings | src/processors/lang_json.py:42-49 | the collection loop returns the keys and values of the string members, in dictionary order |
| LangJson.StoreAnswers | src/processors/lang_json.py:51-54 | the write-back loop produces `Rewritten(obj, outs)` |
| LangJson.TranslateLangObj | src/processors/lang_json.py:36-59 | with no string values nothing is requested or cached; otherwise the values go to `translate_many` in one call, with its guarantees on the answers and on the single-string run, and the answers are written back in order |
| GenericJson.TranslateValue | src/processors/generic_json.py:9-25 | translation keeps the JSON shape: same kinds, same list lengths, same keys |
| GenericJson.TranslateObj | src/processors/generic_json.py:28-33 | the new object has the same keys in the same order, each value translated under its lower-cased key |
| GenericJson.StringLeaf | src/processors/generic_json.py:10-17 | a string is replaced by its translation exactly when its key is a text key or it looks like prose |
| GenericJson.OnlyRequestsMatter | src/processors/generic_json.py:9-33 | two translators that agree on every string the walk would send give the same result |
| GenericJson.IdentityTranslator | src/processors/generic_json.py:9-33 | with the identity translator the document is unchanged |
| GenericJson.ObjectIgnoresHint | src/processors/generic_json.py:22-23 | an object inside a list is walked under its own keys, not the enclosing hint |
| GenericJson.ListUsesHint | src/processors/generic_json.py:19-20 | list items under a text key are all translated |
| GenericJson.ScalarsUnchanged | src/processors/generic_json.py:25 | numbers, booleans and null are copied |
| Escaping.EscapeRoundTrip | src/processors/ftb_snbt.py:37-52 | unescaping an escaped string gives the string back, for either quote |
| Escaping.EscapedGuardsDelimiter | src/processors/ftb_snbt.py:46-52 | every quote character in an escaped string is preceded by a backslash, so it cannot end the literal |
| FtbSnbt.UnescapeEscape | src/processors/ftb_snbt.py:37-52 | `_unescape(_escape(s, q), q) == s` for both quotes |
| FtbSnbt.GreedyBodyEnds | src/processors/ftb_snbt.py:15 | each candidate end of a quoted literal lies after its start and just after a closing quote |
| FtbSnbt.FieldWithKey | src/processors/ftb_snbt.py:27-30 | a field match starts with the key, then `\s*:\s*`, then a value that starts with a quote or `[` |
| FtbSnbt.KeyFound | src/processors/ftb_snbt.py:23-24 | a field match uses one of the FTB text keys |
| FtbSnbt.SortedKeysAreTextKeys | src/processors/ftb_snbt.py:23 | the sorted key tuple holds exactly the configured text keys |
| FtbSnbt.FieldsJoin | src/processors/ftb_snbt.py:115-127 | the field scan cuts the text into pieces that put it back together, and every match is a text-key field |
| FtbSnbt.OutsideFieldsUnchanged | src/processors/ftb_snbt.py:120-127 | only field values change: if every value's rewrite is the value itself, the text is unchanged |
| FtbSnbt.ListLiteralsJoin | src/processors/ftb_snbt.py:81-88 | the scan of a string list cuts it into pieces that put it back together |
| FtbSnbt.ScalarSentIffText | src/processors/ftb_snbt.py:57-70 | a literal's content is sent to the translator exactly when it looks like prose |
| FtbSnbt.TokenKeepsQuote | src/processors/ftb_snbt.py:73-78 | a rewritten literal keeps its quote characters, and its unescaped content is the translated content |
| FtbSnbt.TranslateFile | src/processors/ftb_snbt.py:130-149 | an exception while translating leaves the original text; otherwise the translated text is written |
| Pieces.SubstituteIdentity | src/processors/ftb_snbt.py:127 | a substitution whose callback returns every match unchanged leaves the text unchanged |
| Pieces.Substitute | src/processors/ftb_snbt.py:127 | the substitution fails exactly when the callback fails on some match |
| Literals.LazyEndBody | src/processors/kubejs_js.py:19-21 | the first closing quote the lazy body can stop at delimits a well-formed literal body |
| KubeJs.UnescapeEscape | src/processors/kubejs_js.py:29-43 | `_unescape(_escape(s, q), q) == s` for both quote characters |
| KubeJs.ArgEnd | src/processors/kubejs_js.py:19-25 | an argument match is a whole literal that opens and closes with the same delimiter |
| KubeJs.CallWithName | src/processors/kubejs_js.py:24-27 | a call match starts with the function name, then `\s*(\s*`, then a whole literal |
| KubeJs.NameFound | src/processors/kubejs_js.py:9-16 | a call match uses one of the listed function names |
| KubeJs.CallsJoin | src/processors/kubejs_js.py:60-71 | the call scan cuts the script into pieces that put it back together, and every match is a listed call with its first literal |
| KubeJs.ScannedLiteralMatches | src/processors/kubejs_js.py:64-68 | the inner re-match always succeeds on a scanned literal and returns its delimiter and content |
| KubeJs.OutsideCallsUnchanged | src/processors/kubejs_js.py:60-71 | only call arguments change: names, parentheses and everything between calls are copied |
| KubeJs.QuotedKeepsQuote | src/processors/kubejs_js.py:46-50 | a rewritten quoted literal keeps its quotes, and its unescaped content is the translation of the unescaped original |
| KubeJs.PlaceholderTemplateKept | src/processors/kubejs_js.py:53-54 | a template literal holding `${` is left as it is |
| KubeJs.TemplateEscaped | src/processors/kubejs_js.py:55-58 | a translated template keeps its backticks, each backtick inside it is escaped, and unescaping gives the translation |
| SnbtStructured.SplitFormatting | src/processors/snbt_structured.py:37-45 | the leading `§x` codes and the rest put the text back together, and the codes are the longest leading run |
| SnbtStructured.LastSemanticIndex | src/processors/snbt_structured.py:50-59 | the last path segment that is not a `[i]` index, with only index segments after it |
| SnbtStructured.LastSemanticKey | src/processors/snbt_structured.py:50-59 | None exactly when every segment is an index; otherwise a non-index segment |
| SnbtStructured.FindLastSemanticKey | src/processors/snbt_structured.py:50-59 | the backwards loop returns `LastSemanticKey(path)` |
| SnbtStructured.IndexSkipped | src/processors/snbt_structured.py:50-59 | adding a list index to a path does not change its last semantic key |
| SnbtStructured.PlainTextSentIff | src/processors/snbt_structured.py:129-162 | plain text is sent to the translator exactly when it is not blank, not on a technical path, and either on a forced-text path or neither a resource path nor non-prose |
| SnbtStructured.TechnicalBeatsForced | src/processors/snbt_structured.py:145-150 | a technical path wins over a forced-text path: nothing is sent |
| SnbtStructured.TaskTypeTechnical | src/processors/snbt_structured.py:82-124 | a `type` field under `tasks`, and its list items, are technical |
| SnbtStructured.Chat | src/processors/snbt_structured.py:167-207 | translating a chat component keeps its JSON shape |
| SnbtStructured.ChatIdentity | src/processors/snbt_structured.py:167-207 | with the identity translator a chat component is unchanged |
| SnbtStructured.TextKeepsCodes | src/processors/snbt_structured.py:177-180 | a `text` member keeps its leading formatting codes and only the rest is translated, under the path `text` |
| SnbtStructured.ChatScalarsUnchanged | src/processors/snbt_structured.py:206-207 | numbers, booleans and null inside a component are copied |
| SnbtStructured.ChatOnlyForBrackets | src/processors/snbt_structured.py:210-242 | only strings starting with `{` or `[` are tried as chat JSON; when that fails, the string is translated as plain text |
| SnbtStructured.ChatFailureFallsBack | src/processors/snbt_structured.py:223-242 | a component whose translation raises makes the string fall back to plain-text translation |
| SnbtStructured.NbtWalk | src/processors/snbt_structured.py:247-295 | the tag walk keeps the NBT shape |
| SnbtStructured.StringTagOutcome | src/processors/snbt_structured.py:282-292 | a String tag whose translation raises stays as it was; otherwise it holds the new value |
| SnbtStructured.OtherTagsUntouched | src/processors/snbt_structured.py:294-295 | numeric and array tags are left alone |
| SnbtStructured.ChildPaths | src/processors/snbt_structured.py:259-279 | a compound child is walked under its key and a list item under `[i]` |
| SnbtStructured.TranslateNbtTag | src/processors/snbt_structured.py:247-295 | the loops over compound keys and list items compute `NbtWalk` |
| SnbtStructured.TranslateStructured | src/processors/snbt_structured.py:300-306 | the SNBT text fails exactly when it does not parse; otherwise it is the dump of the walked tree |
| SnbtLegacy.Walked | src/snbt_structured.py:22-36 | the chat-component walk keeps the JSON shape |
| SnbtLegacy.WalkChat | src/snbt_structured.py:22-36 | the walk returns `Walked` of the component, and its change flag is set exactly when some prose `text` field was translated |
| SnbtLegacy.TranslateTextMember | src/snbt_structured.py:25-28 | the `text` member is translated exactly when it is a prose string; other members are copied |
| SnbtLegacy.WalkObject | src/snbt_structured.py:24-32 | each member of an object is walked in order, and the flag records whether any of them changed |
| SnbtLegacy.NoChangeNoEdit | src/snbt_structured.py:39-40 | when the flag stays unset the walk changed nothing, so returning the raw text loses nothing |
| SnbtLegacy.OnlyTextFieldsMatter | src/snbt_structured.py:22-36 | two translators that agree on the prose `text` fields give the same component |
| SnbtLegacy.IdentityWalk | src/snbt_structured.py:22-36 | with the identity translator the component is unchanged |
| SnbtLegacy.ChatKeepsRaw | src/snbt_structured.py:15-40 | a string that does not parse, or whose walk changes nothing, is returned as it was |
| SnbtLegacy.NewStringRoutes | src/snbt_structured.py:49-59 | a `{…}` string goes through the chat walk, a prose string through the translator, anything else is kept |
| SnbtLegacy.WalkAndTranslate | src/snbt_structured.py:44-69 | every String tag of the tree, updated in place, afterwards holds the new string `NewString` gives for its old one |
| JarLang.EntryModId | src/processors/jar_lang.py:14-33 | an entry ending in `lang/en_us.json` is taken exactly when its first `assets` segment is followed by a non-empty modid and `lang`; that modid is returned |
| JarLang.Entries | src/processors/jar_lang.py:14-33 | the listed entries are exactly the accepted names, paired with their modids |
| JarLang.DestinationShape | src/processors/jar_lang.py:72-74 | the overlay goes to `<out>/overrides/kubejs/assets/<modid>/lang/<lang>.json` |
| JarLang.TranslatedDict | src/processors/jar_lang.py:83-88 | every string value is replaced by its translation and other values are copied, with the same keys; it fails exactly when some translation raises |
| JarLang.TranslateDict | src/processors/jar_lang.py:83-88 | the dictionary loop computes `TranslatedDict` |
| JarLang.TranslatedPrefixFails | src/processors/jar_lang.py:83-88 | once a translation raises, the whole dictionary fails |
| JarLang.WriteEntry | src/processors/jar_lang.py:64-95 | one entry is written exactly when it reads as a JSON object and all of its translations succeed |
| JarLang.WriteEntries | src/processors/jar_lang.py:64-95 | the entry loop writes `JarWrites` and counts them |
| JarLang.TranslateFromJar | src/processors/jar_lang.py:47-99 | a bad zip writes nothing and counts 0; otherwise the writes are `JarWrites` of the jar's entries, and the count is their number |
| JarLang.UnreadableSkipped | src/processors/jar_lang.py:65-69 | an unreadable entry is skipped without a write |
| JarLang.AllReadableAllCounted | src/processors/jar_lang.py:90-93 | when every entry translates, every entry is counted |
| JarLang.WrittenKeepsKeys | src/processors/jar_lang.py:72-91 | a written overlay goes to the entry's destination and has the keys of the original dictionary |
| FileTree.NormReplaces | src/mirrorer.py:80 | the per-character path normalisation is `replace("\\", "/")` |
| FileTree.Walk | src/scanner.py:36 | a top-down walk visits the root first, with its files |
| Mirror.ClassifyFirstMatch | src/mirrorer.py:101-206 | a file is handled by the first rule that matches it (lang, Patchouli, tips, FTB Quests, KubeJS); a file no rule matches is ignored |
| Mirror.KubeJsGated | src/mirrorer.py:24-28 | KubeJS scripts are handled only when enabled, and only under `/kubejs/` in `server_scripts` or `client_scripts` |
| Mirror.SamePathDestination | src/mirrorer.py:152-197 | tips, FTB Quests and KubeJS files are written at the same relative path under the output root |
| Mirror.PatchouliDestination | src/mirrorer.py:129-130 | Patchouli pages go to their path with `/en_us/` replaced by the target locale |
| Mirror.LangDestination | src/mirrorer.py:109 | a lang file is written as `<lang>.json` beside its relative directory |
| Mirror.SkipDirsPruned | src/mirrorer.py:92 | below a content root, asset folders such as `textures` are never entered |
| Mirror.KeptSubdirs | src/mirrorer.py:82-99 | the walk descends into exactly the subdirectories the pruning keeps |
| Mirror.FilesOnlyInContentRoots | src/mirrorer.py:82-90 | files are handled only in directories under `/assets/`, `/ftbquests/` or `/kubejs/` |
| Mirror.Counted | src/mirrorer.py:107-203 | a matched file adds one to the total, and one to the translated count when handling it does not raise |
| Mirror.SumTallyBounded | src/mirrorer.py:66-203 | the translated count never exceeds the total |
| Mirror.IgnoredFileNotCounted | src/mirrorer.py:205-206 | a file no rule matches changes neither count |
| Mirror.FailedFileCounted | src/mirrorer.py:122-123 | a file whose handling raises counts in the total but not as translated |
| Mirror.OnlyJarsCount | src/mirrorer.py:39-42 | only names ending in `.jar` contribute to the jar count |
| Mirror.ScanJars | src/mirrorer.py:33-45 | without a `mods` folder the count is 0; otherwise it is the sum of `translate_from_jar` over the `.jar` names |
| Mirror.HandleOne | src/mirrorer.py:101-206 | one file's outcome is `HandleFile` under the run's settings |
| Mirror.HandleDirectory | src/mirrorer.py:101-206 | the file loop of one directory computes that directory's counts |
| Mirror.TallyVisits | src/mirrorer.py:79-206 | the walk loop sums the counts of the visited directories |
| Mirror.MirrorTranslateDir | src/mirrorer.py:47-210 | the returned counts are those of the pruned walk, translated ≤ total, and the jar scan runs only in write mode |
| Scanner.ModIdOf | src/scanner.py:62-66 | the modid is the segment after the first `assets`, or the fallback when there is none |
| Scanner.LangDestinationShape | src/scanner.py:67 | lang files go to `<out>/assets/<modid>/lang/<lang>.json` |
| Scanner.PatchouliWithoutLocale | src/scanner.py:12-29 | a page whose path has no `/en_us/` segment keeps its path under `assets` |
| Scanner.LangScanRule | src/scanner.py:51-71 | a lang job is made exactly for `en_us.json` in a `lang` folder under `assets/`, and goes to that mod's lang folder |
| Scanner.DirJobsExact | src/scanner.py:36-47 | the jobs of a directory are exactly those its files pass the filter for |
| Scanner.WalkJobsSound | src/scanner.py:36-47 | every job of a walk comes from some file of some visited directory that passes the filter |
| Scanner.WalkJobsComplete | src/scanner.py:36-47 | every file that passes the filter gives a job |
| Scanner.ScanDirectory | src/scanner.py:39-47 | the file loop of one directory computes `DirJobs` |
| Scanner.ScanVisits | src/scanner.py:36-48 | the walk loop computes `WalkJobs` and adds their number to `processed` |
| Scanner.ScanFolder | src/scanner.py:34-35 | a missing folder gives no jobs and leaves `processed` unchanged |
| Scanner.ScanAssets | src/scanner.py:149-152 | an `assets` folder is scanned for Patchouli, tips and lang files in that order, with the tips test of the chosen filter set |
| Scanner.ScanFolders | src/scanner.py:156-161 | every `assets` folder under the OpenLoader root is scanned in walk order |
| Scanner.ScanOpenLoader | src/scanner.py:155-161 | without an OpenLoader root there are no jobs |
| Scanner.EntryJobRule | src/scanner.py:112-126 | a jar entry gives a job exactly when it passes the entry test of the chosen filter set and reads as JSON, with the modid after `assets` |
| Scanner.NonJarIgnored | src/scanner.py:106-107 | names not ending in `.jar` (in any case) add no jobs |
| Scanner.BadZipIgnored | src/scanner.py:127-128 | a jar that is not a valid zip adds no jobs |
| Scanner.ScanEntries | src/scanner.py:111-126 | the entry loop computes `EntriesJobs` |
| Scanner.ScanJarEntries | src/scanner.py:109-128 | one jar's jobs are `JarJobs` |
| Scanner.ScanModJars | src/scanner.py:103-128 | without a `mods` folder there are no jobs; otherwise they are `ModsJobs` |
| Scanner.BuildResourcePack | src/scanner.py:74-169 | for either filter set (as written or corrected), `processed` counts exactly the translations made, from the jars, `kubejs/assets`, `assets`, OpenLoader and overrides in that order |
| Scanner.TipsExample | src/scanner.py:38 | a `tips` folder directly under a mod's assets is rejected by the filter as written and accepted by the corrected one |
| Scanner.TipsFolderSkipped | src/scanner.py:38 | for any `…/tips` folder not nested in another, the filter as written rejects it and the corrected one accepts it |
| Scanner.TipsFileJobs | src/scanner.py:36-44 | a `.json` file directly in a mod's `tips` folder gets no job from the scan as written and a job from the corrected one |
| Scanner.KubeLangExample | src/scanner.py:135 | a `kubejs/assets/<mod>/lang` folder is rejected by the filter as written and accepted by the corrected one |
| Scanner.KubeLangFolderSkipped | src/scanner.py:135 | for any `…/lang` folder not nested in another, the filter as written rejects it and the corrected one accepts it |
| Scanner.KubeLangFileJobs | src/scanner.py:133-140 | an `en_us.json` directly in a KubeJS `lang` folder gets no job from the scan as written and a job from the corrected one |
| Scanner.JarEntryExample | src/scanner.py:113 | the entry `assets/mymod/lang/en_us.json` is rejected by the filter as written and accepted by the corrected one |
| Scanner.TopLevelEntrySkipped | src/scanner.py:113 | any lang entry at the top-level `assets/` folder of a jar is rejected by the filter as written and accepted by the corrected one |
| Scanner.TopLevelEntryJobs | src/scanner.py:111-126 | a readable lang entry at the top-level `assets/` folder of a jar gets no job from the scan as written and a job from the corrected one |

## Left out

- HTTP requests to the provider (src/translators.py:305-378) are not modelled. The provider is an oracle with scripted replies. A reply that fails to coerce to an array becomes a non-transient failure (`Provider.BatchReply`).
- The retry loop's sleep, backoff and jitter (src/translators.py:295-299) are not modelled, because they only affect timing.
- The `except` at src/translators.py:250-252 is not modelled. `_retry_call` never raises, so that handler cannot run.
- JSON, SNBT and zip parsing and printing are not modelled. Parsers and printers are parameters (`JsonCodec`, `SnbtCodec`, `read`), and jars are listings of entry names.
- The filesystem is not modelled: reading, writing, `makedirs`, `isdir` and `os.walk` order. Directories are finite trees, and a missing directory is `None`.
- The cache file contents are not modelled. A disk is missing, unreadable or stored.
- `abspath` and `expanduser` are not modelled; paths are taken as already absolute.
- Symbolic links are not modelled.
- `pack.mcmeta` (src/scanner.py:90-98) is not modelled, because it is a constant file write.
- Log messages and `print` output are not modelled.
- The GUI and the command-line entry points (src/gui_main.py, src/main.py) are not part of this model.
- Concurrency (`MAX_WORKERS_FILES`) is not modelled; translation is sequential in the source as well.
- Environment variables and the secrets file of src/config.py are not modelled. `TARGET_LANG` and `INCLUDE_KUBEJS_JS` are parameters.
- `get_target_lang_name` (src/config.py:39-40) has no member of its own. It is the same lookup as `Tokens.LangNameFromMcCode`, applied to the configured locale.
- `TextUtil.Lower` lower-cases ASCII letters only, where Python's `str.lower` lowers every script. Results differ only for the few non-ASCII characters whose lower case is ASCII, such as the Kelvin sign, when they appear in a key, a locale code or an error message.
- `Mirror.MirrorTranslateDir`: what each processor does to a file is the `attempt` parameter of `Mirror.Run`. The mirror counts model only whether handling returns or raises.
- `Mirror.MirrorTranslateDir`: a dry run (`write = False`) of the lang, Patchouli and tips rules is folded into `attempt`.
- `Mirror.ScanJars`: the count is computed, but `mirror_translate_dir` discards it, as the source does.
- `Mirror.OnlyJarsCount`: the mirror's `.jar` test is case-sensitive while the scanner's uses `lower()`. Both are modelled as written.
- `SnbtLegacy.WalkAndTranslate` requires that no String tag is shared between two places in the tree (`Unshared`). An NBT tree read from text never shares tags.
- `SnbtLegacy.WalkAndTranslate`: exceptions of the translator are not modelled, because the legacy module does not catch them.
- `SnbtStructured.NbtWalk` is modelled on values. It replaces children in place in the source, and each child's own `except` is covered by the `None` result of `StringValue`. Aliasing between tags is not modelled.
- `Scanner.BuildResourcePack`: exceptions raised by processors propagate and stop the build in the source. The model counts only runs in which every processor returns.
- `Tokens.ExtractTokensSpec`: `\w` in the placeholder and namespace patterns is read as an ASCII letter, digit or `_` or a Cyrillic letter, and `\d` as an ASCII digit. The source compiles `str` patterns, which accept every Unicode letter and digit, so for a string such as `{café} x` the source finds the placeholder `{café}` and the model finds none.
- `Scanner.BuildResourcePack` is stated for both filter sets: `AsWritten` is the folder and entry tests of the source, and `Corrected` the ones listed under Findings.
- `Tokens.FindAll` states only that every token it reports is non-empty. Which tokens the placeholder regex matches is fixed by its definition (`MatchAt`), not restated in a contract.
- `Engine.Translator.TranslateMany` states the contents of each request log and the cache through ghost predicates. Members that use `old` are not counted on their own; the lemmas `ManyOutputs` and `ManyCache` carry the counted statements.

## Findings

| source | as written | input that shows it | evidently intended | confidence | as-written member | corrected member |
|---|---|---|---|---|---|---|
| src/scanner.py:38 | `"/tips/" in root_norm` needs a folder below `tips` | the folder `/pack/assets/mymod/tips` holding `a.json`: the walk root does not contain `/tips/`, so the file is skipped | the docstring's `assets/**/tips/*.json`: files directly in a `tips` folder are translated | high, not executed | Scanner.TipsRootAsWritten (Scanner.TipsExample, Scanner.TipsFolderSkipped) | Scanner.TipsRoot |
| src/scanner.py:135 | `"/lang/" in root` needs a folder below `lang` | `/pack/kubejs/assets/mymod/lang/en_us.json`: the root `/pack/kubejs/assets/mymod/lang` does not contain `/lang/` | the comment's `kubejs/assets/**/lang/en_us.json`: lang files directly in a `lang` folder are translated | high, not executed | Scanner.KubeLangRootAsWritten (Scanner.KubeLangExample, Scanner.KubeLangFolderSkipped) | Scanner.KubeLangRoot |
| src/scanner.py:113 | `"/assets/" in p` on a jar entry name | the entry `assets/mymod/lang/en_us.json`: zip names have no leading `/`, so it is skipped | the docstring's `assets/*/lang/en_us.json` from `mods/*.jar`, as `_iter_jar_lang_entries` accepts | high, not executed | Scanner.JarEntryAsWritten (Scanner.JarEntryExample, Scanner.TopLevelEntrySkipped) | Scanner.JarEntry |
