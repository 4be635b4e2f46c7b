# Deep Tree Echo memory service, modelled in Dafny

This project models the memory service of the Deep Tree Echo assistant. The service is
`DeepTreeEchoMemoryService` in `app/lib/persistence/deepTreeEchoMemory.ts`. Together with its
bootstrap helpers in `app/lib/persistence/deepTreeEchoInit.ts` and the `DeepTreeEchoMemory`
record of `app/lib/persistence/types.ts`, it keeps a persistent list of memories for an AI
assistant. It does five things:

- It builds records with default `tags` and `importance`.
- It reads them back through a storage adapter, with a default limit and a type filter.
- It classifies a conversation's last exchange by keyword. The classifiers produce the tags, the topics, the learning indicators and the importance.
- It writes one or two memories per conversation.
- It renders the critical and recent memories as a text block for prompts.

The bootstrap seeds four foundational memories, and only when no critical memory exists.

Modules:

- `Wrappers`, `Seqs` and `Text` are generic helpers:
  - `Option`;
  - order-preserving filtering, sublists and `slice`/`substring` prefixes;
  - ASCII lower-casing, substring search and `join`.
- `MemoryTypes` holds the record, its `type` and `importance` enumerations, and the type names.
- `Messages` holds the part of the `ai` message the service reads, `_extractTextContent`, and the per-role filter.
- `Classifiers` holds `_extractTags`, `_extractKeyTopics`, `_containsLearningIndicators` and `_assessImportance`.
- `TagExample` works the repository's tag-extraction test out in full.
- `MemoryStore` is the storage adapter, seen only through its contract: the class `Database`.
- `MemoryContext` is the text block of `generateMemoryContext` and the loop that builds it.
- `EchoMemory` is the service class `MemoryService` and the pure specifications of its writes.
- `MemoryInit` covers `initializeDeepTreeEchoMemories`, `areMemoriesInitialized` and `ensureMemoriesInitialized`.

The service is a class with three fields:

- the adapter it writes through;
- whether a database handle has been obtained (`_db`);
- the id counter that stands in for `nanoid()`.

`Valid()` states that every stored id is distinct and below the counter. Every writing method preserves it. Each method's `ensures` gives the new store contents and counter in terms of pure functions: `Written`, `InsightRequests` and `EnsureOutcome`. The lemmas about those functions carry the properties.

## Model

| member | source | states |
|---|---|---|
| MemoryTypes.TypeNameRoundTrip | app/lib/persistence/types.ts:12 | each of the five `type` values has its own name, and a name parses back to exactly its type |
| Messages.FindTextPart | app/lib/persistence/deepTreeEchoMemory.ts:172 | `find(item => item.type === 'text')`: the index of the first part of kind "text", or none when no part has that kind |
| Messages.ExtractTextContent | app/lib/persistence/deepTreeEchoMemory.ts:170-174 | plain content is returned as is; for a part list, the first text part's text, or "" when there is no text part or it has no text |
| Messages.OfRoleEmpty | app/lib/persistence/deepTreeEchoMemory.ts:130-135 | the turns of a role are empty exactly when no message has that role |
| Messages.LastOfRoleIsLastByPosition | app/lib/persistence/deepTreeEchoMemory.ts:138-139 | the last filtered turn is the message of that role with the greatest position in the conversation |
| Text.ToLower | app/lib/persistence/deepTreeEchoMemory.ts:178 | `toLowerCase` keeps the length and lowers each ASCII capital, position by position |
| Text.IncludesIff | app/lib/persistence/deepTreeEchoMemory.ts:207 | `text.includes(word)` holds exactly when the word occurs at some position of the text |
| Text.IncludesAcrossSpace | app/lib/persistence/deepTreeEchoMemory.ts:226 | a word without spaces occurs in `u + ' ' + a` exactly when it occurs in `u` or in `a` |
| Classifiers.AnyIncludedIff | app/lib/persistence/deepTreeEchoMemory.ts:219 | `words.some(w => text.includes(w))` holds exactly when some listed word occurs |
| Classifiers.ClassifySublist | app/lib/persistence/deepTreeEchoMemory.ts:176-213 | the labels pushed are an order-preserving sublist of the rule labels |
| Classifiers.ClassifyMembers | app/lib/persistence/deepTreeEchoMemory.ts:176-213 | with distinct labels, a label is pushed exactly when one of its keywords occurs |
| Classifiers.ClassifyDistinct | app/lib/persistence/deepTreeEchoMemory.ts:176-213 | with distinct labels, no label is pushed twice |
| Classifiers.ExtractTags | app/lib/persistence/deepTreeEchoMemory.ts:176-198 | the four `if` blocks push exactly the labels the tag rules select from the lower-cased text, in rule order |
| Classifiers.TagsSpec | app/lib/persistence/deepTreeEchoMemory.ts:176-198 | the tags are a duplicate-free, order-preserving sublist of technical, design, assistance, learning, and each category is present exactly when one of its three keywords occurs |
| Classifiers.ExtractKeyTopics | app/lib/persistence/deepTreeEchoMemory.ts:200-213 | the topics are the keyword rules' selection from the lower-cased text |
| Classifiers.KeywordsFound | app/lib/persistence/deepTreeEchoMemory.ts:205-210 | the `forEach` loop pushes, in list order, exactly the keywords the text includes |
| Classifiers.KeywordsSpec | app/lib/persistence/deepTreeEchoMemory.ts:205-210 | over distinct keywords, the found ones are a duplicate-free, order-preserving sublist holding exactly the keywords that occur |
| Classifiers.TopicsSpec | app/lib/persistence/deepTreeEchoMemory.ts:200-213 | the topics are a duplicate-free, order-preserving sublist of the ten keywords, holding exactly those that occur in the lower-cased text |
| Classifiers.LearningIndicatorsIff | app/lib/persistence/deepTreeEchoMemory.ts:215-220 | learning indicators are present exactly when one of the seven words occurs somewhere in the lower-cased text |
| Classifiers.AssessImportanceBySides | app/lib/persistence/deepTreeEchoMemory.ts:222-241 | first match wins: critical when either turn holds a critical word, else high when either holds a high word, else medium when the two turns have at least 500 characters together (over 500 with the separator), else low |
| Classifiers.AssessImportanceMonotone | app/lib/persistence/deepTreeEchoMemory.ts:222-241 | lengthening either turn never lowers the assessed importance |
| Classifiers.CriticalWordWins | app/lib/persistence/deepTreeEchoMemory.ts:228-230 | a critical word anywhere in the combined text gives `critical`, whatever the length |
| TagExample.ExtractTagsExample | app/lib/persistence/deepTreeEchoMemory.spec.ts:74 | the test sentence "I need help with JavaScript programming and React development" is tagged technical and assistance and nothing else |
| MemoryStore.CriticalOfEmpty | app/lib/persistence/deepTreeEchoInit.ts:62-63 | the critical records are empty exactly when no stored record is critical |
| MemoryStore.CriticalOfMembers | app/lib/persistence/deepTreeEchoMemory.ts:114 | the critical records are exactly the stored records of importance `critical` |
| MemoryStore.Database.Open | app/lib/persistence/deepTreeEchoMemory.ts:27 | `openDatabase()` yields a handle exactly when the store can be opened |
| MemoryStore.Database.Put | app/lib/persistence/deepTreeEchoMemory.ts:63 | `storeDeepTreeEchoMemory` appends the one record, or reports failure and stores nothing |
| MemoryStore.Database.GetAll | app/lib/persistence/deepTreeEchoMemory.ts:86-89 | `getDeepTreeEchoMemories` fails exactly when requests fail; otherwise it returns an order-preserving sublist of the records of the requested importance, at most `limit` long |
| MemoryStore.Database.GetCritical | app/lib/persistence/deepTreeEchoMemory.ts:114 | `getCriticalDeepTreeEchoMemories` fails exactly when requests fail; otherwise it returns every critical record and nothing else, in an order the adapter chooses (a permutation of the stored critical records) |
| MemoryContext.RenderMemoryContext | app/lib/persistence/deepTreeEchoMemory.ts:250-272 | the `context +=` steps build exactly the context block of the two lists |
| MemoryContext.AppendLines | app/lib/persistence/deepTreeEchoMemory.ts:258-260 | each `forEach` appends one `- [type] content` line per memory, in order |
| MemoryContext.AppendSection | app/lib/persistence/deepTreeEchoMemory.ts:256-268 | each `if (list.length > 0)` block appends the heading and the list's lines, or nothing for an empty list |
| MemoryContext.ContextBlockEmpty | app/lib/persistence/deepTreeEchoMemory.ts:250-252 | the block is "" exactly when both lists are empty |
| MemoryContext.ContextBlockFrame | app/lib/persistence/deepTreeEchoMemory.ts:254-270 | a non-empty block starts with the header marker and ends with the footer marker |
| MemoryContext.CriticalSectionFirst | app/lib/persistence/deepTreeEchoMemory.ts:256-261 | the "Critical Memories:" heading directly follows the header exactly when there are critical memories |
| MemoryContext.LinesInclude | app/lib/persistence/deepTreeEchoMemory.ts:258-260 | every memory's line is part of the lines of its list |
| MemoryContext.CriticalShown | app/lib/persistence/deepTreeEchoMemory.ts:256-261 | every critical memory's line appears in the block |
| EchoMemory.CriticalRecordsShown | app/lib/persistence/deepTreeEchoMemory.ts:247-261 | whatever order the critical records arrive in, every critical record of the store appears as a line of the block |
| EchoMemory.RecentLinesShown | app/lib/persistence/deepTreeEchoMemory.ts:263-268 | each of the first five recent memories appears as a line of the block, whatever the critical list |
| MemoryContext.RecentShownInBlock | app/lib/persistence/deepTreeEchoMemory.ts:263-268 | each of the first five recent memories' lines appears in the block |
| MemoryContext.RecentSectionAbsent | app/lib/persistence/deepTreeEchoMemory.ts:263-270 | with no recent memories the block is header, critical section and footer only, or "" |
| MemoryContext.LinesFirst | app/lib/persistence/deepTreeEchoMemory.ts:265-267 | the lines of a list start with its first memory's line |
| MemoryContext.RecentSectionOpens | app/lib/persistence/deepTreeEchoMemory.ts:263-267 | with recent memories, "Recent Experiences:" is followed directly by the first recent memory's line |
| EchoMemory.BuildMemory | app/lib/persistence/deepTreeEchoMemory.ts:52-60 | the record copies type, content and context, always has tags and importance, and defaults them to `[]` and `medium` |
| EchoMemory.FreshId | app/lib/persistence/deepTreeEchoMemory.ts:53 | a starting id above every id already stored |
| EchoMemory.WrittenKeepsIdsFresh | app/lib/persistence/deepTreeEchoMemory.ts:53 | records built with ids from the counter keep all ids distinct and the ids above the counter unused |
| EchoMemory.EffectiveLimit | app/lib/persistence/deepTreeEchoMemory.ts:87 | `limit \|\| 20`: a given positive limit is kept; an absent limit or 0 becomes 20 |
| EchoMemory.SelectTypesSpec | app/lib/persistence/deepTreeEchoMemory.ts:91-96 | the type filter keeps an order-preserving sublist holding exactly the fetched records of a listed type; an empty type list keeps nothing |
| EchoMemory.InquiryQuotesPrefix | app/lib/persistence/deepTreeEchoMemory.ts:148 | the experience text quotes the first min(200, length) characters of the user text |
| EchoMemory.InsightRequestsCount | app/lib/persistence/deepTreeEchoMemory.ts:124-135 | nothing is written exactly when no message is a user turn or none is an assistant turn; otherwise at most two writes |
| EchoMemory.TurnRequestsParts | app/lib/persistence/deepTreeEchoMemory.ts:145-166 | one exchange gives the experience write first, and a second, learning write of importance medium exactly when the assistant text shows a learning indicator |
| EchoMemory.InsightRequestsUseLastTurns | app/lib/persistence/deepTreeEchoMemory.ts:137-143 | the writes are those of the exchange between the last user turn and the last assistant turn by position, wherever they stand in the conversation |
| EchoMemory.MemoryService.constructor | app/lib/persistence/deepTreeEchoMemory.ts:13-15 | the service starts with no handle and with the id invariant established |
| EchoMemory.MemoryService.EnsureDatabase | app/lib/persistence/deepTreeEchoMemory.ts:25-31 | a handle once obtained is kept; without one, opening is tried again |
| EchoMemory.MemoryService.StoreMemory | app/lib/persistence/deepTreeEchoMemory.ts:36-68 | without a database nothing changes; otherwise one id is used and the built record is appended unless the adapter fails, a failure that is swallowed; ids stay unique |
| EchoMemory.MemoryService.StoreAll | app/lib/persistence/deepTreeEchoMemory.ts:146-166 | consecutive `storeMemory` calls write the built records in call order with consecutive ids |
| EchoMemory.MemoryService.GetMemoriesForContext | app/lib/persistence/deepTreeEchoMemory.ts:73-101 | `[]` without a database or on adapter failure; otherwise the type-filtered adapter answer for `limit \|\| 20`; every result is stored, of the asked importance and type, and there are at most that many |
| EchoMemory.MemoryService.GetCriticalMemories | app/lib/persistence/deepTreeEchoMemory.ts:106-119 | a permutation of the stored critical records, or `[]` without a database or on adapter failure |
| EchoMemory.MemoryService.ExtractInsightsFromConversation | app/lib/persistence/deepTreeEchoMemory.ts:124-168 | the store grows by exactly the records built from the conversation's writes, with fresh ids, or not at all without a database |
| EchoMemory.MemoryService.TurnWrites | app/lib/persistence/deepTreeEchoMemory.ts:142-166 | the tags and topics computed by the classifier methods give exactly the writes `TurnRequests` lists |
| EchoMemory.MemoryService.FetchForContext | app/lib/persistence/deepTreeEchoMemory.ts:247-248 | the critical records as a permutation and at most ten stored recent records, or both empty without a database or on adapter failure |
| EchoMemory.MemoryService.GenerateMemoryContext | app/lib/persistence/deepTreeEchoMemory.ts:246-273 | the block of the critical records, in the adapter's order, and up to ten stored recent ones; every critical record and each of the first five recent ones appears in it; "" without a database |
| MemoryInit.SeededRecords | app/lib/persistence/deepTreeEchoInit.ts:10-51 | four seeds, typed insight, learning, growth and connection; the first two critical, the last two high; each with its three tags |
| MemoryInit.SeedingMakesCritical | app/lib/persistence/deepTreeEchoInit.ts:15 | after seeding some record is critical |
| MemoryInit.EnsureTwiceSeedsOnce | app/lib/persistence/deepTreeEchoInit.ts:73-79 | on a working store a second ensure changes nothing, and the two together add four records exactly when no critical record existed |
| MemoryInit.EnsureOnUnusableStore | app/lib/persistence/deepTreeEchoInit.ts:73-79 | without a database nothing changes; with a failing adapter the seeds are retried and nothing is written |
| MemoryInit.InitializeDeepTreeEchoMemories | app/lib/persistence/deepTreeEchoInit.ts:7-55 | the four seeds go through `storeMemory`, in order, with consecutive ids |
| MemoryInit.AreMemoriesInitialized | app/lib/persistence/deepTreeEchoInit.ts:60-68 | true exactly when a database is available, the adapter works and some stored record is critical |
| MemoryInit.EnsureMemoriesInitialized | app/lib/persistence/deepTreeEchoInit.ts:73-79 | the store and counter move as `EnsureOutcome` says: seeding only when no critical record can be read |

## Left out

- The IndexedDB adapter (`./db`) is not part of this model. `MemoryStore.Database` stands in for it: an append-only list of records plus two flags, "can be opened" and "requests fail". `GetAll` may return any order-preserving sublist of at most `limit` matching records, and `GetCritical` the critical records in any order. Their bodies make one particular choice, and callers rely only on the contracts.
- `nanoid()` is a counter of natural numbers, so ids are numbers rather than strings. `new Date().toISOString()` is the parameter `now`.
- The logger and `console.warn` calls are diagnostics only. They are left out.
- `async`/`await` are left out: every operation is a sequential method call. A rejected read request is the `None` answer of `GetAll` or `GetCritical`, and a rejected write makes `Put` return false.
- `toLowerCase` lowers only the ASCII capitals A-Z. `substring(0, 200)` counts characters, not UTF-16 code units.
- The `Message` type of the `ai` library is reduced to its `role` and `content`. Content is either a string or parts, each with a kind and an optional text.
- The `getInstance` singleton is not modelled. The model uses one explicit `MemoryService` object over one `Database`.
- `Snapshot` in `types.ts` is not modelled, because `FileMap` is not part of this model. The workflow test `deep-tree-echo-workflow.spec.ts` checks a CI file and holds no logic.
- The record's `type` field is named `kind`, because `type` is a Dafny keyword.
- Limits are natural numbers. Negative and fractional limits are not modelled.
- MemoryStore.Database.Open: `openDatabase()` is taken to resolve, with a handle or `undefined`, and never to reject. In the source, `_ensureDatabase` runs before the `try` of `storeMemory`, `getMemoriesForContext` and `getCriticalMemories` (deepTreeEchoMemory.ts:45, :78, :107), so a rejection escapes them. Only the `catch` blocks of `initializeDeepTreeEchoMemories` (deepTreeEchoInit.ts:52) and `areMemoriesInitialized` (deepTreeEchoInit.ts:64) would stop it: the first skips the remaining seeds, the second answers false. `extractInsightsFromConversation` and `generateMemoryContext` pass it on to their callers. None of these paths is modelled, and those two `catch` blocks are not modelled either. The put and get requests themselves are caught inside `storeMemory` and `getCriticalMemories`, and the model keeps those catches.
- EchoMemory.MemoryService.StoreAll: one `now` is used for every write of a call. The source reads `new Date().toISOString()` again in each `storeMemory` call (deepTreeEchoMemory.ts:54).
- EchoMemory.MemoryService.ExtractInsightsFromConversation: its two records share one timestamp, for the reason given for StoreAll.
- MemoryInit.InitializeDeepTreeEchoMemories: the four seeds share one timestamp, for the reason given for StoreAll.
- Classifiers.AssessImportance: the `combinedText.length > 500` threshold counts characters of the lower-cased text, not UTF-16 code units (deepTreeEchoMemory.ts:236).
- EchoMemory.MemoryService.constructor requires the store's ids to be distinct. The object store is keyed by `id`.
- EchoMemory.MemoryService.ExtractInsightsFromConversation: the adapter's failure flag is taken to be the same for both writes of one conversation. The flags do not change between calls.
