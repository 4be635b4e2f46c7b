/**
 * `DeepTreeEchoMemoryService` of app/lib/persistence/deepTreeEchoMemory.ts: record
 * construction with defaults, retrieval through the storage adapter, insight
 * extraction from a conversation, and the prompt context block.
 */
module EchoMemory {
  import opened Wrappers
  import opened Seqs
  import opened Text
  import opened MemoryTypes
  import opened Messages
  import opened Classifiers
  import opened MemoryStore
  import opened MemoryContext

  /** The optional second argument of `storeMemory`. */
  datatype StoreOptions = StoreOptions(context: Option<string>, tags: Option<seq<string>>, importance: Option<Importance>)

  /** One call `storeMemory(type, content, options)`. */
  datatype StoreRequest = StoreRequest(kind: MemoryType, content: string, options: StoreOptions)

  /** The record `storeMemory` builds, with `id` from the id source and `now` from the clock. */
  function BuildMemory(id: nat, now: string, req: StoreRequest): (m: Memory)
    ensures m.id == id && m.timestamp == now
    ensures m.kind == req.kind && m.content == req.content && m.context == req.options.context
    ensures m.tags.Some? && m.importance.Some?
    ensures m.tags == if req.options.tags.Some? then req.options.tags else Some([])
    ensures m.importance == if req.options.importance.Some? then req.options.importance else Some(Medium)
  {
    Memory(id, now, req.kind, req.content, req.options.context,
           Some(req.options.tags.GetOr([])), Some(req.options.importance.GetOr(Medium)))
  }

  /** The records a run of `storeMemory` calls builds, with consecutive ids from `id`. */
  function BuildAll(id: nat, now: string, reqs: seq<StoreRequest>): (ms: seq<Memory>)
    ensures |ms| == |reqs|
    ensures forall i :: 0 <= i < |reqs| ==> ms[i] == BuildMemory(id + i, now, reqs[i])
  {
    seq(|reqs|, i requires 0 <= i < |reqs| => BuildMemory(id + i, now, reqs[i]))
  }

  lemma BuildAllAppend(id: nat, now: string, a: seq<StoreRequest>, b: seq<StoreRequest>)
    ensures BuildAll(id, now, a + b) == BuildAll(id, now, a) + BuildAll(id + |a|, now, b)
  {
    assert forall i :: 0 <= i < |a + b| ==> BuildAll(id, now, a + b)[i] == (BuildAll(id, now, a) + BuildAll(id + |a|, now, b))[i];
  }

  /** What reaches the store from those calls: nothing while its requests fail. */
  function Written(ioFails: bool, id: nat, now: string, reqs: seq<StoreRequest>): seq<Memory> {
    if ioFails then [] else BuildAll(id, now, reqs)
  }

  /** Before the first call nothing has been written. */
  lemma WrittenNone(records: seq<Memory>, ioFails: bool, id: nat, now: string, reqs: seq<StoreRequest>)
    requires reqs == []
    ensures records + Written(ioFails, id, now, reqs) == records
  {
  }

  /** One more call writes its record after those of the calls before it. */
  lemma WrittenStep(records0: seq<Memory>, records: seq<Memory>, ioFails: bool, id: nat, now: string, reqs: seq<StoreRequest>, i: nat)
    requires i < |reqs|
    ensures records == records0 + Written(ioFails, id, now, reqs[..i]) ==>
              records + Written(ioFails, id + i, now, [reqs[i]]) == records0 + Written(ioFails, id, now, reqs[..i + 1])
  {
    assert reqs[..i + 1] == reqs[..i] + [reqs[i]];
    BuildAllAppend(id, now, reqs[..i], [reqs[i]]);
  }

  /** No two stored records share an id (the object store is keyed by `id`). */
  ghost predicate IdsDistinct(records: seq<Memory>) {
    forall i, j :: 0 <= i < j < |records| ==> records[i].id != records[j].id
  }

  /** Ids are distinct and every id the source will hand out from `nextId` on is unused. */
  ghost predicate IdsFresh(records: seq<Memory>, nextId: nat) {
    IdsDistinct(records) && forall i :: 0 <= i < |records| ==> records[i].id < nextId
  }

  /** An id above every stored one. */
  function FreshId(records: seq<Memory>): (r: nat)
    ensures forall i :: 0 <= i < |records| ==> records[i].id < r
  {
    if records == [] then 0
    else
      var rest := FreshId(records[..|records| - 1]);
      var last := records[|records| - 1].id + 1;
      if rest < last then last else rest
  }

  /** Writing records built with fresh ids keeps every id unique, and the ids past them fresh. */
  lemma WrittenKeepsIdsFresh(records: seq<Memory>, nextId: nat, ioFails: bool, now: string, reqs: seq<StoreRequest>)
    requires IdsFresh(records, nextId)
    ensures IdsFresh(records + Written(ioFails, nextId, now, reqs), nextId + |reqs|)
  {
    var all := records + Written(ioFails, nextId, now, reqs);
    forall i | 0 <= i < |all| ensures all[i].id < nextId + |reqs| && (i >= |records| ==> all[i].id == nextId + i - |records|) {
      if i >= |records| {
        assert all[i] == BuildAll(nextId, now, reqs)[i - |records|];
      }
    }
  }

  /** `options?.limit || 20`: an absent limit and a limit of 0 both become 20. */
  const DefaultLimit: nat := 20

  function EffectiveLimit(limit: Option<nat>): (r: nat)
    ensures r > 0
    ensures limit.Some? && limit.value > 0 ==> r == limit.value
    ensures limit == None || limit == Some(0) ==> r == DefaultLimit
  {
    match limit
    case Some(n) => if n > 0 then n else DefaultLimit
    case None => DefaultLimit
  }

  /** The `includeTypes` filter: kept as fetched when absent, else the records of the listed types. */
  function SelectTypes(fetched: seq<Memory>, includeTypes: Option<seq<MemoryType>>): (r: seq<Memory>)
  {
    match includeTypes
    case None => fetched
    case Some(types) => Filter(fetched, (m: Memory) => m.kind in types)
  }

  /**
   * The selection is an order-preserving sublist of what was fetched, holding exactly the
   * fetched records of a listed type; an empty `includeTypes` array (which is truthy)
   * selects nothing.
   */
  lemma SelectTypesSpec(fetched: seq<Memory>, includeTypes: Option<seq<MemoryType>>, m: Memory)
    ensures IsSubsequence(SelectTypes(fetched, includeTypes), fetched)
    ensures |SelectTypes(fetched, includeTypes)| <= |fetched|
    ensures m in SelectTypes(fetched, includeTypes) <==> m in fetched && (includeTypes.Some? ==> m.kind in includeTypes.value)
    ensures includeTypes == Some([]) ==> SelectTypes(fetched, includeTypes) == []
  {
    match includeTypes
    case None =>
      PrefixIsSubsequence(fetched, |fetched|);
      assert fetched[..|fetched|] == fetched;
    case Some(types) =>
      var p := (m: Memory) => m.kind in types;
      FilterIsSubsequence(fetched, p);
      FilterMembers(fetched, p, m);
      if types == [] {
        FilterEmpty(fetched, p);
      }
  }

  /** The experience text quotes the user text between these two pieces. */
  const InquiryOpen: string := "User inquiry: \""
  const InquiryClose: string := "...\" led to exploration of concepts and collaborative problem-solving."

  /** `userContent.substring(0, 200)`. */
  const QuoteLength: nat := 200

  function InquiryText(user: string): string {
    InquiryOpen + Take(user, QuoteLength) + InquiryClose
  }

  /** The quoted part is the first min(200, |user|) characters of the user text. */
  lemma InquiryQuotesPrefix(user: string)
    ensures var t := InquiryText(user);
            && |InquiryOpen| + |InquiryClose| <= |t|
            && var q := t[|InquiryOpen|..|t| - |InquiryClose|];
               q <= user && |q| == if |user| < QuoteLength then |user| else QuoteLength
  {
    var t := InquiryText(user);
    var q := Take(user, QuoteLength);
    assert t == InquiryOpen + q + InquiryClose;
    assert t[|InquiryOpen|..|t| - |InquiryClose|] == q;
  }

  /** `Gained insight from interaction about ${topics.join(', ')}`. */
  function LearningText(topics: seq<string>): string {
    "Gained insight from interaction about " + Join(topics, ", ")
  }

  /** The experience write for the last user and assistant texts. */
  function ExperienceRequest(user: string, assistant: string): StoreRequest {
    StoreRequest(Experience, InquiryText(user),
                 StoreOptions(Some("conversation"), Some(Classify(ToLower(user), TagRules)), Some(AssessImportance(user, assistant))))
  }

  /** The learning write naming the topics of the user text. */
  function LearningRequest(user: string): StoreRequest {
    StoreRequest(Learning, LearningText(Classify(ToLower(user), KeywordRules(TopicKeywords))),
                 StoreOptions(Some("reflective_learning"), None, Some(Medium)))
  }

  /** The writes for one exchange: the experience, then the learning write when the assistant shows a learning indicator. */
  function TurnRequests(user: string, assistant: string): seq<StoreRequest> {
    [ExperienceRequest(user, assistant)] + if ContainsLearningIndicators(assistant) then [LearningRequest(user)] else []
  }

  /** The `storeMemory` calls `extractInsightsFromConversation` makes, in order. */
  function InsightRequests(messages: seq<Message>): seq<StoreRequest> {
    var users := OfRole(messages, User);
    var assistants := OfRole(messages, Assistant);
    if |messages| == 0 || |users| == 0 || |assistants| == 0 then []
    else TurnRequests(ExtractTextContent(users[|users| - 1]), ExtractTextContent(assistants[|assistants| - 1]))
  }

  /** One exchange gives the experience write, then the learning write exactly when indicated. */
  lemma TurnRequestsParts(user: string, assistant: string)
    ensures var r := TurnRequests(user, assistant);
            && |r| == (if ContainsLearningIndicators(assistant) then 2 else 1)
            && r[0] == ExperienceRequest(user, assistant)
            && (|r| == 2 ==> r[1] == LearningRequest(user))
  {
  }

  /** Nothing is written without both a user turn and an assistant turn; otherwise one or two writes. */
  lemma InsightRequestsCount(messages: seq<Message>)
    ensures InsightRequests(messages) == [] <==>
            (forall i :: 0 <= i < |messages| ==> messages[i].role != User) ||
            (forall i :: 0 <= i < |messages| ==> messages[i].role != Assistant)
    ensures |InsightRequests(messages)| <= 2
  {
    OfRoleEmpty(messages, User);
    OfRoleEmpty(messages, Assistant);
    var users := OfRole(messages, User);
    var assistants := OfRole(messages, Assistant);
    if |messages| > 0 && |users| > 0 && |assistants| > 0 {
      TurnRequestsParts(ExtractTextContent(users[|users| - 1]), ExtractTextContent(assistants[|assistants| - 1]));
    }
  }

  /**
   * With `u` the position of the last user turn and `a` that of the last assistant turn,
   * the writes are those of the exchange between the two: an experience, and a learning
   * write when indicated (`TurnRequestsParts`).
   */
  lemma InsightRequestsUseLastTurns(messages: seq<Message>, u: nat, a: nat)
    requires u < |messages| && messages[u].role == User
    requires forall j :: u < j < |messages| ==> messages[j].role != User
    requires a < |messages| && messages[a].role == Assistant
    requires forall j :: a < j < |messages| ==> messages[j].role != Assistant
    ensures InsightRequests(messages) == TurnRequests(ExtractTextContent(messages[u]), ExtractTextContent(messages[a]))
  {
    var users := OfRole(messages, User);
    var assistants := OfRole(messages, Assistant);
    OfRoleEmpty(messages, User);
    OfRoleEmpty(messages, Assistant);
    LastOfRoleIsLastByPosition(messages, User);
    LastOfRoleIsLastByPosition(messages, Assistant);
    var k :| && 0 <= k < |messages| && messages[k] == users[|users| - 1] && messages[k].role == User
             && forall j :: k < j < |messages| ==> messages[j].role != User;
    var l :| && 0 <= l < |messages| && messages[l] == assistants[|assistants| - 1] && messages[l].role == Assistant
             && forall j :: l < j < |messages| ==> messages[j].role != Assistant;
    assert k == u;
    assert l == a;
  }

  /**
   * Whatever order the adapter returns the critical records in, each critical record
   * of the store is a bullet of the block.
   */
  lemma CriticalRecordsShown(records: seq<Memory>, critical: seq<Memory>, recent: seq<Memory>)
    requires multiset(critical) == multiset(CriticalOf(records))
    ensures forall m :: m in records && IsCritical(m) ==> Includes(ContextBlock(critical, recent), Line(m))
  {
    forall m | m in records && IsCritical(m)
      ensures Includes(ContextBlock(critical, recent), Line(m))
    {
      CriticalOfMembers(records, m);
      assert m in multiset(critical);
      var i :| 0 <= i < |critical| && critical[i] == m;
      CriticalShown(critical, recent, i);
    }
  }

  /** Each of the first five recent memories is a bullet of the block, whatever the critical list. */
  lemma RecentLinesShown(critical: seq<Memory>, recent: seq<Memory>)
    ensures forall i :: 0 <= i < |recent| && i < RecentShown ==> Includes(ContextBlock(critical, recent), Line(recent[i]))
  {
    forall i | 0 <= i < |recent| && i < RecentShown
      ensures Includes(ContextBlock(critical, recent), Line(recent[i]))
    {
      RecentShownInBlock(critical, recent, i);
    }
  }

  class MemoryService {
    /** The storage adapter the service writes through. */
    const db: Database
    /** `_db` is set: a handle has been obtained and is kept. */
    var connected: bool
    /** The next id `nanoid()` stands for. */
    var nextId: nat

    ghost predicate Valid()
      reads this`nextId, db`records
    {
      IdsFresh(db.records, nextId)
    }

    /** A service over a store whose records are keyed by id; `_db` starts unset. */
    constructor (db: Database)
      requires IdsDistinct(db.records)
      ensures this.db == db && !connected && Valid()
    {
      this.db := db;
      connected := false;
      nextId := FreshId(db.records);
    }

    /** `_ensureDatabase`: keeps a handle once obtained, otherwise tries to open again. */
    method EnsureDatabase() returns (ok: bool)
      modifies this`connected
      ensures connected == (old(connected) || db.openable)
      ensures ok == connected
    {
      if !connected {
        connected := db.Open();
      }
      ok := connected;
    }

    /**
     * `storeMemory`: with no database nothing happens; otherwise one id is consumed and the
     * record is appended unless the adapter fails, in which case the failure is swallowed.
     */
    method StoreMemory(kind: MemoryType, content: string, options: StoreOptions, now: string)
      requires Valid()
      modifies this`connected, this`nextId, db`records
      ensures Valid()
      ensures connected == (old(connected) || db.openable)
      ensures !connected ==> nextId == old(nextId) && db.records == old(db.records)
      ensures connected ==> nextId == old(nextId) + 1
      ensures connected ==> db.records == old(db.records) + Written(db.ioFails, old(nextId), now, [StoreRequest(kind, content, options)])
    {
      var ok := EnsureDatabase();
      if !ok {
        return;
      }
      var req := StoreRequest(kind, content, options);
      var memory := BuildMemory(nextId, now, req);
      WrittenKeepsIdsFresh(db.records, nextId, db.ioFails, now, [req]);
      assert Written(db.ioFails, nextId, now, [req]) == if db.ioFails then [] else [memory];
      nextId := nextId + 1;
      var stored := db.Put(memory);
    }

    /** `storeMemory` called on each request in turn. */
    method StoreAll(reqs: seq<StoreRequest>, now: string)
      requires Valid()
      modifies this`connected, this`nextId, db`records
      ensures Valid()
      ensures connected == (old(connected) || (reqs != [] && db.openable))
      ensures !connected ==> nextId == old(nextId) && db.records == old(db.records)
      ensures connected ==> nextId == old(nextId) + |reqs|
      ensures connected ==> db.records == old(db.records) + Written(db.ioFails, old(nextId), now, reqs)
    {
      var i := 0;
      while i < |reqs|
        invariant 0 <= i <= |reqs| && Valid()
        invariant connected == (old(connected) || (i > 0 && db.openable))
        invariant !connected ==> nextId == old(nextId) && db.records == old(db.records)
        invariant connected ==> nextId == old(nextId) + i
        invariant connected ==> db.records == old(db.records) + Written(db.ioFails, old(nextId), now, reqs[..i])
      {
        if i == 0 {
          WrittenNone(old(db.records), db.ioFails, old(nextId), now, reqs[..i]);
        }
        WrittenStep(old(db.records), db.records, db.ioFails, old(nextId), now, reqs, i);
        StoreMemory(reqs[i].kind, reqs[i].content, reqs[i].options, now);
        i := i + 1;
      }
      assert reqs[..|reqs|] == reqs;
    }

    /**
     * `getMemoriesForContext`: `[]` without a database or when the adapter fails; otherwise
     * the adapter's answer for `limit || 20` and `importance`, filtered by `includeTypes`.
     */
    method GetMemoriesForContext(limit: Option<nat>, includeTypes: Option<seq<MemoryType>>, importance: Option<Importance>)
      returns (r: seq<Memory>, ghost fetched: seq<Memory>)
      modifies this`connected
      ensures connected == (old(connected) || db.openable)
      ensures !connected || db.ioFails ==> r == []
      ensures connected && !db.ioFails ==>
                && IsSubsequence(fetched, WithImportance(db.records, importance))
                && |fetched| <= EffectiveLimit(limit)
                && r == SelectTypes(fetched, includeTypes)
      ensures |r| <= EffectiveLimit(limit)
      ensures forall m :: m in r ==>
                && m in db.records
                && (importance.Some? ==> m.importance == importance)
                && (includeTypes.Some? ==> m.kind in includeTypes.value)
    {
      fetched := [];
      var ok := EnsureDatabase();
      if !ok {
        return [], fetched;
      }
      var got := db.GetAll(EffectiveLimit(limit), importance);
      if got.None? {
        return [], fetched;
      }
      var memories := got.value;
      fetched := memories;
      r := SelectTypes(memories, includeTypes);
      forall m | m in r
        ensures m in db.records
        ensures importance.Some? ==> m.importance == importance
        ensures includeTypes.Some? ==> m.kind in includeTypes.value
      {
        SelectTypesSpec(fetched, includeTypes, m);
        SubsequenceMembers(fetched, WithImportance(db.records, importance), m);
        if importance.Some? {
          FilterMembers(db.records, (x: Memory) => x.importance == importance, m);
        }
      }
      SelectTypesSpec(fetched, includeTypes, Memory(0, [], Experience, [], None, None, None));
    }

    /**
     * `getCriticalMemories`: every critical record, in the adapter's order, or `[]`
     * without a database or when the adapter fails.
     */
    method GetCriticalMemories() returns (r: seq<Memory>)
      modifies this`connected
      ensures connected == (old(connected) || db.openable)
      ensures connected && !db.ioFails ==> multiset(r) == multiset(CriticalOf(db.records))
      ensures !connected || db.ioFails ==> r == []
    {
      var ok := EnsureDatabase();
      if !ok {
        return [];
      }
      var got := db.GetCritical();
      r := got.GetOr([]);
    }

    /**
     * `extractInsightsFromConversation`: issues the writes `InsightRequests` lists,
     * through `storeMemory`.
     */
    method ExtractInsightsFromConversation(messages: seq<Message>, now: string)
      requires Valid()
      modifies this`connected, this`nextId, db`records
      ensures Valid()
      ensures var reqs := InsightRequests(messages);
              && connected == (old(connected) || (reqs != [] && db.openable))
              && (!connected ==> nextId == old(nextId) && db.records == old(db.records))
              && (connected ==> nextId == old(nextId) + |reqs|)
              && (connected ==> db.records == old(db.records) + Written(db.ioFails, old(nextId), now, reqs))
    {
      if |messages| == 0 {
        return;
      }
      var users := OfRole(messages, User);
      var assistants := OfRole(messages, Assistant);
      if |users| == 0 || |assistants| == 0 {
        return;
      }
      var userContent := ExtractTextContent(users[|users| - 1]);
      var assistantContent := ExtractTextContent(assistants[|assistants| - 1]);
      var reqs := TurnWrites(userContent, assistantContent);
      StoreAll(reqs, now);
    }

    /** The two `storeMemory` calls of `extractInsightsFromConversation`, before they are issued. */
    method TurnWrites(userContent: string, assistantContent: string) returns (reqs: seq<StoreRequest>)
      ensures reqs == TurnRequests(userContent, assistantContent)
    {
      var tags := ExtractTags(userContent);
      var experience := StoreRequest(Experience, InquiryText(userContent),
                                     StoreOptions(Some("conversation"), Some(tags), Some(AssessImportance(userContent, assistantContent))));
      var learning := [];
      if ContainsLearningIndicators(assistantContent) {
        var topics := ExtractKeyTopics(userContent);
        learning := [StoreRequest(Learning, LearningText(topics), StoreOptions(Some("reflective_learning"), None, Some(Medium)))];
      }
      reqs := [experience] + learning;
    }

    /**
     * `generateMemoryContext`: fetches the critical records and up to ten recent ones and
     * renders them. Every critical record shows up as a bullet of the block.
     */
    method GenerateMemoryContext() returns (context: string, ghost critical: seq<Memory>, ghost recent: seq<Memory>)
      modifies this`connected
      ensures connected == (old(connected) || db.openable)
      ensures !connected || db.ioFails ==> critical == [] && recent == [] && context == ""
      ensures connected && !db.ioFails ==>
                && multiset(critical) == multiset(CriticalOf(db.records))
                && IsSubsequence(recent, db.records) && |recent| <= 10
                && context == ContextBlock(critical, recent)
      ensures forall i :: 0 <= i < |recent| && i < RecentShown ==> Includes(context, Line(recent[i]))
      ensures connected && !db.ioFails ==>
                forall m :: m in db.records && IsCritical(m) ==> Includes(context, Line(m))
    {
      var shown, r := FetchForContext();
      critical, recent := shown, r;
      context := RenderMemoryContext(shown, r);
      RecentLinesShown(critical, r);
      if connected && !db.ioFails {
        CriticalRecordsShown(db.records, critical, r);
      }
    }

    /** The two reads of `generateMemoryContext`: the critical records and ten recent ones. */
    method FetchForContext() returns (critical: seq<Memory>, recent: seq<Memory>)
      modifies this`connected
      ensures connected == (old(connected) || db.openable)
      ensures !connected || db.ioFails ==> critical == [] && recent == []
      ensures connected && !db.ioFails ==>
                && multiset(critical) == multiset(CriticalOf(db.records))
                && IsSubsequence(recent, db.records) && |recent| <= 10
    {
      critical := GetCriticalMemories();
      ghost var fetched;
      recent, fetched := GetMemoriesForContext(Some(10), None, None);
    }
  }
}
