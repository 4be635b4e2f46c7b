/** The `DeepTreeEchoMemory` record of app/lib/persistence/types.ts. */
module MemoryTypes {
  import opened Wrappers

  /** The closed `type` enumeration. */
  datatype MemoryType = Experience | Insight | Learning | Connection | Growth

  /** The closed `importance` enumeration. */
  datatype Importance = Low | Medium | High | Critical

  /**
   * One memory record. `id`, `timestamp`, `type` and `content` are required;
   * `context`, `tags` and `importance` are optional in the record type.
   * The id is a natural number standing in for the `nanoid()` string.
   */
  datatype Memory = Memory(
    id: nat,
    timestamp: string,
    kind: MemoryType,
    content: string,
    context: Option<string>,
    tags: Option<seq<string>>,
    importance: Option<Importance>)

  /** The string the record carries in its `type` field. */
  function TypeName(t: MemoryType): (r: string)
    ensures r != []
  {
    match t
    case Experience => "experience"
    case Insight => "insight"
    case Learning => "learning"
    case Connection => "connection"
    case Growth => "growth"
  }

  /** Reads a `type` string back; anything outside the enumeration is rejected. */
  function ParseType(s: string): (r: Option<MemoryType>)
  {
    if s == "experience" then Some(Experience)
    else if s == "insight" then Some(Insight)
    else if s == "learning" then Some(Learning)
    else if s == "connection" then Some(Connection)
    else if s == "growth" then Some(Growth)
    else None
  }

  /** The stored `type` strings name the five kinds one-to-one, and no other string is a kind. */
  lemma TypeNameRoundTrip(t: MemoryType, s: string)
    ensures ParseType(TypeName(t)) == Some(t)
    ensures ParseType(s) == Some(t) ==> s == TypeName(t)
  {
  }

  /** The ordinal reading low < medium < high < critical. */
  function Rank(i: Importance): (r: nat)
    ensures r <= 3
  {
    match i
    case Low => 0
    case Medium => 1
    case High => 2
    case Critical => 3
  }

  predicate IsCritical(m: Memory) {
    m.importance == Some(Critical)
  }
}
