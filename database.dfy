/**
 * The storage adapter the service calls (`openDatabase`, `storeDeepTreeEchoMemory`,
 * `getDeepTreeEchoMemories`, `getCriticalDeepTreeEchoMemories`), whose code is not
 * part of this model. It is abstracted as an append-only list of records, a flag
 * saying whether the database can be opened, and a flag saying whether its
 * requests currently fail.
 */
module MemoryStore {
  import opened Wrappers
  import opened Seqs
  import opened MemoryTypes

  /** The records whose importance is `importance`, or all of them when none is given. */
  function WithImportance(records: seq<Memory>, importance: Option<Importance>): (r: seq<Memory>)
  {
    match importance
    case None => records
    case Some(level) => Filter(records, (m: Memory) => m.importance == Some(level))
  }

  /** The records stored with importance `critical`. */
  function CriticalOf(records: seq<Memory>): (r: seq<Memory>)
  {
    Filter(records, IsCritical)
  }

  /** Some stored record is critical. */
  predicate HasCritical(records: seq<Memory>) {
    exists i :: 0 <= i < |records| && IsCritical(records[i])
  }

  lemma CriticalOfEmpty(records: seq<Memory>)
    ensures CriticalOf(records) == [] <==> !HasCritical(records)
  {
    FilterEmpty(records, IsCritical);
  }

  /** Every record `CriticalOf` returns is critical, and it returns every critical record. */
  lemma CriticalOfMembers(records: seq<Memory>, m: Memory)
    ensures m in CriticalOf(records) <==> m in records && m.importance == Some(Critical)
  {
    FilterMembers(records, IsCritical, m);
  }

  class Database {
    /** The object store's contents; records are only ever appended. */
    var records: seq<Memory>
    /** Whether `openDatabase()` yields a handle. */
    var openable: bool
    /** Whether individual requests currently fail (the adapter's thrown errors). */
    var ioFails: bool

    constructor (openable: bool, ioFails: bool)
      ensures this.records == [] && this.openable == openable && this.ioFails == ioFails
    {
      this.records := [];
      this.openable := openable;
      this.ioFails := ioFails;
    }

    /** `openDatabase()`: a handle, or nothing when the store cannot be opened. */
    method Open() returns (ok: bool)
      ensures ok == openable
    {
      ok := openable;
    }

    /** `storeDeepTreeEchoMemory`: appends one record, or fails and stores nothing. */
    method Put(m: Memory) returns (ok: bool)
      modifies this`records
      ensures ok == !ioFails
      ensures records == if ok then old(records) + [m] else old(records)
    {
      ok := !ioFails;
      if ok {
        records := records + [m];
      }
    }

    /**
     * `getDeepTreeEchoMemories(db, { limit, importance })`: some of the matching
     * records, at most `limit` of them, in stored order. Which ones is the
     * adapter's choice; callers may rely only on this contract.
     */
    method GetAll(limit: nat, importance: Option<Importance>) returns (r: Option<seq<Memory>>)
      ensures r.None? <==> ioFails
      ensures r.Some? ==> IsSubsequence(r.value, WithImportance(records, importance)) && |r.value| <= limit
    {
      if ioFails {
        r := None;
      } else {
        var matching := WithImportance(records, importance);
        var n := if |matching| < limit then |matching| else limit;
        PrefixIsSubsequence(matching, n);
        r := Some(matching[..n]);
      }
    }

    /**
     * `getCriticalDeepTreeEchoMemories(db)`: all critical records, unlimited, in an
     * order of the adapter's choosing.
     */
    method GetCritical() returns (r: Option<seq<Memory>>)
      ensures r.None? <==> ioFails
      ensures r.Some? ==> multiset(r.value) == multiset(CriticalOf(records))
    {
      if ioFails {
        r := None;
      } else {
        r := Some(CriticalOf(records));
      }
    }
  }
}
