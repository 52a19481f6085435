/**
 What the emitted `<requireFn>.pfc(chunkId)` function does when application
 code calls it in the browser: resolve the argument through the embedded
 name -> id table (when one was emitted), then, unless the chunk already has
 an entry in the bootstrap's `installedChunks` table, mark it pending and
 emit one prefetch link for it.

 The link itself (the host's `linkPrefetch` snippet and
 `document.head.appendChild`) is recorded as an event: the resolved chunk id
 is appended to a log.
 */
module Runtime {
  import opened Options
  import opened NameMap

  /**
   A value of the bootstrap's `installedChunks` table. `null` marks a chunk
   whose prefetch is pending; the host's own loader later writes the
   installed marker. An absent key is a chunk nobody asked for yet.
   */
  datatype InstallState = Pending | Installed

  /** The part of the browser's state the emitted function reads and writes. */
  datatype Browser = Browser(installedChunks: map<ChunkId, InstallState>, linksEmitted: seq<ChunkId>)

  /**
   The emitted function, as far as it varies between builds: whether it
   starts with the translation statement, and with which table.
   */
  datatype PrefetchFn = PrefetchFn(table: Option<map<ChunkName, ChunkId>>)

  /** The function the generator emits for a given id -> name input. */
  function Plan(pairs: seq<ChunkEntry>): (f: PrefetchFn)
    ensures f.table.Some? <==> SomeIdIsNotItsName(pairs)
    ensures f.table.Some? ==> f.table.value.Keys == Names(pairs)
  {
    if NeedsMap(pairs) then PrefetchFn(Some(Invert(pairs))) else PrefetchFn(None)
  }

  /**
   The table the emitted function looks names up in is the one whose
   entries the translation statement spells out.
   */
  lemma PlannedTableIsSerialised(pairs: seq<ChunkEntry>)
    ensures Plan(pairs).table.Some? ==> ListsTable(TableEntries(pairs), Plan(pairs).table.value)
  {
  }

  /**
   `chunkId = <table>[chunkId]||chunkId;`: a key of the table is replaced by
   the id it maps to, anything else passes through. Without the statement
   the argument is used as it is.
   */
  function Resolve(f: PrefetchFn, arg: string): (id: ChunkId)
    ensures id != arg ==> f.table.Some? && arg in f.table.value
    ensures f.table.Some? && arg in f.table.value ==> id in f.table.value.Values
  {
    match f.table
    case None => arg
    case Some(table) => if arg in table then table[arg] else arg
  }

  /**
   One call of the emitted function. The guard
   `installedChunks[chunkId] === undefined` lets a call through only for a
   chunk with no entry yet; such a call sets the entry to pending and emits
   exactly one link. Every other entry is left as it was.
   */
  function PrefetchChunk(f: PrefetchFn, b: Browser, arg: string): (r: Browser)
    ensures Resolve(f, arg) in r.installedChunks
    ensures Resolve(f, arg) in b.installedChunks ==> r == b
    ensures Resolve(f, arg) !in b.installedChunks ==>
              r.installedChunks[Resolve(f, arg)] == Pending && r.linksEmitted == b.linksEmitted + [Resolve(f, arg)]
    ensures forall k :: k != Resolve(f, arg) ==> (k in r.installedChunks <==> k in b.installedChunks)
    ensures forall k :: k != Resolve(f, arg) && k in b.installedChunks ==> r.installedChunks[k] == b.installedChunks[k]
  {
    var chunkId := Resolve(f, arg);
    if chunkId !in b.installedChunks then
      Browser(b.installedChunks[chunkId := Pending], b.linksEmitted + [chunkId])
    else
      b
  }

  /**
   A sequence of calls, in order. Calls only ever add entries and links:
   what was in the table stays, and the earlier log is a prefix of the new.
   */
  function PrefetchAll(f: PrefetchFn, b: Browser, args: seq<string>): (r: Browser)
    ensures b.installedChunks.Keys <= r.installedChunks.Keys
    ensures b.linksEmitted <= r.linksEmitted
    decreases |args|
  {
    if |args| == 0 then b else PrefetchAll(f, PrefetchChunk(f, b, args[0]), args[1..])
  }

  /** The chunk ids a sequence of calls resolves to. */
  function Requested(f: PrefetchFn, args: seq<string>): set<ChunkId>
  {
    set i | 0 <= i < |args| :: Resolve(f, args[i])
  }

  /** The browser state before any call: no chunk requested, no link emitted. */
  const Fresh := Browser(map[], [])

  /**
   Whatever name -> id decision the generator made, resolving means: a name
   from the input turns into the id of the last entry carrying it, and any
   other argument is taken to be an id already. When no table was emitted
   every id equals its name, so the shortcut changes no outcome.
   */
  lemma ResolveMeaning(pairs: seq<ChunkEntry>, arg: string)
    ensures arg !in Names(pairs) ==> Resolve(Plan(pairs), arg) == arg
    ensures forall i :: 0 <= i < |pairs| && pairs[i].1 == arg && IsLastWrite(pairs, i) ==>
              Resolve(Plan(pairs), arg) == pairs[i].0
  {
  }

  /**
   A second call with the same argument changes nothing and emits nothing:
   the first call left an entry behind, and the guard stops the second.
   */
  lemma PrefetchIdempotent(f: PrefetchFn, b: Browser, arg: string)
    ensures PrefetchChunk(f, PrefetchChunk(f, b, arg), arg) == PrefetchChunk(f, b, arg)
  {
  }

  /** No link is emitted twice, and every emitted link has a table entry. */
  ghost predicate Consistent(b: Browser)
  {
    && (forall i, j :: 0 <= i < j < |b.linksEmitted| ==> b.linksEmitted[i] != b.linksEmitted[j])
    && (forall i :: 0 <= i < |b.linksEmitted| ==> b.linksEmitted[i] in b.installedChunks)
  }

  /** A single call keeps the log consistent with the table. */
  lemma PrefetchKeepsConsistent(f: PrefetchFn, b: Browser, arg: string)
    requires Consistent(b)
    ensures Consistent(PrefetchChunk(f, b, arg))
  {
  }

  /** The chunks a run requests: the first call's, then the rest's. */
  lemma RequestedCons(f: PrefetchFn, args: seq<string>)
    requires |args| > 0
    ensures Requested(f, args) == {Resolve(f, args[0])} + Requested(f, args[1..])
  {
  }

  /** A run of calls keeps the log consistent with the table. */
  lemma {:induction false} PrefetchAllKeepsConsistent(f: PrefetchFn, b: Browser, args: seq<string>)
    requires Consistent(b)
    ensures Consistent(PrefetchAll(f, b, args))
    decreases |args|
  {
    if |args| > 0 {
      PrefetchKeepsConsistent(f, b, args[0]);
      PrefetchAllKeepsConsistent(f, PrefetchChunk(f, b, args[0]), args[1..]);
    }
  }

  /**
   A run of calls adds exactly the requested chunks to the table, marks
   each added chunk pending, and leaves the values of the entries that
   existed before alone.
   */
  lemma {:induction false} PrefetchAllTable(f: PrefetchFn, b: Browser, args: seq<string>)
    ensures PrefetchAll(f, b, args).installedChunks.Keys == b.installedChunks.Keys + Requested(f, args)
    ensures forall k :: k in b.installedChunks ==> PrefetchAll(f, b, args).installedChunks[k] == b.installedChunks[k]
    ensures forall k :: k in PrefetchAll(f, b, args).installedChunks && k !in b.installedChunks ==>
              PrefetchAll(f, b, args).installedChunks[k] == Pending
    decreases |args|
  {
    if |args| > 0 {
      RequestedCons(f, args);
      PrefetchAllTable(f, PrefetchChunk(f, b, args[0]), args[1..]);
    }
  }

  /**
   A run of calls emits exactly one link for each requested chunk that had
   no entry when the run began, and none for any other chunk.
   */
  lemma {:induction false} PrefetchAllOncePerChunk(f: PrefetchFn, b: Browser, args: seq<string>)
    ensures forall id :: multiset(PrefetchAll(f, b, args).linksEmitted)[id] ==
              multiset(b.linksEmitted)[id] + (if id !in b.installedChunks && id in Requested(f, args) then 1 else 0)
    decreases |args|
  {
    if |args| > 0 {
      var b' := PrefetchChunk(f, b, args[0]);
      var id0 := Resolve(f, args[0]);
      RequestedCons(f, args);
      PrefetchAllOncePerChunk(f, b', args[1..]);
      forall id
        ensures multiset(PrefetchAll(f, b, args).linksEmitted)[id] ==
                multiset(b.linksEmitted)[id] + (if id !in b.installedChunks && id in Requested(f, args) then 1 else 0)
      {
        if id0 !in b.installedChunks {
          assert multiset(b'.linksEmitted) == multiset(b.linksEmitted) + multiset{id0};
        }
      }
    }
  }

  /**
   From a fresh page, a run of calls emits one link per distinct requested
   chunk, and marks exactly those chunks pending.
   */
  lemma FreshRunOncePerChunk(f: PrefetchFn, args: seq<string>)
    ensures forall id :: multiset(PrefetchAll(f, Fresh, args).linksEmitted)[id] == (if id in Requested(f, args) then 1 else 0)
    ensures PrefetchAll(f, Fresh, args).installedChunks.Keys == Requested(f, args)
    ensures forall k :: k in PrefetchAll(f, Fresh, args).installedChunks ==> PrefetchAll(f, Fresh, args).installedChunks[k] == Pending
  {
    PrefetchAllOncePerChunk(f, Fresh, args);
    PrefetchAllTable(f, Fresh, args);
  }

  /**
   With `{"1": "1", "2": "app"}` the table `{"1": "1", "app": "2"}` is
   emitted, and a call with `"app"` on a fresh page marks chunk `"2"` pending
   and emits one link for it.
   */
  lemma NamedChunkScenario()
    ensures Plan([("1", "1"), ("2", "app")]) == PrefetchFn(Some(map["1" := "1", "app" := "2"]))
    ensures PrefetchChunk(Plan([("1", "1"), ("2", "app")]), Fresh, "app") == Browser(map["2" := Pending], ["2"])
  {
  }

  /**
   With `{"1": "1"}` no table is emitted and the argument is used directly
   as the chunk id.
   */
  lemma UnnamedChunkScenario(arg: string)
    ensures Plan([("1", "1")]) == PrefetchFn(None)
    ensures Resolve(Plan([("1", "1")]), arg) == arg
  {
  }

  /**
   With `{"a": "x", "b": "y"}` the names resolve to their ids and an id that
   is no name passes through unchanged.
   */
  lemma NameOrIdScenario()
    ensures Resolve(Plan([("a", "x"), ("b", "y")]), "x") == "a"
    ensures Resolve(Plan([("a", "x"), ("b", "y")]), "y") == "b"
    ensures Resolve(Plan([("a", "x"), ("b", "y")]), "a") == "a"
  {
  }
}
