/**
 The first half of the `requireExtensions` callback: one pass over the chunk
 id -> chunk name pairs the host supplies, building the inverted
 name -> id table and deciding whether the generated code needs it at all.

 The host's map arrives as a sequence of (id, name) pairs in the order a
 `for ... in` loop visits them, so that the tie-break between several ids
 that share one name (the last one visited wins) is observable.
 */
module NameMap {

  type ChunkId = string
  type ChunkName = string

  /** One entry of the host's id -> name map. */
  type ChunkEntry = (ChunkId, ChunkName)

  /** Every name that occurs in the input. */
  function Names(pairs: seq<ChunkEntry>): set<ChunkName>
  {
    set i | 0 <= i < |pairs| :: pairs[i].1
  }

  /** Entry `i` is the last one in iteration order that carries its name. */
  ghost predicate IsLastWrite(pairs: seq<ChunkEntry>, i: int)
    requires 0 <= i < |pairs|
  {
    forall j :: i < j < |pairs| ==> pairs[j].1 != pairs[i].1
  }

  /** Some entry has an id that differs from its name. */
  ghost predicate SomeIdIsNotItsName(pairs: seq<ChunkEntry>)
  {
    exists i :: 0 <= i < |pairs| && pairs[i].0 != pairs[i].1
  }

  /** No two entries carry the same name. */
  ghost predicate NamesDistinct(pairs: seq<ChunkEntry>)
  {
    forall i, j :: 0 <= i < j < |pairs| ==> pairs[i].1 != pairs[j].1
  }

  /** The names of a non-empty input: those of all but its last entry, and the last one's. */
  lemma NamesOfFront(pairs: seq<ChunkEntry>)
    requires |pairs| > 0
    ensures Names(pairs) == Names(pairs[..|pairs| - 1]) + {pairs[|pairs| - 1].1}
  {
  }

  /** An entry before the last that writes its name last does so in the front too. */
  lemma LastWriteOfFront(pairs: seq<ChunkEntry>, i: int)
    requires 0 <= i < |pairs| - 1
    requires IsLastWrite(pairs, i)
    ensures IsLastWrite(pairs[..|pairs| - 1], i)
    ensures pairs[i].1 != pairs[|pairs| - 1].1
  {
  }

  /**
   One step of the inversion: if `r` is the table for all entries but the
   last, writing the last entry into it gives the table for all of them.
   */
  lemma InvertStep(pairs: seq<ChunkEntry>, r: map<ChunkName, ChunkId>, r': map<ChunkName, ChunkId>)
    requires |pairs| > 0
    requires r.Keys == Names(pairs[..|pairs| - 1])
    requires forall i :: 0 <= i < |pairs| - 1 && IsLastWrite(pairs[..|pairs| - 1], i) ==> r[pairs[i].1] == pairs[i].0
    requires forall n :: n in r ==> exists i :: 0 <= i < |pairs| - 1 && pairs[i] == (r[n], n)
    requires r' == r[pairs[|pairs| - 1].1 := pairs[|pairs| - 1].0]
    ensures r'.Keys == Names(pairs)
    ensures forall i :: 0 <= i < |pairs| && IsLastWrite(pairs, i) ==> r'[pairs[i].1] == pairs[i].0
    ensures forall n :: n in r' ==> exists i :: 0 <= i < |pairs| && pairs[i] == (r'[n], n)
  {
  }

  /**
   The inverted name -> id table: entries are written in iteration order,
   each one overwriting whatever an earlier entry with the same name wrote.
   */
  function Invert(pairs: seq<ChunkEntry>): (r: map<ChunkName, ChunkId>)
    ensures r.Keys == Names(pairs)
    ensures forall i :: 0 <= i < |pairs| && IsLastWrite(pairs, i) ==> r[pairs[i].1] == pairs[i].0
    ensures forall n :: n in r ==> exists i :: 0 <= i < |pairs| && pairs[i] == (r[n], n)
  {
    if |pairs| == 0 then map[]
    else
      var front := pairs[..|pairs| - 1];
      var last := pairs[|pairs| - 1];
      var rf := Invert(front);
      assert forall n :: n in rf ==> exists i :: 0 <= i < |pairs| - 1 && pairs[i] == (rf[n], n) by {
        forall n | n in rf ensures exists i :: 0 <= i < |pairs| - 1 && pairs[i] == (rf[n], n) {
          var i :| 0 <= i < |front| && front[i] == (rf[n], n);
          assert pairs[i] == front[i];
        }
      }
      assert forall i :: 0 <= i < |pairs| - 1 && IsLastWrite(front, i) ==> rf[pairs[i].1] == pairs[i].0 by {
        forall i | 0 <= i < |pairs| - 1 && IsLastWrite(front, i) ensures rf[pairs[i].1] == pairs[i].0 {
          assert front[i] == pairs[i];
        }
      }
      InvertStep(pairs, rf, rf[last.1 := last.0]);
      rf[last.1 := last.0]
  }

  /**
   The names in the order the loop first writes them, which is the order in
   which the table object's properties are created: a name written again
   keeps the place of its first write.
   */
  function FirstWriteOrder(pairs: seq<ChunkEntry>): (o: seq<ChunkName>)
    ensures forall n :: n in o <==> n in Names(pairs)
    ensures forall k, l :: 0 <= k < l < |o| ==> o[k] != o[l]
    ensures InCreationOrder(pairs, o)
  {
    if |pairs| == 0 then []
    else
      var front := pairs[..|pairs| - 1];
      var last := pairs[|pairs| - 1];
      var o := FirstWriteOrder(front);
      assert forall i :: 0 <= i < |front| ==> front[i] == pairs[i];
      assert Names(pairs) == Names(front) + {last.1} by {
        forall n | n in Names(pairs) ensures n in Names(front) + {last.1} {
          var i :| 0 <= i < |pairs| && pairs[i].1 == n;
          if i < |front| { assert front[i] == pairs[i]; }
        }
      }
      forall a, b | CreatedBefore(front, a, b) ensures CreatedBefore(pairs, a, b) {
        var p :| 0 <= p < |front| && front[p].1 == a && forall q :: 0 <= q <= p ==> front[q].1 != b;
        assert pairs[p].1 == a && forall q :: 0 <= q <= p ==> pairs[q].1 != b;
      }
      if last.1 in o then o
      else
        forall a | a in o ensures CreatedBefore(pairs, a, last.1) {
          var p :| 0 <= p < |front| && front[p].1 == a;
          assert forall q :: 0 <= q <= p ==> pairs[q].1 != last.1 by {
            forall q | 0 <= q <= p ensures pairs[q].1 != last.1 {
              assert pairs[q] == front[q];
            }
          }
        }
        o + [last.1]
  }

  /**
   Name `a` was written while name `b` had not been written yet, so `a`'s
   property of the table object was created before `b`'s.
   */
  ghost predicate CreatedBefore(pairs: seq<ChunkEntry>, a: ChunkName, b: ChunkName)
  {
    exists p :: 0 <= p < |pairs| && pairs[p].1 == a && forall q :: 0 <= q <= p ==> pairs[q].1 != b
  }

  /** Each name of `names` was created before every name that follows it. */
  ghost predicate InCreationOrder(pairs: seq<ChunkEntry>, names: seq<ChunkName>)
  {
    forall k, l :: 0 <= k < l < |names| ==> CreatedBefore(pairs, names[k], names[l])
  }

  /** The names of a list of table entries, in order. */
  function EntryNames(e: seq<(ChunkName, ChunkId)>): (names: seq<ChunkName>)
    ensures |names| == |e|
    ensures forall k :: 0 <= k < |e| ==> names[k] == e[k].0
  {
    if |e| == 0 then [] else [e[0].0] + EntryNames(e[1..])
  }

  /** Pair each name of `o` with the id `table` holds for it, keeping the order. */
  function WithIds(o: seq<ChunkName>, table: map<ChunkName, ChunkId>): (e: seq<(ChunkName, ChunkId)>)
    requires forall n :: n in o ==> n in table
    ensures |e| == |o|
    ensures forall k :: 0 <= k < |e| ==> e[k] == (o[k], table[o[k]])
  {
    if |o| == 0 then [] else [(o[0], table[o[0]])] + WithIds(o[1..], table)
  }

  /** Listing every key of a table once, each with its value. */
  ghost predicate ListsTable(e: seq<(ChunkName, ChunkId)>, table: map<ChunkName, ChunkId>)
  {
    && (forall n :: n in table <==> exists k :: 0 <= k < |e| && e[k].0 == n)
    && (forall k :: 0 <= k < |e| ==> e[k].0 in table && e[k].1 == table[e[k].0])
    && (forall k, l :: 0 <= k < l < |e| ==> e[k].0 != e[l].0)
  }

  lemma WithIdsListsTable(o: seq<ChunkName>, table: map<ChunkName, ChunkId>)
    requires forall n :: n in o <==> n in table
    requires forall k, l :: 0 <= k < l < |o| ==> o[k] != o[l]
    ensures ListsTable(WithIds(o, table), table)
  {
  }

  /**
   The inverted table as the ordered object the loop builds: one entry per
   name, in the order the names were first written, each holding the id the
   name was written with last.
   */
  function TableEntries(pairs: seq<ChunkEntry>): (e: seq<(ChunkName, ChunkId)>)
    ensures ListsTable(e, Invert(pairs))
    ensures InCreationOrder(pairs, EntryNames(e))
  {
    var o := FirstWriteOrder(pairs);
    var table := Invert(pairs);
    WithIdsListsTable(o, table);
    var e := WithIds(o, table);
    assert EntryNames(e) == o;
    e
  }

  /** The `needsMap` flag: true once some entry's id differs from its name. */
  function NeedsMap(pairs: seq<ChunkEntry>): (b: bool)
    ensures b <==> SomeIdIsNotItsName(pairs)
  {
    if |pairs| == 0 then false
    else
      var front := pairs[..|pairs| - 1];
      var last := pairs[|pairs| - 1];
      assert forall i :: 0 <= i < |front| ==> front[i] == pairs[i];
      NeedsMap(front) || last.0 != last.1
  }

  /**
   The loop of the callback as written: visit the entries once, in order,
   writing `nameIdMap[value] = key` and raising `needsMap` on a mismatch.
   */
  method BuildNameIdMap(idNameMap: seq<ChunkEntry>) returns (nameIdMap: map<ChunkName, ChunkId>, needsMap: bool)
    ensures nameIdMap == Invert(idNameMap)
    ensures needsMap == NeedsMap(idNameMap)
  {
    nameIdMap := map[];
    needsMap := false;
    for i := 0 to |idNameMap|
      invariant nameIdMap == Invert(idNameMap[..i])
      invariant needsMap == NeedsMap(idNameMap[..i])
    {
      var (key, value) := idNameMap[i];
      assert idNameMap[..i + 1][..i] == idNameMap[..i];
      nameIdMap := nameIdMap[value := key];
      if key != value {
        needsMap := true;
      }
    }
    assert idNameMap[..|idNameMap|] == idNameMap;
  }

  /** With nothing to visit, the table is empty and no translation is needed. */
  lemma EmptyInput()
    ensures Invert([]) == map[]
    ensures !NeedsMap([])
  {
  }

  /**
   Last write wins: when an earlier entry carries the same name as the last
   entry to carry it, the table holds the later entry's id, not the earlier
   one's.
   */
  lemma LastWriteWins(pairs: seq<ChunkEntry>, j: int, i: int)
    requires 0 <= j < i < |pairs|
    requires pairs[j].1 == pairs[i].1 && pairs[j].0 != pairs[i].0
    requires IsLastWrite(pairs, i)
    ensures pairs[i].1 in Invert(pairs)
    ensures Invert(pairs)[pairs[i].1] == pairs[i].0
    ensures Invert(pairs)[pairs[j].1] != pairs[j].0
  {
  }

  /**
   When the names are distinct the table is an exact inverse: every entry's
   name maps back to that entry's id.
   */
  lemma InvertIsInverse(pairs: seq<ChunkEntry>)
    requires NamesDistinct(pairs)
    ensures forall i :: 0 <= i < |pairs| ==> Invert(pairs)[pairs[i].1] == pairs[i].0
  {
  }

  /**
   When every id equals its name the flag stays down, and the table would
   map every name to itself, so leaving it out loses nothing.
   */
  lemma NoMismatchMeansIdentity(pairs: seq<ChunkEntry>)
    requires forall i :: 0 <= i < |pairs| ==> pairs[i].0 == pairs[i].1
    ensures !NeedsMap(pairs)
    ensures forall n :: n in Invert(pairs) ==> Invert(pairs)[n] == n
  {
  }

  /** Two entries with distinct names create them in input order... */
  lemma FirstWriteOrderOfTwo(a: ChunkEntry, b: ChunkEntry)
    requires a.1 != b.1
    ensures FirstWriteOrder([a, b]) == [a.1, b.1]
  {
    assert [a, b][..1] == [a];
    assert [a][..0] == [];
    assert FirstWriteOrder([a]) == [a.1];
    assert b.1 !in [a.1];
  }

  /**
   ...so the table's entries follow the input order, not only its contents:
   two entries give their names in the order they come in...
   */
  lemma TableEntriesInInputOrder()
    ensures TableEntries([("a", "x"), ("b", "y")]) == [("x", "a"), ("y", "b")]
  {
  }

  /** ...and the same two entries the other way round give the other order. */
  lemma TableEntriesInReversedOrder()
    ensures TableEntries([("b", "y"), ("a", "x")]) == [("y", "b"), ("x", "a")]
  {
  }

  /** A name written again keeps the place of its first write... */
  lemma FirstWriteOrderRewrittenName()
    ensures FirstWriteOrder([("1", "x"), ("2", "y"), ("3", "x")]) == ["x", "y"]
  {
    var p := [("1", "x"), ("2", "y"), ("3", "x")];
    assert p[..2] == [("1", "x"), ("2", "y")];
    assert p[..2][..1] == [("1", "x")];
    assert p[..2][..1][..0] == [];
    assert FirstWriteOrder(p[..2][..1]) == ["x"];
    assert FirstWriteOrder(p[..2]) == ["x", "y"];
  }

  /** ...but takes the id it was written with later. */
  lemma TableEntriesRewrittenName()
    ensures TableEntries([("1", "x"), ("2", "y"), ("3", "x")]) == [("x", "3"), ("y", "2")]
  {
    var p := [("1", "x"), ("2", "y"), ("3", "x")];
    FirstWriteOrderRewrittenName();
    assert IsLastWrite(p, 1) && IsLastWrite(p, 2);
    var table := Invert(p);
    assert table["x"] == "3" && table["y"] == "2";
    var e := WithIds(["x", "y"], table);
    assert e[0] == ("x", "3") && e[1] == ("y", "2");
  }
}
