/**
 The second half of the `requireExtensions` callback: the text it returns,
 as a sequence of lines. The incoming bootstrap source comes first,
 unchanged; then a blank line, a comment header naming the plugin, and the
 definition of `<requireFn>.pfc`, whose body optionally starts with the
 translation statement and always holds the `installedChunks` guard.

 Indentation is a depth tag on each line (0 at top level, 1 inside the
 function, 2 inside the guard) rather than whitespace. The name of the
 bootstrap's require function, the serialiser of the table (JSON.stringify)
 and the snippet the host's `linkPrefetch` hook returns are parameters. The
 serialiser is handed the table's entries in the order the loop created
 them, so that it can print them in the order the object holds them.
 */
module Fragment {
  import opened Options
  import opened NameMap

  datatype Line = Line(depth: nat, text: string)

  const PluginName := "prefetch-chunk-plugin"
  const Header := "// Prefetch a chunk (" + PluginName + ")"
  /** What follows the require function's name on the function's first line. */
  const PfcSuffix := ".pfc = function prefetchChunk(chunkId) {"
  const TranslationPrefix := "chunkId = "
  const TranslationSuffix := "[chunkId]||chunkId;"
  const GuardOpen := "if(installedChunks[chunkId] === undefined) {"
  const MarkPending := "installedChunks[chunkId] = null;"
  const AppendLink := "document.head.appendChild(link);"
  const GuardClose := "}"
  const Closing := "};"

  /** The pieces that vary from one generated fragment to another. */
  datatype Parts = Parts(source: string, requireFn: string, tableText: Option<string>, linkPrefetch: string)

  function TranslationLine(tableText: string): Line
  {
    Line(1, TranslationPrefix + tableText + TranslationSuffix)
  }

  /** The guard and everything after it, down to the end of the function. */
  function GuardBlock(linkPrefetch: string): seq<Line>
  {
    [ Line(1, GuardOpen),
      Line(2, MarkPending),
      Line(2, linkPrefetch),
      Line(2, AppendLink),
      Line(1, GuardClose),
      Line(0, Closing) ]
  }

  /** Lay the pieces out in the order the callback lists them. */
  function Emit(p: Parts): (r: seq<Line>)
    ensures |r| == if p.tableText.Some? then 11 else 10
    ensures r[0] == Line(0, p.source)
    ensures r[|r| - 1] == Line(0, Closing)
    ensures Line(2, p.linkPrefetch) in r
  {
    [ Line(0, p.source),
      Line(0, ""),
      Line(0, Header),
      Line(0, p.requireFn + PfcSuffix) ]
    + (match p.tableText
       case Some(t) => [TranslationLine(t)]
       case None => [])
    + GuardBlock(p.linkPrefetch)
  }

  /** The middle of `s`, if `s` starts with `prefix` and ends with `suffix`. */
  function StripAffixes(s: string, prefix: string, suffix: string): (r: Option<string>)
    ensures r.Some? ==> prefix + r.value + suffix == s
  {
    if |prefix| + |suffix| <= |s| && s[..|prefix|] == prefix && s[|s| - |suffix|..] == suffix then
      var mid := s[|prefix|..|s| - |suffix|];
      assert prefix + mid + suffix == s[..|prefix|] + s[|prefix|..|s| - |suffix|] + s[|s| - |suffix|..];
      Some(mid)
    else
      None
  }

  lemma StripAffixesOfJoin(prefix: string, mid: string, suffix: string)
    ensures StripAffixes(prefix + mid + suffix, prefix, suffix) == Some(mid)
  {
  }

  /** A depth-1 line of the form `chunkId = <table>[chunkId]||chunkId;`. */
  predicate IsTranslation(l: Line)
  {
    l.depth == 1 && StripAffixes(l.text, TranslationPrefix, TranslationSuffix).Some?
  }

  /**
   Read a fragment back into its pieces: ten lines without the translation
   statement, eleven with it, every fixed line exactly as emitted.
   */
  function Parse(lines: seq<Line>): Option<Parts>
  {
    if |lines| != 10 && |lines| != 11 then None
    else
      var hasTable := |lines| == 11;
      var g := if hasTable then 5 else 4;
      var requireFn := if lines[3].depth == 0 then StripAffixes(lines[3].text, "", PfcSuffix) else None;
      var tableText := if hasTable && lines[4].depth == 1 then StripAffixes(lines[4].text, TranslationPrefix, TranslationSuffix) else None;
      if && lines[0].depth == 0
         && lines[1] == Line(0, "")
         && lines[2] == Line(0, Header)
         && requireFn.Some?
         && (hasTable ==> tableText.Some?)
         && lines[g..] == GuardBlock(lines[g + 2].text)
      then
        Some(Parts(lines[0].text, requireFn.value, tableText, lines[g + 2].text))
      else
        None
  }

  /** Emitting and reading back gives the same pieces. */
  lemma ParseEmit(p: Parts)
    ensures Parse(Emit(p)) == Some(p)
  {
  }

  /** A fragment that reads back is exactly what its pieces emit. */
  lemma EmitParse(lines: seq<Line>)
    requires Parse(lines).Some?
    ensures Emit(Parse(lines).value) == lines
  {
  }

  /**
   The whole callback: invert the host's id -> name pairs, decide whether
   the table is needed, and append the `pfc` definition to `source`.
   */
  function RequireExtensions(source: string, chunkNames: seq<ChunkEntry>, requireFn: string,
                             stringify: seq<(ChunkName, ChunkId)> -> string, linkPrefetch: string): (r: seq<Line>)
    ensures |r| >= 10
    ensures r[0] == Line(0, source) && r[1] == Line(0, "") && r[2] == Line(0, Header)
    ensures r[3] == Line(0, requireFn + PfcSuffix)
    ensures r[|r| - 1] == Line(0, Closing)
    ensures NeedsMap(chunkNames) ==>
              r[4] == TranslationLine(stringify(TableEntries(chunkNames))) && r[5] == Line(1, GuardOpen)
    ensures !NeedsMap(chunkNames) ==> r[4] == Line(1, GuardOpen)
    ensures Parse(r) == Some(Parts(source, requireFn,
                                   if NeedsMap(chunkNames) then Some(stringify(TableEntries(chunkNames))) else None,
                                   linkPrefetch))
  {
    var tableText := if NeedsMap(chunkNames) then Some(stringify(TableEntries(chunkNames))) else None;
    var r := Emit(Parts(source, requireFn, tableText, linkPrefetch));
    ParseEmit(Parts(source, requireFn, tableText, linkPrefetch));
    r
  }

  /**
   The translation statement appears in the fragment exactly when some id
   differs from its name; no other line has its shape.
   */
  lemma TranslationIffNeedsMap(source: string, chunkNames: seq<ChunkEntry>, requireFn: string,
                               stringify: seq<(ChunkName, ChunkId)> -> string, linkPrefetch: string)
    ensures var r := RequireExtensions(source, chunkNames, requireFn, stringify, linkPrefetch);
            (exists i :: 0 <= i < |r| && IsTranslation(r[i])) <==> SomeIdIsNotItsName(chunkNames)
  {
    var r := RequireExtensions(source, chunkNames, requireFn, stringify, linkPrefetch);
    assert GuardOpen[0] != TranslationPrefix[0];
    assert !IsTranslation(Line(1, GuardOpen)) by {
      assert GuardOpen[..|TranslationPrefix|] != TranslationPrefix;
    }
    assert !IsTranslation(Line(1, GuardClose));
    if NeedsMap(chunkNames) {
      StripAffixesOfJoin(TranslationPrefix, stringify(TableEntries(chunkNames)), TranslationSuffix);
      assert IsTranslation(r[4]);
    } else {
      forall i | 0 <= i < |r| ensures !IsTranslation(r[i]) {
        assert r[i].depth != 1 || r[i] == Line(1, GuardOpen) || r[i] == Line(1, GuardClose);
      }
    }
  }
}
