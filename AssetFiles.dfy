/**
 * The filesystem view of the asset helper: files with contents and
 * modification times, the newest-mtime scan behind the cache file name, and
 * the packing of file contents into chunks that hold two or more files only
 * while they stay within 100,000 bytes (a larger file gets a chunk of its own).
 */
module AssetFiles {
  import opened Wrappers
  import opened PhpStrings

  type Path = string

  /** A file on disk: its bytes and its modification time. */
  datatype File = File(content: string, mtime: nat)

  /** The part of the filesystem the helper touches. `file_exists(p)` is `p in fs`. */
  type FileSystem = map<Path, File>

  /** `file_exists($res)` for an entry of a resolved list; an unresolved
      entry (`null`) never exists. */
  predicate Exists(fs: FileSystem, entry: Option<Path>) {
    entry.Some? && entry.value in fs
  }

  /** `file_get_contents($file)`; a missing or unresolved file reads as the
      empty string (PHP returns `false`, which concatenates as ""). */
  function ReadFile(fs: FileSystem, entry: Option<Path>): string {
    if Exists(fs, entry) then fs[entry.value].content else ""
  }

  /** The running maximum `$last` of the mtimes of the entries that exist,
      starting from 0. */
  function LastModified(fs: FileSystem, entries: seq<Option<Path>>): nat {
    if entries == [] then 0
    else
      var last := LastModified(fs, entries[..|entries| - 1]);
      var e := entries[|entries| - 1];
      if Exists(fs, e) && fs[e.value].mtime > last then fs[e.value].mtime else last
  }

  /** `$last` is the newest mtime of an existing entry, or 0 if none exists. */
  lemma {:induction false} LastModifiedIsNewest(fs: FileSystem, entries: seq<Option<Path>>)
    ensures forall k :: 0 <= k < |entries| && Exists(fs, entries[k]) ==> fs[entries[k].value].mtime <= LastModified(fs, entries)
    ensures LastModified(fs, entries) == 0 ||
            exists k :: 0 <= k < |entries| && Exists(fs, entries[k]) && fs[entries[k].value].mtime == LastModified(fs, entries)
  {
    if entries != [] {
      var init := entries[..|entries| - 1];
      LastModifiedIsNewest(fs, init);
      assert forall k :: 0 <= k < |init| ==> init[k] == entries[k];
    }
  }

  /** `$last` depends only on which entries exist and on their mtimes. */
  lemma {:induction false} LastModifiedReadsOnlyMtimes(fs1: FileSystem, fs2: FileSystem, entries: seq<Option<Path>>)
    requires forall k :: 0 <= k < |entries| ==> Exists(fs1, entries[k]) == Exists(fs2, entries[k])
    requires forall k :: 0 <= k < |entries| && Exists(fs1, entries[k]) && Exists(fs2, entries[k]) ==> fs1[entries[k].value].mtime == fs2[entries[k].value].mtime
    ensures LastModified(fs1, entries) == LastModified(fs2, entries)
  {
    if entries != [] {
      var init := entries[..|entries| - 1];
      assert forall k :: 0 <= k < |init| ==> init[k] == entries[k];
      LastModifiedReadsOnlyMtimes(fs1, fs2, init);
    }
  }

  /** Writing a file that is not one of the entries leaves `$last` as it was. */
  lemma LastModifiedAfterWrite(fs: FileSystem, p: Path, f: File, entries: seq<Option<Path>>)
    requires Some(p) !in entries
    ensures LastModified(fs[p := f], entries) == LastModified(fs, entries)
  {
    forall k | 0 <= k < |entries|
      ensures Exists(fs[p := f], entries[k]) == Exists(fs, entries[k])
    {
      assert entries[k] != Some(p);
    }
    LastModifiedReadsOnlyMtimes(fs[p := f], fs, entries);
  }

  /** The cache file name `cache-{$last}-{hash}.{ext}`. */
  function CacheName(last: nat, hash: string, ext: string): (r: string)
    ensures |r| > |"cache-"| && r[..|"cache-"|] == "cache-"
  {
    "cache-" + NatToString(last) + "-" + hash + "." + ext
  }

  /** A changed newest mtime gives a different cache file name, whatever the
      hash: touching a file invalidates the cache. */
  lemma CacheNameSeparatesMtimes(l1: nat, l2: nat, hash: string, ext: string)
    requires l1 != l2
    ensures CacheName(l1, hash, ext) != CacheName(l2, hash, ext)
  {
    var d1, d2 := NatToString(l1), NatToString(l2);
    var tail := "-" + hash + "." + ext;
    assert CacheName(l1, hash, ext) == "cache-" + (d1 + tail);
    assert CacheName(l2, hash, ext) == "cache-" + (d2 + tail);
    if CacheName(l1, hash, ext) == CacheName(l2, hash, ext) {
      assert d1 + tail == d2 + tail;
      if |d1| == |d2| {
        assert d1 == (d1 + tail)[..|d1|] == (d2 + tail)[..|d2|] == d2;
        NatToStringInjective(l1, l2);
      }
    }
  }

  // ---------------------------------------------------------------------
  // Chunks

  /** A chunk is closed once the next file would push it past this many bytes. */
  const ChunkLimit := 100000

  /** A file's contents as it is put into a chunk: `"\n" . content . "\n"`. */
  function Wrap(content: string): (w: string)
    ensures |w| == |content| + 2
  {
    "\n" + content + "\n"
  }

  /** The wrapped contents of the files of a resolved list, in order. */
  function WrappedContents(fs: FileSystem, files: seq<Option<Path>>): (ws: seq<string>)
    ensures |ws| == |files|
    ensures forall k :: 0 <= k < |files| ==> ws[k] == Wrap(ReadFile(fs, files[k]))
  {
    seq(|files|, k requires 0 <= k < |files| => Wrap(ReadFile(fs, files[k])))
  }

  /** One step of the chunking loop: start a new chunk when the current one
      plus `w` would exceed the limit, then append `w` to the current chunk. */
  function AddToChunks(chunks: seq<string>, w: string): (r: seq<string>)
    requires chunks != []
  {
    var cur := chunks[|chunks| - 1];
    if |cur + w| > ChunkLimit then chunks + [w]
    else chunks[..|chunks| - 1] + [cur + w]
  }

  /** The chunks for a list of wrapped file contents; an empty list gives the
      single empty chunk (PHP's `null`). */
  function ChunksOf(ws: seq<string>): (r: seq<string>)
    ensures r != []
  {
    if ws == [] then [""] else AddToChunks(ChunksOf(ws[..|ws| - 1]), ws[|ws| - 1])
  }

  /** The same step, recording which files went into which chunk. */
  function AddToGroups(gs: seq<seq<string>>, w: string): (r: seq<seq<string>>)
    requires gs != []
  {
    if |Concat(gs[|gs| - 1]) + w| > ChunkLimit then gs + [[w]]
    else gs[..|gs| - 1] + [gs[|gs| - 1] + [w]]
  }

  /** The same loop, recording which files went into which chunk. */
  function GroupsOf(ws: seq<string>): (r: seq<seq<string>>)
    ensures r != []
  {
    if ws == [] then [[]] else AddToGroups(GroupsOf(ws[..|ws| - 1]), ws[|ws| - 1])
  }

  /** The files of the groups, in order. */
  function Flatten(gs: seq<seq<string>>): seq<string> {
    if gs == [] then [] else Flatten(gs[..|gs| - 1]) + gs[|gs| - 1]
  }

  /** Everything the chunking promises, stated with the grouping as witness:
      each chunk is the concatenation of its group of whole files, the groups
      hold the files in order, only the first group can be empty (and then
      only because there are no files or the first one is oversized), a chunk
      of two or more files stays within the limit, and a chunk is closed only
      when the next file would not have fitted. */
  ghost predicate WellChunked(ws: seq<string>, cs: seq<string>, gs: seq<seq<string>>) {
    && ChunksOfGroups(cs, gs)
    && Flatten(gs) == ws
    && OnlyFirstEmpty(ws, gs)
    && ClosedWhenFull(cs, gs)
  }

  /** Each chunk is the concatenation of its group, and a chunk of two or more
      files stays within the limit. */
  ghost predicate ChunksOfGroups(cs: seq<string>, gs: seq<seq<string>>) {
    && |cs| == |gs| > 0
    && (forall k :: 0 <= k < |cs| ==> cs[k] == Concat(gs[k]))
    && (forall k :: 0 <= k < |gs| && |gs[k]| >= 2 ==> |cs[k]| <= ChunkLimit)
  }

  /** Only the first group can be empty, and only when there are no files or
      the first file is oversized; otherwise its first file fits. */
  ghost predicate OnlyFirstEmpty(ws: seq<string>, gs: seq<seq<string>>) {
    && gs != []
    && (forall k :: 0 < k < |gs| ==> gs[k] != [])
    && (gs[0] == [] ==> ws == [] || |ws[0]| > ChunkLimit)
    && (gs[0] != [] ==> |gs[0][0]| <= ChunkLimit)
  }

  /** A chunk is closed only when the first file of the next one would have
      pushed it past the limit. */
  ghost predicate ClosedWhenFull(cs: seq<string>, gs: seq<seq<string>>) {
    && |cs| == |gs|
    && (forall k :: 0 <= k < |gs| - 1 && gs[k + 1] != [] ==> |cs[k]| + |gs[k + 1][0]| > ChunkLimit)
  }

  lemma FlattenAppend(gs: seq<seq<string>>, g: seq<string>)
    ensures Flatten(gs + [g]) == Flatten(gs) + g
  {
    assert (gs + [g])[..|gs|] == gs;
  }

  lemma {:induction false} FlattenExtendLast(gs: seq<seq<string>>, w: string)
    requires gs != []
    ensures Flatten(gs[..|gs| - 1] + [gs[|gs| - 1] + [w]]) == Flatten(gs) + [w]
  {
    var init := gs[..|gs| - 1];
    FlattenAppend(init, gs[|gs| - 1] + [w]);
    assert gs == init + [gs[|gs| - 1]];
    FlattenAppend(init, gs[|gs| - 1]);
  }

  /** A non-empty group's first file is the first file of the flattened list. */
  lemma {:induction false} FlattenHead(gs: seq<seq<string>>)
    requires gs != [] && gs[0] != []
    ensures Flatten(gs) != [] && Flatten(gs)[0] == gs[0][0]
    decreases |gs|
  {
    if |gs| == 1 {
      assert gs[..0] == [];
    } else {
      var init := gs[..|gs| - 1];
      FlattenHead(init);
    }
  }

  /** Starting a new chunk for `w` keeps the chunking well formed. */
  lemma NewChunkStep(ws: seq<string>, cs: seq<string>, gs: seq<seq<string>>, w: string)
    requires WellChunked(ws, cs, gs)
    requires |cs[|cs| - 1] + w| > ChunkLimit
    ensures WellChunked(ws + [w], cs + [w], gs + [[w]])
  {
    NewChunksOfGroups(cs, gs, w);
    FlattenAppend(gs, [w]);
    NewOnlyFirstEmpty(ws, cs, gs, w);
    NewClosedWhenFull(cs, gs, w);
  }

  lemma NewChunksOfGroups(cs: seq<string>, gs: seq<seq<string>>, w: string)
    requires ChunksOfGroups(cs, gs)
    ensures ChunksOfGroups(cs + [w], gs + [[w]])
  {
    var cs', gs' := cs + [w], gs + [[w]];
    assert Concat([w]) == Concat([]) + w;
    forall k | 0 <= k < |cs'|
      ensures cs'[k] == Concat(gs'[k])
      ensures |gs'[k]| >= 2 ==> |cs'[k]| <= ChunkLimit
    {
      if k < |cs| {
        assert cs'[k] == cs[k] && gs'[k] == gs[k];
      }
    }
  }

  lemma NewOnlyFirstEmpty(ws: seq<string>, cs: seq<string>, gs: seq<seq<string>>, w: string)
    requires ChunksOfGroups(cs, gs) && Flatten(gs) == ws && OnlyFirstEmpty(ws, gs)
    requires |cs[|cs| - 1] + w| > ChunkLimit
    ensures OnlyFirstEmpty(ws + [w], gs + [[w]])
  {
    var ws', gs' := ws + [w], gs + [[w]];
    forall k | 0 < k < |gs'|
      ensures gs'[k] != []
    {
      if k < |gs| {
        assert gs'[k] == gs[k];
      }
    }
    assert gs'[0] == gs[0];
    if gs[0] == [] {
      if |gs| == 1 {
        assert ws == [] && cs[0] == "";
        assert ws'[0] == w;
      } else {
        assert ws != [] && ws'[0] == ws[0];
      }
    }
  }

  lemma NewClosedWhenFull(cs: seq<string>, gs: seq<seq<string>>, w: string)
    requires cs != [] && ClosedWhenFull(cs, gs)
    requires |cs[|cs| - 1] + w| > ChunkLimit
    ensures ClosedWhenFull(cs + [w], gs + [[w]])
  {
    var cs', gs' := cs + [w], gs + [[w]];
    forall k | 0 <= k < |gs'| - 1 && gs'[k + 1] != []
      ensures |cs'[k]| + |gs'[k + 1][0]| > ChunkLimit
    {
      assert cs'[k] == cs[k];
      if k + 1 < |gs| {
        assert gs'[k + 1] == gs[k + 1];
      } else {
        assert gs'[k + 1] == [w];
      }
    }
  }

  /** Appending `w` to the last chunk keeps the chunking well formed. */
  lemma ExtendChunkStep(ws: seq<string>, cs: seq<string>, gs: seq<seq<string>>, w: string)
    requires WellChunked(ws, cs, gs)
    requires |cs[|cs| - 1] + w| <= ChunkLimit
    ensures var n := |cs| - 1; WellChunked(ws + [w], cs[..n] + [cs[n] + w], gs[..n] + [gs[n] + [w]])
  {
    ExtendChunksOfGroups(cs, gs, w);
    FlattenExtendLast(gs, w);
    ExtendOnlyFirstEmpty(ws, cs, gs, w);
    ExtendClosedWhenFull(ws, cs, gs, w);
  }

  lemma ExtendChunksOfGroups(cs: seq<string>, gs: seq<seq<string>>, w: string)
    requires ChunksOfGroups(cs, gs)
    requires |cs[|cs| - 1] + w| <= ChunkLimit
    ensures var n := |cs| - 1; ChunksOfGroups(cs[..n] + [cs[n] + w], gs[..n] + [gs[n] + [w]])
  {
    var n := |cs| - 1;
    var cs', gs' := cs[..n] + [cs[n] + w], gs[..n] + [gs[n] + [w]];
    assert Concat(gs[n] + [w]) == Concat(gs[n]) + w by {
      assert (gs[n] + [w])[..|gs[n]|] == gs[n];
    }
    forall k | 0 <= k < |cs'|
      ensures cs'[k] == Concat(gs'[k])
      ensures |gs'[k]| >= 2 ==> |cs'[k]| <= ChunkLimit
    {
      if k < n {
        assert cs'[k] == cs[k] && gs'[k] == gs[k];
      }
    }
  }

  lemma ExtendOnlyFirstEmpty(ws: seq<string>, cs: seq<string>, gs: seq<seq<string>>, w: string)
    requires ChunksOfGroups(cs, gs) && Flatten(gs) == ws && OnlyFirstEmpty(ws, gs)
    requires |cs[|cs| - 1] + w| <= ChunkLimit
    ensures var n := |cs| - 1; OnlyFirstEmpty(ws + [w], gs[..n] + [gs[n] + [w]])
  {
    var n := |cs| - 1;
    var ws', gs' := ws + [w], gs[..n] + [gs[n] + [w]];
    forall k | 0 < k < |gs'|
      ensures gs'[k] != []
    {
      if k < n {
        assert gs'[k] == gs[k];
      }
    }
    if gs[0] == [] {
      if n == 0 {
        assert ws == [];
        assert gs'[0] == [w];
      } else {
        assert gs'[0] == gs[0];
        assert ws != [] && ws'[0] == ws[0];
      }
    } else {
      assert gs'[0][0] == gs[0][0];
    }
  }

  lemma ExtendClosedWhenFull(ws: seq<string>, cs: seq<string>, gs: seq<seq<string>>, w: string)
    requires cs != [] && ClosedWhenFull(cs, gs) && OnlyFirstEmpty(ws, gs)
    requires |cs[|cs| - 1] + w| <= ChunkLimit
    ensures var n := |cs| - 1; ClosedWhenFull(cs[..n] + [cs[n] + w], gs[..n] + [gs[n] + [w]])
  {
    var n := |cs| - 1;
    var cs', gs' := cs[..n] + [cs[n] + w], gs[..n] + [gs[n] + [w]];
    forall k | 0 <= k < |gs'| - 1 && gs'[k + 1] != []
      ensures |cs'[k]| + |gs'[k + 1][0]| > ChunkLimit
    {
      assert cs'[k] == cs[k];
      if k + 1 < n {
        assert gs'[k + 1] == gs[k + 1];
      } else {
        assert gs[k + 1] != [] && gs'[k + 1][0] == gs[k + 1][0];
      }
    }
  }

  /** One step of the loop, on chunks and groups together, keeps the
      chunking well formed. */
  lemma ChunkStep(ws: seq<string>, cs: seq<string>, gs: seq<seq<string>>, w: string)
    requires WellChunked(ws, cs, gs)
    ensures WellChunked(ws + [w], AddToChunks(cs, w), AddToGroups(gs, w))
  {
    var n := |cs| - 1;
    assert cs[n] == Concat(gs[n]);
    if |cs[n] + w| > ChunkLimit {
      NewChunkStep(ws, cs, gs, w);
    } else {
      ExtendChunkStep(ws, cs, gs, w);
    }
  }

  lemma {:induction false} ChunksWellChunked(ws: seq<string>)
    ensures WellChunked(ws, ChunksOf(ws), GroupsOf(ws))
  {
    if ws == [] {
      assert Concat([]) == "";
    } else {
      var init, w := ws[..|ws| - 1], ws[|ws| - 1];
      assert ws == init + [w];
      ChunksWellChunked(init);
      ChunkStep(init, ChunksOf(init), GroupsOf(init), w);
    }
  }

  /** Strings that are the concatenations of groups, concatenated, are the
      flattened groups concatenated. */
  lemma {:induction false} ConcatGroups(cs: seq<string>, gs: seq<seq<string>>)
    requires |cs| == |gs|
    requires forall k :: 0 <= k < |cs| ==> cs[k] == Concat(gs[k])
    ensures Concat(cs) == Concat(Flatten(gs))
  {
    if gs != [] {
      var n := |gs| - 1;
      ConcatGroups(cs[..n], gs[..n]);
      ConcatAppend(Flatten(gs[..n]), gs[n]);
    }
  }

  /** Round trip: the chunks, joined without separator, are exactly the
      wrapped files in list order. */
  lemma {:induction false} ChunksRoundTrip(ws: seq<string>)
    ensures Concat(ChunksOf(ws)) == Concat(ws)
  {
    ChunksWellChunked(ws);
    ConcatGroups(ChunksOf(ws), GroupsOf(ws));
  }

  /** A chunk longer than the limit holds exactly one file, and a chunk of
      two or more files is within the limit. */
  lemma {:induction false} OversizedChunkHoldsOneFile(ws: seq<string>, k: nat)
    requires k < |ChunksOf(ws)|
    ensures |GroupsOf(ws)| == |ChunksOf(ws)|
    ensures |GroupsOf(ws)[k]| >= 2 ==> |ChunksOf(ws)[k]| <= ChunkLimit
    ensures |ChunksOf(ws)[k]| > ChunkLimit ==> |GroupsOf(ws)[k]| == 1
  {
    ChunksWellChunked(ws);
  }

  /** Files that fit together within the limit make up one chunk. */
  lemma {:induction false} SmallFilesOneChunk(ws: seq<string>)
    requires TotalLength(ws) <= ChunkLimit
    ensures ChunksOf(ws) == [Concat(ws)]
  {
    if ws != [] {
      SmallFilesOneChunk(ws[..|ws| - 1]);
    }
  }

  /** No files: a single empty chunk. */
  lemma NoFilesOneEmptyChunk()
    ensures ChunksOf([]) == [""]
  {
  }

  /** A first file over the limit leaves the first chunk empty. */
  lemma {:induction false} OversizedFirstFile(ws: seq<string>)
    requires ws != [] && |ws[0]| > ChunkLimit
    ensures |ChunksOf(ws)| >= 2 && ChunksOf(ws)[0] == ""
  {
    ChunksWellChunked(ws);
    var gs := GroupsOf(ws);
    if gs[0] != [] {
      FlattenHead(gs);
      assert false;
    }
    assert Concat([]) == "";
  }

  /** Wrapped sizes 502, 99,802 and 402 give three chunks of one file each:
      502 + 99,802 is already over the limit. */
  lemma ChunkExample(ws: seq<string>)
    requires |ws| == 3 && |ws[0]| == 502 && |ws[1]| == 99802 && |ws[2]| == 402
    ensures ChunksOf(ws) == ws
  {
    assert ws[..1][..0] == [];
    assert ws[..2][..1] == ws[..1];
    assert ws[..3][..2] == ws[..2];
    assert ws[..3] == ws;
    assert "" + ws[0] == ws[0];
    assert ChunksOf(ws[..1]) == [ws[0]];
    assert ChunksOf(ws[..2]) == [ws[0], ws[1]];
  }
}
