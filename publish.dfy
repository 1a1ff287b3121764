/** The publish phase of a backup: the archive goes up in chunks, then a
    chain of download scripts, each listing the chunks of the one below it,
    until one script fits in a single chunk; a last message names that chunk. */
module Publish {
  import opened Text
  import opened Hook
  import opened Upload

  // ---------------------------------------------------------------------------
  // Script texts
  //
  // Long texts are written as short pieces: the verifier expands a string
  // literal character by character, and pays for that on every use.

  /** The shell function `dl` that appends the attachment of message `$1` to
      `target`, retrying after five seconds, followed by emptying `target`. */
  function DownloadFunction(url: string, target: string): string {
    "dl(){ curl -f " + "-L \"$(curl -f " + "-L \"" + url
    + "/messages/$1\"|grep " + "-Eo " + "'\"url\":\"[^\"]+\"'|grep " + "-Eo " + "'https[^\"]+')\">>" + target
    + ";if [ ! $? -eq " + "0 ];then sleep " + "5;dl \"$1\";fi " + "};printf \"\">" + target
  }

  /** The start of the level-0 script, which rebuilds `dl_backup.zip`. */
  function Level0Header(url: string): string {
    DownloadFunction(url, "dl_backup.zip")
  }

  /** The start of every higher-level script, which rebuilds the script one
      level down in `$TFILE`. */
  function LevelHeader(url: string): string {
    "TFILE=mktemp;" + DownloadFunction(url, "$TFILE")
  }

  /** The end of every higher-level script: run the rebuilt script, then delete it. */
  const TRAILER: string := ";sh $TFILE;rm " + "$TFILE"

  /** The bytes of TRAILER, spelled out. */
  const TRAILER_BYTES: seq<byte> := [59, 115, 104, 32, 36] + [84, 70, 73, 76, 69] + [59, 114, 109, 32, 36] + [84, 70, 73, 76, 69]

  /** TRAILER_BYTES spell TRAILER. */
  lemma TrailerBytes()
    ensures AsText(TRAILER_BYTES) == TRAILER
  {
  }

  const ADVISORY: string := ":warning: Do " + "not manually " + "download files " + "below! " + ":warning:\n\n" + "Those are for " + "the download " + "script."

  /** The message that names the single chunk of the top-level script. */
  function CompletionText(url: string, id: nat): string {
    "Upload " + "complete!\n\nTo " + "automatically " + "download the " + "backup archive, " + "use the " + "following " + "script:```sh\n" + "curl -f -L " + "\"$(curl -f -L \""
    + url + "/messages/" + Decimal(id)
    + "\" | grep -Eo " + "'\"url\":\"[^\"]+\"' " + "| grep -Eo " + "'https[^\"]+')\" " + "| sh -\n```\n\n" + "Make sure " + "`curl` and " + "`grep` are " + "installed."
  }

  /** The last edit of the status message. */
  function FinalText(chunks: nat): string {
    "Backup " + "completed " + "successfully.\n\n" + "To assemble the " + "original " + "archive, " + "download all " + Decimal(chunks)
    + " chunks and " + "concatenate " + "them into a " + "single file"
  }

  /** The bytes that start the two kinds of script: `top` the level-0
      script, `level` every higher one. */
  datatype Headers = Headers(top: seq<byte>, level: seq<byte>)

  function HeadersFor(url: string): Headers {
    Headers(Utf8(Level0Header(url)), Utf8(LevelHeader(url)))
  }

  /** The first byte tells the two kinds of script apart. */
  predicate Distinguishable(h: Headers) {
    |h.top| >= 1 && |h.level| >= 1 && h.top[0] != h.level[0]
  }

  lemma HeadersDiffer(url: string)
    ensures Distinguishable(HeadersFor(url))
  {
    assert Level0Header(url)[0] == 'd' && LevelHeader(url)[0] == 'T';
  }

  /** The bytes of the level-0 script: its header, then `;dl <id>` per archive chunk. */
  function Level0Script(h: Headers, ids: seq<nat>): seq<byte> {
    h.top + Utf8(DlText(ids))
  }

  /** The bytes of a higher-level script: its header, `;dl <id>` per chunk of
      the script below, then the trailer. */
  function LevelScript(h: Headers, ids: seq<nat>): seq<byte> {
    h.level + Utf8(DlText(ids)) + TRAILER_BYTES
  }

  // ---------------------------------------------------------------------------
  // What the scripts do

  /** What `curl` gets for a message id from the channel's messages `log`:
      the first attachment of the message with that id, if it has one. */
  function Lookup(log: seq<Message>, id: nat): Option<seq<byte>>
    decreases |log|
  {
    if log == [] then None
    else if log[0].id == Some(id) then Attachment(log[0])
    else Lookup(log[1..], id)
  }

  function Attachment(m: Message): Option<seq<byte>> {
    if m.files == [] then None else Some(m.files[0].1)
  }

  /** The service gives every message an id of its own: no message carries
      the id of one posted before it. */
  ghost predicate DistinctIds(log: seq<Message>)
    decreases |log|
  {
    log == [] || ((log[0].id.None? || Unused(log[0].id.value, log[1..])) && DistinctIds(log[1..]))
  }

  /** No message of `log` carries `id`. */
  ghost predicate Unused(id: nat, log: seq<Message>)
    decreases |log|
  {
    log == [] || (log[0].id != Some(id) && Unused(id, log[1..]))
  }

  lemma {:induction false} UnusedAt(id: nat, log: seq<Message>, k: nat)
    requires Unused(id, log) && k < |log|
    ensures log[k].id != Some(id)
    decreases k
  {
    if k > 0 {
      UnusedAt(id, log[1..], k - 1);
      assert log[1..][k - 1] == log[k];
    }
  }

  /** The repeated `dl <id>` calls of a script: the attachments of the listed
      messages one after the other, or None if one cannot be fetched (the
      script then retries for ever). */
  function Fetch(log: seq<Message>, ids: seq<nat>): Option<seq<byte>>
    decreases |ids|
  {
    if ids == [] then Some([])
    else
      match Lookup(log, ids[0])
      case None => None
      case Some(first) =>
        match Fetch(log, ids[1..])
        case None => None
        case Some(rest) => Some(first + rest)
  }

  /** Bytes read back as characters, one per byte. */
  function AsText(bytes: seq<byte>): (s: string)
    ensures |s| == |bytes|
  {
    seq(|bytes|, i requires 0 <= i < |bytes| => bytes[i] as char)
  }

  /** What `sh` makes of a downloaded script, as far as the scripts of the
      chain go: a level-0 script yields the rebuilt archive; a higher-level
      one rebuilds the script below it and runs that, at most `depth` levels
      down. None stands for a script that does something else. */
  function RunScript(log: seq<Message>, h: Headers, script: seq<byte>, depth: nat): Option<seq<byte>>
    decreases depth
  {
    var top, header, trailer := h.top, h.level, TRAILER_BYTES;
    if top <= script then
      match ParseEntries(AsText(script[|top|..]))
      case None => None
      case Some(ids) => Fetch(log, ids)
    else if depth > 0 && header <= script && |header| + |trailer| <= |script|
            && script[|script| - |trailer|..] == trailer then
      match ParseEntries(AsText(script[|header|..|script| - |trailer|]))
      case None => None
      case Some(ids) =>
        match Fetch(log, ids)
        case None => None
        case Some(lower) => RunScript(log, h, lower, depth - 1)
    else None
  }

  /** What the one-liner of the completion message does: fetch the script
      attached to message `id` and run it. */
  function RunCompletion(log: seq<Message>, url: string, id: nat, depth: nat): Option<seq<byte>> {
    match Lookup(log, id)
    case None => None
    case Some(script) => RunScript(log, HeadersFor(url), script, depth)
  }

  // ---------------------------------------------------------------------------
  // The chain

  /** The script of each level: level 0 lists the archive chunks, level L+1
      the chunks of the level-L script. */
  function ScriptAt(h: Headers, archiveIds: seq<nat>, levelIds: seq<seq<nat>>, level: nat): seq<byte>
    requires level <= |levelIds|
  {
    if level == 0 then Level0Script(h, archiveIds) else LevelScript(h, levelIds[level - 1])
  }

  lemma ScriptAtPrefix(h: Headers, archiveIds: seq<nat>, levelIds: seq<seq<nat>>, n: nat, level: nat)
    requires level <= n <= |levelIds|
    ensures ScriptAt(h, archiveIds, levelIds[..n], level) == ScriptAt(h, archiveIds, levelIds, level)
  {
    if level > 0 {
      assert levelIds[..n][level - 1] == levelIds[level - 1];
    }
  }

  /** Every level's script went up as exactly as many chunks as it has. */
  ghost predicate ChainShape(h: Headers, archiveIds: seq<nat>, levelIds: seq<seq<nat>>)
    decreases |levelIds|
  {
    levelIds == [] ||
    var n := |levelIds| - 1;
    ChainShape(h, archiveIds, levelIds[..n]) && |levelIds[n]| == |Chunks(ScriptAt(h, archiveIds, levelIds, n))|
  }

  /** The messages of the script chunks, level by level. */
  function LevelMessages(h: Headers, archiveIds: seq<nat>, levelIds: seq<seq<nat>>): seq<Message>
    requires ChainShape(h, archiveIds, levelIds)
    decreases |levelIds|
  {
    if levelIds == [] then []
    else
      var n := |levelIds| - 1;
      LevelMessages(h, archiveIds, levelIds[..n])
      + ChunkMessages(ScriptLevel(n), ScriptAt(h, archiveIds, levelIds, n), levelIds[n])
  }

  /** The chain is complete: the script of the top level went up as one chunk. */
  ghost predicate Complete(h: Headers, archiveIds: seq<nat>, levelIds: seq<seq<nat>>) {
    ChainShape(h, archiveIds, levelIds) && |levelIds| >= 1 && |levelIds[|levelIds| - 1]| == 1
  }

  /** The messages a successful publish adds to the channel, in order: the
      archive chunks, the advisory, the script chunks level by level, and the
      completion message naming the top-level chunk. */
  function PublishLog(url: string, data: seq<byte>, archiveIds: seq<nat>, advisoryId: nat,
                      levelIds: seq<seq<nat>>, completionId: nat): seq<Message>
    requires |archiveIds| == |Chunks(data)| && Complete(HeadersFor(url), archiveIds, levelIds)
  {
    ChunkMessages(Archive, data, archiveIds)
    + [Message(Some(advisoryId), Some(ADVISORY), [])]
    + LevelMessages(HeadersFor(url), archiveIds, levelIds)
    + [Message(Some(completionId), Some(CompletionText(url, levelIds[|levelIds| - 1][0])), [])]
  }

  // ---------------------------------------------------------------------------
  // A complete chain rebuilds the archive

  lemma {:induction false} ChunkMessagesAt(naming: Naming, data: seq<byte>, ids: seq<nat>, i: nat)
    requires |ids| <= |Chunks(data)| && i < |ids|
    ensures ChunkMessages(naming, data, ids)[i] == ChunkMessage(naming, data, i, ids[i])
    decreases |ids|
  {
    var n := |ids| - 1;
    var front, last := ChunkMessages(naming, data, ids[..n]), ChunkMessage(naming, data, n, ids[n]);
    assert ChunkMessages(naming, data, ids) == front + [last];
    if i < n {
      ChunkMessagesAt(naming, data, ids[..n], i);
      assert ids[..n][i] == ids[i];
      assert (front + [last])[i] == front[i];
    }
  }

  /** With distinct ids, the message `curl` finds for an id is the one carrying it. */
  lemma {:induction false} LookupAt(log: seq<Message>, k: nat)
    requires DistinctIds(log) && k < |log| && log[k].id.Some?
    ensures Lookup(log, log[k].id.value) == Attachment(log[k])
    decreases k
  {
    if k > 0 {
      if log[0].id.Some? {
        UnusedAt(log[0].id.value, log[1..], k - 1);
      }
      assert log[1..][k - 1] == log[k];
      LookupAt(log[1..], k - 1);
    }
  }

  /** With distinct ids, a message anywhere in the log is the one found for its id. */
  lemma LookupMember(log: seq<Message>, m: Message)
    requires DistinctIds(log) && m in log && m.id.Some?
    ensures Lookup(log, m.id.value) == Attachment(m)
  {
    var k :| 0 <= k < |log| && log[k] == m;
    LookupAt(log, k);
  }

  /** The chunks of `data` can be fetched from `log` under `ids`, in order. */
  ghost predicate Stored(log: seq<Message>, data: seq<byte>, ids: seq<nat>) {
    Holds(log, Chunks(data), ids)
  }

  /** `ids[i]` is the id of a message of `log` whose attachment is `pieces[i]`, for each i. */
  ghost predicate Holds(log: seq<Message>, pieces: seq<seq<byte>>, ids: seq<nat>)
    decreases |ids|
  {
    |ids| == |pieces|
    && (ids == [] || (Lookup(log, ids[0]) == Some(pieces[0]) && Holds(log, pieces[1..], ids[1..])))
  }

  lemma {:induction false} HoldsAll(log: seq<Message>, pieces: seq<seq<byte>>, ids: seq<nat>)
    requires |ids| == |pieces| && forall i :: 0 <= i < |ids| ==> Lookup(log, ids[i]) == Some(pieces[i])
    ensures Holds(log, pieces, ids)
    decreases |ids|
  {
    if ids != [] {
      assert forall i :: 0 <= i < |ids| - 1 ==> ids[1..][i] == ids[i + 1] && pieces[1..][i] == pieces[i + 1];
      HoldsAll(log, pieces[1..], ids[1..]);
    }
  }

  lemma {:induction false} FetchPieces(log: seq<Message>, ids: seq<nat>, pieces: seq<seq<byte>>)
    requires Holds(log, pieces, ids)
    ensures Fetch(log, ids) == Some(Concat(pieces))
    decreases |ids|
  {
    if ids != [] {
      FetchPieces(log, ids[1..], pieces[1..]);
    }
  }

  /** Fetching the ids of stored chunks gives back the data they were cut from. */
  lemma FetchStored(log: seq<Message>, data: seq<byte>, ids: seq<nat>)
    requires Stored(log, data, ids)
    ensures Fetch(log, ids) == Some(data)
  {
    FetchPieces(log, ids, Chunks(data));
    ChunksConcat(data);
  }

  /** The chunk messages of a stream, present in a log with distinct ids
      among any other messages, store it. */
  lemma SegmentStored(log: seq<Message>, naming: Naming, data: seq<byte>, ids: seq<nat>)
    requires |ids| == |Chunks(data)| && DistinctIds(log)
    requires forall m :: m in ChunkMessages(naming, data, ids) ==> m in log
    ensures Stored(log, data, ids)
  {
    var ms := ChunkMessages(naming, data, ids);
    forall i | 0 <= i < |ids|
      ensures Lookup(log, ids[i]) == Some(Chunks(data)[i])
    {
      ChunkMessagesAt(naming, data, ids, i);
      assert ms[i] in ms;
      LookupMember(log, ms[i]);
    }
    HoldsAll(log, Chunks(data), ids);
  }

  /** Every level of a chain, present in a log with distinct ids, is stored. */
  lemma {:induction false} LevelsStored(log: seq<Message>, h: Headers, archiveIds: seq<nat>,
                                        levelIds: seq<seq<nat>>, level: nat)
    requires ChainShape(h, archiveIds, levelIds) && level < |levelIds| && DistinctIds(log)
    requires forall m :: m in LevelMessages(h, archiveIds, levelIds) ==> m in log
    ensures Stored(log, ScriptAt(h, archiveIds, levelIds, level), levelIds[level])
    decreases |levelIds|
  {
    var n := |levelIds| - 1;
    var lower := LevelMessages(h, archiveIds, levelIds[..n]);
    var script := ScriptAt(h, archiveIds, levelIds, n);
    var top := ChunkMessages(ScriptLevel(n), script, levelIds[n]);
    assert LevelMessages(h, archiveIds, levelIds) == lower + top;
    if level == n {
      forall m | m in top ensures m in log { assert m in lower + top; }
      SegmentStored(log, ScriptLevel(n), script, levelIds[n]);
    } else {
      forall m | m in lower ensures m in log { assert m in lower + top; }
      LevelsStored(log, h, archiveIds, levelIds[..n], level);
      ScriptAtPrefix(h, archiveIds, levelIds, n, level);
      assert levelIds[..n][level] == levelIds[level];
    }
  }

  /** The scripts of the first `n` levels of a chain. */
  function Scripts(h: Headers, archiveIds: seq<nat>, levelIds: seq<seq<nat>>, n: nat): (scripts: seq<seq<byte>>)
    requires n <= |levelIds|
    ensures |scripts| == n
    decreases n
  {
    if n == 0 then [] else Scripts(h, archiveIds, levelIds, n - 1) + [ScriptAt(h, archiveIds, levelIds, n - 1)]
  }

  lemma {:induction false} ScriptsAt(h: Headers, archiveIds: seq<nat>, levelIds: seq<seq<nat>>, n: nat, l: nat)
    requires l < n <= |levelIds|
    ensures Scripts(h, archiveIds, levelIds, n)[l] == ScriptAt(h, archiveIds, levelIds, l)
    decreases n
  {
    if l < n - 1 {
      ScriptsAt(h, archiveIds, levelIds, n - 1, l);
    }
  }

  /** The scripts of every level below `level` are stored under their ids. */
  ghost predicate StoredBelow(log: seq<Message>, scripts: seq<seq<byte>>, levelIds: seq<seq<nat>>, level: nat)
    requires level <= |scripts| && level <= |levelIds|
  {
    level == 0
    || (StoredBelow(log, scripts, levelIds, level - 1) && Stored(log, scripts[level - 1], levelIds[level - 1]))
  }

  lemma {:induction false} StoredBelowFrom(log: seq<Message>, scripts: seq<seq<byte>>, levelIds: seq<seq<nat>>, level: nat)
    requires level <= |scripts| && level <= |levelIds|
    requires forall l :: 0 <= l < level ==> Stored(log, scripts[l], levelIds[l])
    ensures StoredBelow(log, scripts, levelIds, level)
  {
    if level > 0 {
      StoredBelowFrom(log, scripts, levelIds, level - 1);
    }
  }

  lemma AsTextAscii(s: string)
    requires IsAscii(s)
    ensures AsText(Utf8(s)) == s
  {
    Utf8Ascii(s);
    assert forall i :: 0 <= i < |s| ==> AsText(Utf8(s))[i] == s[i];
  }

  /** A level-0 script fetches the chunks it lists. */
  lemma RunLevel0Script(log: seq<Message>, h: Headers, ids: seq<nat>, depth: nat)
    ensures RunScript(log, h, Level0Script(h, ids), depth) == Fetch(log, ids)
  {
    var top, entries := h.top, Utf8(DlText(ids));
    var script := Level0Script(h, ids);
    assert top <= script && script[|top|..] == entries;
    assert ParseEntries(AsText(script[|top|..])) == Some(ids) by {
      AsTextAscii(DlText(ids));
      ParseDlText(ids);
    }
  }

  /** A higher-level script fetches the chunks it lists and runs what they make up. */
  lemma RunLevelScript(log: seq<Message>, h: Headers, ids: seq<nat>, depth: nat, lower: seq<byte>)
    requires Distinguishable(h) && depth > 0 && Fetch(log, ids) == Some(lower)
    ensures RunScript(log, h, LevelScript(h, ids), depth) == RunScript(log, h, lower, depth - 1)
  {
    var top, header, entries, trailer := h.top, h.level, Utf8(DlText(ids)), TRAILER_BYTES;
    var script := LevelScript(h, ids);
    assert !(top <= script) by {
      assert script[0] == header[0];
    }
    assert header <= script && |header| + |trailer| <= |script| && script[|script| - |trailer|..] == trailer;
    assert ParseEntries(AsText(script[|header|..|script| - |trailer|])) == Some(ids) by {
      assert script[|header|..|script| - |trailer|] == entries;
      AsTextAscii(DlText(ids));
      ParseDlText(ids);
    }
  }

  /** Running the script of level `level` > 0 runs the script below it,
      when that one is stored. */
  lemma RunLevelStep(log: seq<Message>, h: Headers, archiveIds: seq<nat>, levelIds: seq<seq<nat>>, level: nat)
    requires Distinguishable(h) && 0 < level <= |levelIds|
    requires StoredBelow(log, Scripts(h, archiveIds, levelIds, |levelIds|), levelIds, level)
    ensures RunScript(log, h, ScriptAt(h, archiveIds, levelIds, level), level)
            == RunScript(log, h, ScriptAt(h, archiveIds, levelIds, level - 1), level - 1)
  {
    var lower := Scripts(h, archiveIds, levelIds, |levelIds|)[level - 1];
    FetchStored(log, lower, levelIds[level - 1]);
    RunLevelScript(log, h, levelIds[level - 1], level, lower);
    ScriptsAt(h, archiveIds, levelIds, |levelIds|, level - 1);
  }

  /** Running the script of a level, when every level below it and the
      archive chunks are stored, rebuilds the archive. */
  lemma {:induction false} RunLevel(log: seq<Message>, h: Headers, data: seq<byte>,
                                    archiveIds: seq<nat>, levelIds: seq<seq<nat>>, level: nat)
    requires Distinguishable(h) && level <= |levelIds| && Stored(log, data, archiveIds)
    requires StoredBelow(log, Scripts(h, archiveIds, levelIds, |levelIds|), levelIds, level)
    ensures RunScript(log, h, ScriptAt(h, archiveIds, levelIds, level), level) == Some(data)
    decreases level
  {
    if level == 0 {
      RunLevel0Script(log, h, archiveIds, 0);
      FetchStored(log, data, archiveIds);
    } else {
      calc {
        RunScript(log, h, ScriptAt(h, archiveIds, levelIds, level), level);
        == { RunLevelStep(log, h, archiveIds, levelIds, level); }
        RunScript(log, h, ScriptAt(h, archiveIds, levelIds, level - 1), level - 1);
        == { RunLevel(log, h, data, archiveIds, levelIds, level - 1); }
        Some(data);
      }
    }
  }

  /**
   * Why the chain ends: a script that does not fit in one chunk is followed
   * by a strictly shorter one, as long as the level header leaves room for
   * the `;dl <id>` entries. Each chunk adds at most 24 bytes to the next
   * level, against the CHUNK_SIZE bytes it carries.
   */
  lemma LevelShrinks(h: Headers, script: seq<byte>, ids: seq<nat>)
    requires |h.level| + 100 <= CHUNK_SIZE
    requires |ids| == |Chunks(script)| >= 2
    requires forall i :: 0 <= i < |ids| ==> ids[i] < U64_LIMIT
    ensures |LevelScript(h, ids)| < |script|
  {
    var q := |script| / CHUNK_SIZE;
    assert q >= 1 by {
      ChunkSizes(script);
    }
    assert |script| >= q * CHUNK_SIZE;
    assert |Utf8(DlText(ids))| <= 24 * (q + 1) by {
      ChunkSizes(script);
      DlTextLength(ids);
      Utf8Ascii(DlText(ids));
    }
    assert q * CHUNK_SIZE >= CHUNK_SIZE + 24 * (q - 1) by {
      assert q * CHUNK_SIZE == CHUNK_SIZE + (q - 1) * CHUNK_SIZE;
    }
  }

  /** Any webhook URL of up to six million characters leaves that room. */
  lemma LevelHeaderRoom(url: string)
    requires |url| <= 6_000_000
    ensures |HeadersFor(url).level| + 100 <= CHUNK_SIZE
  {
    assert |LevelHeader(url)| <= |url| + 300;
    Utf8Bounds(LevelHeader(url));
  }

  /** A stream shorter than a chunk is its own single chunk. */
  lemma SingleChunk(data: seq<byte>)
    requires |Chunks(data)| == 1
    ensures Chunks(data)[0] == data
  {
    assert |data| < CHUNK_SIZE;
  }

  /** The end-to-end promise of the publish phase: in a channel whose
      messages have distinct ids and which holds every message the publish
      phase posted, among any others before, between or after them (later
      backups, duplicates of a post whose reply was lost), the one-liner of
      the completion message (fetch the top-level chunk and run it) rebuilds
      the archive. */
  lemma ChainRecoversArchive(log: seq<Message>, url: string, data: seq<byte>, archiveIds: seq<nat>,
                             advisoryId: nat, levelIds: seq<seq<nat>>, completionId: nat)
    requires |archiveIds| == |Chunks(data)| && Complete(HeadersFor(url), archiveIds, levelIds)
    requires DistinctIds(log)
    requires forall m :: m in PublishLog(url, data, archiveIds, advisoryId, levelIds, completionId) ==> m in log
    ensures var topId := levelIds[|levelIds| - 1][0];
            RunCompletion(log, url, topId, |levelIds| - 1) == Some(data)
  {
    var h, t := HeadersFor(url), |levelIds| - 1;
    HeadersDiffer(url);
    var script := ScriptAt(h, archiveIds, levelIds, t);
    var archive := ChunkMessages(Archive, data, archiveIds);
    var advisory := [Message(Some(advisoryId), Some(ADVISORY), [])];
    var levels := LevelMessages(h, archiveIds, levelIds);
    var completion := [Message(Some(completionId), Some(CompletionText(url, levelIds[t][0])), [])];
    var published := PublishLog(url, data, archiveIds, advisoryId, levelIds, completionId);
    assert published == archive + advisory + levels + completion;
    assert Stored(log, data, archiveIds) by {
      forall m | m in archive ensures m in log { assert m in published; }
      SegmentStored(log, Archive, data, archiveIds);
    }
    assert StoredBelow(log, Scripts(h, archiveIds, levelIds, |levelIds|), levelIds, t)
           && Stored(log, script, levelIds[t]) by {
      forall m | m in levels ensures m in log { assert m in published; }
      var scripts := Scripts(h, archiveIds, levelIds, |levelIds|);
      forall l | 0 <= l <= t ensures Stored(log, scripts[l], levelIds[l]) {
        ScriptsAt(h, archiveIds, levelIds, |levelIds|, l);
        LevelsStored(log, h, archiveIds, levelIds, l);
      }
      StoredBelowFrom(log, scripts, levelIds, t);
    }
    assert Lookup(log, levelIds[t][0]) == Some(script) by {
      assert Lookup(log, levelIds[t][0]) == Some(Chunks(script)[0]);
      SingleChunk(script);
    }
    RunLevel(log, h, data, archiveIds, levelIds, t);
  }

  // ---------------------------------------------------------------------------
  // The publish phase

  /** The status texts an I/O failure of the publish phase leaves behind. */
  const CREATE_FAILED: string := "Failed to " + "create download " + "script"
  const ARTIFACT_FAILED: string := "Failed to " + "upload artifact"
  const SCRIPT_FAILED: string := "Failed to " + "upload download " + "script"
  const PUBLISHING: string := "Publishing " + "artifact..."
  const UPLOADING_SCRIPT: string := "Uploading " + "download " + "script..."

  lemma ChainSnoc(h: Headers, archiveIds: seq<nat>, levelIds: seq<seq<nat>>, ids: seq<nat>)
    requires ChainShape(h, archiveIds, levelIds)
    requires |ids| == |Chunks(ScriptAt(h, archiveIds, levelIds, |levelIds|))|
    ensures ChainShape(h, archiveIds, levelIds + [ids])
    ensures ScriptAt(h, archiveIds, levelIds + [ids], |levelIds|) == ScriptAt(h, archiveIds, levelIds, |levelIds|)
    ensures ScriptAt(h, archiveIds, levelIds + [ids], |levelIds| + 1) == LevelScript(h, ids)
    ensures LevelMessages(h, archiveIds, levelIds + [ids])
            == LevelMessages(h, archiveIds, levelIds)
               + ChunkMessages(ScriptLevel(|levelIds|), ScriptAt(h, archiveIds, levelIds, |levelIds|), ids)
  {
    var next, n := levelIds + [ids], |levelIds|;
    assert next[..n] == levelIds && next[n] == ids;
    ScriptAtPrefix(h, archiveIds, next, n, n);
  }

  /** Sends a message whose only content is a text; Done carries its id. */
  method SendText(hook: Webhook, net: Network, text: string) returns (r: Outcome<nat>)
    requires net.Valid()
    modifies net
    ensures net.Valid()
    ensures r.Done? ==> 0 < r.value < U64_LIMIT && |net.replies| < |old(net.replies)|
                        && net.acked == old(net.acked) + [Message(Some(r.value), Some(text), [])]
    ensures !r.Done? ==> !r.IoFailed? && net.acked == old(net.acked) && |net.replies| <= |old(net.replies)|
  {
    var m := Content(NewMessage, text);
    ghost var candidates, replies := net.candidates, net.replies;
    var sent := Send(hook, net, m);
    SendDoneKeepsMessage(hook, m, candidates, replies);
    if !sent.Done? {
      return Relay(sent);
    }
    var v := sent.value.id.value;
    assert sent.value == Message(Some(v), Some(text), []) by {
      assert sent.value.content == Some(text) && sent.value.files == [];
    }
    r := Done(v);
  }

  /** `Message::edit` as the publish phase uses it: it never reports an I/O
      failure, panics on a message that was never sent, and on success yields
      the message with the new text and posts nothing. */
  method SetStatus(hook: Webhook, net: Network, status: Message, text: string) returns (r: Outcome<Message>)
    requires net.Valid()
    modifies net
    ensures net.Valid() && !r.IoFailed?
    ensures status.id.None? ==> r.Panicked?
    ensures r.Done? ==> r.value == status.(content := Some(text))
    ensures net.replies == old(net.replies) && net.acked == old(net.acked)
  {
    r := Edit(hook, net, status, text);
  }

  /** An error branch: log it (left out) and set the status message to
      `text`. IoFailed once that edit went through. */
  method Fail<T>(hook: Webhook, net: Network, status: Message, text: string) returns (r: Outcome<T>, edited: Message)
    requires net.Valid()
    modifies net
    ensures net.Valid() && !r.Done?
    ensures r.IoFailed? ==> edited == status.(content := Some(text))
    ensures !r.IoFailed? ==> edited == status
    ensures net.replies == old(net.replies) && net.acked == old(net.acked)
  {
    var e := SetStatus(hook, net, status, text);
    if e.Done? {
      return IoFailed, e.value;
    }
    return Relay(e), status;
  }

  /** src/upload.rs lines 285-328: create the level-0 script, write its header, and upload
      the archive, appending `;dl <id>` to the script for each chunk. Done
      carries the number of archive chunks. */
  method PublishArchive(hook: Webhook, net: Network, disk: Disk, archive: Reader, status: Message)
    returns (r: Outcome<nat>, edited: Message, script: TempFile, ghost ids: seq<nat>)
    requires net.Valid() && archive.pos <= |archive.data|
    modifies net, disk, archive
    ensures net.Valid() && fresh(script)
    ensures r.Done? ==> var data := archive.data[old(archive.pos)..];
            r.value == |Chunks(data)| == |ids| && edited == status
            && script.text == Level0Script(HeadersFor(hook.url), ids)
            && net.acked == old(net.acked) + ChunkMessages(Archive, data, ids)
            && |net.replies| + |ids| <= |old(net.replies)|
    ensures r.IoFailed? ==> edited == status.(content := Some(CREATE_FAILED))
                            || edited == status.(content := Some(ARTIFACT_FAILED))
    ensures !r.Done? && !r.IoFailed? ==> edited == status
  {
    var ok;
    script, ok := OpenScript(HeadersFor(hook.url).top, disk);
    if ok {
      r, edited, ids := UploadArchive(hook, net, disk, archive, status, script);
    } else {
      ids := [];
      r, edited := Fail(hook, net, status, CREATE_FAILED);
    }
  }

  /** Creates the level-0 script and writes `header` to it; both can fail. */
  method OpenScript(header: seq<byte>, disk: Disk) returns (script: TempFile, ok: bool)
    modifies disk
    ensures fresh(script) && (ok ==> script.text == header)
  {
    script := new TempFile();
    var failed := disk.Fault();
    if failed {
      return script, false;
    }
    ok := script.Write(disk, header);
  }

  /** Uploads the archive into the channel, appending `;dl <id>` to `script`
      for each chunk; a failed upload is reported in the status message. */
  method UploadArchive(hook: Webhook, net: Network, disk: Disk, archive: Reader, status: Message, script: TempFile)
    returns (r: Outcome<nat>, edited: Message, ghost ids: seq<nat>)
    requires net.Valid() && archive.pos <= |archive.data|
    modifies net, disk, archive, script
    ensures net.Valid()
    ensures r.Done? ==> var data := archive.data[old(archive.pos)..];
            r.value == |Chunks(data)| == |ids| && edited == status
            && script.text == old(script.text) + Utf8(DlText(ids))
            && net.acked == old(net.acked) + ChunkMessages(Archive, data, ids)
            && |net.replies| + |ids| <= |old(net.replies)|
    ensures r.IoFailed? ==> edited == status.(content := Some(ARTIFACT_FAILED))
    ensures !r.Done? && !r.IoFailed? ==> edited == status
  {
    var u;
    u, ids := UploadChunked(hook, net, disk, archive, Archive, script);
    if u.Done? {
      r, edited := Done(u.value + 1), status;
    } else if u.IoFailed? {
      r, edited := Fail(hook, net, status, ARTIFACT_FAILED);
    } else {
      r, edited := Relay(u), status;
    }
  }

  /**
   * Flushes the current script, reopens it for reading and creates the next
   * level's file holding `header`; each of the first three steps and the
   * header write can fail.
   */
  method OpenLevel(header: seq<byte>, disk: Disk) returns (next: TempFile, ok: bool)
    modifies disk
    ensures fresh(next) && (ok ==> next.text == header)
  {
    next := new TempFile();
    var failed := disk.Fault();  // flush
    if !failed {
      failed := disk.Fault();    // reopen for reading
    }
    if !failed {
      failed := disk.Fault();    // create the next level's file
    }
    if failed {
      return next, false;
    }
    ok := next.Write(disk, header);
  }

  /** One round of the loop at src/upload.rs lines 335-416: reopen the level's script for
      reading, start the next level's script with its header, and upload the
      script, appending `;dl <id>` to the next one for each chunk. Done(true)
      when the script went up as a single chunk, whose id is `lastId`;
      Done(false) once the trailer is written and the next level is ready. */
  method PublishLevel(hook: Webhook, net: Network, disk: Disk, script: TempFile, level: nat, status: Message)
    returns (r: Outcome<bool>, edited: Message, next: TempFile, ids: seq<nat>, lastId: nat)
    requires net.Valid()
    modifies net, disk
    ensures net.Valid() && fresh(next)
    ensures r.Done? ==> |ids| == |Chunks(script.text)| && edited == status
                        && net.acked == old(net.acked) + ChunkMessages(ScriptLevel(level), script.text, ids)
                        && |net.replies| + |ids| <= |old(net.replies)|
                        && (r.value <==> |ids| == 1)
                        && (r.value ==> lastId == ids[0])
                        && (!r.value ==> next.text == LevelScript(HeadersFor(hook.url), ids))
    ensures r.IoFailed? ==> edited == status.(content := Some(SCRIPT_FAILED))
    ensures !r.Done? && !r.IoFailed? ==> edited == status
  {
    ids, lastId := [], 0;
    var ok;
    next, ok := OpenLevel(HeadersFor(hook.url).level, disk);
    if !ok {
      r, edited := Fail(hook, net, status, SCRIPT_FAILED);
      return;
    }
    var reader := new Reader(script.text);
    assert reader.data[reader.pos..] == script.text;
    var u;
    u, ids := UploadChunked(hook, net, disk, reader, ScriptLevel(level), next);
    if !u.Done? {
      if u.IoFailed? {
        r, edited := Fail(hook, net, status, SCRIPT_FAILED);
      } else {
        r, edited := Relay(u), status;
      }
      return;
    }
    lastId := ids[|ids| - 1];
    if u.value == 0 {
      return Done(true), status, next, ids, lastId;
    }
    var written := next.Write(disk, TRAILER_BYTES);
    if !written {
      r, edited := Fail(hook, net, status, SCRIPT_FAILED);
      return;
    }
    r, edited := Done(false), status;
  }

  /** One round of the loop at src/upload.rs lines 335-416: the script of level
      `|levelIds|` goes up as the next level's chunks. */
  method ScriptStep(hook: Webhook, net: Network, disk: Disk, h: Headers, script: TempFile,
                    ghost archiveIds: seq<nat>, ghost levelIds: seq<seq<nat>>, ghost base: seq<Message>,
                    level: nat, status: Message)
    returns (res: Outcome<bool>, edited: Message, next: TempFile, ghost ids: seq<nat>, lastId: nat)
    requires net.Valid() && h == HeadersFor(hook.url) && level == |levelIds|
    requires ChainShape(h, archiveIds, levelIds) && script.text == ScriptAt(h, archiveIds, levelIds, |levelIds|)
    requires net.acked == base + LevelMessages(h, archiveIds, levelIds)
    modifies net, disk
    ensures net.Valid() && fresh(next)
    ensures res.Done? ==> var grown := levelIds + [ids];
            ChainShape(h, archiveIds, grown) && edited == status
            && net.acked == base + LevelMessages(h, archiveIds, grown)
            && |net.replies| < |old(net.replies)|
            && (res.value <==> |ids| == 1) && (res.value ==> lastId == ids[0])
            && (!res.value ==> next.text == ScriptAt(h, archiveIds, grown, |grown|))
    ensures res.IoFailed? ==> edited == status.(content := Some(SCRIPT_FAILED))
    ensures !res.Done? && !res.IoFailed? ==> edited == status
  {
    var realIds;
    res, edited, next, realIds, lastId := PublishLevel(hook, net, disk, script, level, status);
    ids := realIds;
    if res.Done? {
      ChainSnoc(h, archiveIds, levelIds, ids);
      AppendAssoc(base, LevelMessages(h, archiveIds, levelIds),
                  ChunkMessages(ScriptLevel(level), script.text, ids));
    }
  }

  /**
   * src/upload.rs lines 335-416: upload the current script as the chunks of the next level,
   * until one level fits in a single chunk. Done carries the id of that chunk.
   */
  method PublishScripts(hook: Webhook, net: Network, disk: Disk, h: Headers, first: TempFile,
                        ghost archiveIds: seq<nat>, status: Message)
    returns (r: Outcome<nat>, edited: Message, ghost levelIds: seq<seq<nat>>)
    requires net.Valid() && h == HeadersFor(hook.url) && first.text == ScriptAt(h, archiveIds, [], 0)
    modifies net, disk
    ensures net.Valid()
    ensures r.Done? ==>
              && Complete(h, archiveIds, levelIds) && r.value == levelIds[|levelIds| - 1][0]
              && edited == status && net.acked == old(net.acked) + LevelMessages(h, archiveIds, levelIds)
    ensures r.IoFailed? ==> edited == status.(content := Some(SCRIPT_FAILED))
    ensures !r.Done? && !r.IoFailed? ==> edited == status
  {
    var script := first;
    var level := 0;
    levelIds := [];
    while true
      invariant net.Valid() && level == |levelIds|
      invariant ChainShape(h, archiveIds, levelIds)
      invariant script.text == ScriptAt(h, archiveIds, levelIds, |levelIds|)
      invariant net.acked == old(net.acked) + LevelMessages(h, archiveIds, levelIds)
      decreases |net.replies|
    {
      var res, e, next, ids, lastId := ScriptStep(hook, net, disk, h, script, archiveIds, levelIds, old(net.acked), level, status);
      if !res.Done? {
        r, edited := Relay(res), e;
        break;
      }
      levelIds := levelIds + [ids];
      if res.value {
        r, edited := Done(lastId), status;
        break;
      }
      script := next;
      level := level + 1;
    }
  }

  /** src/upload.rs lines 330-331: announce the script upload on the status message and
      post the advisory; Done carries the advisory's id. */
  method Announce(hook: Webhook, net: Network, status: Message) returns (r: Outcome<nat>, edited: Message)
    requires net.Valid()
    modifies net
    ensures net.Valid() && !r.IoFailed?
    ensures status.id.None? ==> r.Panicked?
    ensures r.Done? ==> edited == status.(content := Some(UPLOADING_SCRIPT))
                        && net.acked == old(net.acked) + [Message(Some(r.value), Some(ADVISORY), [])]
    ensures !r.Done? ==> edited == status
  {
    var e := SetStatus(hook, net, status, UPLOADING_SCRIPT);
    if !e.Done? {
      return Relay(e), status;
    }
    r := SendText(hook, net, ADVISORY);
    edited := if r.Done? then e.value else status;
  }

  /**
   * src/upload.rs lines 330-418: announce the script upload on the status message, post
   * the advisory, upload the script chain, and leave the final status text.
   */
  method PublishDownloadScript(hook: Webhook, net: Network, disk: Disk, script: TempFile,
                               ghost archiveIds: seq<nat>, chunks: nat, status: Message)
    returns (r: Outcome<nat>, edited: Message, ghost advisoryId: nat, ghost levelIds: seq<seq<nat>>, ghost completionId: nat)
    requires net.Valid() && script.text == Level0Script(HeadersFor(hook.url), archiveIds)
    modifies net, disk
    ensures net.Valid()
    ensures status.id.None? ==> r.Panicked?
    ensures r.Done? ==>
              && r.value == chunks
              && Complete(HeadersFor(hook.url), archiveIds, levelIds)
              && net.acked == old(net.acked) + [Message(Some(advisoryId), Some(ADVISORY), [])]
                              + LevelMessages(HeadersFor(hook.url), archiveIds, levelIds)
                              + [Message(Some(completionId), Some(CompletionText(hook.url, levelIds[|levelIds| - 1][0])), [])]
              && edited == status.(content := Some(FinalText(chunks)))
    ensures r.IoFailed? ==> edited == status.(content := Some(SCRIPT_FAILED))
  {
    advisoryId, levelIds, completionId := 0, [], 0;
    var w;
    w, edited := Announce(hook, net, status);
    if w.Done? {
      advisoryId := w.value;
      r, edited, levelIds, completionId := ScriptsThenConclude(hook, net, disk, script, archiveIds, chunks, status);
    } else {
      r := Relay(w);
    }
  }

  /** src/upload.rs lines 335-418, after the advisory: the script chain, then the completion. */
  method ScriptsThenConclude(hook: Webhook, net: Network, disk: Disk, script: TempFile,
                             ghost archiveIds: seq<nat>, chunks: nat, status: Message)
    returns (r: Outcome<nat>, edited: Message, ghost levelIds: seq<seq<nat>>, ghost completionId: nat)
    requires net.Valid() && script.text == Level0Script(HeadersFor(hook.url), archiveIds)
    modifies net, disk
    ensures net.Valid()
    ensures r.Done? ==>
              && r.value == chunks
              && Complete(HeadersFor(hook.url), archiveIds, levelIds)
              && net.acked == old(net.acked) + LevelMessages(HeadersFor(hook.url), archiveIds, levelIds)
                              + [Message(Some(completionId), Some(CompletionText(hook.url, levelIds[|levelIds| - 1][0])), [])]
              && edited == status.(content := Some(FinalText(chunks)))
    ensures r.IoFailed? ==> edited == status.(content := Some(SCRIPT_FAILED))
    ensures !r.Done? && !r.IoFailed? ==> edited == status
  {
    completionId := 0;
    var s;
    s, edited, levelIds := PublishScripts(hook, net, disk, HeadersFor(hook.url), script, archiveIds, status);
    if s.Done? {
      r, edited, completionId := Conclude(hook, net, s.value, chunks, status);
    } else {
      r := Relay(s);
    }
  }

  /** src/upload.rs lines 391-393 and 418: post the completion message with the one-liner that
      fetches the top-level script `topId`, then name the number of archive
      chunks on the status message. */
  method Conclude(hook: Webhook, net: Network, topId: nat, chunks: nat, status: Message)
    returns (r: Outcome<nat>, edited: Message, ghost completionId: nat)
    requires net.Valid()
    modifies net
    ensures net.Valid() && !r.IoFailed?
    ensures r.Done? ==> r.value == chunks && edited == status.(content := Some(FinalText(chunks)))
                        && net.acked == old(net.acked)
                                        + [Message(Some(completionId), Some(CompletionText(hook.url, topId)), [])]
    ensures !r.Done? ==> edited == status
  {
    completionId := 0;
    var c := SendText(hook, net, CompletionText(hook.url, topId));
    if !c.Done? {
      return Relay(c), status, completionId;
    }
    completionId := c.value;
    var e := SetStatus(hook, net, status, FinalText(chunks));
    if !e.Done? {
      return Relay(e), status, completionId;
    }
    return Done(chunks), e.value, completionId;
  }

  /**
   * src/upload.rs lines 281-420: the publish phase. The status message `head` is edited as
   * the phase proceeds; on success the channel holds the archive chunks, the
   * advisory, the script chain and the completion message, and the status
   * names the number of archive chunks.
   */
  method Publish(hook: Webhook, net: Network, disk: Disk, archive: Reader, head: Message)
    returns (r: Outcome<nat>, status: Message,
             ghost archiveIds: seq<nat>, ghost advisoryId: nat, ghost levelIds: seq<seq<nat>>, ghost completionId: nat)
    requires net.Valid() && archive.pos <= |archive.data|
    modifies net, disk, archive
    ensures net.Valid()
    ensures head.id.None? ==> r.Panicked?
    ensures r.Done? ==> var data := old(archive.data[archive.pos..]);
            r.value == |Chunks(data)| == |archiveIds|
            && Complete(HeadersFor(hook.url), archiveIds, levelIds)
            && net.acked == old(net.acked) + PublishLog(hook.url, data, archiveIds, advisoryId, levelIds, completionId)
            && status == head.(content := Some(FinalText(r.value)))
    ensures r.IoFailed? ==> status == head.(content := Some(CREATE_FAILED))
                            || status == head.(content := Some(ARTIFACT_FAILED))
                            || status == head.(content := Some(SCRIPT_FAILED))
  {
    archiveIds, advisoryId, levelIds, completionId := [], 0, [], 0;
    status := head;
    var e := SetStatus(hook, net, status, PUBLISHING);
    if !e.Done? {
      return Relay(e), status, archiveIds, advisoryId, levelIds, completionId;
    }
    status := e.value;
    ghost var data := archive.data[archive.pos..];
    ghost var start := net.acked;
    var a, script;
    a, status, script, archiveIds := PublishArchive(hook, net, disk, archive, status);
    if !a.Done? {
      return Relay(a), status, archiveIds, advisoryId, levelIds, completionId;
    }
    var chunks := a.value;
    var s;
    s, status, advisoryId, levelIds, completionId := PublishDownloadScript(hook, net, disk, script, archiveIds, chunks, status);
    if !s.Done? {
      return Relay(s), status, archiveIds, advisoryId, levelIds, completionId;
    }
    assert net.acked == start + PublishLog(hook.url, data, archiveIds, advisoryId, levelIds, completionId) by {
      var cm := ChunkMessages(Archive, data, archiveIds);
      var adv := [Message(Some(advisoryId), Some(ADVISORY), [])];
      var lm := LevelMessages(HeadersFor(hook.url), archiveIds, levelIds);
      var done := [Message(Some(completionId), Some(CompletionText(hook.url, levelIds[|levelIds| - 1][0])), [])];
      assert net.acked == start + cm + (adv + lm + done) by {
        AppendAssoc(adv, lm, done);
        AppendAssoc(start + cm, adv + lm, done);
        AppendAssoc(start + cm, adv, lm);
      }
      AppendAssoc(start, cm, adv + lm + done);
      AppendAssoc(cm, adv, lm);
      AppendAssoc(cm, adv + lm, done);
    }
    r := Done(chunks);
  }
}
