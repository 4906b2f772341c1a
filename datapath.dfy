/**
 * The bodies of the three data transfers, run once a data connection is up:
 * storing what the client sends into a file (STOR), sending a file (RETR)
 * and sending a directory listing (LIST). Each is a loop over reads; each is
 * proved to produce the whole-stream result, however the input is cut into
 * reads.
 */
module DataPath {

  import opened Wrappers
  import opened Text
  import opened Fs
  import opened LineEnding
  import opened Host

  /** The size of the read buffer of the transfer loops (32 KiB). */
  const BufferSize: nat := 32768

  /**
   * The bytes the upload loop takes from a data connection: every chunk up
   * to the end of the stream (an empty read, or the end of the script) or the
   * first failed read, whichever comes first.
   */
  function Delivered(peer: seq<ReadResult>): seq<byte>
    decreases |peer|
  {
    if |peer| == 0 || peer[0].Failure? || |peer[0].bytes| == 0 then []
    else peer[0].bytes + Delivered(peer[1..])
  }

  /** Whether the stream breaks with a failed read before it ends. */
  predicate Aborted(peer: seq<ReadResult>)
    decreases |peer|
  {
    |peer| > 0 && (peer[0].Failure? || (|peer[0].bytes| > 0 && Aborted(peer[1..])))
  }

  /** A stream that delivers its chunks and then ends gives their concatenation. */
  lemma {:induction false} DeliveredChunks(chunks: seq<seq<byte>>, peer: seq<ReadResult>)
    requires |peer| == |chunks| && forall k :: 0 <= k < |chunks| ==> |chunks[k]| > 0 && peer[k] == Data(chunks[k])
    ensures !Aborted(peer)
    ensures Delivered(peer) == Flatten(chunks)
    decreases |chunks|
  {
    if |chunks| > 0 {
      DeliveredChunks(chunks[1..], peer[1..]);
    }
  }

  function Flatten(chunks: seq<seq<byte>>): seq<byte>
    decreases |chunks|
  {
    if |chunks| == 0 then [] else chunks[0] + Flatten(chunks[1..])
  }

  /** The file after an upload of `data` in type `ty` into a file that held `prior`. */
  function Stored(prior: seq<byte>, ty: TransferType, data: seq<byte>): (r: seq<byte>)
    ensures |Encode(ty, data)| <= |r|
    ensures r[..|Encode(ty, data)|] == Encode(ty, data)
    ensures |Encode(ty, data)| < |prior| ==> r[|Encode(ty, data)|..] == prior[|Encode(ty, data)|..]
  {
    Overwrite(prior, Encode(ty, data))
  }

  /** What a file holds before an upload: its old bytes, or nothing if it is created. */
  function Prior(files: map<string, seq<byte>>, path: string): seq<byte>
  {
    if path in files then files[path] else []
  }

  /** Whether opening `path` for writing (creating it if needed) succeeds. */
  predicate Creatable(locked: set<string>, dirs: map<string, seq<Entry>>, path: string)
  {
    path !in locked && path !in dirs
  }

  /**
   * The body of the upload loop for one read: writes the chunk at the file
   * cursor, in ASCII type one byte at a time with LF written as CR LF.
   */
  method StoreChunk(host: Host, target: string, ty: TransferType, pos: nat, chunk: seq<byte>) returns (next: nat)
    requires target in host.files && pos <= |host.files[target]|
    modifies host`files
    ensures next == pos + |Encode(ty, chunk)|
    ensures host.files == old(host.files)[target := WriteAt(old(host.files)[target], pos, Encode(ty, chunk))]
  {
    if ty == Binary {
      host.WriteFile(target, pos, chunk);
      return pos + |chunk|;
    }
    ghost var f0 := host.files[target];
    ghost var files0 := host.files;
    next := pos;
    var j := 0;
    PrefixEnds(chunk);
    assert WriteAt(f0, pos, AsciiEncode(chunk[..0])) == f0;
    assert files0[target := f0] == files0;
    while j < |chunk|
      invariant 0 <= j <= |chunk|
      invariant next == pos + |AsciiEncode(chunk[..j])|
      invariant host.files == files0[target := WriteAt(f0, pos, AsciiEncode(chunk[..j]))]
    {
      var b := chunk[j];
      WriteAtAppend(f0, pos, AsciiEncode(chunk[..j]), Translate(b));
      AsciiEncodeSnoc(chunk[..j], b);
      PrefixSnoc(chunk, j);
      if b == LF {
        host.WriteFile(target, next, [CR, LF]);
        next := next + 2;
      } else {
        host.WriteFile(target, next, [b]);
        next := next + 1;
      }
      j := j + 1;
    }
  }

  /** What one read of the upload loop sees, and what is left of the stream after it. */
  lemma DeliveredStep(peer: seq<ReadResult>, i: nat)
    requires i < |peer|
    ensures peer[i].Failure? ==> Aborted(peer[i..]) && Delivered(peer[i..]) == []
    ensures peer[i].Data? && |peer[i].bytes| == 0 ==> !Aborted(peer[i..]) && Delivered(peer[i..]) == []
    ensures peer[i].Data? && |peer[i].bytes| > 0 ==>
      Aborted(peer[i..]) == Aborted(peer[i + 1..]) && Delivered(peer[i..]) == peer[i].bytes + Delivered(peer[i + 1..])
  {
    assert peer[i..][1..] == peer[i + 1..];
  }

  lemma UpdateTwice<K, V>(m: map<K, V>, k: K, a: V, b: V)
    ensures m[k := a][k := b] == m[k := b]
  {
  }

  /** The upload loop proper: every read is written at the cursor, in order. */
  method CopyStream(host: Host, target: string, ty: TransferType, peer: seq<ReadResult>) returns (ok: bool)
    requires target in host.files
    modifies host`files
    ensures ok == !Aborted(peer)
    ensures host.files == old(host.files)[target := Overwrite(old(host.files)[target], Encode(ty, Delivered(peer)))]
  {
    ghost var files0 := host.files;
    ghost var prior := host.files[target];
    var pos := 0;
    ghost var got: seq<byte> := [];
    var i := 0;
    PrefixEnds(peer);
    assert files0[target := Overwrite(prior, [])] == files0;
    while true
      invariant 0 <= i <= |peer|
      invariant got + Delivered(peer[i..]) == Delivered(peer)
      invariant Aborted(peer[i..]) == Aborted(peer)
      invariant pos == |Encode(ty, got)|
      invariant host.files == files0[target := Overwrite(prior, Encode(ty, got))]
      decreases |peer| - i
    {
      if i == |peer| {
        AppendAssoc(got, [], []);
        break;
      }
      DeliveredStep(peer, i);
      var r := peer[i];
      i := i + 1;
      if r.Failure? {
        AppendAssoc(got, [], []);
        return false;
      }
      var chunk := r.bytes;
      if |chunk| == 0 {
        AppendAssoc(got, [], []);
        break;
      }
      AppendAssoc(got, chunk, Delivered(peer[i..]));
      OverwriteWriteAt(prior, Encode(ty, got), Encode(ty, chunk));
      EncodeAppend(ty, got, chunk);
      UpdateTwice(files0, target, Overwrite(prior, Encode(ty, got)), Overwrite(prior, Encode(ty, got + chunk)));
      pos := StoreChunk(host, target, ty, pos, chunk);
      got := got + chunk;
    }
    ok := true;
  }

  /**
   * `receive_inner`: opens the target for writing without truncating it, then
   * copies the stream into it one read at a time. A failed open changes
   * nothing; a failed read stops the copy after the bytes already written.
   */
  method StoreStream(host: Host, target: string, ty: TransferType, peer: seq<ReadResult>) returns (ok: bool)
    modifies host`files
    ensures ok == (Creatable(old(host.locked), old(host.dirs), target) && !Aborted(peer))
    ensures Creatable(old(host.locked), old(host.dirs), target) ==>
      host.files == old(host.files)[target := Stored(Prior(old(host.files), target), ty, Delivered(peer))]
    ensures !Creatable(old(host.locked), old(host.dirs), target) ==> host.files == old(host.files)
  {
    var created := host.OpenWrite(target);
    if !created {
      return false;
    }
    ghost var files1 := host.files;
    ok := CopyStream(host, target, ty, peer);
    if target !in old(host.files) {
      UpdateTwice(old(host.files), target, [], Overwrite([], Encode(ty, Delivered(peer))));
    }
  }

  /** The body of the download loop for one read: in ASCII type one write per byte. */
  method SendChunk(host: Host, ty: TransferType, chunk: seq<byte>)
    modifies host`wire
    ensures host.wire == old(host.wire) + Encode(ty, chunk)
  {
    if ty == Binary {
      host.Transmit(chunk);
      return;
    }
    ghost var wire0 := host.wire;
    var j := 0;
    PrefixEnds(chunk);
    while j < |chunk|
      invariant 0 <= j <= |chunk|
      invariant host.wire == wire0 + AsciiEncode(chunk[..j])
    {
      var b := chunk[j];
      AsciiEncodeSnoc(chunk[..j], b);
      PrefixSnoc(chunk, j);
      if b == LF {
        host.Transmit([CR, LF]);
      } else {
        host.Transmit([b]);
      }
      j := j + 1;
    }
  }

  /** Encoding a longer prefix appends the encoding of the bytes added. */
  lemma EncodeSlices(ty: TransferType, s: seq<byte>, i: nat, j: nat)
    requires i <= j <= |s|
    ensures Encode(ty, s[..j]) == Encode(ty, s[..i]) + Encode(ty, s[i..j])
    ensures Encode(ty, s[..0]) == []
  {
    assert s[..0] == [];
    assert s[..j] == s[..i] + s[i..j];
    EncodeAppend(ty, s[..i], s[i..j]);
  }

  /** One step of the download loop: the chunk at `pos` extends what was sent. */
  lemma ChunkStep(ty: TransferType, content: seq<byte>, pos: nat, len: nat, sent: seq<byte>)
    requires pos + len <= |content| && sent == Encode(ty, content[..pos])
    ensures sent + Encode(ty, content[pos..pos + len]) == Encode(ty, content[..pos + len])
  {
    EncodeSlices(ty, content, pos, pos + len);
  }

  /** The download loop proper: reads of at most 32 KiB until the file is exhausted. */
  method SendContent(host: Host, ty: TransferType, content: seq<byte>)
    modifies host`wire
    ensures host.wire == old(host.wire) + Encode(ty, content)
  {
    ghost var wire0 := host.wire;
    ghost var sent: seq<byte> := [];
    var pos := 0;
    PrefixEnds(content);
    while pos < |content|
      invariant 0 <= pos <= |content|
      invariant sent == Encode(ty, content[..pos])
      invariant host.wire == wire0 + sent
      decreases |content| - pos
    {
      var len := if |content| - pos < BufferSize then |content| - pos else BufferSize;
      var chunk := content[pos..pos + len];
      ChunkStep(ty, content, pos, len, sent);
      SendChunk(host, ty, chunk);
      sent := sent + Encode(ty, chunk);
      pos := pos + len;
    }
  }

  /**
   * `send_inner`: opens the file for reading and copies it to the data
   * connection. A file that cannot be opened sends nothing and fails.
   */
  method SendFile(host: Host, target: string, ty: TransferType) returns (ok: bool)
    modifies host`wire
    ensures ok == old(host.Readable(target)).Some?
    ensures ok ==> host.wire == old(host.wire) + Encode(ty, old(host.Readable(target)).value)
    ensures !ok ==> host.wire == old(host.wire)
  {
    var file := host.Readable(target);
    if file.None? {
      return false;
    }
    SendContent(host, ty, file.value);
    ok := true;
  }

  /** The listing lines of the entries that `display` can render, in enumeration order. */
  function Lines(entries: seq<Entry>): (ls: seq<string>)
    ensures |ls| <= |entries|
    decreases |entries|
  {
    if |entries| == 0 then []
    else
      var last := entries[|entries| - 1];
      Lines(entries[..|entries| - 1]) + (if Display(last).Some? then [Display(last).value] else [])
  }

  /** When every entry can be rendered, there is one line per entry, in order. */
  lemma {:induction false} LinesAllShown(entries: seq<Entry>)
    requires forall k :: 0 <= k < |entries| ==> Display(entries[k]).Some?
    ensures |Lines(entries)| == |entries|
    ensures forall k :: 0 <= k < |entries| ==> Lines(entries)[k] == Display(entries[k]).value
    decreases |entries|
  {
    if |entries| > 0 {
      LinesAllShown(entries[..|entries| - 1]);
    }
  }

  /** An entry whose metadata, owner or group cannot be looked up adds no line. */
  lemma HiddenEntry(entries: seq<Entry>, e: Entry)
    requires Display(e).None?
    ensures Lines(entries + [e]) == Lines(entries)
  {
    assert (entries + [e])[..|entries|] == entries;
  }

  function Concat(ls: seq<string>): string
    decreases |ls|
  {
    if |ls| == 0 then "" else Concat(ls[..|ls| - 1]) + ls[|ls| - 1]
  }

  /** The text LIST sends: the lines one after the other. */
  function Listing(entries: seq<Entry>): string
  {
    Concat(Lines(entries))
  }

  /** The line `display` gives an entry, or nothing when it gives none. */
  function Line(e: Entry): string
  {
    if Display(e).Some? then Display(e).value else ""
  }

  /** Each entry adds its own line, if it has one, after those of the entries before it. */
  lemma ListingSnoc(entries: seq<Entry>, e: Entry)
    ensures Listing(entries + [e]) == Listing(entries) + Line(e)
  {
    assert (entries + [e])[..|entries|] == entries;
    var ls := Lines(entries);
    if Display(e).Some? {
      assert Lines(entries + [e]) == ls + [Display(e).value];
      assert (ls + [Display(e).value])[..|ls|] == ls;
    } else {
      assert Lines(entries + [e]) == ls + [];
      assert ls + [] == ls;
    }
  }

  /**
   * The bytes the listing loop writes for the first `k` entries when each
   * entry is rendered by `render`: the UTF-8 bytes of every line it gives.
   */
  function SentLines(entries: seq<Entry>, k: nat, render: Entry -> Option<string>): seq<byte>
    requires k <= |entries|
  {
    if k == 0 then []
    else
      var r := render(entries[k - 1]);
      SentLines(entries, k - 1, render) + (if r.Some? then AsBytes(r.value) else [])
  }

  /** Bytes of a text, extended by the bytes of more text, are the bytes of the longer text. */
  lemma AsBytesGlue(sent: seq<byte>, front: string, line: string, whole: string)
    requires sent == AsBytes(front) && whole == front + line
    ensures sent + AsBytes(line) == AsBytes(whole)
  {
    AsBytesAppend(front, line);
  }

  /** Writing the `display` lines one by one sends the UTF-8 bytes of the whole listing. */
  lemma {:induction false} SentLinesListing(entries: seq<Entry>, k: nat)
    requires k <= |entries|
    ensures SentLines(entries, k, Display) == AsBytes(Listing(entries[..k]))
  {
    if k > 0 {
      var front, last := entries[..k - 1], entries[k - 1];
      SentLinesListing(entries, k - 1);
      PrefixSnoc(entries, k - 1);
      ListingSnoc(front, last);
      AsBytesGlue(SentLines(entries, k - 1, Display), Listing(front), Line(last), Listing(entries[..k]));
      assert SentLines(entries, k, Display) == SentLines(entries, k - 1, Display) + AsBytes(Line(last));
    } else {
      assert Lines(entries[..0]) == [];
    }
  }

  /**
   * The loop of `list_inner`: one write per entry that `render` gives a line
   * for, in order. The session passes `Display`.
   */
  method SendLines(host: Host, entries: seq<Entry>, render: Entry -> Option<string>)
    modifies host`wire
    ensures host.wire == old(host.wire) + SentLines(entries, |entries|, render)
  {
    ghost var wire0 := host.wire;
    var k := 0;
    while k < |entries|
      invariant 0 <= k <= |entries|
      invariant host.wire == wire0 + SentLines(entries, k, render)
    {
      var description := render(entries[k]);
      if description.Some? {
        AppendAssoc(wire0, SentLines(entries, k, render), AsBytes(description.value));
        host.Transmit(AsBytes(description.value));
      }
      k := k + 1;
    }
  }

  /**
   * `list_inner`: reads the directory and writes one `display` line per
   * entry that has one, in enumeration order. A directory that cannot be read
   * writes nothing and fails.
   */
  method SendListing(host: Host, dir: string) returns (ok: bool)
    modifies host`wire
    ensures ok == old(host.ReadDir(dir)).Some?
    ensures ok ==> host.wire == old(host.wire) + AsBytes(Listing(old(host.ReadDir(dir)).value))
    ensures !ok ==> host.wire == old(host.wire)
  {
    var listing := host.ReadDir(dir);
    if listing.None? {
      return false;
    }
    SendLines(host, listing.value, Display);
    SentLinesListing(listing.value, |listing.value|);
    PrefixEnds(listing.value);
    ok := true;
  }
}
