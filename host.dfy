/**
 * The operating system as the session sees it: a file system, the sockets of
 * the data connection and the bytes written on it. Every foreign call of the
 * session (bind, connect, accept, open, read_dir, metadata, canonicalize) is
 * answered from this state. This model makes writes to files and to data
 * connections always succeed, and so do reads of a file or a directory that
 * could be opened. On a real system these can fail part way, and the server
 * then answers 426; such failures are outside this model.
 */
module Host {

  import opened Wrappers
  import opened Text
  import opened Net
  import opened Fs

  /** One read on a data connection: some bytes, or an I/O error. No bytes is the end of the stream. */
  datatype ReadResult = Data(bytes: seq<byte>) | Failure

  /**
   * The outcome of one socket call, in the order the session makes them: a
   * bind that succeeded (with the port the system chose), a connection that
   * was established or accepted (with what the peer will send on it), or a
   * refusal. A call whose outcome does not fit the call fails.
   */
  datatype NetEvent = Refused | Bound(port: u16) | Stream(peer: seq<ReadResult>)

  /** A file after writing `w` from offset 0 without truncating it first. */
  function Overwrite(prior: seq<byte>, w: seq<byte>): (r: seq<byte>)
    ensures |r| == if |w| < |prior| then |prior| else |w|
    ensures r[..|w|] == w
    ensures |w| < |prior| ==> r[|w|..] == prior[|w|..]
  {
    if |w| < |prior| then w + prior[|w|..] else w
  }

  /** A file after writing `b` at offset `pos`. */
  function WriteAt(f: seq<byte>, pos: nat, b: seq<byte>): seq<byte>
    requires pos <= |f|
  {
    f[..pos] + b + (if pos + |b| < |f| then f[pos + |b|..] else [])
  }

  /** Two writes at consecutive offsets amount to one write of both. */
  lemma WriteAtAppend(f: seq<byte>, pos: nat, x: seq<byte>, y: seq<byte>)
    requires pos <= |f|
    ensures pos + |x| <= |WriteAt(f, pos, x)|
    ensures WriteAt(WriteAt(f, pos, x), pos + |x|, y) == WriteAt(f, pos, x + y)
  {
    var g := WriteAt(f, pos, x);
    assert g[..pos + |x|] == f[..pos] + x;
    if pos + |x| + |y| < |f| {
      assert g[pos + |x| + |y|..] == f[pos + |x| + |y|..];
    }
  }

  /** A write at the end of what an upload wrote so far extends the upload. */
  lemma OverwriteWriteAt(prior: seq<byte>, w: seq<byte>, b: seq<byte>)
    ensures |w| <= |Overwrite(prior, w)|
    ensures WriteAt(Overwrite(prior, w), |w|, b) == Overwrite(prior, w + b)
  {
  }

  /** One character encoded as UTF-8. */
  function Utf8(c: char): (r: seq<byte>)
    ensures 1 <= |r| <= 4
    ensures c as int < 0x80 <==> r == [c as int]
  {
    var n := c as int;
    if n < 0x80 then [n]
    else if n < 0x800 then [0xC0 + n / 64, 0x80 + n % 64]
    else if n < 0x10000 then [0xE0 + n / 4096, 0x80 + (n / 64) % 64, 0x80 + n % 64]
    else [0xF0 + n / 262144, 0x80 + (n / 4096) % 64, 0x80 + (n / 64) % 64, 0x80 + n % 64]
  }

  /** The bytes of `s` as UTF-8, as Rust's `str::as_bytes` gives them. */
  function AsBytes(s: string): seq<byte>
    decreases |s|
  {
    if |s| == 0 then [] else Utf8(s[0]) + AsBytes(s[1..])
  }

  lemma {:induction false} AsBytesAppend(a: string, b: string)
    ensures AsBytes(a + b) == AsBytes(a) + AsBytes(b)
    decreases |a|
  {
    if |a| > 0 {
      assert (a + b)[1..] == a[1..] + b;
      AsBytesAppend(a[1..], b);
    } else {
      assert a + b == b;
    }
  }

  /** The outcome the next socket call gets: a refusal once the script is exhausted. */
  function Next(events: seq<NetEvent>): NetEvent
  {
    if |events| == 0 then Refused else events[0]
  }

  /** The outcomes left for the calls after it. */
  function Later(events: seq<NetEvent>): (rest: seq<NetEvent>)
    ensures |events| > 0 ==> |rest| == |events| - 1
  {
    if |events| == 0 then [] else events[1..]
  }

  /** What a session's commands change on the host: the socket outcomes still to come, the files, the bytes sent. */
  datatype HostState = HostState(events: seq<NetEvent>, files: map<string, seq<byte>>, wire: seq<byte>)

  /** What they only consult: the unopenable paths, the directories and the canonical paths. */
  datatype Disk = Disk(locked: set<string>, dirs: map<string, seq<Entry>>, canonical: map<string, string>)

  /**
   * `File::open` and `read` of a whole file: the contents of a regular file
   * that can be opened. A directory opens but its first read fails, so it
   * yields nothing, whatever `files` holds for its path.
   */
  function FileIn(files: map<string, seq<byte>>, d: Disk, path: string): (r: Option<seq<byte>>)
    ensures r.Some? <==> path in files && path !in d.locked && path !in d.dirs
    ensures r.Some? ==> r.value == files[path]
  {
    if path in files && path !in d.locked && path !in d.dirs then Some(files[path]) else None
  }

  /** `read_dir`: the entries of a directory that can be opened. */
  function EntriesIn(d: Disk, path: string): Option<seq<Entry>>
  {
    if path in d.dirs && path !in d.locked then Some(d.dirs[path]) else None
  }

  class Host {
    /** Regular files and their contents, by path. */
    var files: map<string, seq<byte>>
    /** Paths that cannot be opened at all (permissions, or any other open error). */
    var locked: set<string>
    /** Directories, and the entries `read_dir` yields for each, in enumeration order. */
    var dirs: map<string, seq<Entry>>
    /** What `canonicalize` answers for a path; a path missing here fails. */
    var canonical: map<string, string>
    /** The outcomes of the socket calls still to come. */
    var events: seq<NetEvent>
    /** Every byte written to data connections so far. */
    var wire: seq<byte>

    constructor (files: map<string, seq<byte>>, locked: set<string>, dirs: map<string, seq<Entry>>,
                 canonical: map<string, string>, events: seq<NetEvent>)
      ensures this.files == files && this.locked == locked && this.dirs == dirs
      ensures this.canonical == canonical && this.events == events && wire == []
    {
      this.files := files;
      this.locked := locked;
      this.dirs := dirs;
      this.canonical := canonical;
      this.events := events;
      wire := [];
    }

    function NextEvent(): NetEvent
      reads this`events
    {
      Next(events)
    }

    function LaterEvents(): seq<NetEvent>
      reads this`events
    {
      Later(events)
    }

    /** One socket call: consumes one outcome. */
    method Take() returns (ev: NetEvent)
      modifies this`events
      ensures ev == old(NextEvent()) && events == old(LaterEvents())
    {
      ev := NextEvent();
      events := LaterEvents();
    }

    /** `TcpSocket::bind` on the local address of an active-mode connection. */
    method BindLocal(local: SocketAddr) returns (ok: bool)
      modifies this`events
      ensures ok == old(NextEvent()).Bound? && events == old(LaterEvents())
    {
      var ev := Take();
      ok := ev.Bound?;
    }

    /** `TcpSocket::connect` to the client's address, or `accept` on a listener. */
    method Open(remote: SocketAddr) returns (peer: Option<seq<ReadResult>>)
      modifies this`events
      ensures old(NextEvent()).Stream? ==> peer == Some(old(NextEvent()).peer)
      ensures !old(NextEvent()).Stream? ==> peer == None
      ensures events == old(LaterEvents())
    {
      var ev := Take();
      peer := if ev.Stream? then Some(ev.peer) else None;
    }

    /** `TcpListener::bind` on port 0: the system picks the port. */
    method Listen(ip: Ipv4) returns (addr: Option<SocketAddr>)
      modifies this`events
      ensures old(NextEvent()).Bound? ==> addr == Some(SocketAddr(ip, old(NextEvent()).port))
      ensures !old(NextEvent()).Bound? ==> addr == None
      ensures events == old(LaterEvents())
    {
      var ev := Take();
      addr := if ev.Bound? then Some(SocketAddr(ip, ev.port)) else None;
    }

    /** `is_dir`: the path exists and is a directory. */
    predicate IsDir(path: string)
      reads this`dirs
    {
      path in dirs
    }

    function Canonicalize(path: string): Option<string>
      reads this`canonical
    {
      if path in canonical then Some(canonical[path]) else None
    }

    /** Whether `open` for reading succeeds, and the file it opens. */
    function Readable(path: string): Option<seq<byte>>
      reads this`files, this`locked, this`dirs, this`canonical
    {
      FileIn(files, Layout(), path)
    }

    /**
     * `OpenOptions::new().write(true).create(true).open`: fails on a locked
     * path or a directory; otherwise creates an empty file if there was none,
     * and never truncates one that exists.
     */
    method OpenWrite(path: string) returns (ok: bool)
      modifies this`files
      ensures ok == (path !in old(locked) && path !in old(dirs))
      ensures ok && path !in old(files) ==> files == old(files)[path := []]
      ensures !(ok && path !in old(files)) ==> files == old(files)
    {
      ok := path !in locked && path !in dirs;
      if ok && path !in files {
        files := files[path := []];
      }
    }

    /** `write_all` at the file cursor `pos`. */
    method WriteFile(path: string, pos: nat, b: seq<byte>)
      requires path in files && pos <= |files[path]|
      modifies this`files
      ensures files == old(files)[path := WriteAt(old(files)[path], pos, b)]
    {
      files := files[path := WriteAt(files[path], pos, b)];
    }

    /** `read_dir`: the entries of a directory, or an error for anything else. */
    function ReadDir(path: string): Option<seq<Entry>>
      reads this`locked, this`dirs, this`canonical
    {
      EntriesIn(Layout(), path)
    }

    function State(): HostState
      reads this`events, this`files, this`wire
    {
      HostState(events, files, wire)
    }

    function Layout(): Disk
      reads this`locked, this`dirs, this`canonical
    {
      Disk(locked, dirs, canonical)
    }

    /** A write on the data connection (assumed to be accepted whole). */
    method Transmit(b: seq<byte>)
      modifies this`wire
      ensures wire == old(wire) + b
    {
      wire := wire + b;
    }
  }
}
