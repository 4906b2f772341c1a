/**
 * One FTP control session (`FTPSession`): its fields, the command handlers
 * that update them and write replies, and the loop of `run` that reads
 * command lines and dispatches them. Sockets and files are the scripted
 * oracles of `Host`; what is written on the control connection is kept,
 * reply by reply, in `replies`.
 */
module Session {

  import opened Wrappers
  import opened Text
  import opened Net
  import opened LineEnding
  import opened Host
  import opened DataPath
  import opened Dispatch
  import Framing

  /**
   * The server configuration every session shares; it never changes. Its
   * strings, like the host's paths and the reply texts, hold the UTF-8 bytes
   * of their text, one character per byte: the form in which `ByteText`
   * reads a command line. So user names, passwords and paths are compared
   * byte for byte, as the server compares its UTF-8 strings.
   */
  datatype Config = Config(listen: Ipv4, port: u16, username: string, password: string, path: string)

  /** `TransferMod`: no data connection, the client's PORT address, or our listener's address. */
  datatype TransferMode = Disable | Active(remote: SocketAddr) | Passive(listener: SocketAddr)

  /** How `run` ends: the peer closed the connection, the client quit, or an error ended it. */
  datatype Ending = PeerClosed | Quitted | Failed

  /** What one command leaves `run` to do. */
  datatype Outcome = Continue | Quitting | Faulted

  const Welcome := "220 KiraFTP v1.1.0\r\n"
  const UnknownCommand := "500 Unknown command.\r\n"
  const Goodbye := "221 Goodbye.\r\n"
  const FeatureLines := ["221 Features:\r\n", "PASV\r\n", "UTF8\r\n", "221 End\r\n"]
  const SystemType := "215 UNIX Type: L8\r\n"
  const NoopOk := "200 NOOP ok.\r\n"
  const AlwaysUtf8 := "200 Always in UTF8 mode.\r\n"

  const NeedLogin := "530 Please login with USER and PASS.\r\n"
  const OtherUser := "530 Can't change to another user.\r\n"
  const NeedPassword := "331 Please specify the password.\r\n"
  const AlreadyLoggedIn := "230 Already logged in.\r\n"
  const AnonymousIn := "230 Login successfully.\r\n"
  const UserIn := "230 Login successful.\r\n"
  const LoginIncorrect := "530 Login incorrect.\r\n"

  const PortOk := "200 PORT command successful.\r\n"
  const IllegalAddress := "501 Illegal address.\r\n"
  const NoSocket := "421 Could not create socket.\r\n"

  const AsciiOk := "200 Switching to ASCII mode.\r\n"
  const BinaryOk := "200 Switching to Binary mode.\r\n"
  const BadType := "504 Unsupport type.\r\n"
  const ModeOk := "200 Mode set to S.\r\n"
  const BadMode := "504 Bad MODE command.\r\n"
  const StruOk := "200 Structure set to F.\r\n"
  const BadStru := "504 Bad STRU command.\r\n"

  const DirChanged := "250 Directory successfully changed.\r\n"
  const DirFailed := "550 Failed to change directory.\r\n"

  const NoMode := "425 Use PORT or PASV first.\r\n"
  const BindClosed := "425 Server data connection close.\r\n"
  const CannotOpen := "425 Can't open data connection.\r\n"

  /** The three replies a transfer may give once it has a data connection, or fails to get one by accepting. */
  datatype Texts = Texts(start: string, complete: string, aborted: string)

  const StorTexts := Texts("150 Ok to send data.\r\n", "226 Transfer complete.\r\n", "426 Transfer aborted.\r\n")
  const RetrTexts := Texts("150 Opening BINARY mode data connection.\r\n", "226 Transfer complete.\r\n", "426 Tansfer aborted.\r\n")
  const ListTexts := Texts("150 Here comes the directory listing.\r\n", "226 Directory send OK.\r\n", "426 Transfer aborted.\r\n")

  /**
   * The local port of an active-mode connection, `config.port - 1` in u16
   * arithmetic: as built for release, port 0 wraps to 65535.
   */
  function LocalPort(port: u16): (p: u16)
    ensures (p + 1) % 65536 == port
  {
    if port == 0 then 65535 else port - 1
  }

  /** The outcome of setting up the data connection. */
  datatype Link = NoLink | BindFailed | ConnectFailed | AcceptFailed | Connected(peer: seq<ReadResult>)

  /**
   * Which data connection a transfer gets in each mode, and the socket
   * outcomes left afterwards: none is tried without a mode; an active
   * transfer binds its local port, then connects to the client; a passive
   * one accepts on its listener.
   */
  function LinkOf(mode: TransferMode, events: seq<NetEvent>): (r: (Link, seq<NetEvent>))
    ensures mode.Disable? <==> r.0 == NoLink
    ensures r.0.BindFailed? || r.0.ConnectFailed? ==> mode.Active?
    ensures r.0.AcceptFailed? ==> mode.Passive?
    ensures mode.Disable? ==> r.1 == events
    ensures mode.Passive? ==> r.1 == Later(events)
    ensures mode.Active? ==> r.1 == (if Next(events).Bound? then Later(Later(events)) else Later(events))
  {
    match mode
    case Disable => (NoLink, events)
    case Active(_) =>
      if !Next(events).Bound? then (BindFailed, Later(events))
      else
        var ev := Next(Later(events));
        (if ev.Stream? then Connected(ev.peer) else ConnectFailed, Later(Later(events)))
    case Passive(_) =>
      var ev := Next(events);
      (if ev.Stream? then Connected(ev.peer) else AcceptFailed, Later(events))
  }

  /**
   * The replies of a transfer: a 425 when there is no mode, the local bind
   * fails or the connect fails; the 426 abort text when accepting fails;
   * with a data connection, the 150 text first and then exactly one of the
   * 226 text (the body succeeded) or the 426 text (it failed).
   */
  function LinkReplies(link: Link, ok: bool, texts: Texts): (r: seq<string>)
    ensures link.Connected? <==> |r| == 2
    ensures |r| >= 1
    ensures link.Connected? ==> r[0] == texts.start && r[1] == (if ok then texts.complete else texts.aborted)
    ensures link.AcceptFailed? ==> r == [texts.aborted]
  {
    match link
    case NoLink => [NoMode]
    case BindFailed => [BindClosed]
    case ConnectFailed => [CannotOpen]
    case AcceptFailed => [texts.aborted]
    case Connected(_) => [texts.start, if ok then texts.complete else texts.aborted]
  }

  /**
   * The data connection a transfer gets: an active one binds the local port
   * below the configured one, then connects to the client; a passive one
   * accepts on its listener.
   */
  method OpenLink(config: Config, mode: TransferMode, host: Host) returns (link: Link)
    modifies host`events
    ensures (link, host.events) == LinkOf(mode, old(host.events))
  {
    match mode
    case Disable =>
      link := NoLink;
    case Active(remote) =>
      var bound := host.BindLocal(SocketAddr(config.listen, LocalPort(config.port)));
      if !bound {
        link := BindFailed;
      } else {
        var peer := host.Open(remote);
        link := if peer.Some? then Connected(peer.value) else ConnectFailed;
      }
    case Passive(listener) =>
      var peer := host.Open(listener);
      link := if peer.Some? then Connected(peer.value) else AcceptFailed;
  }

  /** The 227 reply announcing the listener's address. */
  function PassiveReply(addr: SocketAddr): string
  {
    "227 Entering Passive Mode " + PrintIpv4Addr(addr) + ".\r\n"
  }

  /**
   * A client that takes the text between the parentheses of the 227 reply
   * and parses it as a PORT argument gets the listener's address back.
   */
  lemma PassiveReplyParses(addr: SocketAddr)
    ensures var r := PassiveReply(addr); |r| >= 30 && ParseIpv4Addr(r[27..|r| - 4]) == Some(addr)
  {
    var p := PrintIpv4Addr(addr);
    var r := PassiveReply(addr);
    assert r[26..|r| - 3] == p;
    assert r[27..|r| - 4] == p[1..|p| - 1];
    ParsePrintRoundTrip(addr);
  }

  /** `set_tranfer_type`: the argument, upper-cased, must be exactly "A" or "I". */
  function TypeOf(arg: string): (t: Option<TransferType>)
    ensures t == Some(Ascii) <==> arg == "A" || arg == "a"
    ensures t == Some(Binary) <==> arg == "I" || arg == "i"
  {
    UpperOneLetter(arg, 'A', 'a');
    UpperOneLetter(arg, 'I', 'i');
    var upper := UpperAscii(arg);
    if upper == "A" then Some(Ascii) else if upper == "I" then Some(Binary) else None
  }

  function TypeReply(arg: string): string
  {
    match TypeOf(arg)
    case Some(Ascii) => AsciiOk
    case Some(Binary) => BinaryOk
    case None => BadType
  }

  /** The representation type after TYPE `arg`: the one named, or the old one when none is. */
  function TypeAfter(ty: TransferType, arg: string): TransferType
  {
    if TypeOf(arg).Some? then TypeOf(arg).value else ty
  }

  /** `set_transfer_mode`: MODE is accepted when its ASCII upper-case is "S", so "s" too. */
  function ModeAccepted(mode: string): (ok: bool)
    ensures ok <==> mode == "S" || mode == "s"
  {
    UpperOneLetter(mode, 'S', 's');
    UpperAscii(mode) == "S"
  }

  function ModeReply(mode: string): (r: string)
    ensures r == ModeOk <==> mode == "S" || mode == "s"
    ensures r != ModeOk ==> r == BadMode
  {
    if ModeAccepted(mode) then ModeOk else BadMode
  }

  /** `set_file_struct`: only the exact "F" is accepted, so "f" is refused. */
  function StruReply(stru: string): (r: string)
    ensures r == StruOk <==> stru == "F"
    ensures r != StruOk ==> r == BadStru
  {
    if stru == "F" then StruOk else BadStru
  }

  /** `print_working_directory`: the full current path, in double quotes. */
  function PwdReply(path: string): (r: string)
    ensures |r| == |path| + 34 && r[..5] == "257 \"" && r[5..|r| - 29] == path
  {
    "257 \"" + path + "\" is the current directory.\r\n"
  }

  /** Whether PASS logs the pending user in: "anonymous" with any password, or the configured pair. */
  predicate Accepts(config: Config, user: string, password: string)
  {
    user == "anonymous" || (user == config.username && password == config.password)
  }

  /** The session fields the commands change: `FTPSession` without its streams, logger and configuration. */
  datatype Fields = Fields(user: string, loggedIn: bool, anonymous: bool, mode: TransferMode, ty: TransferType, path: string)

  /**
   * What the handlers keep true: only "anonymous" is ever anonymous and
   * only when logged in; any other logged-in user is the configured one;
   * before login no data mode is set and the path is the configured root.
   */
  predicate Consistent(config: Config, f: Fields)
  {
    && (f.anonymous ==> f.loggedIn && f.user == "anonymous")
    && (f.loggedIn && !f.anonymous ==> f.user == config.username && f.user != "anonymous")
    && (!f.loggedIn ==> f.mode == Disable && f.path == config.path)
  }

  /** What a command that leaves the host alone does: the new fields and the replies it writes. */
  datatype Change = Change(fields: Fields, replies: seq<string>)

  /** What a command does: the new fields and host state, the replies it writes, and what `run` does next. */
  datatype Effect = Effect(fields: Fields, host: HostState, replies: seq<string>, outcome: Outcome)

  function Changed(c: Change, h: HostState): Effect
  {
    Effect(c.fields, h, c.replies, Continue)
  }

  /** USER: refused once logged in, otherwise the user is remembered. */
  function UserChange(f: Fields, name: string): Change
  {
    if f.loggedIn then Change(f, [OtherUser]) else Change(f.(user := name), [NeedPassword])
  }

  /** PASS: "anonymous" with any password, then the configured pair; nothing changes once logged in. */
  function PassChange(config: Config, f: Fields, password: string): Change
  {
    if f.loggedIn then Change(f, [AlreadyLoggedIn])
    else if f.user == "anonymous" then Change(f.(loggedIn := true, anonymous := true), [AnonymousIn])
    else if f.user == config.username && password == config.password then Change(f.(loggedIn := true), [UserIn])
    else Change(f, [LoginIncorrect])
  }

  /** PORT: a parsable address becomes the active mode; an unparsable one clears the mode. */
  function PortChange(f: Fields, remote: string): Change
  {
    if !f.loggedIn then Change(f, [NeedLogin])
    else
      match ParseIpv4Addr(remote)
      case Some(addr) => Change(f.(mode := Active(addr)), [PortOk])
      case None => Change(f.(mode := Disable), [IllegalAddress])
  }

  /** TYPE: no login check. */
  function TypeChange(f: Fields, arg: string): Change
  {
    Change(f.(ty := TypeAfter(f.ty, arg)), [TypeReply(arg)])
  }

  /** PWD. */
  function PwdChange(f: Fields): Change
  {
    Change(f, [if f.loggedIn then PwdReply(f.path) else NeedLogin])
  }

  /** PASV: the listener takes one socket outcome. */
  function PasvEffect(config: Config, f: Fields, h: HostState): Effect
  {
    if !f.loggedIn then Effect(f, h, [NeedLogin], Continue)
    else
      var ev := Next(h.events);
      var after := h.(events := Later(h.events));
      if ev.Bound? then
        var addr := SocketAddr(config.listen, ev.port);
        Effect(f.(mode := Passive(addr)), after, [PassiveReply(addr)], Continue)
      else Effect(f.(mode := Disable), after, [NoSocket], Continue)
  }

  /** CWD: a directory without a canonical form is a fault with no reply. */
  function CwdEffect(f: Fields, h: HostState, d: Disk, arg: string): Effect
  {
    if !f.loggedIn then Effect(f, h, [NeedLogin], Continue)
    else
      var target := JoinPath(f.path, arg);
      if target !in d.dirs then Effect(f, h, [DirFailed], Continue)
      else if target in d.canonical then Effect(f.(path := d.canonical[target]), h, [DirChanged], Continue)
      else Effect(f, h, [], Faulted)
  }

  /** STOR: the upload is stored when the data connection opens and the target can be created. */
  function StorEffect(f: Fields, h: HostState, d: Disk, path: string): Effect
  {
    if !f.loggedIn then Effect(f, h, [NeedLogin], Continue)
    else
      var (link, events) := LinkOf(f.mode, h.events);
      var target := JoinPath(f.path, path);
      var written := link.Connected? && Creatable(d.locked, d.dirs, target);
      var files := if written then h.files[target := Stored(Prior(h.files, target), f.ty, Delivered(link.peer))] else h.files;
      Effect(f.(mode := Disable), HostState(events, files, h.wire), LinkReplies(link, written && !Aborted(link.peer), StorTexts), Continue)
  }

  /** RETR: a readable file goes out, encoded for the type, when the data connection opens. */
  function RetrEffect(f: Fields, h: HostState, d: Disk, path: string): Effect
  {
    if !f.loggedIn then Effect(f, h, [NeedLogin], Continue)
    else
      var (link, events) := LinkOf(f.mode, h.events);
      var file := FileIn(h.files, d, JoinPath(f.path, path));
      var wire := if link.Connected? && file.Some? then h.wire + Encode(f.ty, file.value) else h.wire;
      Effect(f.(mode := Disable), HostState(events, h.files, wire), LinkReplies(link, file.Some?, RetrTexts), Continue)
  }

  /** LIST: the listing of a readable directory goes out when the data connection opens. */
  function ListEffect(f: Fields, h: HostState, d: Disk, opts: string): Effect
  {
    if !f.loggedIn then Effect(f, h, [NeedLogin], Continue)
    else
      var (link, events) := LinkOf(f.mode, h.events);
      var entries := EntriesIn(d, JoinPath(f.path, ListTarget(opts)));
      var wire := if link.Connected? && entries.Some? then h.wire + AsBytes(Listing(entries.value)) else h.wire;
      Effect(f.(mode := Disable), HostState(events, h.files, wire), LinkReplies(link, entries.Some?, ListTexts), Continue)
  }

  /** The dispatch table of `run`: what each command does. */
  function Respond(config: Config, f: Fields, h: HostState, d: Disk, cmd: Command): Effect
  {
    match cmd
    case Pasv => PasvEffect(config, f, h)
    case Pwd => Changed(PwdChange(f), h)
    case Feat => Effect(f, h, FeatureLines, Continue)
    case Syst => Effect(f, h, [SystemType], Continue)
    case Noop => Effect(f, h, [NoopOk], Continue)
    case ListDir(opts) => ListEffect(f, h, d, opts)
    case Utf8On => Effect(f, h, [AlwaysUtf8], Continue)
    case Quit => Effect(f, h, [Goodbye], Quitting)
    case User(name) => Changed(UserChange(f, name), h)
    case Pass(password) => Changed(PassChange(config, f, password), h)
    case Port(remote) => Changed(PortChange(f, remote), h)
    case Type(arg) => Changed(TypeChange(f, arg), h)
    case Mode(mode) => Effect(f, h, [ModeReply(mode)], Continue)
    case Stru(stru) => Effect(f, h, [StruReply(stru)], Continue)
    case Cwd(arg) => CwdEffect(f, h, d, arg)
    case Retr(path) => RetrEffect(f, h, d, path)
    case Stor(path) => StorEffect(f, h, d, path)
    case Unknown => Effect(f, h, [UnknownCommand], Continue)
  }

  /** One frame: an overlong command is answered as unknown and changes nothing else; a line is dispatched. */
  function Answer(config: Config, f: Fields, h: HostState, d: Disk, frame: Framing.Frame): Effect
    requires !frame.Closed?
  {
    if frame.Overlong? then Effect(f, h, [UnknownCommand], Continue)
    else Respond(config, f, h, d, Decode(frame.text))
  }

  /** How a whole session after the welcome goes: the final fields and host state, every reply, and how it ended. */
  datatype Transcript = Transcript(fields: Fields, host: HostState, replies: seq<string>, ending: Ending)

  /**
   * The loop of `run` as a function: frames are read off the queue and the
   * chunks still to come, and answered one by one, until the peer closes,
   * QUIT is answered or a command faults.
   */
  function Serve(config: Config, f: Fields, h: HostState, d: Disk, queue: seq<byte>, chunks: seq<seq<byte>>): Transcript
    decreases |queue| + |Framing.Received(chunks)|, 0
  {
    var (frame, rest, later) := Framing.Scan([], queue, chunks);
    if frame.Closed? then Transcript(f, h, [], PeerClosed)
    else
      Framing.ScanConserves([], queue, chunks);
      Framing.ScanShape([], queue, chunks);
      Proceed(config, f, h, d, frame, rest, later)
  }

  /**
   * The session from a frame that has been read, with `rest` left in the
   * buffer and `later` still to arrive: the frame is answered, and the
   * session follows from that answer.
   */
  function Proceed(config: Config, f: Fields, h: HostState, d: Disk, frame: Framing.Frame, rest: seq<byte>, later: seq<seq<byte>>): Transcript
    requires !frame.Closed?
    decreases |rest| + |Framing.Received(later)|, 2
  {
    Follow(config, Answer(config, f, h, d, frame), d, rest, later)
  }

  /**
   * The session after an answer `e`: QUIT and a fault end it with the
   * answer's replies; otherwise it goes on from the answer's state.
   */
  function Follow(config: Config, e: Effect, d: Disk, rest: seq<byte>, later: seq<seq<byte>>): Transcript
    decreases |rest| + |Framing.Received(later)|, 1
  {
    if e.outcome == Quitting then Transcript(e.fields, e.host, e.replies, Quitted)
    else if e.outcome == Faulted then Transcript(e.fields, e.host, e.replies, Failed)
    else
      var t := Serve(config, e.fields, e.host, d, rest, later);
      t.(replies := e.replies + t.replies)
  }

  /** `goal` is the rest of a session `t` that has already written `acc`. */
  predicate Resumes(goal: Transcript, acc: seq<string>, t: Transcript)
  {
    goal == t.(replies := acc + t.replies)
  }

  /** A session whose next frame is the end of the stream ends there, with nothing more written. */
  lemma ServeClosed(config: Config, f: Fields, h: HostState, d: Disk, queue: seq<byte>, chunks: seq<seq<byte>>, goal: Transcript, acc: seq<string>)
    requires Resumes(goal, acc, Serve(config, f, h, d, queue, chunks))
    requires Framing.Scan([], queue, chunks).0.Closed?
    ensures goal == Transcript(f, h, acc, PeerClosed)
  {
  }

  /**
   * A session whose next frame is answered: it ends with that answer, or it
   * resumes from the answer's state with the answer's replies written.
   */
  lemma ServeAnswered(config: Config, f: Fields, h: HostState, d: Disk, queue: seq<byte>, chunks: seq<seq<byte>>, goal: Transcript, acc: seq<string>)
    requires Resumes(goal, acc, Serve(config, f, h, d, queue, chunks))
    requires !Framing.Scan([], queue, chunks).0.Closed?
    ensures var (frame, rest, later) := Framing.Scan([], queue, chunks);
      var e := Answer(config, f, h, d, frame);
      && (e.outcome == Quitting ==> goal == Transcript(e.fields, e.host, acc + e.replies, Quitted))
      && (e.outcome == Faulted ==> goal == Transcript(e.fields, e.host, acc + e.replies, Failed))
      && (e.outcome == Continue ==> Resumes(goal, acc + e.replies, Serve(config, e.fields, e.host, d, rest, later)))
  {
    var (frame, rest, later) := Framing.Scan([], queue, chunks);
    var e := Answer(config, f, h, d, frame);
    assert Serve(config, f, h, d, queue, chunks) == Proceed(config, f, h, d, frame, rest, later) == Follow(config, e, d, rest, later);
    if e.outcome == Continue {
      var u := Serve(config, e.fields, e.host, d, rest, later);
      assert acc + (e.replies + u.replies) == (acc + e.replies) + u.replies;
    }
  }

  /**
   * Every command keeps the session consistent; it answers with at least one
   * reply unless it is a CWD that faults, with none; only QUIT quits, with
   * the goodbye alone; only PASS logs in and nothing logs out; only USER
   * changes the user.
   */
  lemma RespondSummary(config: Config, f: Fields, h: HostState, d: Disk, cmd: Command)
    requires Consistent(config, f)
    ensures Consistent(config, Respond(config, f, h, d, cmd).fields)
    ensures Respond(config, f, h, d, cmd).outcome != Faulted ==> |Respond(config, f, h, d, cmd).replies| > 0
    ensures Respond(config, f, h, d, cmd).outcome == Quitting <==> cmd == Quit
    ensures cmd == Quit ==> Respond(config, f, h, d, cmd).replies == [Goodbye]
    ensures Respond(config, f, h, d, cmd).outcome == Faulted ==> cmd.Cwd? && Respond(config, f, h, d, cmd).replies == []
    ensures f.loggedIn ==> Respond(config, f, h, d, cmd).fields.loggedIn
    ensures !cmd.Pass? ==> Respond(config, f, h, d, cmd).fields.loggedIn == f.loggedIn
    ensures !cmd.User? ==> Respond(config, f, h, d, cmd).fields.user == f.user
  {
  }

  /**
   * What a session `t` started from `f` keeps: it stays consistent, a login
   * is never lost, and a session ended by QUIT has the goodbye as its last
   * reply.
   */
  predicate Kept(config: Config, f: Fields, t: Transcript)
  {
    && Consistent(config, t.fields)
    && (f.loggedIn ==> t.fields.loggedIn)
    && (t.ending == Quitted ==> |t.replies| > 0 && t.replies[|t.replies| - 1] == Goodbye)
  }

  /** What one answer from `f` keeps: the same, for a single command. */
  predicate Sound(config: Config, f: Fields, e: Effect)
  {
    && Consistent(config, e.fields)
    && (f.loggedIn ==> e.fields.loggedIn)
    && (e.outcome == Quitting ==> e.replies == [Goodbye])
  }

  /** Every frame is answered soundly from a consistent state. */
  lemma AnswerSound(config: Config, f: Fields, h: HostState, d: Disk, frame: Framing.Frame)
    requires Consistent(config, f) && !frame.Closed?
    ensures Sound(config, f, Answer(config, f, h, d, frame))
  {
    if frame.Line? {
      RespondSummary(config, f, h, d, Decode(frame.text));
    }
  }

  /** Every session keeps what `Kept` says, from any consistent state. */
  lemma {:induction false} ServeKeeps(config: Config, f: Fields, h: HostState, d: Disk, queue: seq<byte>, chunks: seq<seq<byte>>)
    requires Consistent(config, f)
    ensures Kept(config, f, Serve(config, f, h, d, queue, chunks))
    decreases |queue| + |Framing.Received(chunks)|, 0
  {
    var (frame, rest, later) := Framing.Scan([], queue, chunks);
    if !frame.Closed? {
      Framing.ScanConserves([], queue, chunks);
      Framing.ScanShape([], queue, chunks);
      AnswerSound(config, f, h, d, frame);
      FollowKeeps(config, f, Answer(config, f, h, d, frame), d, rest, later);
    }
  }

  /** `ServeKeeps` after a sound answer. */
  lemma {:induction false} FollowKeeps(config: Config, f: Fields, e: Effect, d: Disk, rest: seq<byte>, later: seq<seq<byte>>)
    requires Sound(config, f, e)
    ensures Kept(config, f, Follow(config, e, d, rest, later))
    decreases |rest| + |Framing.Received(later)|, 1
  {
    if e.outcome != Quitting && e.outcome != Faulted {
      ServeKeeps(config, e.fields, e.host, d, rest, later);
      var t := Serve(config, e.fields, e.host, d, rest, later);
      if t.ending == Quitted {
        assert (e.replies + t.replies)[|e.replies| + |t.replies| - 1] == t.replies[|t.replies| - 1];
      }
    }
  }

  class FtpSession {
    const config: Config
    var currentUser: string
    var isLoggedIn: bool
    var isAnonymous: bool
    var transferMode: TransferMode
    var transferType: TransferType
    var currentPath: string
    /** Everything written on the control connection, reply by reply. */
    var replies: seq<string>

    function Snapshot(): Fields
      reads this`currentUser, this`isLoggedIn, this`isAnonymous, this`transferMode, this`transferType, this`currentPath
    {
      Fields(currentUser, isLoggedIn, isAnonymous, transferMode, transferType, currentPath)
    }

    predicate Valid()
      reads this`currentUser, this`isLoggedIn, this`isAnonymous, this`transferMode, this`transferType, this`currentPath
    {
      Consistent(config, Snapshot())
    }

    /** The fields are as `c` says, and its replies were written after `before`. */
    predicate Made(c: Change, before: seq<string>)
      reads this`currentUser, this`isLoggedIn, this`isAnonymous, this`transferMode, this`transferType, this`currentPath, this`replies
    {
      Snapshot() == c.fields && replies == before + c.replies
    }

    /** The fields and the host are as `e` says, and its replies were written after `before`. */
    predicate Caused(e: Effect, before: seq<string>, host: Host)
      reads this`currentUser, this`isLoggedIn, this`isAnonymous, this`transferMode, this`transferType, this`currentPath, this`replies, host`events, host`files, host`wire
    {
      Snapshot() == e.fields && host.State() == e.host && replies == before + e.replies
    }

    /** `FTPSession::new`. */
    constructor (config: Config)
      ensures this.config == config && currentUser == "" && !isLoggedIn && !isAnonymous
      ensures transferMode == Disable && transferType == Ascii && currentPath == config.path
      ensures replies == [] && Valid()
    {
      this.config := config;
      currentUser := "";
      isLoggedIn := false;
      isAnonymous := false;
      transferMode := Disable;
      transferType := Ascii;
      currentPath := config.path;
      replies := [];
    }

    method Reply(text: string)
      modifies this`replies
      ensures replies == old(replies) + [text]
    {
      replies := replies + [text];
    }

    /** `pre_login` (USER): remembers the user unless someone is logged in. */
    method PreLogin(username: string)
      requires Valid()
      modifies this`currentUser, this`replies
      ensures Valid()
      ensures old(isLoggedIn) ==> currentUser == old(currentUser) && replies == old(replies) + [OtherUser]
      ensures !old(isLoggedIn) ==> currentUser == username && replies == old(replies) + [NeedPassword]
      ensures Made(UserChange(old(Snapshot()), username), old(replies))
    {
      if isLoggedIn {
        Reply(OtherUser);
      } else {
        Reply(NeedPassword);
        currentUser := username;
      }
    }

    /**
     * `try_login` (PASS): once logged in nothing changes; "anonymous" gets in
     * with any password and becomes anonymous; the configured user gets in
     * with the configured password; anything else is refused and changes no
     * field.
     */
    method TryLogin(password: string)
      requires Valid()
      modifies this`isLoggedIn, this`isAnonymous, this`replies
      ensures Valid()
      ensures isLoggedIn == (old(isLoggedIn) || Accepts(config, currentUser, password))
      ensures old(isLoggedIn) ==> isAnonymous == old(isAnonymous) && replies == old(replies) + [AlreadyLoggedIn]
      ensures !old(isLoggedIn) && currentUser == "anonymous" ==> isAnonymous && replies == old(replies) + [AnonymousIn]
      ensures !old(isLoggedIn) && currentUser != "anonymous" ==> !isAnonymous
      ensures !old(isLoggedIn) && currentUser != "anonymous" && Accepts(config, currentUser, password) ==>
        replies == old(replies) + [UserIn]
      ensures !old(isLoggedIn) && !Accepts(config, currentUser, password) ==> replies == old(replies) + [LoginIncorrect]
      ensures Made(PassChange(config, old(Snapshot()), password), old(replies))
    {
      if isLoggedIn {
        Reply(AlreadyLoggedIn);
      } else if currentUser == "anonymous" {
        Reply(AnonymousIn);
        isAnonymous := true;
        isLoggedIn := true;
      } else if currentUser == config.username && password == config.password {
        Reply(UserIn);
        isLoggedIn := true;
      } else {
        Reply(LoginIncorrect);
      }
    }

    /**
     * `set_active` (PORT): a parsable address becomes the active mode; an
     * unparsable one clears any mode. Refused before login.
     */
    method SetActive(remote: string)
      requires Valid()
      modifies this`transferMode, this`replies
      ensures Valid()
      ensures !isLoggedIn ==> transferMode == old(transferMode) && replies == old(replies) + [NeedLogin]
      ensures isLoggedIn && ParseIpv4Addr(remote).Some? ==>
        transferMode == Active(ParseIpv4Addr(remote).value) && replies == old(replies) + [PortOk]
      ensures isLoggedIn && ParseIpv4Addr(remote).None? ==>
        transferMode == Disable && replies == old(replies) + [IllegalAddress]
      ensures Made(PortChange(old(Snapshot()), remote), old(replies))
    {
      if !isLoggedIn {
        Reply(NeedLogin);
        return;
      }
      var addr := ParseIpv4Addr(remote);
      if addr.Some? {
        Reply(PortOk);
        transferMode := Active(addr.value);
      } else {
        Reply(IllegalAddress);
        transferMode := Disable;
      }
    }

    /**
     * `set_passive` (PASV): binds a listener on the configured address and a
     * port the system picks; on success that address is the passive mode and
     * is announced in the 227 reply, on failure any mode is cleared.
     */
    method SetPassive(host: Host)
      requires Valid()
      modifies this`transferMode, this`replies, host`events
      ensures Valid()
      ensures !isLoggedIn ==> transferMode == old(transferMode) && replies == old(replies) + [NeedLogin]
      ensures !isLoggedIn ==> host.events == old(host.events)
      ensures isLoggedIn ==> host.events == Later(old(host.events))
      ensures isLoggedIn && Next(old(host.events)).Bound? ==>
        var addr := SocketAddr(config.listen, Next(old(host.events)).port);
        transferMode == Passive(addr) && replies == old(replies) + [PassiveReply(addr)]
      ensures isLoggedIn && !Next(old(host.events)).Bound? ==>
        transferMode == Disable && replies == old(replies) + [NoSocket]
      ensures Caused(PasvEffect(config, old(Snapshot()), old(host.State())), old(replies), host)
    {
      if !isLoggedIn {
        Reply(NeedLogin);
        return;
      }
      var listener := host.Listen(config.listen);
      if listener.Some? {
        Reply(PassiveReply(listener.value));
        transferMode := Passive(listener.value);
      } else {
        Reply(NoSocket);
        transferMode := Disable;
      }
    }

    /** `set_tranfer_type` (TYPE): no login check, and only the type can change. */
    method SetTransferType(arg: string)
      requires Valid()
      modifies this`transferType, this`replies
      ensures Valid()
      ensures transferType == TypeAfter(old(transferType), arg)
      ensures replies == old(replies) + [TypeReply(arg)]
      ensures Made(TypeChange(old(Snapshot()), arg), old(replies))
    {
      var ty := TypeOf(arg);
      if ty == Some(Ascii) {
        transferType := Ascii;
        Reply(AsciiOk);
      } else if ty == Some(Binary) {
        transferType := Binary;
        Reply(BinaryOk);
      } else {
        Reply(BadType);
      }
    }

    /** `set_transfer_mode` (MODE) and `set_file_struct` (STRU): one reply, no state. */
    method SetTransferMode(mode: string)
      modifies this`replies
      ensures replies == old(replies) + [ModeReply(mode)]
    {
      Reply(ModeReply(mode));
    }

    method SetFileStruct(stru: string)
      modifies this`replies
      ensures replies == old(replies) + [StruReply(stru)]
    {
      Reply(StruReply(stru));
    }

    /** `print_working_directory` (PWD): changes no field. */
    method PrintWorkingDirectory()
      modifies this`replies
      ensures !isLoggedIn ==> replies == old(replies) + [NeedLogin]
      ensures isLoggedIn ==> replies == old(replies) + [PwdReply(currentPath)]
      ensures Made(PwdChange(old(Snapshot())), old(replies))
    {
      if !isLoggedIn {
        Reply(NeedLogin);
        return;
      }
      Reply(PwdReply(currentPath));
    }

    /**
     * `change_working_directory` (CWD): the argument is joined onto the
     * current path (an absolute one replaces it); an existing directory
     * becomes the current path in canonical form, with no check that it
     * stays under the configured root. A directory whose canonical form
     * cannot be found is a fault that ends the session without a reply.
     */
    method ChangeDirectory(arg: string, host: Host) returns (fault: bool)
      requires Valid()
      modifies this`currentPath, this`replies
      ensures Valid()
      ensures !isLoggedIn ==> !fault && currentPath == old(currentPath) && replies == old(replies) + [NeedLogin]
      ensures isLoggedIn && !host.IsDir(JoinPath(old(currentPath), arg)) ==>
        !fault && currentPath == old(currentPath) && replies == old(replies) + [DirFailed]
      ensures isLoggedIn && host.IsDir(JoinPath(old(currentPath), arg)) ==>
        var canonical := host.Canonicalize(JoinPath(old(currentPath), arg));
        && fault == canonical.None?
        && (canonical.Some? ==> currentPath == canonical.value && replies == old(replies) + [DirChanged])
        && (canonical.None? ==> currentPath == old(currentPath) && replies == old(replies))
      ensures Caused(CwdEffect(old(Snapshot()), old(host.State()), host.Layout(), arg), old(replies), host)
      ensures fault <==> CwdEffect(old(Snapshot()), old(host.State()), host.Layout(), arg).outcome == Faulted
    {
      fault := false;
      if !isLoggedIn {
        Reply(NeedLogin);
        return;
      }
      var target := JoinPath(currentPath, arg);
      if host.IsDir(target) {
        var canonical := host.Canonicalize(target);
        if canonical.None? {
          return true;
        }
        currentPath := canonical.value;
        Reply(DirChanged);
      } else {
        Reply(DirFailed);
      }
    }

    /**
     * `receive` (STOR): refused before login with the mode untouched;
     * otherwise the data connection is set up, the upload is stored into the
     * joined path, the replies follow `LinkReplies`, and the mode is cleared
     * whatever happened.
     */
    method Store(path: string, host: Host) returns (link: Link)
      requires Valid()
      modifies this`transferMode, this`replies, host`events, host`files
      ensures Valid()
      ensures !isLoggedIn ==> transferMode == old(transferMode) && replies == old(replies) + [NeedLogin]
      ensures !isLoggedIn ==> host.events == old(host.events) && host.files == old(host.files)
      ensures isLoggedIn ==> transferMode == Disable && (link, host.events) == LinkOf(old(transferMode), old(host.events))
      ensures isLoggedIn && !link.Connected? ==> host.files == old(host.files) && replies == old(replies) + LinkReplies(link, false, StorTexts)
      ensures isLoggedIn && link.Connected? ==>
        var target := JoinPath(currentPath, path);
        && replies == old(replies) + LinkReplies(link, Creatable(host.locked, host.dirs, target) && !Aborted(link.peer), StorTexts)
        && (Creatable(host.locked, host.dirs, target) ==>
              host.files == old(host.files)[target := Stored(Prior(old(host.files), target), transferType, Delivered(link.peer))])
        && (!Creatable(host.locked, host.dirs, target) ==> host.files == old(host.files))
      ensures Caused(StorEffect(old(Snapshot()), old(host.State()), host.Layout(), path), old(replies), host)
    {
      if !isLoggedIn {
        link := NoLink;
        Reply(NeedLogin);
      } else {
        link := Upload(JoinPath(currentPath, path), host);
      }
    }

    /** STOR after login: the upload into `target` and its replies, as `StorEffect` says. */
    method Upload(target: string, host: Host) returns (link: Link)
      requires Valid() && isLoggedIn
      modifies this`transferMode, this`replies, host`events, host`files
      ensures Valid() && transferMode == Disable && (link, host.events) == LinkOf(old(transferMode), old(host.events))
      ensures !link.Connected? ==> host.files == old(host.files) && replies == old(replies) + LinkReplies(link, false, StorTexts)
      ensures link.Connected? ==>
        && replies == old(replies) + LinkReplies(link, Creatable(host.locked, host.dirs, target) && !Aborted(link.peer), StorTexts)
        && (Creatable(host.locked, host.dirs, target) ==>
              host.files == old(host.files)[target := Stored(Prior(old(host.files), target), transferType, Delivered(link.peer))])
        && (!Creatable(host.locked, host.dirs, target) ==> host.files == old(host.files))
    {
      link := OpenLink(config, transferMode, host);
      if link.Connected? {
        Reply(StorTexts.start);
        var ok := StoreStream(host, target, transferType, link.peer);
        Reply(if ok then StorTexts.complete else StorTexts.aborted);
      } else {
        Reply(LinkReplies(link, false, StorTexts)[0]);
      }
      transferMode := Disable;
    }

    /**
     * `send` (RETR): as STOR, but the file at the joined path is sent over
     * the data connection, translated for the representation type; the 150
     * reply announces BINARY mode whatever the type.
     */
    method Retrieve(path: string, host: Host) returns (link: Link)
      requires Valid()
      modifies this`transferMode, this`replies, host`events, host`wire
      ensures Valid()
      ensures !isLoggedIn ==> transferMode == old(transferMode) && replies == old(replies) + [NeedLogin]
      ensures !isLoggedIn ==> host.events == old(host.events) && host.wire == old(host.wire)
      ensures isLoggedIn ==> transferMode == Disable && (link, host.events) == LinkOf(old(transferMode), old(host.events))
      ensures isLoggedIn && !link.Connected? ==> host.wire == old(host.wire) && replies == old(replies) + LinkReplies(link, false, RetrTexts)
      ensures isLoggedIn && link.Connected? ==>
        var file := old(host.Readable(JoinPath(currentPath, path)));
        && replies == old(replies) + LinkReplies(link, file.Some?, RetrTexts)
        && (file.Some? ==> host.wire == old(host.wire) + Encode(transferType, file.value))
        && (file.None? ==> host.wire == old(host.wire))
      ensures Caused(RetrEffect(old(Snapshot()), old(host.State()), host.Layout(), path), old(replies), host)
    {
      if !isLoggedIn {
        link := NoLink;
        Reply(NeedLogin);
      } else {
        link := Download(JoinPath(currentPath, path), host);
      }
    }

    /** RETR after login: the file `target` goes out and the replies follow, as `RetrEffect` says. */
    method Download(target: string, host: Host) returns (link: Link)
      requires Valid() && isLoggedIn
      modifies this`transferMode, this`replies, host`events, host`wire
      ensures Valid() && transferMode == Disable && (link, host.events) == LinkOf(old(transferMode), old(host.events))
      ensures !link.Connected? ==> host.wire == old(host.wire) && replies == old(replies) + LinkReplies(link, false, RetrTexts)
      ensures link.Connected? ==>
        var file := old(host.Readable(target));
        && replies == old(replies) + LinkReplies(link, file.Some?, RetrTexts)
        && (file.Some? ==> host.wire == old(host.wire) + Encode(transferType, file.value))
        && (file.None? ==> host.wire == old(host.wire))
    {
      link := OpenLink(config, transferMode, host);
      if link.Connected? {
        Reply(RetrTexts.start);
        var ok := SendFile(host, target, transferType);
        Reply(if ok then RetrTexts.complete else RetrTexts.aborted);
      } else {
        Reply(LinkReplies(link, false, RetrTexts)[0]);
      }
      transferMode := Disable;
    }

    /**
     * `list` (LIST): the options are filtered down to one path, which is
     * joined onto the current path; the listing of that directory goes over
     * the data connection, one line per entry that can be shown.
     */
    method List(opts: string, host: Host) returns (link: Link, path: string)
      requires Valid()
      modifies this`transferMode, this`replies, host`events, host`wire
      ensures path == ListTarget(opts)
      ensures Valid()
      ensures !isLoggedIn ==> transferMode == old(transferMode) && replies == old(replies) + [NeedLogin]
      ensures !isLoggedIn ==> host.events == old(host.events) && host.wire == old(host.wire)
      ensures isLoggedIn ==> transferMode == Disable && (link, host.events) == LinkOf(old(transferMode), old(host.events))
      ensures isLoggedIn && !link.Connected? ==> host.wire == old(host.wire) && replies == old(replies) + LinkReplies(link, false, ListTexts)
      ensures isLoggedIn && link.Connected? ==>
        var entries := old(host.ReadDir(JoinPath(currentPath, path)));
        && replies == old(replies) + LinkReplies(link, entries.Some?, ListTexts)
        && (entries.Some? ==> host.wire == old(host.wire) + AsBytes(Listing(entries.value)))
        && (entries.None? ==> host.wire == old(host.wire))
      ensures Caused(ListEffect(old(Snapshot()), old(host.State()), host.Layout(), opts), old(replies), host)
    {
      path := ListTarget(opts);
      if !isLoggedIn {
        link := NoLink;
        Reply(NeedLogin);
      } else {
        link := ListDirectory(JoinPath(currentPath, path), host);
      }
    }

    /** LIST after login: the listing of `dir` goes out and the replies follow, as `ListEffect` says. */
    method ListDirectory(dir: string, host: Host) returns (link: Link)
      requires Valid() && isLoggedIn
      modifies this`transferMode, this`replies, host`events, host`wire
      ensures Valid() && transferMode == Disable && (link, host.events) == LinkOf(old(transferMode), old(host.events))
      ensures !link.Connected? ==> host.wire == old(host.wire) && replies == old(replies) + LinkReplies(link, false, ListTexts)
      ensures link.Connected? ==>
        var entries := old(host.ReadDir(dir));
        && replies == old(replies) + LinkReplies(link, entries.Some?, ListTexts)
        && (entries.Some? ==> host.wire == old(host.wire) + AsBytes(Listing(entries.value)))
        && (entries.None? ==> host.wire == old(host.wire))
    {
      link := OpenLink(config, transferMode, host);
      if link.Connected? {
        Reply(ListTexts.start);
        var ok := SendListing(host, dir);
        Reply(if ok then ListTexts.complete else ListTexts.aborted);
      } else {
        Reply(LinkReplies(link, false, ListTexts)[0]);
      }
      transferMode := Disable;
    }

    /** `list_features` (FEAT): the feature list between its two 221 lines. */
    method ListFeatures()
      modifies this`replies
      ensures replies == old(replies) + FeatureLines
    {
      Reply(FeatureLines[0]);
      Reply(FeatureLines[1]);
      Reply(FeatureLines[2]);
      Reply(FeatureLines[3]);
    }

    /** LIST, RETR and STOR: the handler the command names runs, with the effect `Respond` gives it. */
    method Transfer(cmd: Command, host: Host)
      requires Valid() && (cmd.ListDir? || cmd.Retr? || cmd.Stor?)
      modifies this`transferMode, this`replies, host`events, host`files, host`wire
      ensures Valid()
      ensures Caused(Respond(config, old(Snapshot()), old(host.State()), host.Layout(), cmd), old(replies), host)
    {
      match cmd {
        case ListDir(opts) => var _, _ := List(opts, host);
        case Retr(path) => var _ := Retrieve(path, host);
        case Stor(path) => var _ := Store(path, host);
      }
    }

    /**
     * The commands of the dispatch table of `run` that answer from the
     * session alone: the session and the replies change as `Respond` says,
     * and the host does not.
     */
    method Converse(cmd: Command, host: Host) returns (outcome: Outcome)
      requires Valid()
      requires !(cmd.Pasv? || cmd.Cwd? || cmd.ListDir? || cmd.Retr? || cmd.Stor?)
      modifies this`currentUser, this`isLoggedIn, this`isAnonymous, this`transferMode
      modifies this`transferType, this`currentPath, this`replies
      ensures Valid()
      ensures Caused(Respond(config, old(Snapshot()), host.State(), host.Layout(), cmd), old(replies), host)
      ensures outcome == Respond(config, old(Snapshot()), host.State(), host.Layout(), cmd).outcome
    {
      outcome := Continue;
      match cmd {
        case Pwd => PrintWorkingDirectory();
        case Feat => ListFeatures();
        case Syst => Reply(SystemType);
        case Noop => Reply(NoopOk);
        case Utf8On => Reply(AlwaysUtf8);
        case Quit =>
          Reply(Goodbye);
          outcome := Quitting;
        case User(name) => PreLogin(name);
        case Pass(password) => TryLogin(password);
        case Port(remote) => SetActive(remote);
        case Type(arg) => SetTransferType(arg);
        case Mode(mode) => SetTransferMode(mode);
        case Stru(stru) => SetFileStruct(stru);
        case Unknown => Reply(UnknownCommand);
      }
    }

    /**
     * PASV and CWD, the commands of the dispatch table of `run` that answer
     * from the host without a transfer: the session, the host and the
     * replies change as `Respond` says; only CWD can fault.
     */
    method Attend(cmd: Command, host: Host) returns (outcome: Outcome)
      requires Valid() && (cmd.Pasv? || cmd.Cwd?)
      modifies this`transferMode, this`currentPath, this`replies, host`events
      ensures Valid()
      ensures Caused(Respond(config, old(Snapshot()), old(host.State()), host.Layout(), cmd), old(replies), host)
      ensures outcome == Respond(config, old(Snapshot()), old(host.State()), host.Layout(), cmd).outcome
    {
      outcome := Continue;
      if cmd.Pasv? {
        SetPassive(host);
      } else {
        var fault := ChangeDirectory(cmd.arg, host);
        if fault {
          outcome := Faulted;
        }
      }
    }

    /**
     * One command of the dispatch table of `run`: the session, the host and
     * the replies change as `Respond` says, and so does what `run` does next.
     */
    method Execute(cmd: Command, host: Host) returns (outcome: Outcome)
      requires Valid()
      modifies this`currentUser, this`isLoggedIn, this`isAnonymous, this`transferMode
      modifies this`transferType, this`currentPath, this`replies
      modifies host`events, host`files, host`wire
      ensures Valid()
      ensures Caused(Respond(config, old(Snapshot()), old(host.State()), host.Layout(), cmd), old(replies), host)
      ensures outcome == Respond(config, old(Snapshot()), old(host.State()), host.Layout(), cmd).outcome
    {
      if cmd.Pasv? || cmd.Cwd? {
        outcome := Attend(cmd, host);
      } else if cmd.ListDir? || cmd.Retr? || cmd.Stor? {
        Transfer(cmd, host);
        outcome := Continue;
      } else {
        outcome := Converse(cmd, host);
      }
    }

    /** What `run` does with one frame that is not the end of the stream: the effect `Answer` gives it. */
    method HandleFrame(frame: Framing.Frame, host: Host) returns (outcome: Outcome)
      requires Valid() && !frame.Closed?
      modifies this`currentUser, this`isLoggedIn, this`isAnonymous, this`transferMode
      modifies this`transferType, this`currentPath, this`replies
      modifies host`events, host`files, host`wire
      ensures Valid()
      ensures Caused(Answer(config, old(Snapshot()), old(host.State()), host.Layout(), frame), old(replies), host)
      ensures outcome == Answer(config, old(Snapshot()), old(host.State()), host.Layout(), frame).outcome
    {
      if frame.Overlong? {
        Reply(UnknownCommand);
        return Continue;
      }
      outcome := Execute(Decode(frame.text), host);
    }

    /**
     * One turn of the loop of `run`: the frame `Scan` gives is read, then
     * answered unless the peer closed. A frame that is not the end of the
     * stream takes at least one byte of what the peer sends.
     */
    method Step(input: Framing.ControlInput, host: Host, queue0: seq<byte>) returns (frame: Framing.Frame, outcome: Outcome, queue: seq<byte>)
      requires Valid()
      modifies this`currentUser, this`isLoggedIn, this`isAnonymous, this`transferMode
      modifies this`transferType, this`currentPath, this`replies
      modifies host`events, host`files, host`wire, input
      ensures Valid()
      ensures (frame, queue, input.chunks) == Framing.Scan([], queue0, old(input.chunks))
      ensures frame.Closed? ==> Caused(Effect(old(Snapshot()), old(host.State()), [], Continue), old(replies), host)
      ensures !frame.Closed? ==>
        var e := Answer(config, old(Snapshot()), old(host.State()), host.Layout(), frame);
        Caused(e, old(replies), host) && outcome == e.outcome
      ensures !frame.Closed? ==> |queue| + |Framing.Received(input.chunks)| < |queue0| + |Framing.Received(old(input.chunks))|
    {
      Framing.ScanConserves([], queue0, input.chunks);
      Framing.ScanShape([], queue0, input.chunks);
      frame, queue := Framing.ReadFrame(input, queue0);
      outcome := Continue;
      if !frame.Closed? {
        outcome := HandleFrame(frame, host);
      }
    }

    /**
     * One turn of `run` measured against the whole session `goal`, of which
     * `acc` has been written: the replies of this turn are written, and the
     * session has either ended as `goal` says or resumes from the new state.
     */
    method Turn(input: Framing.ControlInput, host: Host, queue0: seq<byte>, ghost goal: Transcript, ghost acc: seq<string>)
      returns (ending: Option<Ending>, queue: seq<byte>, ghost written: seq<string>)
      requires Valid()
      requires Resumes(goal, acc, Serve(config, Snapshot(), host.State(), host.Layout(), queue0, input.chunks))
      modifies this`currentUser, this`isLoggedIn, this`isAnonymous, this`transferMode
      modifies this`transferType, this`currentPath, this`replies
      modifies host`events, host`files, host`wire, input
      ensures Valid() && replies == old(replies) + written
      ensures ending.Some? ==> goal == Transcript(Snapshot(), host.State(), acc + written, ending.value)
      ensures ending.None? ==> Resumes(goal, acc + written, Serve(config, Snapshot(), host.State(), host.Layout(), queue, input.chunks))
      ensures ending.None? ==> |queue| + |Framing.Received(input.chunks)| < |queue0| + |Framing.Received(old(input.chunks))|
    {
      ghost var f0, h0, d, c0 := Snapshot(), host.State(), host.Layout(), input.chunks;
      var frame, outcome;
      frame, outcome, queue := Step(input, host, queue0);
      if frame.Closed? {
        ServeClosed(config, f0, h0, d, queue0, c0, goal, acc);
        return Some(PeerClosed), queue, [];
      }
      written := Answer(config, f0, h0, d, frame).replies;
      ServeAnswered(config, f0, h0, d, queue0, c0, goal, acc);
      ending := if outcome == Quitting then Some(Quitted) else if outcome == Faulted then Some(Failed) else None;
    }

    /**
     * The command loop of `run`, from an empty buffer: exactly what `Serve`
     * says of the session from the current state.
     */
    method Serving(input: Framing.ControlInput, host: Host) returns (ending: Ending)
      requires Valid()
      modifies this`currentUser, this`isLoggedIn, this`isAnonymous, this`transferMode
      modifies this`transferType, this`currentPath, this`replies
      modifies host`events, host`files, host`wire, input
      ensures Valid()
      ensures var t := Serve(config, old(Snapshot()), old(host.State()), host.Layout(), [], old(input.chunks));
        && Snapshot() == t.fields && host.State() == t.host && ending == t.ending
        && replies == old(replies) + t.replies
    {
      ghost var d := host.Layout();
      ghost var goal := Serve(config, Snapshot(), host.State(), d, [], input.chunks);
      ghost var start := replies;
      ghost var acc: seq<string> := [];
      var queue: seq<byte> := [];
      while true
        invariant Valid() && host.Layout() == d && replies == start + acc
        invariant Resumes(goal, acc, Serve(config, Snapshot(), host.State(), d, queue, input.chunks))
        decreases |queue| + |Framing.Received(input.chunks)|
      {
        var over;
        ghost var written;
        over, queue, written := Turn(input, host, queue, goal, acc);
        AppendAssoc(start, acc, written);
        acc := acc + written;
        if over.Some? {
          return over.value;
        }
      }
    }

    /**
     * `run`: the welcome reply, then command after command until the peer
     * closes the connection, QUIT is answered, or a command faults, exactly
     * as `Serve` says; a session ended by QUIT has the goodbye as its last
     * reply, and a login is never lost.
     */
    method Run(input: Framing.ControlInput, host: Host) returns (ending: Ending)
      requires Valid()
      modifies this`currentUser, this`isLoggedIn, this`isAnonymous, this`transferMode
      modifies this`transferType, this`currentPath, this`replies
      modifies host`events, host`files, host`wire, input
      ensures Valid()
      ensures var t := Serve(config, old(Snapshot()), old(host.State()), host.Layout(), [], old(input.chunks));
        && Snapshot() == t.fields && host.State() == t.host && ending == t.ending
        && replies == old(replies) + [Welcome] + t.replies
      ensures ending == Quitted ==> replies[|replies| - 1] == Goodbye
      ensures old(isLoggedIn) ==> isLoggedIn
    {
      ghost var t := Serve(config, Snapshot(), host.State(), host.Layout(), [], input.chunks);
      ServeKeeps(config, Snapshot(), host.State(), host.Layout(), [], input.chunks);
      ghost var f0 := Snapshot();
      Reply(Welcome);
      assert Snapshot() == f0;
      ending := Serving(input, host);
      assert replies == (old(replies) + [Welcome]) + t.replies;
    }
  }
}
