/**
 * Turning a received command line into a command (the dispatch table of
 * `FTPSession::run`). The first four bytes are upper-cased in place; the
 * line is then matched whole against the argument-less commands, and
 * otherwise split at its first space into a verb and its argument, the
 * command syntax of section 5.3.1 of RFC 959.
 */
module Dispatch {

  import opened Wrappers
  import opened Text

  datatype Command =
    | Pasv | Pwd | Feat | Syst | Noop | Utf8On | Quit
    | ListDir(arg: string)
    | User(arg: string) | Pass(arg: string) | Port(arg: string)
    | Type(arg: string) | Mode(arg: string) | Stru(arg: string)
    | Cwd(arg: string) | Retr(arg: string) | Stor(arg: string)
    | Unknown

  /** The line as text, one character per byte. */
  function ByteText(line: seq<byte>): (t: string)
    ensures |t| == |line| && forall i :: 0 <= i < |line| ==> t[i] as int == line[i]
  {
    seq(|line|, i requires 0 <= i < |line| => line[i] as char)
  }

  /** How many leading bytes are upper-cased: `min(len, 4)`. */
  function VerbWidth(t: string): (n: nat)
    ensures n <= |t| && n <= 4 && (|t| >= 4 ==> n == 4)
  {
    if |t| < 4 then |t| else 4
  }

  /**
   * `command[0..min(len, 4)].make_ascii_uppercase()`: the first four bytes
   * are upper-cased and every later byte, so the whole argument after a verb
   * of four letters (or of three and the space), keeps its case.
   */
  function Normalize(t: string): (r: string)
    ensures |r| == |t|
    ensures forall i :: 0 <= i < |t| ==> r[i] == if i < 4 then AsciiUpper(t[i]) else t[i]
  {
    UpperAscii(t[..VerbWidth(t)]) + t[VerbWidth(t)..]
  }

  /** The lines matched whole before any splitting. */
  predicate IsWholeLine(t: string)
  {
    t == "PASV" || t == "PWD" || t == "FEAT" || t == "SYST" || t == "NOOP"
    || t == "LIST" || t == "OPTS UTF8 ON" || t == "QUIT"
  }

  /** The verbs that take an argument, with the argument after the first space. */
  function VerbCommand(verb: string, para: string): (c: Command)
    ensures c != Unknown ==> Unparse(c) == verb + " " + para
  {
    if verb == "USER" then User(para)
    else if verb == "PASS" then Pass(para)
    else if verb == "PORT" then Port(para)
    else if verb == "TYPE" then Type(para)
    else if verb == "MODE" then Mode(para)
    else if verb == "STRU" then Stru(para)
    else if verb == "CWD" then Cwd(para)
    else if verb == "LIST" then ListDir(para)
    else if verb == "RETR" then Retr(para)
    else if verb == "STOR" then Stor(para)
    else Unknown
  }

  /** The canonical line of a command: its verb, then a space and its argument. */
  function Unparse(c: Command): string
    requires !c.Unknown?
  {
    match c
    case Pasv => "PASV"
    case Pwd => "PWD"
    case Feat => "FEAT"
    case Syst => "SYST"
    case Noop => "NOOP"
    case Utf8On => "OPTS UTF8 ON"
    case Quit => "QUIT"
    case ListDir(a) => "LIST" + " " + a
    case User(a) => "USER" + " " + a
    case Pass(a) => "PASS" + " " + a
    case Port(a) => "PORT" + " " + a
    case Type(a) => "TYPE" + " " + a
    case Mode(a) => "MODE" + " " + a
    case Stru(a) => "STRU" + " " + a
    case Cwd(a) => "CWD" + " " + a
    case Retr(a) => "RETR" + " " + a
    case Stor(a) => "STOR" + " " + a
  }

  /**
   * The dispatch table: whole-line matches first, then `split_once(' ')`
   * and the verb table; anything else, including a verb with no space after
   * it, is an unknown command. Every recognised line is the canonical line
   * of its command, except the bare "LIST", which lists with no argument.
   */
  function Route(t: string): (c: Command)
    ensures c != Unknown ==> t == Unparse(c) || (t == "LIST" && c == ListDir(""))
    ensures ' ' !in t && !IsWholeLine(t) ==> c == Unknown
  {
    if t == "PASV" then Pasv
    else if t == "PWD" then Pwd
    else if t == "FEAT" then Feat
    else if t == "SYST" then Syst
    else if t == "NOOP" then Noop
    else if t == "LIST" then ListDir("")
    else if t == "OPTS UTF8 ON" then Utf8On
    else if t == "QUIT" then Quit
    else
      match SplitOnce(t, ' ')
      case None => Unknown
      case Some((verb, para)) => VerbCommand(verb, para)
  }

  /** What `run` dispatches on for a received line (its terminator already removed). */
  function Decode(line: seq<byte>): Command
  {
    Route(Normalize(ByteText(line)))
  }

  /**
   * A line made of a space-free verb that does not start with 'O', a space
   * and any argument is split at that first space and routed by its verb:
   * no whole-line match can take it, whatever the argument holds.
   */
  lemma RouteVerbLine(verb: string, para: string)
    requires ' ' !in verb && |verb| >= 1 && verb[0] != 'O'
    ensures Route(verb + " " + para) == VerbCommand(verb, para)
  {
    var t := verb + " " + para;
    assert t[|verb|] == ' ' && t[0] == verb[0];
    assert ' ' in t && t[0] != 'O';
    assert !IsWholeLine(t);
    SplitOnceAt(verb, ' ', para);
  }

  /** The whole-line table, entry by entry, each line taken by its own match. */
  lemma WholeLineTable()
    ensures Route("PASV") == Pasv && Route("PWD") == Pwd && Route("FEAT") == Feat
    ensures Route("SYST") == Syst && Route("NOOP") == Noop && Route("LIST") == ListDir("")
    ensures Route("OPTS UTF8 ON") == Utf8On && Route("QUIT") == Quit
  {
    assert "PWD" != "PASV";
    assert "FEAT" != "PASV" && "FEAT" != "PWD";
    assert "SYST" != "PASV" && "SYST" != "PWD" && "SYST" != "FEAT";
    assert "NOOP" != "PASV" && "NOOP" != "PWD" && "NOOP" != "FEAT" && "NOOP" != "SYST";
    assert "LIST" != "PASV" && "LIST" != "PWD" && "LIST" != "FEAT" && "LIST" != "SYST" && "LIST" != "NOOP";
    assert "QUIT" != "PASV" && "QUIT" != "PWD" && "QUIT" != "FEAT" && "QUIT" != "SYST" && "QUIT" != "NOOP";
    assert "QUIT" != "LIST" && "QUIT" != "OPTS UTF8 ON";
  }

  /** Upper-casing the verb twice changes nothing more. */
  lemma NormalizeIdempotent(t: string)
    ensures Normalize(Normalize(t)) == Normalize(t)
  {
    var n := Normalize(t);
    assert forall i :: 0 <= i < |n| ==> Normalize(n)[i] == n[i];
  }

  /** A four-byte verb is upper-cased and the rest of the line is left alone. */
  lemma NormalizeVerb(verb: string, rest: string)
    requires |verb| == 4
    ensures Normalize(verb + rest) == UpperAscii(verb) + rest
  {
    var t := verb + rest;
    assert forall i :: 0 <= i < |t| ==> Normalize(t)[i] == (UpperAscii(verb) + rest)[i];
  }

  /**
   * Verbs are case-insensitive but arguments are not: a four-letter verb in
   * any case, a space and an argument route as the upper-case verb with the
   * argument exactly as sent ("stor Notes.TXT" stores "Notes.TXT").
   */
  lemma VerbCaseInsensitive(verb: string, para: string)
    requires |verb| == 4 && ' ' !in verb && AsciiUpper(verb[0]) != 'O'
    ensures Route(Normalize(verb + " " + para)) == VerbCommand(UpperAscii(verb), para)
  {
    var upper := UpperAscii(verb);
    AppendAssoc(verb, " ", para);
    NormalizeVerb(verb, " " + para);
    AppendAssoc(upper, " ", para);
    assert ' ' !in upper by {
      forall i | 0 <= i < 4 ensures upper[i] != ' ' {
        assert verb[i] != ' ';
      }
    }
    RouteVerbLine(upper, para);
  }

  /**
   * "OPTS" is not in the verb table: only the exact line "OPTS UTF8 ON" is
   * recognised, so any other argument, its lower-case form included, is an
   * unknown command.
   */
  lemma OptsMatchedExactly(rest: string)
    requires rest != "UTF8 ON"
    ensures Route("OPTS" + " " + rest) == Unknown
  {
    var t := "OPTS" + " " + rest;
    assert t[0] == 'O' && t[4] == ' ' && t[..4] == "OPTS";
    assert t != "OPTS UTF8 ON" by {
      if |t| == 12 {
        assert t[5..] == rest;
      }
    }
    SplitOnceAt("OPTS", ' ', rest);
    NoVerbStartsWithO("OPTS", rest);
  }

  /** No verb of the table starts with 'O'. */
  lemma NoVerbStartsWithO(verb: string, para: string)
    requires |verb| >= 1 && verb[0] == 'O'
    ensures VerbCommand(verb, para) == Unknown
  {
  }

  /** The lower-case "opts utf8 on" is not the whole line "OPTS UTF8 ON". */
  lemma OptsLowerCase()
    ensures Route(Normalize("opts" + " " + "utf8 on")) == Unknown
  {
    AppendAssoc("opts", " ", "utf8 on");
    NormalizeVerb("opts", " " + "utf8 on");
    assert UpperAscii("opts") == "OPTS";
    AppendAssoc("OPTS", " ", "utf8 on");
    assert "utf8 on"[0] != "UTF8 ON"[0];
    OptsMatchedExactly("utf8 on");
  }

  /** An option word of LIST starts with '-'. */
  predicate IsOption(w: string)
  {
    |w| > 0 && w[0] == '-'
  }

  /** The first word that is not an option, or "" when every word is one. */
  function FirstPathWord(words: seq<string>): (r: string)
    ensures (forall j :: 0 <= j < |words| ==> IsOption(words[j])) ==> r == ""
    ensures (exists j :: 0 <= j < |words| && !IsOption(words[j])) ==>
      exists k :: 0 <= k < |words| && r == words[k] && !IsOption(r) && forall j :: 0 <= j < k ==> IsOption(words[j])
    decreases |words|
  {
    if |words| == 0 then ""
    else if !IsOption(words[0]) then words[0]
    else
      var r := FirstPathWord(words[1..]);
      assert forall j :: 1 <= j < |words| ==> words[j] == words[1..][j - 1];
      r
  }

  /**
   * The LIST argument filter: of the words between single spaces, the first
   * (possibly empty) one that does not start with '-'; "" when there is none.
   */
  function ListTarget(opts: string): (path: string)
    ensures ' ' !in path && !IsOption(path)
  {
    FirstPathWord(Split(opts, ' '))
  }

  /** "-la" lists the current directory. */
  lemma ListTargetOptionsOnly()
    ensures ListTarget("-la") == ""
  {
    SplitNoSeparator("-la", ' ');
  }

  /** "-a /tmp" lists "/tmp". */
  lemma ListTargetSkipsOptions()
    ensures ListTarget("-a /tmp") == "/tmp"
  {
    SplitNoSeparator("/tmp", ' ');
    SplitFirstField("-a", ' ', "/tmp");
    assert "-a /tmp" == "-a" + [' '] + "/tmp";
  }
}
