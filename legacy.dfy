/**
 * The earlier revision of the session handlers (handle.rs, transfer.rs,
 * recieve.rs), whose session object calls its data mode `transfer` and
 * has none of the later revision's guards: USER is taken while logged in,
 * PASS is re-evaluated while logged in, PORT and PASV need no login, and a
 * failed PASV bind ends the session without a reply. The contrast methods
 * at the end run the same command sequences through both revisions.
 */
module Legacy {

  import opened Wrappers
  import opened Text
  import opened Net
  import opened LineEnding
  import opened Host
  import opened DataPath
  import opened Session

  const LegacyWelcome := "220 TryFTP v0.1.0\r\n"

  /** The earlier STOR texts: every abort reply carries the misspelt "Tansfer". */
  const RecieveTexts := Texts("150 Ok to send data.\r\n", "226 Transfer complete.\r\n", "426 Tansfer aborted.\r\n")

  class LegacySession {
    const config: Config
    var currentUser: string
    var isLoggedIn: bool
    var isAnonymous: bool
    var transfer: TransferMode
    var transferType: TransferType
    var currentPath: string
    var replies: seq<string>

    /** The earlier revision's own constructor is not part of this model; it starts as the later one does. */
    constructor (config: Config)
      ensures this.config == config && currentUser == "" && !isLoggedIn && !isAnonymous
      ensures transfer == Disable && transferType == Ascii && currentPath == config.path && replies == []
    {
      this.config := config;
      currentUser := "";
      isLoggedIn := false;
      isAnonymous := false;
      transfer := Disable;
      transferType := Ascii;
      currentPath := config.path;
      replies := [];
    }

    method Reply(text: string)
      modifies this`replies
      ensures replies == old(replies) + [text]
    {
      replies := replies + [text];
    }

    method Welcome()
      modifies this`replies
      ensures replies == old(replies) + [LegacyWelcome]
    {
      Reply(LegacyWelcome);
    }

    /** `pre_login`: always replies 331 and takes the user, logged in or not. */
    method PreLogin(username: string)
      modifies this`currentUser, this`replies
      ensures currentUser == username && replies == old(replies) + [NeedPassword]
    {
      Reply(NeedPassword);
      currentUser := username;
    }

    /**
     * `try_login`: no "already logged in" check. "anonymous" logs in with any
     * password, the configured pair logs in, and anything else is refused
     * without logging out, so a logged-in session stays logged in whatever
     * user it now names.
     */
    method TryLogin(password: string)
      modifies this`isLoggedIn, this`isAnonymous, this`replies
      ensures isLoggedIn == (old(isLoggedIn) || Accepts(config, currentUser, password))
      ensures currentUser == "anonymous" ==> isAnonymous
      ensures currentUser != "anonymous" ==> isAnonymous == old(isAnonymous)
      ensures Accepts(config, currentUser, password) ==> replies == old(replies) + [UserIn]
      ensures !Accepts(config, currentUser, password) ==> replies == old(replies) + [LoginIncorrect]
    {
      if currentUser == "anonymous" {
        Reply(UserIn);
        isAnonymous := true;
        isLoggedIn := true;
      } else if currentUser == config.username && password == config.password {
        Reply(UserIn);
        isLoggedIn := true;
      } else {
        Reply(LoginIncorrect);
      }
    }

    /** `set_active`, with no login check: a parsable address replaces any mode, anything else clears it. */
    method SetActive(remote: string)
      modifies this`transfer, this`replies
      ensures ParseIpv4Addr(remote).Some? ==> transfer == Active(ParseIpv4Addr(remote).value) && replies == old(replies) + [PortOk]
      ensures ParseIpv4Addr(remote).None? ==> transfer == Disable && replies == old(replies) + [IllegalAddress]
    {
      var addr := ParseIpv4Addr(remote);
      if addr.Some? {
        Reply(PortOk);
        transfer := Active(addr.value);
      } else {
        Reply(IllegalAddress);
        transfer := Disable;
      }
    }

    /**
     * `set_passive`, with no login check: a bound listener replaces any mode
     * and is announced in the 227 reply; a failed bind is an error that ends
     * the session, with no reply and the mode unchanged.
     */
    method SetPassive(host: Host) returns (fault: bool)
      modifies this`transfer, this`replies, host`events
      ensures host.events == Later(old(host.events))
      ensures fault <==> !Next(old(host.events)).Bound?
      ensures !fault ==>
        var addr := SocketAddr(config.listen, Next(old(host.events)).port);
        transfer == Passive(addr) && replies == old(replies) + [PassiveReply(addr)]
      ensures fault ==> transfer == old(transfer) && replies == old(replies)
    {
      var listener := host.Listen(config.listen);
      if listener.None? {
        return true;
      }
      fault := false;
      Reply(PassiveReply(listener.value));
      transfer := Passive(listener.value);
    }

    /** `set_tranfer_type`: as in the later revision. */
    method SetTransferType(arg: string)
      modifies this`transferType, this`replies
      ensures transferType == TypeAfter(old(transferType), arg)
      ensures replies == old(replies) + [TypeReply(arg)]
    {
      var ty := TypeOf(arg);
      if ty.Some? {
        transferType := ty.value;
      }
      Reply(TypeReply(arg));
    }

    /** The `list`, `send` and `recieve` stubs of handle.rs: no reply and no change. */
    method Unimplemented(path: string)
      ensures unchanged(this)
    {
    }

    /**
     * `recieve` (STOR): as the later `receive`, with its own texts; the
     * mode is left alone when logged out and cleared after any attempt.
     */
    method Recieve(path: string, host: Host) returns (link: Link)
      modifies this`transfer, this`replies, host`events, host`files
      ensures !isLoggedIn ==> transfer == old(transfer) && replies == old(replies) + [NeedLogin]
      ensures !isLoggedIn ==> host.events == old(host.events) && host.files == old(host.files)
      ensures isLoggedIn ==> transfer == Disable && (link, host.events) == LinkOf(old(transfer), old(host.events))
      ensures isLoggedIn && !link.Connected? ==> host.files == old(host.files) && replies == old(replies) + LinkReplies(link, false, RecieveTexts)
      ensures isLoggedIn && link.Connected? ==>
        var target := JoinPath(currentPath, path);
        && replies == old(replies) + LinkReplies(link, Creatable(host.locked, host.dirs, target) && !Aborted(link.peer), RecieveTexts)
        && (Creatable(host.locked, host.dirs, target) ==>
              host.files == old(host.files)[target := Stored(Prior(old(host.files), target), transferType, Delivered(link.peer))])
        && (!Creatable(host.locked, host.dirs, target) ==> host.files == old(host.files))
    {
      link := NoLink;
      if !isLoggedIn {
        Reply(NeedLogin);
        return;
      }
      link := OpenLink(config, transfer, host);
      if link.Connected? {
        Reply(RecieveTexts.start);
        var ok := StoreStream(host, JoinPath(currentPath, path), transferType, link.peer);
        Reply(if ok then RecieveTexts.complete else RecieveTexts.aborted);
      } else {
        Reply(LinkReplies(link, false, RecieveTexts)[0]);
      }
      transfer := Disable;
    }
  }

  /**
   * USER while logged in: the later revision keeps the logged-in user and
   * refuses PASS as already done; the earlier one takes the new name and,
   * though the password is wrong, stays logged in as a user that never
   * authenticated, which the later revision's `Valid` rules out.
   */
  method SwitchUserContrast(config: Config, other: string) returns (later: string, earlier: string, earlierIn: bool)
    requires config.username != "anonymous" && other != config.username && other != "anonymous"
    ensures later == config.username
    ensures earlier == other && earlierIn
  {
    var s := new FtpSession(config);
    s.PreLogin(config.username);
    s.TryLogin(config.password);
    s.PreLogin(other);
    s.TryLogin("");
    later := s.currentUser;

    var e := new LegacySession(config);
    e.PreLogin(config.username);
    e.TryLogin(config.password);
    e.PreLogin(other);
    e.TryLogin("");
    earlier, earlierIn := e.currentUser, e.isLoggedIn;
  }

  /** PORT before login: refused with 530 by the later revision, accepted by the earlier one. */
  method PortBeforeLoginContrast(config: Config, remote: string) returns (later: TransferMode, laterReply: string, earlier: TransferMode)
    requires ParseIpv4Addr(remote).Some?
    ensures later == Disable && laterReply == NeedLogin
    ensures earlier == Active(ParseIpv4Addr(remote).value)
  {
    var s := new FtpSession(config);
    s.SetActive(remote);
    later, laterReply := s.transferMode, s.replies[0];

    var e := new LegacySession(config);
    e.SetActive(remote);
    earlier := e.transfer;
  }

  /** The later session: an anonymous login, then a PASV whose bind is refused. */
  method AnonymousPassive(config: Config) returns (replies: seq<string>)
    ensures replies == [NeedPassword, AnonymousIn, NoSocket]
  {
    var host := new Host(map[], {}, map[], map[], [Refused]);
    var s := new FtpSession(config);
    s.PreLogin("anonymous");
    assert s.replies == [NeedPassword];
    s.TryLogin("");
    assert s.isLoggedIn && s.replies == [NeedPassword, AnonymousIn];
    s.SetPassive(host);
    replies := s.replies;
  }

  /**
   * A PASV whose bind fails: the later revision answers 421 and clears the
   * mode; the earlier one ends the session without a reply.
   */
  method PassiveBindContrast(config: Config) returns (laterReplies: seq<string>, earlierFault: bool, earlierReplies: seq<string>)
    ensures laterReplies == [NeedPassword, AnonymousIn, NoSocket]
    ensures earlierFault && earlierReplies == []
  {
    laterReplies := AnonymousPassive(config);

    var host2 := new Host(map[], {}, map[], map[], [Refused]);
    var e := new LegacySession(config);
    earlierFault := e.SetPassive(host2);
    earlierReplies := e.replies;
  }
}
