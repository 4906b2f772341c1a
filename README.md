# kiraftp session engine, modelled in Dafny

kiraftp is a small FTP server (RFC 959). This project models what one
control connection does, from the welcome reply to the end of the session:

- the reader loop that frames command lines on CR LF;
- the dispatch table that turns a line into a command;
- the session state that the handlers update: the login, the data mode
  (none, PORT's address, or the PASV listener), the representation type
  and the current directory;
- the replies each handler writes;
- the three data transfers: STOR, RETR and LIST.

Sockets, files and directory listings are a scripted host. Each bind,
connect or accept takes the next scripted outcome. Files, unopenable
paths, directories and canonical paths are maps. What the server sends
on a data connection is one byte sequence.

Text is kept as the server's bytes. A received command line becomes text
one character per byte. The configured user name, password and root path,
the host's paths and the reply texts follow the same convention: each
holds the UTF-8 bytes of its text, one character per byte. So credentials
and paths compare byte for byte, as the source compares its UTF-8
strings. The names of directory entries are the one exception. They are
Unicode text, and a listing line is sent as its UTF-8 encoding.

The whole session is also given as a pure description. `Respond` gives
the effect of one command on the session fields, the host state and the
replies. `Answer` does the same for one frame. `Serve` gives the whole
session from a state and the bytes still to come. The imperative handlers
and the `run` loop are proved to do exactly what these functions say.

The modules are:

- `Text`: strings, decimal digits, ASCII upper-casing, splitting and joining, path joining.
- `Net`: the `h1,h2,h3,h4,p1,p2` host-port codec of section 4.1.2 of RFC 959.
- `LineEnding`: the ASCII representation type. Every LF is sent or stored
  as CR LF, the end-of-line convention of section 3.1.1.1 of RFC 959.
- `Fs`: the permission string and the listing line of an entry.
- `Host`: the scripted sockets and file system.
- `DataPath`: the chunked loops that store an upload, send a file and send a listing. Each is proved equal to a whole-stream function.
- `Framing`: the frame reader.
- `Dispatch`: verb normalisation and routing.
- `Session`: the session class with its handlers, `Execute` and `run`.
- `Legacy`: the earlier revision of the handlers that is still in the
  tree. It has contrast scenarios against the later revision.

## Model

Several files of the earlier revision repeat code that is modelled once:

- `src/utils/helper.rs` is the same codec as `src/utils/net.rs`, so the `Net` members model both.
- `src/session/transfer.rs` repeats the PORT and PASV handlers of `src/session/handle.rs`.
- `src/session/format.rs` and `src/session/file_mode.rs` repeat the MODE and STRU rules that `Session.ModeReply` and `Session.StruReply` state.
- The upload body in `src/session/recieve.rs` is the store loop of `DataPath.StoreStream`.
- `set_file_struct` and `set_tranfer_mode` in `src/session/handle.rs:100-121` follow the same rules as the later STRU and MODE handlers. STRU accepts exactly "F". MODE upper-cases its argument in ASCII and accepts "S", so it accepts "S" and "s". `Session.StruReply` and `Session.ModeReply` state both revisions.

| member | source | states |
|---|---|---|
| Session.FtpSession.constructor | src/session/mod.rs:65-77 | a new session is logged out and not anonymous, with no data mode, ASCII type, the configured path and no replies; it satisfies `Valid` |
| Session.FtpSession.Run | src/session/mod.rs:79-148 | the welcome reply comes first, then exactly the session `Serve` gives from the starting state: the final fields, host state, ending and replies are its; `Valid` holds, a login is never lost, and after QUIT the last reply is the goodbye |
| Session.FtpSession.Step | src/session/mod.rs:84-147 | the frame, the bytes left queued and the chunks left unread are exactly `Framing.Scan`'s; at the end of the stream nothing else changes; otherwise the fields, the host and the replies change as `Answer` says for that frame; such a frame strictly shrinks the queued plus unread bytes |
| Session.FtpSession.HandleFrame | src/session/mod.rs:108-145 | the fields, the host and the replies change exactly as `Answer` says: an overlong command gets the 500 reply alone and changes nothing else, and a line runs its decoded command; the outcome is `Answer`'s |
| Session.FtpSession.Execute | src/session/mod.rs:123-145 | each command changes the fields, the host state and the replies exactly as its arm of `Respond` says, and continues, quits or faults as `Respond` says |
| Session.FtpSession.Transfer | src/session/mod.rs:129-142 | LIST, RETR and STOR run the handler their verb names, with the effect `Respond` gives that command |
| Session.FtpSession.Serving | src/session/mod.rs:84-147 | the command loop, from an empty buffer, ends with exactly the fields, host state, ending and replies `Serve` gives |
| Session.FtpSession.Turn | src/session/mod.rs:84-147 | one turn of the loop either ends the session as the whole-session description says, or leaves it resuming from the new state with fewer queued and unread bytes |
| Session.FtpSession.Attend | src/session/mod.rs:124-139 | PASV and CWD change the fields, the host and the replies as `Respond` says; only CWD can fault |
| Session.FtpSession.Converse | src/session/mod.rs:123-144 | the commands that use no host resource change the fields and the replies as `Respond` says and leave the host alone |
| Session.RespondSummary | src/session/mod.rs:123-145 | every command keeps the session consistent and gets at least one reply, except a CWD fault with none; only QUIT quits, with the goodbye alone; only PASS logs in; nothing logs out; only USER changes the user |
| Session.AnswerSound | src/session/mod.rs:108-145 | from a consistent state every frame's answer keeps the session consistent and the login, and a QUIT answer is the goodbye alone |
| Session.ServeKeeps | src/session/mod.rs:79-148 | over a whole session from a consistent state, the session stays consistent, a login is never lost, and a session ended by QUIT has the goodbye as its last reply |
| Session.FollowKeeps | src/session/mod.rs:108-147 | after an answer that keeps the session, the rest of the session keeps it too |
| Session.ServeClosed | src/session/mod.rs:100-103 | a session whose next read is the end of the stream ends there, writing nothing more |
| Session.ServeAnswered | src/session/mod.rs:108-147 | a session whose next frame is answered ends with that answer after QUIT or a fault, and otherwise resumes from the answer's state with its replies written |
| Session.FtpSession.Reply | src/session/features.rs:11 | a reply is appended to what the control connection has been sent so far |
| Session.FtpSession.ListFeatures | src/session/features.rs:10-17 | FEAT writes the feature lines between its 221 lines |
| Framing.ControlInput.Read | src/session/mod.rs:100-106 | a read returns the next scripted chunk, or the empty chunk once the script is exhausted |
| Framing.ReadFrame | src/session/mod.rs:85-107 | the nested loops with `pre` compute exactly `Scan`: the frame, the bytes left queued and the chunks left unread |
| Framing.ScanConserves | src/session/mod.rs:88-103 | no byte is lost or reordered: the pending bytes are what the frame consumed, then the leftover queue, then the unread bytes; a close keeps everything received in the dropped partial command |
| Framing.ScanShape | src/session/mod.rs:92-98 | a line contains no CR LF; an overlong command exceeds 1024 bytes and empties the queue; a command cut short by the peer is at most 1024 bytes |
| Framing.ScanDrain | src/session/mod.rs:88-96 | draining a queue that completes no terminator only appends it to the command |
| Framing.CrLfAcrossReads | src/session/mod.rs:85-96 | a CR ending one read and an LF starting the next still end the line; the rest of the second read stays queued for the next command |
| Framing.ScanFindsLine | src/session/mod.rs:88-98 | the first CR LF within the first 1026 bytes always yields the line of exactly the bytes before it |
| Dispatch.ByteText | src/session/mod.rs:122 | the line becomes text one character per byte, same length and values |
| Dispatch.Normalize | src/session/mod.rs:121 | only the first min(len, 4) characters are ASCII-upper-cased; every other character is kept |
| Dispatch.NormalizeIdempotent | src/session/mod.rs:121 | upper-casing the verb twice is the same as once |
| Dispatch.NormalizeVerb | src/session/mod.rs:121 | a four-character verb is upper-cased and the rest of the line, its argument, keeps its case |
| Dispatch.Route | src/session/mod.rs:123-144 | a recognised line is its command's canonical line, or the bare LIST; a line with no space that is not a whole-line command is unknown |
| Dispatch.VerbCommand | src/session/mod.rs:132-143 | a recognised verb and argument rebuild the line they came from |
| Dispatch.RouteVerbLine | src/session/mod.rs:132-143 | a space-free verb not starting with 'O', then a space and any argument, is split at that space and routed by its verb alone |
| Dispatch.WholeLineTable | src/session/mod.rs:124-131 | each whole-line command routes to its own handler, and the bare LIST lists with no argument |
| Dispatch.VerbCaseInsensitive | src/session/mod.rs:121-143 | a four-letter verb in any case routes as its upper-case form, with the argument exactly as sent |
| Dispatch.OptsMatchedExactly | src/session/mod.rs:130-143 | OPTS with any argument other than "UTF8 ON" is unknown |
| Dispatch.NoVerbStartsWithO | src/session/mod.rs:132-143 | no verb of the argument table starts with 'O' |
| Dispatch.OptsLowerCase | src/session/mod.rs:121-130 | "opts utf8 on" is unknown, because only the verb is upper-cased |
| Dispatch.FirstPathWord | src/session/list.rs:23 | the first word that is not an option, and "" when every word is an option |
| Dispatch.ListTarget | src/session/list.rs:23 | the LIST path contains no space and does not start with '-' |
| Dispatch.ListTargetOptionsOnly | src/session/list.rs:23 | "-la" lists the current directory |
| Dispatch.ListTargetSkipsOptions | src/session/list.rs:23 | "-a /tmp" lists "/tmp" |
| Session.Accepts | src/session/login.rs:27-37 | "anonymous" with any password, or the configured user with the configured password |
| Session.FtpSession.PreLogin | src/session/login.rs:8-20 | while logged in: 530 and the user is kept; otherwise 331 and the user is stored |
| Session.FtpSession.TryLogin | src/session/login.rs:22-44 | logged in afterwards iff logged in before or the credentials are accepted; while logged in only "230 Already logged in."; anonymous sets the anonymous flag; a refusal gives 530 and changes nothing; `Valid` is kept |
| Session.FtpSession.SetActive | src/session/transfer_mode.rs:11-35 | logged out: 530 with the mode unchanged; a parsable address becomes the active mode with 200; otherwise 501 and no mode |
| Session.FtpSession.SetPassive | src/session/transfer_mode.rs:37-71 | logged out: 530 and no bind; a bound listener on the configured address becomes the passive mode and is announced in the 227 reply; a failed bind gives 421 and no mode |
| Session.PassiveReplyParses | src/session/transfer_mode.rs:51-59 | the text inside the 227 reply's parentheses parses back to the listener's address |
| Session.TypeOf | src/session/transfer_type.rs:9-27 | "A" or "a" selects ASCII, "I" or "i" selects Binary, anything else none |
| Session.FtpSession.SetTransferType | src/session/transfer_type.rs:9-27 | no login check; the named type replaces the old one, and an unsupported argument keeps it with a 504 |
| Session.ModeAccepted | src/session/file_format.rs:9-15 | MODE is accepted exactly for "S" and "s" |
| Session.ModeReply | src/session/file_format.rs:8-18 | 200 exactly for "S" or "s", else the 504 reply |
| Session.FtpSession.SetTransferMode | src/session/file_format.rs:8-18 | one reply and no field change, with no login check |
| Session.StruReply | src/session/file_struct.rs:8-17 | 200 exactly for "F", so "f" gets the 504 reply |
| Session.FtpSession.SetFileStruct | src/session/file_struct.rs:8-17 | one reply and no field change, with no login check |
| Session.PwdReply | src/session/pwd.rs:15-23 | the 257 reply holds the full current path between its quotes, recoverable from the text |
| Session.FtpSession.PrintWorkingDirectory | src/session/pwd.rs:8-25 | logged out: 530; otherwise the 257 reply; no field changes |
| Session.FtpSession.ChangeDirectory | src/session/cwd.rs:10-32 | logged out: 530; an existing directory at the joined path becomes the current path in canonical form, with no containment check, and gets 250; otherwise 550 with the path unchanged; a failed canonicalisation is a fault with no reply |
| Text.JoinPath | src/session/cwd.rs:20 | an absolute argument replaces the base; otherwise the result extends the base and ends with the argument |
| Session.LocalPort | src/session/receive.rs:23 | the active-mode local port is the configured port minus one in 16-bit arithmetic |
| Session.LinkOf | src/session/receive.rs:21-86 | no data connection without a mode; bind and connect failures only in active mode; accept failures only in passive mode; how many socket outcomes each mode consumes |
| Session.LinkReplies | src/session/receive.rs:21-86 | 425 without a mode or on a bind or connect failure; the 426 text on an accept failure; with a connection, the 150 text and then exactly one of the 226 or 426 texts |
| Session.OpenLink | src/session/receive.rs:21-58 | the bind, connect and accept calls of a transfer produce exactly `LinkOf` |
| Session.FtpSession.Store | src/session/receive.rs:14-90 | logged out: 530 with the mode and files unchanged; otherwise the replies follow `LinkReplies`, the upload is stored at the joined path when the file can be created, and the mode is cleared whatever happened; the whole effect is `StorEffect`'s |
| Session.FtpSession.Upload | src/session/receive.rs:21-90 | after login, the data connection is `LinkOf`'s, the replies follow `LinkReplies`, the upload is stored at the target when it can be created, and the mode is cleared |
| Session.FtpSession.Retrieve | src/session/send.rs:14-90 | logged out: 530 with the mode unchanged; otherwise the replies follow `LinkReplies` with the BINARY 150 text, the readable file goes out encoded for the type, and the mode is cleared; the whole effect is `RetrEffect`'s |
| Session.FtpSession.Download | src/session/send.rs:21-90 | after login, the data connection is `LinkOf`'s, the readable target goes out encoded for the type, the replies follow `LinkReplies`, and the mode is cleared |
| Session.FtpSession.List | src/session/list.rs:15-92 | logged out: 530 with the mode unchanged; the path is the filtered option word; the listing of the joined directory goes out, and the replies follow `LinkReplies`; the mode is cleared; the whole effect is `ListEffect`'s |
| Session.FtpSession.ListDirectory | src/session/list.rs:21-92 | after login, the data connection is `LinkOf`'s, the listing of a readable directory goes out, the replies follow `LinkReplies`, and the mode is cleared |
| DataPath.StoreStream | src/session/receive.rs:92-128 | an uncreatable target changes nothing and fails; otherwise the file becomes the encoded upload written over its old contents, and success means the upload was not aborted |
| DataPath.CopyStream | src/session/receive.rs:98-125 | the read-and-write loop leaves the file equal to the whole encoded upload written over the old contents, however the upload was split into reads |
| DataPath.StoreChunk | src/session/receive.rs:106-112 | one read's bytes, encoded, are written at the current offset, and the offset advances by their length |
| DataPath.DeliveredChunks | src/session/receive.rs:101-105 | reads that all succeed with data deliver their concatenation |
| DataPath.DeliveredStep | src/session/receive.rs:101-105 | a failed read aborts, an empty read ends, and a data read contributes its bytes first |
| DataPath.Stored | src/session/receive.rs:93-97 | the stored file starts with the encoded upload, and its old bytes beyond that length remain, since nothing truncates |
| Host.Overwrite | src/session/receive.rs:93-97 | writing from offset 0 without truncation keeps the old tail |
| Host.WriteAtAppend | src/session/receive.rs:106-112 | two writes at consecutive offsets equal one write of both |
| Host.Host.BindLocal | src/session/receive.rs:26 | binding the local active-mode socket succeeds exactly when the next scripted outcome is a bind, which it consumes |
| Host.Host.Open | src/session/receive.rs:27 | a connect, or an accept, yields the scripted peer stream when the next outcome is one, and nothing otherwise; one outcome is consumed |
| Host.Host.Listen | src/session/transfer_mode.rs:44 | a listener bound on the given address at the scripted port, or nothing on a failure; one outcome is consumed |
| Host.Host.OpenWrite | src/session/receive.rs:93-97 | opening for writing fails exactly on an unopenable path or a directory; a missing file is created empty; an existing file is not truncated |
| Host.Host.WriteFile | src/session/receive.rs:106-112 | a write replaces the bytes at the cursor and changes no other file |
| Host.FileIn | src/session/send.rs:92-126 | a path yields its contents exactly when it holds a file, is not locked and is not a directory (a directory opens, but its first read fails) |
| Host.Host.Transmit | src/session/send.rs:105-111 | the bytes written on the data connection are appended to everything already sent |
| Host.Utf8 | src/session/list.rs:103 | a character takes one to four bytes, and exactly the ASCII ones are their own single byte |
| Host.AsBytesAppend | src/session/list.rs:103 | the bytes of joined texts are the joined bytes |
| Host.Next | src/session/receive.rs:26-58 | the outcome of the next socket call: a refusal once the script is exhausted |
| Host.Later | src/session/receive.rs:26-58 | each socket call consumes one scripted outcome |
| DataPath.SendFile | src/session/send.rs:92-126 | an unreadable file fails and sends nothing; otherwise the data connection receives the whole file encoded for the type |
| DataPath.SendContent | src/session/send.rs:97-123 | the chunked read loop sends exactly the encoded content |
| DataPath.SendChunk | src/session/send.rs:105-111 | one chunk is sent encoded |
| DataPath.ChunkStep | src/session/send.rs:99-112 | encoding chunk by chunk equals encoding the prefix read so far |
| DataPath.EncodeSlices | src/session/send.rs:99-112 | the encoding of consecutive slices concatenates |
| DataPath.SendListing | src/session/list.rs:94-107 | an unreadable directory fails and sends nothing; otherwise exactly the listing of its entries is sent |
| DataPath.SendLines | src/session/list.rs:101-105 | the entry loop sends the rendered line of each entry, in order, skipping entries that cannot be rendered |
| DataPath.Lines | src/session/list.rs:101-105 | at most one line per entry |
| DataPath.LinesAllShown | src/session/list.rs:101-105 | when every entry can be rendered, line k is entry k's line |
| DataPath.HiddenEntry | src/session/list.rs:102 | an entry that cannot be rendered adds no line |
| DataPath.ListingSnoc | src/session/list.rs:101-105 | the listing grows entry by entry |
| DataPath.SentLinesListing | src/session/list.rs:101-105 | the bytes sent so far are the UTF-8 of the listing of the entries seen so far |
| LineEnding.Translate | src/session/receive.rs:106-112 | LF becomes CR LF; every other byte is kept |
| LineEnding.AsciiEncodeAppend | src/session/receive.rs:99-113 | the ASCII encoding of two parts is the concatenation of their encodings, so the way the stream splits into reads does not matter |
| LineEnding.AsciiEncodeSnoc | src/session/receive.rs:106-112 | encoding one more byte appends its translation |
| LineEnding.EncodeAppend | src/session/send.rs:97-123 | the same holds for both representation types |
| LineEnding.AsciiEncodeLength | src/session/send.rs:105-110 | ASCII output length is the input length plus the number of LF bytes |
| LineEnding.AsciiEncodeNoLf | src/session/send.rs:105-110 | input without LF is sent unchanged |
| LineEnding.DecodeEncode | src/session/send.rs:105-110 | replacing each CR LF by LF recovers the input, so the encoding loses nothing |
| LineEnding.CrLfGrows | src/session/send.rs:105-110 | an existing CR LF becomes CR CR LF, so encoding twice differs from encoding once |
| LineEnding.EncodeProperties | src/session/send.rs:97-123 | Binary is the identity; ASCII adds one byte per LF and can be decoded back |
| Fs.Triplet | src/utils/fs.rs:55-66 | three characters: 'r', 'w' and 'x' exactly when their bit is set, '-' otherwise |
| Fs.FileType | src/utils/fs.rs:68-78 | one character; 'd' iff a directory, 'l' iff a link, 's' iff a socket, 'b' iff a block device, 'c' iff a character device, 'p' iff a FIFO, '-' iff none of these six types |
| Fs.RegularFileType | src/utils/fs.rs:68-78 | a regular file shows '-' |
| Fs.ParsePermissions | src/utils/fs.rs:47-53 | ten characters: the type, then the user, group and other triplets |
| Fs.PermissionBitsRoundTrip | src/utils/fs.rs:47-66 | the nine permission characters determine the nine permission bits |
| Fs.DirectoryExample | src/utils/fs.rs:47-78 | mode 040755 shows as "drwxr-xr-x" |
| Fs.ShownName | src/utils/fs.rs:30-41 | a name containing a space is wrapped in single quotes; any other name is shown as is |
| Fs.Display | src/utils/fs.rs:17-45 | a line exists iff the metadata, the user and the group are all known |
| Fs.DisplayLine | src/utils/fs.rs:31-41 | the line is the seven fields separated by spaces, ending in CR LF, with the shown name last |
| Fs.QuotedNameExample | src/utils/fs.rs:31-35 | "my file" is listed as 'my file' |
| Net.ParseU8 | src/utils/net.rs:8 | an accepted field is an optional '+' and then decimal digits, with no space, comma or '-' |
| Net.ParseU8Decimal | src/utils/net.rs:8 | every octet's decimal form parses to it |
| Net.ParseU8PlusSign | src/utils/net.rs:8 | a leading '+' is accepted |
| Net.ParseU8Overflow | src/utils/net.rs:8 | values above 255 are refused |
| Net.ParseIpv4Addr | src/utils/net.rs:6-16 | an accepted address has six comma-separated fields |
| Net.ParseIpv4AddrAccepts | src/utils/net.rs:7-10 | accepted iff there are exactly six fields and all parse as octets |
| Net.ParseIpv4AddrFields | src/utils/net.rs:11-13 | the address octets are the first four fields, in order |
| Net.ParseIpv4AddrPort | src/utils/net.rs:14 | the port's high and low octets are the fifth and sixth fields |
| Net.PortOctets | src/utils/net.rs:14 | `(p1 << 8) \| p2` takes apart again into p1 and p2 |
| Net.ParseIpv4AddrOfFields | src/utils/net.rs:6-16 | six octet fields give exactly the address they spell |
| Net.PrintIpv4Addr | src/utils/net.rs:18-26 | the text is parenthesised around the comma form of the address and port |
| Net.PrintIpv4AddrFields | src/utils/net.rs:18-26 | the printed text is the six decimal octets joined by commas, and the port octets recombine to the port |
| Net.ParsePrintRoundTrip | src/utils/net.rs:6-26 | parsing the printed text without its parentheses gives back the address |
| Net.ShortAddressRejected | src/utils/net.rs:8-10 | "1,2,3" is refused |
| Net.IpOctets | src/utils/net.rs:22 | the four octets of the address, each written in decimal digits |
| Net.Octets | src/utils/net.rs:18-26 | the six printed fields, all decimal digits |
| Text.Decimal | src/utils/net.rs:20-25 | the decimal form of a number is non-empty, all digits, and has no leading zero |
| Text.DigitsValueOfDecimal | src/utils/net.rs:8 | reading back the decimal form of a number gives the number |
| Text.IndexOf | src/session/mod.rs:132 | the first position of the character, and none exactly when it does not occur |
| Text.Replace | src/utils/net.rs:22 | the same length, with each '.' replaced by ',' and every other character kept |
| Text.ReplaceJoin | src/utils/net.rs:19-22 | replacing the separator of fields that do not contain it re-joins them with the new one |
| Text.UpperAscii | src/session/transfer_type.rs:10 | the same length, with every character ASCII-upper-cased |
| Text.UpperOneLetter | src/session/file_format.rs:9-11 | a string upper-cases to a single capital letter exactly when it is that letter in either case |
| Text.SplitOnce | src/session/mod.rs:132 | no split without the separator; otherwise the text is the head, the separator and the tail, and the head has no separator |
| Text.SplitOnceAt | src/session/mod.rs:132 | the split happens at the first separator |
| Text.Split | src/utils/net.rs:7 | at least one field, and no field contains the separator |
| Text.SplitJoin | src/utils/net.rs:7 | splitting separator-free fields joined by the separator gives them back |
| Text.JoinSplit | src/utils/net.rs:7 | joining the split fields gives back the text |
| Legacy.LegacySession.Welcome | src/session/handle.rs:9-12 | the earlier welcome text |
| Legacy.LegacySession.PreLogin | src/session/handle.rs:13-19 | always 331, and the user is taken even while logged in |
| Legacy.LegacySession.TryLogin | src/session/handle.rs:20-38 | logged in afterwards iff logged in before or the credentials are accepted; both successes reply "230 Login successful."; a refusal does not log out |
| Legacy.LegacySession.SetActive | src/session/handle.rs:40-57 | no login check: a parsable address becomes the active mode with 200, anything else clears the mode with 501 |
| Legacy.LegacySession.SetPassive | src/session/handle.rs:59-78 | no login check; a bound listener becomes the passive mode with the 227 reply; a failed bind is a fault with no reply and the mode unchanged |
| Legacy.LegacySession.SetTransferType | src/session/handle.rs:80-98 | the type selection of the later revision |
| Legacy.LegacySession.Unimplemented | src/session/handle.rs:122-133 | the LIST, RETR and STOR stubs change nothing |
| Legacy.LegacySession.Recieve | src/session/recieve.rs:11-88 | the STOR sequence of the later revision, with its own texts: every abort reply reads "426 Tansfer aborted."; the mode is kept when logged out and cleared after any attempt |
| Legacy.SwitchUserContrast | src/session/handle.rs:13-38 | after a login, USER and a wrong PASS leave the later session with the configured user; the earlier session stays logged in as a user that never authenticated |
| Legacy.PortBeforeLoginContrast | src/session/handle.rs:40-57 | PORT before login: refused with 530 and no mode in the later revision, accepted in the earlier |
| Legacy.AnonymousPassive | src/session/transfer_mode.rs:37-71 | in the later revision, an anonymous login followed by a PASV whose bind is refused answers 331, the anonymous 230, then 421 |
| Legacy.PassiveBindContrast | src/session/handle.rs:59-78 | a failed PASV bind: 421 and no mode in the later revision; a fault with no reply in the earlier |

## Left out

- Sockets, files, directories and path canonicalisation are scripted outcomes (`Host`), not their implementations. A bind outcome does not depend on the address asked for.
- Async scheduling, concurrency between sessions, logging and `main.rs` start-up are not modelled. The configuration is an immutable `Config`.
- Errors from writing a reply on the control connection, and from flushing it, are not modelled. Every write is assumed to complete; the source calls `write`, not `write_all`. The same holds for writes on the data connection in RETR and LIST.
- Errors from `TcpSocket::new_v4`, `set_reuseaddr` and `local_addr` are not modelled. They end the session in the source.
- Session.LocalPort: a configured port of 0 wraps to 65535, as a release build does. A debug build panics on that subtraction instead.
- Session.FtpSession.ChangeDirectory: there is no containment check, so CWD can leave the configured root. That is the code's behaviour. PWD likewise prints the full server path.
- Dispatch.ByteText: the line's bytes become characters one for one. `String::from_utf8_lossy` replacement of invalid UTF-8 is not modelled.
- Session.TypeOf: TYPE uses Unicode `to_uppercase` in the source. The model upper-cases ASCII only, so it misses that a non-ASCII letter such as 'ı' upper-cases to "I" and would be accepted.
- Read sizes are not bounded: the 1024-byte control buffer and the 32 KiB data buffer. Any chunking is allowed, which covers every real one.
- DataPath.SendLines takes the line renderer as a parameter. `SendListing` instantiates it with `Fs.Display`.
- LIST of a directory that cannot be read gives "426", because the source's body error path is taken.
- Session.FtpSession.List: the source filters the options after the login check; the model computes the filtered path first, which changes nothing observable.
- The constant-reply handlers (welcome, SYST, NOOP, OPTS UTF8, QUIT, unknown command) are modelled only as the reply text `Execute` writes. Their earlier-revision counterparts in handle.rs:134-159 are not modelled: feature list, system info, NOOP, disconnect and unknown command.
- The earlier revision's session constructor and dispatch loop are not part of the tree. `LegacySession` starts in the later revision's initial state.
- Framing.ControlInput.Read: a read on the control connection always returns a chunk. In the source, a failed read at mod.rs:100 makes `run` return an error, and main.rs:61-63 logs the connection as closed unexpectedly. The model has no such read, so a session ends `Failed` only through the CWD fault. The end of the stream, a zero-length read, is modelled (mod.rs:101-103).
- Host.EntriesIn: the directories, the entries each one lists, the locked paths and the canonical paths stay as given for the whole session. Only file contents change. So a file created or grown by STOR does not appear in a later LIST, and the size shown in a listing never reflects an upload made in the session.
- Session.ListEffect: for the same reason, its listing comes from the fixed directory entries, not from the files the session has written.
- Fs.Display: the two `unwrap` calls at fs.rs:27 and fs.rs:30 are not modelled. In the source, an entry whose modification time cannot be read panics the session task during LIST, and so does a name that is not valid UTF-8. The model takes the formatted time stamp and the name as given and always renders the line.
- Host.Host.WriteFile: a file write always succeeds. In the source, `write_all` (receive.rs:108, 110, 122) and `flush` (receive.rs:126) can fail, and STOR then answers 426.
- DataPath.StoreStream: for the same reason, a failed file write or flush during an upload is not modelled. Success depends only on the target being creatable and the upload not being aborted.
- DataPath.SendFile: a read error in the middle of the file (send.rs:101, 117) is not modelled. In the source it makes RETR answer 426 after part of the file was sent.
- DataPath.SendListing: an error from `next_entry` in the middle of the directory (list.rs:101) is not modelled. In the source it makes LIST answer 426 after part of the listing was sent.
- IPv6 addresses are not modelled; the codec is IPv4 only.
- The session-size test in mod.rs is not modelled.
