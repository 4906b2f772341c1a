/**
 * The `ls -l` style listing line of the file-system helpers: the ten
 * character permission string built from a Unix mode word, and the layout of
 * one LIST line. Metadata, user and group lookups and the time stamp are
 * abstract inputs.
 */
module Fs {

  import opened Wrappers
  import opened Text

  // File-type field and permission bits of `st_mode`, as in <sys/stat.h>.
  const S_IFMT: bv32 := 0xF000
  const S_IFIFO: bv32 := 0x1000
  const S_IFCHR: bv32 := 0x2000
  const S_IFDIR: bv32 := 0x4000
  const S_IFBLK: bv32 := 0x6000
  const S_IFREG: bv32 := 0x8000
  const S_IFLNK: bv32 := 0xA000
  const S_IFSOCK: bv32 := 0xC000

  const S_IRUSR: bv32 := 0x100
  const S_IWUSR: bv32 := 0x80
  const S_IXUSR: bv32 := 0x40
  const S_IRGRP: bv32 := 0x20
  const S_IWGRP: bv32 := 0x10
  const S_IXGRP: bv32 := 0x8
  const S_IROTH: bv32 := 0x4
  const S_IWOTH: bv32 := 0x2
  const S_IXOTH: bv32 := 0x1

  /** The character shown for one permission bit: `c` when set, '-' when clear. */
  function Flag(mode: bv32, bit: bv32, c: char): char
  {
    if mode & bit != 0 then c else '-'
  }

  /**
   * `triplet`: the eight-armed match on which of the three bits are clear.
   * Whatever arm is taken, each position shows its own bit alone.
   */
  function Triplet(mode: bv32, read: bv32, write: bv32, execute: bv32): (t: string)
    ensures |t| == 3
    ensures t[0] == Flag(mode, read, 'r')
    ensures t[1] == Flag(mode, write, 'w')
    ensures t[2] == Flag(mode, execute, 'x')
  {
    var r, w, x := mode & read, mode & write, mode & execute;
    if r == 0 && w == 0 && x == 0 then "---"
    else if w == 0 && x == 0 then "r--"
    else if r == 0 && x == 0 then "-w-"
    else if r == 0 && w == 0 then "--x"
    else if w == 0 then "r-x"
    else if x == 0 then "rw-"
    else if r == 0 then "-wx"
    else "rwx"
  }

  /** `file_type`: the one-letter kind of the file, '-' for anything not listed. */
  function FileType(mode: bv32): (c: string)
    ensures |c| == 1
    ensures c == "d" <==> mode & S_IFMT == S_IFDIR
    ensures c == "l" <==> mode & S_IFMT == S_IFLNK
    ensures c == "s" <==> mode & S_IFMT == S_IFSOCK
    ensures c == "b" <==> mode & S_IFMT == S_IFBLK
    ensures c == "c" <==> mode & S_IFMT == S_IFCHR
    ensures c == "p" <==> mode & S_IFMT == S_IFIFO
    ensures c == "-" <==> mode & S_IFMT !in {S_IFDIR, S_IFLNK, S_IFSOCK, S_IFBLK, S_IFCHR, S_IFIFO}
  {
    var t := mode & S_IFMT;
    if t == S_IFDIR then "d"
    else if t == S_IFLNK then "l"
    else if t == S_IFSOCK then "s"
    else if t == S_IFBLK then "b"
    else if t == S_IFCHR then "c"
    else if t == S_IFIFO then "p"
    else "-"
  }

  /** A regular file is shown with '-'. */
  lemma RegularFileType(mode: bv32)
    requires mode & S_IFMT == S_IFREG
    ensures FileType(mode) == "-"
  {
  }

  /**
   * `parse_permissions`: the type letter, then the user, group and other
   * triplets, ten characters in all; each of the last nine shows one
   * permission bit, from S_IRUSR down to S_IXOTH.
   */
  function ParsePermissions(mode: bv32): (s: string)
    ensures |s| == 10 && s[..1] == FileType(mode)
    ensures s[1] == Flag(mode, S_IRUSR, 'r') && s[2] == Flag(mode, S_IWUSR, 'w') && s[3] == Flag(mode, S_IXUSR, 'x')
    ensures s[4] == Flag(mode, S_IRGRP, 'r') && s[5] == Flag(mode, S_IWGRP, 'w') && s[6] == Flag(mode, S_IXGRP, 'x')
    ensures s[7] == Flag(mode, S_IROTH, 'r') && s[8] == Flag(mode, S_IWOTH, 'w') && s[9] == Flag(mode, S_IXOTH, 'x')
  {
    FileType(mode) + Triplet(mode, S_IRUSR, S_IWUSR, S_IXUSR)
      + Triplet(mode, S_IRGRP, S_IWGRP, S_IXGRP) + Triplet(mode, S_IROTH, S_IWOTH, S_IXOTH)
  }

  /** The bit a shown permission character stands for, or 0 for '-'. */
  function Bit(c: char, bit: bv32): bv32
  {
    if c == '-' then 0 else bit
  }

  /** Reads the nine permission bits back from a rendered permission string. */
  function PermissionBits(s: string): bv32
    requires |s| == 10
  {
    Bit(s[1], S_IRUSR) | Bit(s[2], S_IWUSR) | Bit(s[3], S_IXUSR)
      | Bit(s[4], S_IRGRP) | Bit(s[5], S_IWGRP) | Bit(s[6], S_IXGRP)
      | Bit(s[7], S_IROTH) | Bit(s[8], S_IWOTH) | Bit(s[9], S_IXOTH)
  }

  /** The rendering loses none of the nine permission bits (and shows no others). */
  lemma PermissionBitsRoundTrip(mode: bv32)
    ensures PermissionBits(ParsePermissions(mode)) == mode & 0x1FF
  {
    var s := ParsePermissions(mode);
    assert PermissionBits(s) == (mode & S_IRUSR) | (mode & S_IWUSR) | (mode & S_IXUSR)
      | (mode & S_IRGRP) | (mode & S_IWGRP) | (mode & S_IXGRP)
      | (mode & S_IROTH) | (mode & S_IWOTH) | (mode & S_IXOTH);
  }

  /** A directory with mode 0755 reads "drwxr-xr-x". */
  lemma DirectoryExample()
    ensures ParsePermissions(0x41ED) == "drwxr-xr-x"
  {
  }

  /** What the listing needs from `metadata()` of one directory entry. */
  datatype Metadata = Metadata(mode: bv32, nlink: nat, uid: nat, gid: nat, size: nat, modified: string)

  /**
   * One entry of `read_dir`: its file name and the outcome of each lookup
   * `display` makes (metadata, then the owner's and the group's names).
   * `modified` stands for the already formatted "%b %d %H:%M" time stamp.
   */
  datatype Entry = Entry(name: string, meta: Option<Metadata>, user: Option<string>, group: Option<string>)

  /** The file name as listed: quoted with single quotes when it holds a space. */
  function ShownName(name: string): (r: string)
    ensures ' ' in name ==> r == "'" + name + "'"
    ensures ' ' !in name ==> r == name
  {
    if ' ' in name then "'" + name + "'" else name
  }

  /**
   * `display`: None when the metadata, owner or group lookup fails; otherwise
   * the seven fields separated by single spaces, ending in CR LF.
   */
  function Display(e: Entry): (r: Option<string>)
    ensures r.Some? <==> e.meta.Some? && e.user.Some? && e.group.Some?
  {
    if e.meta.None? || e.user.None? || e.group.None? then None
    else
      var m := e.meta.value;
      Some(Join(Fields(m, e.user.value, e.group.value, e.name), ' ') + "\r\n")
  }

  /** The seven columns of a listing line, in order. */
  function Fields(m: Metadata, user: string, group: string, name: string): seq<string>
  {
    [ParsePermissions(m.mode), Decimal(m.nlink), user, group, Decimal(m.size), m.modified, ShownName(name)]
  }

  /**
   * A listing line starts with the permission string and a space, ends with
   * the (possibly quoted) file name and CR LF, and has every other column
   * between them.
   */
  lemma {:induction false} DisplayLine(e: Entry)
    requires Display(e).Some?
    ensures var line, n := Display(e).value, ShownName(e.name);
      && |line| >= 13 + |n| && line[|line| - 2..] == "\r\n"
      && line[..11] == ParsePermissions(e.meta.value.mode) + " "
      && line[|line| - 2 - |n|..|line| - 2] == n
  {
    var fields := Fields(e.meta.value, e.user.value, e.group.value, e.name);
    JoinAppend(fields[..1], fields[1..], ' ');
    JoinAppend(fields[..6], fields[6..], ' ');
    assert fields[..1] + fields[1..] == fields && fields[..6] + fields[6..] == fields;
  }

  /** A name with a space, e.g. "my file", is listed as 'my file'. */
  lemma QuotedNameExample(m: Metadata, user: string, group: string)
    ensures Display(Entry("my file", Some(m), Some(user), Some(group))).Some?
    ensures var line := Display(Entry("my file", Some(m), Some(user), Some(group))).value;
      line[|line| - 11..] == "'my file'\r\n"
  {
    var name := "my file";
    assert ' ' in name by { assert name[2] == ' '; }
    DisplayLine(Entry(name, Some(m), Some(user), Some(group)));
    var line := Display(Entry(name, Some(m), Some(user), Some(group))).value;
    assert line[|line| - 11..] == line[|line| - 11..|line| - 2] + "\r\n";
  }
}
