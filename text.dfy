/**
 * Text helpers shared by the codecs and the dispatcher: decimal rendering and
 * parsing, ASCII upper-casing, splitting on a separator (Rust's `str::split`),
 * `split_once`, character replacement and `Path::join` on '/'-separated paths.
 */
module Text {

  import opened Wrappers

  /** One byte of a data-connection payload or of a file. */
  type byte = x: int | 0 <= x < 256

  /** The empty and the whole prefix of a sequence. */
  lemma PrefixEnds<T>(s: seq<T>)
    ensures s[..0] == [] && s[..|s|] == s && s[0..] == s
  {
  }

  /** A prefix one element longer is the shorter prefix followed by that element. */
  lemma PrefixSnoc<T>(s: seq<T>, k: nat)
    requires k < |s|
    ensures s[..k + 1] == s[..k] + [s[k]]
  {
  }

  lemma AppendAssoc<T>(a: seq<T>, b: seq<T>, c: seq<T>)
    ensures a + b + c == a + (b + c)
    ensures a + [] == a
  {
  }

  predicate IsDigit(c: char) { '0' <= c <= '9' }

  predicate AllDigits(s: string) { forall i :: 0 <= i < |s| ==> IsDigit(s[i]) }

  function DigitChar(d: nat): (c: char)
    requires d < 10
    ensures IsDigit(c) && c as int - '0' as int == d
  {
    (d + '0' as int) as char
  }

  /** Rust's `Display` of an unsigned integer: decimal, no sign, no leading zero. */
  function Decimal(n: nat): (s: string)
    ensures |s| >= 1 && AllDigits(s)
    ensures |s| > 1 ==> s[0] != '0'
    decreases n
  {
    if n < 10 then [DigitChar(n)] else Decimal(n / 10) + [DigitChar(n % 10)]
  }

  /** The value of a non-empty run of decimal digits (leading zeros allowed). */
  function DigitsValue(s: string): nat
    requires AllDigits(s)
  {
    if |s| == 0 then 0 else DigitsValue(s[..|s| - 1]) * 10 + (s[|s| - 1] as int - '0' as int)
  }

  /** Decimal rendering and digit parsing are inverse. */
  lemma {:induction false} DigitsValueOfDecimal(n: nat)
    ensures DigitsValue(Decimal(n)) == n
  {
    if n >= 10 {
      var s := Decimal(n);
      assert s[..|s| - 1] == Decimal(n / 10);
      DigitsValueOfDecimal(n / 10);
    }
  }

  function AsciiUpper(c: char): (u: char)
    ensures 'a' <= c <= 'z' ==> u as int == c as int - 32
    ensures !('a' <= c <= 'z') ==> u == c
  {
    if 'a' <= c <= 'z' then (c as int - 32) as char else c
  }

  /** Rust's `to_ascii_uppercase` / `make_ascii_uppercase` on a whole string. */
  function UpperAscii(s: string): (r: string)
    ensures |r| == |s| && forall i :: 0 <= i < |s| ==> r[i] == AsciiUpper(s[i])
  {
    seq(|s|, i requires 0 <= i < |s| => AsciiUpper(s[i]))
  }

  /** A one-letter text upper-cases to a given capital exactly when it is that letter in either case. */
  lemma UpperOneLetter(s: string, upper: char, lower: char)
    requires 'A' <= upper <= 'Z' && lower as int == upper as int + 32
    ensures UpperAscii(s) == [upper] <==> s == [upper] || s == [lower]
  {
    if UpperAscii(s) == [upper] {
      assert |s| == 1 && AsciiUpper(s[0]) == upper;
    }
    if s == [lower] {
      assert UpperAscii(s)[0] == upper;
    }
  }

  lemma UpperAsciiAppend(a: string, b: string)
    ensures UpperAscii(a + b) == UpperAscii(a) + UpperAscii(b)
  {
  }

  /**
   * Rust's `str::split(sep)`: the fields between separators, in order. There
   * is always at least one field, and no field contains the separator.
   */
  function Split(s: string, sep: char): (parts: seq<string>)
    ensures |parts| >= 1
    ensures forall k :: 0 <= k < |parts| ==> sep !in parts[k]
    decreases |s|
  {
    if |s| == 0 then [""]
    else
      var rest := Split(s[1..], sep);
      if s[0] == sep then [""] + rest else [[s[0]] + rest[0]] + rest[1..]
  }

  /** The fields joined back with the separator between them. */
  function Join(parts: seq<string>, sep: char): string
  {
    if |parts| == 0 then ""
    else if |parts| == 1 then parts[0]
    else parts[0] + [sep] + Join(parts[1..], sep)
  }

  /** Joining two non-empty lists of fields puts one separator between them. */
  lemma {:induction false} JoinAppend(xs: seq<string>, ys: seq<string>, sep: char)
    requires |xs| >= 1 && |ys| >= 1
    ensures Join(xs + ys, sep) == Join(xs, sep) + [sep] + Join(ys, sep)
    decreases |xs|
  {
    if |xs| > 1 {
      assert (xs + ys)[1..] == xs[1..] + ys;
      JoinAppend(xs[1..], ys, sep);
    }
  }

  /** Replacing the separator of joined separator-free fields re-joins them with the new one. */
  lemma {:induction false} ReplaceJoin(parts: seq<string>, from: char, to: char)
    requires forall k :: 0 <= k < |parts| ==> from !in parts[k]
    ensures Replace(Join(parts, from), from, to) == Join(parts, to)
    decreases |parts|
  {
    if |parts| == 1 {
      assert Replace(parts[0], from, to) == parts[0];
    } else if |parts| > 1 {
      ReplaceJoin(parts[1..], from, to);
      ReplaceAppend(parts[0] + [from], Join(parts[1..], from), from, to);
      ReplaceAppend(parts[0], [from], from, to);
      assert Replace(parts[0], from, to) == parts[0];
    }
  }

  lemma {:induction false} SplitNoSeparator(p: string, sep: char)
    requires sep !in p
    ensures Split(p, sep) == [p]
    decreases |p|
  {
    if |p| > 0 {
      assert sep !in p[1..] by { assert forall i :: 0 <= i < |p[1..]| ==> p[1..][i] == p[i + 1]; }
      SplitNoSeparator(p[1..], sep);
      assert [p[0]] + p[1..] == p;
    }
  }

  lemma {:induction false} SplitFirstField(p: string, sep: char, t: string)
    requires sep !in p
    ensures Split(p + [sep] + t, sep) == [p] + Split(t, sep)
    decreases |p|
  {
    var s := p + [sep] + t;
    if |p| == 0 {
      assert s[1..] == t;
    } else {
      assert s[1..] == p[1..] + [sep] + t;
      assert sep !in p[1..] by { assert forall i :: 0 <= i < |p[1..]| ==> p[1..][i] == p[i + 1]; }
      SplitFirstField(p[1..], sep, t);
      assert [p[0]] + p[1..] == p;
    }
  }

  /** Splitting undoes joining fields that do not contain the separator. */
  lemma {:induction false} SplitJoin(parts: seq<string>, sep: char)
    requires |parts| >= 1
    requires forall k :: 0 <= k < |parts| ==> sep !in parts[k]
    ensures Split(Join(parts, sep), sep) == parts
    decreases |parts|
  {
    if |parts| == 1 {
      SplitNoSeparator(parts[0], sep);
    } else {
      SplitJoin(parts[1..], sep);
      SplitFirstField(parts[0], sep, Join(parts[1..], sep));
      assert [parts[0]] + parts[1..] == parts;
    }
  }

  /** Joining undoes splitting: no character is lost or added. */
  lemma {:induction false} JoinSplit(s: string, sep: char)
    ensures Join(Split(s, sep), sep) == s
    decreases |s|
  {
    if |s| > 0 {
      var rest := Split(s[1..], sep);
      JoinSplit(s[1..], sep);
      if s[0] == sep {
        assert Join([""] + rest, sep) == "" + [sep] + Join(rest, sep) by {
          assert ([""] + rest)[1..] == rest;
        }
        assert [s[0]] + s[1..] == s;
      } else {
        var parts := [[s[0]] + rest[0]] + rest[1..];
        if |rest| == 1 {
          assert Join(rest, sep) == rest[0];
          assert [s[0]] + rest[0] == s;
        } else {
          assert parts[1..] == rest[1..];
          assert Join(rest, sep) == rest[0] + [sep] + Join(rest[1..], sep);
          assert Join(parts, sep) == [s[0]] + rest[0] + [sep] + Join(rest[1..], sep);
          assert [s[0]] + s[1..] == s;
        }
      }
    }
  }

  /** The index of the first occurrence of `c` in `s`, if any. */
  function IndexOf(s: string, c: char): (r: Option<nat>)
    ensures r.None? <==> c !in s
    ensures r.Some? ==> r.value < |s| && s[r.value] == c && c !in s[..r.value]
  {
    if |s| == 0 then None
    else if s[0] == c then Some(0)
    else
      match IndexOf(s[1..], c)
      case None => assert s == [s[0]] + s[1..]; None
      case Some(i) =>
        assert s[..i + 1] == [s[0]] + s[1..][..i];
        Some(i + 1)
  }

  /** Rust's `str::split_once(sep)`: the text before and after the first separator. */
  function SplitOnce(s: string, sep: char): (r: Option<(string, string)>)
    ensures r.None? <==> sep !in s
    ensures r.Some? ==> s == r.value.0 + [sep] + r.value.1 && sep !in r.value.0
  {
    match IndexOf(s, sep)
    case None => None
    case Some(i) =>
      assert s == s[..i] + [sep] + s[i + 1..];
      Some((s[..i], s[i + 1..]))
  }

  lemma {:induction false} IndexOfAfterHead(head: string, c: char, tail: string)
    requires c !in head
    ensures IndexOf(head + [c] + tail, c) == Some(|head|)
    decreases |head|
  {
    var s := head + [c] + tail;
    if |head| > 0 {
      assert s[1..] == head[1..] + [c] + tail;
      assert c !in head[1..] by { assert forall i :: 0 <= i < |head[1..]| ==> head[1..][i] == head[i + 1]; }
      IndexOfAfterHead(head[1..], c, tail);
    }
  }

  /** `SplitOnce` on a text built from a separator-free head takes that head. */
  lemma SplitOnceAt(head: string, sep: char, tail: string)
    requires sep !in head
    ensures SplitOnce(head + [sep] + tail, sep) == Some((head, tail))
  {
    var s := head + [sep] + tail;
    IndexOfAfterHead(head, sep, tail);
    assert s[..|head|] == head && s[|head| + 1..] == tail;
  }

  /** Replaces every `from` character by `to` (Rust's `str::replace` on one character). */
  function Replace(s: string, from: char, to: char): (r: string)
    ensures |r| == |s|
    ensures forall i :: 0 <= i < |s| ==> r[i] == (if s[i] == from then to else s[i])
  {
    seq(|s|, i requires 0 <= i < |s| => if s[i] == from then to else s[i])
  }

  lemma ReplaceAppend(a: string, b: string, from: char, to: char)
    ensures Replace(a + b, from, to) == Replace(a, from, to) + Replace(b, from, to)
  {
  }

  lemma ReplaceDigits(s: string, from: char, to: char)
    requires AllDigits(s) && !IsDigit(from)
    ensures Replace(s, from, to) == s
  {
  }

  /**
   * `Path::join` on Unix paths: an absolute argument replaces the base
   * outright; otherwise a '/' is inserted unless the base is empty or already
   * ends in one. No component is normalised.
   */
  function JoinPath(base: string, p: string): (r: string)
    ensures |p| > 0 && p[0] == '/' ==> r == p
    ensures !(|p| > 0 && p[0] == '/') ==> base <= r && |p| <= |r| && r[|r| - |p|..] == p
  {
    if |p| > 0 && p[0] == '/' then p
    else if |base| == 0 || base[|base| - 1] == '/' then base + p
    else base + "/" + p
  }
}
