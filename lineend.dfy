/**
 * The representation types of the data connection. In ASCII type every LF
 * byte goes out as CR LF, the end-of-line convention of section 3.1.1.1 of
 * RFC 959; in Image (Binary) type bytes are copied verbatim. Both the
 * download and the upload loop apply this same translation.
 */
module LineEnding {

  import opened Text

  const CR: byte := 13
  const LF: byte := 10

  /** TYPE A and TYPE I. */
  datatype TransferType = Ascii | Binary

  /** What one input byte becomes in ASCII type. */
  function Translate(b: byte): (r: seq<byte>)
    ensures b == LF ==> r == [CR, LF]
    ensures b != LF ==> r == [b]
  {
    if b == LF then [CR, LF] else [b]
  }

  /** The whole-stream ASCII translation: each byte replaced by its translation, in order. */
  function AsciiEncode(s: seq<byte>): seq<byte>
    decreases |s|
  {
    if |s| == 0 then [] else Translate(s[0]) + AsciiEncode(s[1..])
  }

  /**
   * The translation is independent of how the stream is cut into reads:
   * translating two pieces one after the other equals translating the whole.
   */
  lemma {:induction false} AsciiEncodeAppend(a: seq<byte>, b: seq<byte>)
    ensures AsciiEncode(a + b) == AsciiEncode(a) + AsciiEncode(b)
    decreases |a|
  {
    if |a| > 0 {
      assert (a + b)[1..] == a[1..] + b;
      AsciiEncodeAppend(a[1..], b);
    } else {
      assert a + b == b;
    }
  }

  /** Appending one byte appends its translation (one step of the per-byte loop). */
  lemma AsciiEncodeSnoc(s: seq<byte>, b: byte)
    ensures AsciiEncode(s + [b]) == AsciiEncode(s) + Translate(b)
  {
    AsciiEncodeAppend(s, [b]);
    assert AsciiEncode([b]) == Translate(b) + AsciiEncode([]);
  }

  /** In either type, the bytes of two consecutive reads are encoded independently. */
  lemma EncodeAppend(ty: TransferType, a: seq<byte>, b: seq<byte>)
    ensures Encode(ty, a + b) == Encode(ty, a) + Encode(ty, b)
  {
    if ty == Ascii {
      AsciiEncodeAppend(a, b);
    }
  }

  /** The number of LF bytes in `s`. */
  function CountLf(s: seq<byte>): nat
    decreases |s|
  {
    if |s| == 0 then 0 else (if s[0] == LF then 1 else 0) + CountLf(s[1..])
  }

  /** The ASCII output is one byte longer than the input for every LF. */
  lemma {:induction false} AsciiEncodeLength(s: seq<byte>)
    ensures |AsciiEncode(s)| == |s| + CountLf(s)
    decreases |s|
  {
    if |s| > 0 {
      AsciiEncodeLength(s[1..]);
    }
  }

  /** Input without LF goes out unchanged. */
  lemma {:induction false} AsciiEncodeNoLf(s: seq<byte>)
    requires LF !in s
    ensures AsciiEncode(s) == s
    decreases |s|
  {
    if |s| > 0 {
      assert LF !in s[1..] by { assert forall i :: 0 <= i < |s[1..]| ==> s[1..][i] == s[i + 1]; }
      AsciiEncodeNoLf(s[1..]);
      assert [s[0]] + s[1..] == s;
    }
  }

  /**
   * The receiver's view of an ASCII stream: each CR LF pair becomes LF again,
   * scanning from the left; every other byte is kept.
   */
  function AsciiDecode(s: seq<byte>): seq<byte>
    decreases |s|
  {
    if |s| == 0 then []
    else if |s| >= 2 && s[0] == CR && s[1] == LF then [LF] + AsciiDecode(s[2..])
    else [s[0]] + AsciiDecode(s[1..])
  }

  lemma AsciiEncodeFirst(s: seq<byte>)
    requires |s| > 0
    ensures |AsciiEncode(s)| > 0 && AsciiEncode(s)[0] != LF
  {
  }

  /** No information is lost: decoding the ASCII translation gives the input back. */
  lemma {:induction false} DecodeEncode(s: seq<byte>)
    ensures AsciiDecode(AsciiEncode(s)) == s
    decreases |s|
  {
    if |s| > 0 {
      var e := AsciiEncode(s[1..]);
      DecodeEncode(s[1..]);
      if s[0] == LF {
        assert AsciiEncode(s) == [CR, LF] + e;
        assert (([CR, LF] + e)[2..]) == e;
      } else {
        assert AsciiEncode(s) == [s[0]] + e;
        if |e| > 0 {
          AsciiEncodeFirst(s[1..]);
        }
        assert ([s[0]] + e)[1..] == e;
      }
      assert [s[0]] + s[1..] == s;
    }
  }

  /**
   * The translation is applied even to bytes that are already CR LF, so a
   * CR LF becomes CR CR LF and translating twice differs from translating once.
   */
  lemma CrLfGrows()
    ensures AsciiEncode([CR, LF]) == [CR, CR, LF]
    ensures AsciiEncode(AsciiEncode([LF])) != AsciiEncode([LF])
  {
    assert AsciiEncode([LF]) == [CR, LF] by {
      assert AsciiEncode([LF]) == Translate(LF) + AsciiEncode([]);
    }
    assert AsciiEncode([CR, LF]) == [CR] + AsciiEncode([LF]) by {
      assert [CR, LF][1..] == [LF];
    }
  }

  /** The bytes a transfer of `s` carries in the given type. */
  function Encode(ty: TransferType, s: seq<byte>): seq<byte>
  {
    if ty == Ascii then AsciiEncode(s) else s
  }

  /**
   * Binary type is a verbatim copy; ASCII type adds one byte per LF and
   * loses nothing, since decoding gives the input back.
   */
  lemma EncodeProperties(ty: TransferType, s: seq<byte>)
    ensures ty == Binary ==> Encode(ty, s) == s
    ensures ty == Ascii ==> |Encode(ty, s)| == |s| + CountLf(s) && AsciiDecode(Encode(ty, s)) == s
  {
    if ty == Ascii {
      AsciiEncodeLength(s);
      DecodeEncode(s);
    }
  }
}
