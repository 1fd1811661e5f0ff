/** Base64 as used by the indexer: the URL-safe alphabet (section 5 of RFC 4648) for page tokens
    and the standard one (section 4) for byte-string keys. Padding is required on decoding, line
    breaks are ignored, and unused trailing bits are not checked, as in Go's default decoder. */
module Base64 {
  import opened Outcomes

  type Byte = n: int | 0 <= n < 256

  datatype Alphabet = Std | Url

  function Char64(a: Alphabet, v: nat): (c: char)
    requires v < 64
  {
    if v < 26 then ('A' as int + v) as char
    else if v < 52 then ('a' as int + v - 26) as char
    else if v < 62 then ('0' as int + v - 52) as char
    else if v == 62 then (if a.Url? then '-' else '+')
    else (if a.Url? then '_' else '/')
  }

  function Value64(a: Alphabet, c: char): (v: Option<nat>)
    ensures v.Some? ==> v.value < 64
  {
    if 'A' <= c <= 'Z' then Some(c as int - 'A' as int)
    else if 'a' <= c <= 'z' then Some(c as int - 'a' as int + 26)
    else if '0' <= c <= '9' then Some(c as int - '0' as int + 52)
    else if c == (if a.Url? then '-' else '+') then Some(62)
    else if c == (if a.Url? then '_' else '/') then Some(63)
    else None
  }

  function Quad(a: Alphabet, b0: Byte, b1: Byte, b2: Byte): (s: string)
    ensures |s| == 4
  {
    [Char64(a, b0 / 4), Char64(a, b0 % 4 * 16 + b1 / 16),
     Char64(a, b1 % 16 * 4 + b2 / 64), Char64(a, b2 % 64)]
  }

  function Encode(a: Alphabet, b: seq<Byte>): (s: string) {
    if |b| == 0 then ""
    else if |b| == 1 then Quad(a, b[0], 0, 0)[..2] + "=="
    else if |b| == 2 then Quad(a, b[0], b[1], 0)[..3] + "="
    else Quad(a, b[0], b[1], b[2]) + Encode(a, b[3..])
  }

  function StripLineBreaks(s: string): string {
    if s == "" then ""
    else if s[0] == '\r' || s[0] == '\n' then StripLineBreaks(s[1..])
    else [s[0]] + StripLineBreaks(s[1..])
  }

  function DecodeQuanta(a: Alphabet, s: string): (r: Option<seq<Byte>>) {
    if s == "" then Some([])
    else if |s| < 4 then None
    else
      var v0, v1, v2, v3 := Value64(a, s[0]), Value64(a, s[1]), Value64(a, s[2]), Value64(a, s[3]);
      if v0.None? || v1.None? then None
      else
        var b0: Byte := v0.value * 4 + v1.value / 16;
        if s[2] == '=' then
          if s[3] == '=' && |s| == 4 then Some([b0]) else None
        else if v2.None? then None
        else
          var b1: Byte := v1.value % 16 * 16 + v2.value / 4;
          if s[3] == '=' then
            if |s| == 4 then Some([b0, b1]) else None
          else if v3.None? then None
          else
            var b2: Byte := v2.value % 4 * 64 + v3.value;
            match DecodeQuanta(a, s[4..])
            case None => None
            case Some(rest) => Some([b0, b1, b2] + rest)
  }

  function Decode(a: Alphabet, s: string): (r: Option<seq<Byte>>) {
    DecodeQuanta(a, StripLineBreaks(s))
  }

  lemma CharValue(a: Alphabet, v: nat)
    requires v < 64
    ensures Value64(a, Char64(a, v)) == Some(v)
    ensures Char64(a, v) !in "=\r\n"
  {}

  lemma QuadValues(a: Alphabet, b0: Byte, b1: Byte, b2: Byte)
    ensures var s := Quad(a, b0, b1, b2);
            && (forall k | 0 <= k < 4 :: s[k] !in "=\r\n" && Value64(a, s[k]).Some?)
            && Value64(a, s[0]).value * 4 + Value64(a, s[1]).value / 16 == b0
            && Value64(a, s[1]).value % 16 * 16 + Value64(a, s[2]).value / 4 == b1
            && Value64(a, s[2]).value % 4 * 64 + Value64(a, s[3]).value == b2
  {
    CharValue(a, b0 / 4);
    CharValue(a, b0 % 4 * 16 + b1 / 16);
    CharValue(a, b1 % 16 * 4 + b2 / 64);
    CharValue(a, b2 % 64);
  }

  lemma {:induction false} NothingToStrip(s: string)
    requires forall k | 0 <= k < |s| :: s[k] != '\r' && s[k] != '\n'
    ensures StripLineBreaks(s) == s
  {
    if s != "" {
      NothingToStrip(s[1..]);
    }
  }

  lemma {:induction false} EncodeClean(a: Alphabet, b: seq<Byte>)
    ensures forall k | 0 <= k < |Encode(a, b)| :: Encode(a, b)[k] != '\r' && Encode(a, b)[k] != '\n'
  {
    if |b| == 1 {
      QuadValues(a, b[0], 0, 0);
    } else if |b| == 2 {
      QuadValues(a, b[0], b[1], 0);
    } else if |b| > 2 {
      QuadValues(a, b[0], b[1], b[2]);
      EncodeClean(a, b[3..]);
    }
  }

  // One quantum of the decoder, with two, one and no padding characters.
  lemma DecodeOne(a: Alphabet, s: string, b0: Byte)
    requires |s| == 4 && s[2..] == "==" && Value64(a, s[0]).Some? && Value64(a, s[1]).Some?
    requires Value64(a, s[0]).value * 4 + Value64(a, s[1]).value / 16 == b0
    ensures DecodeQuanta(a, s) == Some([b0])
  {
    assert s[2] == s[2..][0] && s[3] == s[2..][1];
  }

  lemma DecodeTwo(a: Alphabet, s: string, b0: Byte, b1: Byte)
    requires |s| == 4 && s[2] != '=' && s[3] == '='
    requires forall k | 0 <= k < 3 :: Value64(a, s[k]).Some?
    requires Value64(a, s[0]).value * 4 + Value64(a, s[1]).value / 16 == b0
    requires Value64(a, s[1]).value % 16 * 16 + Value64(a, s[2]).value / 4 == b1
    ensures DecodeQuanta(a, s) == Some([b0, b1])
  {}

  lemma DecodeThree(a: Alphabet, s: string, b0: Byte, b1: Byte, b2: Byte, rest: seq<Byte>)
    requires |s| >= 4 && s[2] != '=' && s[3] != '='
    requires forall k | 0 <= k < 4 :: Value64(a, s[k]).Some?
    requires Value64(a, s[0]).value * 4 + Value64(a, s[1]).value / 16 == b0
    requires Value64(a, s[1]).value % 16 * 16 + Value64(a, s[2]).value / 4 == b1
    requires Value64(a, s[2]).value % 4 * 64 + Value64(a, s[3]).value == b2
    requires DecodeQuanta(a, s[4..]) == Some(rest)
    ensures DecodeQuanta(a, s) == Some([b0, b1, b2] + rest)
  {}

  lemma PaddedRoundTrip(a: Alphabet, b: seq<Byte>)
    requires 1 <= |b| <= 2
    ensures DecodeQuanta(a, Encode(a, b)) == Some(b)
  {
    var s := Encode(a, b);
    if |b| == 1 {
      QuadValues(a, b[0], 0, 0);
      assert s[2..] == "==";
      DecodeOne(a, s, b[0]);
      assert b == [b[0]];
    } else {
      QuadValues(a, b[0], b[1], 0);
      DecodeTwo(a, s, b[0], b[1]);
      assert b == [b[0], b[1]];
    }
  }

  lemma FirstQuad(a: Alphabet, b: seq<Byte>, b0: Byte, b1: Byte, b2: Byte, rest: string)
    requires |b| > 2 && b0 == b[0] && b1 == b[1] && b2 == b[2] && rest == Encode(a, b[3..])
    ensures var s := Encode(a, b);
            && |s| >= 4 && s[2] != '=' && s[3] != '=' && s[4..] == rest
            && (forall k | 0 <= k < 4 :: Value64(a, s[k]).Some?)
            && Value64(a, s[0]).value * 4 + Value64(a, s[1]).value / 16 == b0
            && Value64(a, s[1]).value % 16 * 16 + Value64(a, s[2]).value / 4 == b1
            && Value64(a, s[2]).value % 4 * 64 + Value64(a, s[3]).value == b2
  {
    var q := Quad(a, b0, b1, b2);
    QuadValues(a, b0, b1, b2);
    assert Encode(a, b) == q + rest;
    assert forall k | 0 <= k < 4 :: (q + rest)[k] == q[k];
    assert (q + rest)[4..] == rest;
  }

  lemma FullRoundTrip(a: Alphabet, b: seq<Byte>)
    requires |b| > 2
    requires DecodeQuanta(a, Encode(a, b[3..])) == Some(b[3..])
    ensures DecodeQuanta(a, Encode(a, b)) == Some(b)
  {
    FirstQuad(a, b, b[0], b[1], b[2], Encode(a, b[3..]));
    DecodeThree(a, Encode(a, b), b[0], b[1], b[2], b[3..]);
    assert b == [b[0], b[1], b[2]] + b[3..];
  }

  lemma {:induction false} QuantaRoundTrip(a: Alphabet, b: seq<Byte>)
    ensures DecodeQuanta(a, Encode(a, b)) == Some(b)
  {
    if 1 <= |b| <= 2 {
      PaddedRoundTrip(a, b);
    } else if |b| > 2 {
      QuantaRoundTrip(a, b[3..]);
      FullRoundTrip(a, b);
    }
  }

  /** Decoding undoes encoding, for byte strings of any length and both alphabets. */
  lemma RoundTrip(a: Alphabet, b: seq<Byte>)
    ensures Decode(a, Encode(a, b)) == Some(b)
  {
    EncodeClean(a, b);
    NothingToStrip(Encode(a, b));
    QuantaRoundTrip(a, b);
  }

  /** Hence distinct byte strings keep distinct texts. */
  lemma Injective(a: Alphabet, b: seq<Byte>, c: seq<Byte>)
    requires Encode(a, b) == Encode(a, c)
    ensures b == c
  {
    RoundTrip(a, b);
    RoundTrip(a, c);
  }

  // ---------------------------------------------------------------- the standard

  const UPPER := "ABCDEFGHIJKLMNOPQRSTUVWXYZ"
  const LOWER := "abcdefghijklmnopqrstuvwxyz"
  const DIGITS := "0123456789"

  /** Tables 1 and 2 of the RFC. */
  lemma Alphabets(v: nat)
    requires v < 64
    ensures |UPPER| == |LOWER| == 26 && |DIGITS| == 10
    ensures Char64(Std, v) == (UPPER + LOWER + DIGITS + "+/")[v]
    ensures Char64(Url, v) == (UPPER + LOWER + DIGITS + "-_")[v]
  {
    if v < 26 {
      Letters(v);
    } else if v < 52 {
      Letters(v - 26);
    }
  }

  lemma Letters(v: nat)
    requires v < 26
    ensures UPPER[v] == ('A' as int + v) as char && LOWER[v] == ('a' as int + v) as char
  {}

  /** Whole groups of four, `pad` padding characters at the end, and characters of the alphabet before them. */
  ghost predicate IsPadded(a: Alphabet, s: string, pad: nat) {
    && |s| % 4 == 0 && pad <= 2 && pad <= |s|
    && (forall i | 0 <= i < |s| - pad :: Value64(a, s[i]).Some?)
    && (forall i | |s| - pad <= i < |s| :: s[i] == '=')
  }

  ghost predicate HasFour(a: Alphabet, s: string) {
    |s| >= 4 && forall k | 0 <= k < 4 :: Value64(a, s[k]).Some?
  }

  lemma LongQuanta(a: Alphabet, s: string)
    requires |s| > 4
    ensures DecodeQuanta(a, s).Some? <==> HasFour(a, s) && DecodeQuanta(a, s[4..]).Some?
  {
    assert Value64(a, '=').None?;
  }

  lemma LongPadded(a: Alphabet, s: string, pad: nat)
    requires |s| > 4
    ensures IsPadded(a, s, pad) <==> HasFour(a, s) && IsPadded(a, s[4..], pad)
  {
    assert forall i | 0 <= i < |s| - 4 :: s[4..][i] == s[i + 4];
    if HasFour(a, s) && IsPadded(a, s[4..], pad) {
      forall i | 0 <= i < |s| ensures if i < |s| - pad then Value64(a, s[i]).Some? else s[i] == '=' {
        assert i >= 4 ==> s[i] == s[4..][i - 4];
      }
    }
  }

  lemma LastQuantum(a: Alphabet, s: string)
    requires |s| == 4
    ensures DecodeQuanta(a, s).Some? <==> exists pad :: IsPadded(a, s, pad)
  {
    assert s[4..] == "" && Value64(a, '=').None?;
    if DecodeQuanta(a, s).Some? {
      assert IsPadded(a, s, if s[2] == '=' then 2 else if s[3] == '=' then 1 else 0);
    }
  }

  /** What the decoder accepts, line breaks aside. */
  lemma {:induction false} DecodeShape(a: Alphabet, s: string)
    ensures DecodeQuanta(a, s).Some? <==> exists pad :: IsPadded(a, s, pad)
  {
    if s == "" {
      assert IsPadded(a, s, 0);
    } else if |s| == 4 {
      LastQuantum(a, s);
    } else if |s| > 4 {
      DecodeShape(a, s[4..]);
      LongQuanta(a, s);
      forall pad: nat {
        LongPadded(a, s, pad);
      }
    }
  }

  /** The four characters of a group are the four 6-bit digits of its 24-bit number, highest first. */
  lemma QuadNumber(a: Alphabet, b0: Byte, b1: Byte, b2: Byte)
    ensures var q := Quad(a, b0, b1, b2);
            && (forall k | 0 <= k < 4 :: Value64(a, q[k]).Some?)
            && Value64(a, q[0]).value * 0x4_0000 + Value64(a, q[1]).value * 0x1000 + Value64(a, q[2]).value * 0x40
             + Value64(a, q[3]).value == b0 * 0x1_0000 + b1 * 0x100 + b2
  {
    QuadValues(a, b0, b1, b2);
  }
}
