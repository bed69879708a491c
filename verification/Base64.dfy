/** Base64 (sections 3.2 and 4 of RFC 4648) with its padding stripped for the wire, and the
    lenient library decoder the padding is restored for. */
module Base64 {
  import opened Bytes

  function Alpha(v: nat): char
    requires v < 64
  {
    if v < 26 then ('A' as int + v) as char
    else if v < 52 then ('a' as int + (v - 26)) as char
    else if v < 62 then ('0' as int + (v - 52)) as char
    else if v == 62 then '+' else '/'
  }

  function ValueOf(c: char): Option<nat> {
    if 'A' <= c <= 'Z' then Some(c as int - 'A' as int)
    else if 'a' <= c <= 'z' then Some(c as int - 'a' as int + 26)
    else if '0' <= c <= '9' then Some(c as int - '0' as int + 52)
    else if c == '+' then Some(62) else if c == '/' then Some(63) else None
  }

  lemma AlphaValue(v: nat)
    requires v < 64
    ensures ValueOf(Alpha(v)) == Some(v) && Alpha(v) != '='
  {
  }

  /** The characters of one, two or three bytes; a short group is padded with '='. */
  function Group(x: seq<byte>): (s: string)
    requires 1 <= |x| <= 3
    ensures |s| == 4
  {
    var b1 := if |x| > 1 then x[1] else 0;
    var b2 := if |x| > 2 then x[2] else 0;
    [Alpha(x[0] / 4),
     Alpha((x[0] % 4) * 16 + b1 / 16),
     if |x| > 1 then Alpha((b1 % 16) * 4 + b2 / 64) else '=',
     if |x| > 2 then Alpha(b2 % 64) else '=']
  }

  /** Four characters for every three bytes begun. */
  function Encode(data: seq<byte>): (s: string)
    ensures |s| == 4 * ((|data| + 2) / 3)
  {
    if data == [] then ""
    else if |data| <= 3 then Group(data)
    else Group(data[..3]) + Encode(data[3..])
  }

  /** Table 1 of RFC 4648: capitals, small letters and digits in their order, then + and /. */
  lemma AlphaIsTable(v: nat)
    requires v < 64
    ensures v == 0 ==> Alpha(v) == 'A'
    ensures v == 26 ==> Alpha(v) == 'a'
    ensures v == 52 ==> Alpha(v) == '0'
    ensures v == 62 ==> Alpha(v) == '+'
    ensures v == 63 ==> Alpha(v) == '/'
    ensures v !in {0, 26, 52, 62, 63} ==> Alpha(v) as int == Alpha(v - 1) as int + 1
  {
  }

  predicate InAlphabet(c: char) {
    'A' <= c <= 'Z' || 'a' <= c <= 'z' || '0' <= c <= '9' || c == '+' || c == '/'
  }

  /** The number a character stands for, none for characters outside the alphabet. */
  function Digit(c: char): nat {
    if ValueOf(c).Some? then ValueOf(c).value else 64
  }

  /** A group holds its bytes most significant bits first, with zero bits to fill up the last
      character and '=' for the characters it does not need. */
  lemma GroupBits(x: seq<byte>)
    requires 1 <= |x| <= 3
    ensures var g := Group(x);
            && (forall i :: 0 <= i <= |x| ==> Digit(g[i]) < 64 && InAlphabet(g[i]))
            && (forall i :: |x| < i < 4 ==> g[i] == '=')
    ensures |x| == 1 ==> var g, a: int := Group(x), x[0]; Digit(g[0]) * 64 + Digit(g[1]) == a * 16
    ensures |x| == 2 ==> var g, a: int, b: int := Group(x), x[0], x[1];
                         (Digit(g[0]) * 64 + Digit(g[1])) * 64 + Digit(g[2]) == (a * 256 + b) * 4
    ensures |x| == 3 ==> var g, a: int, b: int, c: int := Group(x), x[0], x[1], x[2];
                         ((Digit(g[0]) * 64 + Digit(g[1])) * 64 + Digit(g[2])) * 64 + Digit(g[3]) == (a * 256 + b) * 256 + c
  {
    forall v: nat | v < 64 ensures Digit(Alpha(v)) == v && InAlphabet(Alpha(v)) { AlphaValue(v); }
  }

  /** Nothing but the alphabet and '='. */
  predicate Printable(s: string) {
    forall i :: 0 <= i < |s| ==> s[i] == '=' || InAlphabet(s[i])
  }

  lemma GroupPrintable(x: seq<byte>)
    requires 1 <= |x| <= 3
    ensures Printable(Group(x))
  {
    GroupBits(x);
  }

  lemma PrintableAppend(s: string, t: string)
    requires Printable(s) && Printable(t)
    ensures Printable(s + t)
  {
  }

  /** Encoding prints nothing but the alphabet and '='. */
  lemma {:induction false} EncodePrintable(data: seq<byte>)
    ensures Printable(Encode(data))
    decreases |data|
  {
    if data == [] {
    } else if |data| <= 3 {
      GroupPrintable(data);
    } else {
      GroupPrintable(data[..3]);
      EncodePrintable(data[3..]);
      PrintableAppend(Group(data[..3]), Encode(data[3..]));
      assert Encode(data) == Group(data[..3]) + Encode(data[3..]);
    }
  }

  /** Python's rstrip("="). */
  function RStrip(s: string): (r: string)
    ensures r <= s && (r == "" || r[|r| - 1] != '=')
    ensures forall i :: |r| <= i < |s| ==> s[i] == '='
  {
    if s != "" && s[|s| - 1] == '=' then RStrip(s[..|s| - 1]) else s
  }

  /** _b64 and _b64_no_padding. */
  function Unpadded(data: seq<byte>): string {
    RStrip(Encode(data))
  }

  function Pads(n: nat): (s: string)
    ensures |s| == n && forall i :: 0 <= i < n ==> s[i] == '='
  {
    seq(n, _ => '=')
  }

  function Restore(s: string): string {
    var k: int := -|s|;
    s + Pads(k % 4)
  }

  function Prepend(b: byte, r: Option<seq<byte>>): Option<seq<byte>> {
    if r.Some? then Some([b] + r.value) else None
  }

  /** The library decoder reads characters one at a time: quad counts data characters modulo
      four, left holds the bits not yet output, pads the padding seen since the last data
      character. Characters outside the alphabet are skipped; enough padding ends the input. */
  function Scan(s: string, quad: nat, left: nat, pads: nat): Option<seq<byte>>
    requires quad < 4 && (quad == 0 ==> left == 0) && (quad == 1 ==> left < 64) && (quad == 2 ==> left < 16) && (quad == 3 ==> left < 4)
    decreases |s|
  {
    if s == "" then (if quad == 0 then Some([]) else None)
    else if s[0] == '=' then
      if quad >= 2 && quad + pads + 1 >= 4 then Some([])
      else Scan(s[1..], quad, left, if quad >= 2 then pads + 1 else pads)
    else if ValueOf(s[0]).None? then Scan(s[1..], quad, left, pads)
    else
      var v := ValueOf(s[0]).value;
      match quad
      case 0 => Scan(s[1..], 1, v, 0)
      case 1 => Prepend(left * 4 + v / 16, Scan(s[1..], 2, v % 16, 0))
      case 2 => Prepend(left * 16 + v / 4, Scan(s[1..], 3, v % 4, 0))
      case _ => Prepend(left * 64 + v, Scan(s[1..], 0, 0, 0))
  }

  function Decode(s: string): Option<seq<byte>> {
    Scan(s, 0, 0, 0)
  }

  lemma ScanData(c: char, t: string, quad: nat, left: nat, pads: nat, v: nat)
    requires quad < 4 && (quad == 0 ==> left == 0) && (quad == 1 ==> left < 64) && (quad == 2 ==> left < 16) && (quad == 3 ==> left < 4)
    requires v < 64 && c == Alpha(v)
    ensures Scan([c] + t, quad, left, pads) ==
            match quad
            case 0 => Scan(t, 1, v, 0)
            case 1 => Prepend(left * 4 + v / 16, Scan(t, 2, v % 16, 0))
            case 2 => Prepend(left * 16 + v / 4, Scan(t, 3, v % 4, 0))
            case _ => Prepend(left * 64 + v, Scan(t, 0, 0, 0))
  {
    AlphaValue(v);
    assert ([c] + t)[1..] == t;
  }

  /** The characters of the first byte, and of the second, seen by the scan. */
  lemma ScanFirst(b0: byte, b1: byte, t: string)
    ensures var v0, v1 := b0 / 4, (b0 % 4) * 16 + b1 / 16;
            Decode([Alpha(v0)] + ([Alpha(v1)] + t)) == Prepend(b0, Scan(t, 2, b1 / 16, 0))
  {
    var v0, v1 := b0 / 4, (b0 % 4) * 16 + b1 / 16;
    ScanData(Alpha(v0), [Alpha(v1)] + t, 0, 0, 0, v0);
    ScanData(Alpha(v1), t, 1, v0, 0, v1);
    assert v0 * 4 + v1 / 16 == b0 && v1 % 16 == b1 / 16;
  }

  lemma ScanSecond(b1: byte, b2: byte, t: string)
    ensures Scan([Alpha((b1 % 16) * 4 + b2 / 64)] + t, 2, b1 / 16, 0) == Prepend(b1, Scan(t, 3, b2 / 64, 0))
  {
    var v2 := (b1 % 16) * 4 + b2 / 64;
    ScanData(Alpha(v2), t, 2, b1 / 16, 0, v2);
    assert (b1 / 16) * 16 + v2 / 4 == b1 && v2 % 4 == b2 / 64;
  }

  /** The decoder skips what is neither in the alphabet nor padding, wherever it stands. */
  lemma SkipsJunk(c: char, t: string, quad: nat, left: nat, pads: nat)
    requires quad < 4 && (quad == 0 ==> left == 0) && (quad == 1 ==> left < 64) && (quad == 2 ==> left < 16) && (quad == 3 ==> left < 4)
    requires !InAlphabet(c) && c != '='
    ensures Scan([c] + t, quad, left, pads) == Scan(t, quad, left, pads)
  {
    assert ([c] + t)[1..] == t;
  }

  /** A full group decodes to its three bytes, whatever follows. */
  lemma ScanFull(x: seq<byte>, rest: string)
    requires |x| == 3
    ensures Decode(Group(x) + rest) == if Decode(rest).Some? then Some(x + Decode(rest).value) else None
  {
    var g := Group(x);
    var t3 := [g[3]] + rest;
    var t2 := [g[2]] + t3;
    assert g + rest == [g[0]] + ([g[1]] + t2);
    ScanFirst(x[0], x[1], t2);
    ScanSecond(x[1], x[2], t3);
    ScanData(g[3], rest, 3, x[2] / 64, 0, x[2] % 64);
    if Decode(rest).Some? {
      var y := Decode(rest).value;
      assert [x[0]] + ([x[1]] + ([x[2]] + y)) == x + y;
    }
  }

  lemma ScanOne(x: seq<byte>)
    requires |x| == 1
    ensures Decode(Group(x)) == Some(x)
  {
    var g := Group(x);
    assert g == [g[0]] + ([g[1]] + "==");
    ScanFirst(x[0], 0, "==");
    assert "=="[1..] == "=";
    assert Scan("=", 2, 0, 1) == Some([]);
    assert Scan("==", 2, 0, 0) == Some([]);
    assert [x[0]] + [] == x;
  }

  lemma ScanTwo(x: seq<byte>)
    requires |x| == 2
    ensures Decode(Group(x)) == Some(x)
  {
    var g := Group(x);
    assert g == [g[0]] + ([g[1]] + ([g[2]] + "="));
    ScanFirst(x[0], x[1], [g[2]] + "=");
    ScanSecond(x[1], 0, "=");
    assert Scan("=", 3, 0, 0) == Some([]);
    assert [x[0]] + ([x[1]] + []) == x;
  }

  lemma {:induction false} DecodeEncode(data: seq<byte>)
    ensures Decode(Encode(data)) == Some(data)
    decreases |data|
  {
    if data == [] {
    } else if |data| == 1 {
      ScanOne(data);
    } else if |data| == 2 {
      ScanTwo(data);
    } else if |data| == 3 {
      ScanFull(data, "");
      assert Group(data) + "" == Group(data) && data + [] == data;
    } else {
      ScanFull(data[..3], Encode(data[3..]));
      DecodeEncode(data[3..]);
      assert data[..3] + data[3..] == data;
    }
  }

  /** Padding stands in the last place, or the last two, and nowhere else. */
  ghost predicate PadsLast(s: string) {
    && |s| % 4 == 0
    && forall i :: 0 <= i < |s| && (i < |s| - 2 || (i == |s| - 2 && s[|s| - 1] != '=')) ==> s[i] != '='
  }

  lemma GroupPadsLast(x: seq<byte>)
    requires 1 <= |x| <= 3
    ensures PadsLast(Group(x)) && (|x| == 3 ==> '=' !in Group(x))
  {
    GroupBits(x);
  }

  lemma PadsLastAfter(g: string, s: string)
    requires |g| == 4 && '=' !in g && PadsLast(s) && s != ""
    ensures PadsLast(g + s)
  {
    var t := g + s;
    assert t[|t| - 1] == s[|s| - 1];
    forall i | 0 <= i < |t| && (i < |t| - 2 || (i == |t| - 2 && t[|t| - 1] != '=')) ensures t[i] != '=' {
      if i < 4 { assert t[i] == g[i]; } else { assert t[i] == s[i - 4]; }
    }
  }

  lemma {:induction false} PaddingOnlyAtEnd(data: seq<byte>)
    ensures PadsLast(Encode(data))
    decreases |data|
  {
    if data == [] {
    } else if |data| <= 3 {
      GroupPadsLast(data);
    } else {
      GroupPadsLast(data[..3]);
      PaddingOnlyAtEnd(data[3..]);
      PadsLastAfter(Group(data[..3]), Encode(data[3..]));
      assert Encode(data) == Group(data[..3]) + Encode(data[3..]);
    }
  }

  lemma StripsAtMostTwo(s: string)
    requires PadsLast(s)
    ensures |s| - |RStrip(s)| <= 2 && '=' !in RStrip(s)
  {
    var r := RStrip(s);
    assert |r| < |s| ==> s[|r|] == '=';
    forall i | 0 <= i < |r| ensures r[i] != '=' {
      assert r[i] == s[i] && r[|r| - 1] == s[|r| - 1];
    }
  }

  lemma ModOfDeficit(s: nat, r: nat)
    requires s % 4 == 0 && 0 <= s - r <= 2
    ensures (0 - r) % 4 == s - r
  {
  }

  lemma StripRest(s: string)
    ensures s == RStrip(s) + Pads(|s| - |RStrip(s)|)
  {
    var r := RStrip(s);
    assert s[|r|..] == Pads(|s| - |r|);
  }

  lemma RestoreStripped(s: string)
    requires PadsLast(s)
    ensures Restore(RStrip(s)) == s && '=' !in RStrip(s)
  {
    StripsAtMostTwo(s);
    ModOfDeficit(|s|, |RStrip(s)|);
    StripRest(s);
  }

  /** Stripping removes padding only, and restoring to a multiple of four puts it back. */
  lemma RestoreUnpadded(data: seq<byte>)
    ensures Restore(Unpadded(data)) == Encode(data) && '=' !in Unpadded(data)
  {
    PaddingOnlyAtEnd(data);
    RestoreStripped(Encode(data));
  }

  /** Decoding with the padding restored inverts the unpadded printer. */
  lemma DecodeUnpadded(data: seq<byte>)
    ensures Decode(Restore(Unpadded(data))) == Some(data)
  {
    RestoreUnpadded(data);
    DecodeEncode(data);
  }
}
