/** The sgnl://linkdevice URL: session uuid and public key, both percent-encoded. */
module LinkUrl {
  import opened Bytes
  import Base64

  const DJB_TYPE: byte := 5

  /** Characters quote leaves alone when no others are declared safe. */
  predicate Unreserved(b: byte) {
    65 <= b <= 90 || 97 <= b <= 122 || 48 <= b <= 57 || b == 95 || b == 46 || b == 45 || b == 126
  }

  function Hex(v: nat): char
    requires v < 16
  {
    if v < 10 then ('0' as int + v) as char else ('A' as int + (v - 10)) as char
  }

  function HexValue(c: char): nat {
    if '0' <= c <= '9' then c as int - '0' as int else if 'A' <= c <= 'F' then c as int - 'A' as int + 10 else 0
  }

  function QuoteByte(b: byte): string {
    if Unreserved(b) then [b as char] else ['%', Hex(b / 16), Hex(b % 16)]
  }

  /** urllib.parse.quote(s, safe="") on the UTF-8 bytes of s. */
  function Quote(bs: seq<byte>): string {
    if bs == [] then "" else QuoteByte(bs[0]) + Quote(bs[1..])
  }

  function Unquote(s: string): seq<byte> {
    if s == "" then []
    else if s[0] == '%' && |s| >= 3 then [(HexValue(s[1]) * 16 + HexValue(s[2])) % 256] + Unquote(s[3..])
    else [s[0] as int % 256] + Unquote(s[1..])
  }

  /** The bytes of an ASCII string. */
  function Ascii(s: string): (r: seq<byte>)
    ensures |r| == |s|
  {
    seq(|s|, i requires 0 <= i < |s| => s[i] as int % 256)
  }

  /** PublicKey.serialize: the type byte and the point. */
  function Serialize(rawKey: seq<byte>): seq<byte> {
    [DJB_TYPE] + rawKey
  }

  function Build(uuid: seq<byte>, rawKey: seq<byte>): string {
    "sgnl://linkdevice?uuid=" + Quote(uuid) + "&pub_key=" + Quote(Ascii(Base64.Unpadded(Serialize(rawKey))))
  }

  lemma {:induction false} UnquoteQuote(bs: seq<byte>)
    ensures Unquote(Quote(bs)) == bs
  {
    if bs != [] {
      var b, rest := bs[0], Quote(bs[1..]);
      UnquoteQuote(bs[1..]);
      var s := QuoteByte(b) + rest;
      if Unreserved(b) {
        assert s[0] == b as char && s[1..] == rest;
      } else {
        assert s[1] == Hex(b / 16) && s[2] == Hex(b % 16) && s[3..] == rest;
        assert HexValue(Hex(b / 16)) * 16 + HexValue(Hex(b % 16)) == b;
      }
    }
  }

  /** Section 2 of RFC 3986: letters, digits and "_.-~" stand for themselves, any other byte is a
      percent sign and its two capital hexadecimal digits. */
  lemma QuoteForm(b: byte)
    ensures var c := b as char;
            if 'A' <= c <= 'Z' || 'a' <= c <= 'z' || '0' <= c <= '9' || c in {'_', '.', '-', '~'} then QuoteByte(b) == [c]
            else QuoteByte(b) == ['%', "0123456789ABCDEF"[b / 16], "0123456789ABCDEF"[b % 16]]
  {
    forall v: nat | v < 16 ensures Hex(v) == "0123456789ABCDEF"[v] {
      assert v in {0, 1, 2, 3, 4, 5, 6, 7, 8, 9, 10, 11, 12, 13, 14, 15};
    }
  }

  /** A quoted field contains no raw separator. */
  lemma {:induction false} QuotedHasNoSeparator(bs: seq<byte>)
    ensures '&' !in Quote(bs) && '=' !in Quote(bs)
  {
    if bs != [] {
      QuotedHasNoSeparator(bs[1..]);
      var b := bs[0];
      assert '&' !in QuoteByte(b) && '=' !in QuoteByte(b) by {
        if !Unreserved(b) { assert Hex(b / 16) != '&' && Hex(b % 16) != '&' && Hex(b / 16) != '=' && Hex(b % 16) != '='; }
      }
    }
  }

  /** The first separator splits a string in one way. */
  lemma SplitUnique(a: string, b: string, c: string, d: string)
    requires '&' !in a && '&' !in c && a + ['&'] + b == c + ['&'] + d
    ensures a == c && b == d
  {
    var s, t := a + ['&'] + b, c + ['&'] + d;
    assert s[|a|] == '&' && t[|c|] == '&';
    assert forall i :: 0 <= i < |c| ==> t[i] == c[i] && c[i] in c;
    assert forall i :: 0 <= i < |a| ==> s[i] == a[i] && a[i] in a;
    assert |a| == |c|;
    assert a == s[..|a|] && c == t[..|c|];
    assert b == s[|a| + 1..] && d == t[|c| + 1..];
  }

  lemma AsciiInjective(s: string, t: string)
    requires Ascii(s) == Ascii(t)
    requires forall i :: 0 <= i < |s| ==> s[i] < 128 as char
    requires forall i :: 0 <= i < |t| ==> t[i] < 128 as char
    ensures s == t
  {
    forall i | 0 <= i < |s| ensures s[i] == t[i] {
      assert Ascii(s)[i] == Ascii(t)[i];
    }
  }

  lemma {:induction false} EncodeIsAscii(data: seq<byte>)
    ensures forall i :: 0 <= i < |Base64.Encode(data)| ==> Base64.Encode(data)[i] < 128 as char
    decreases |data|
  {
    if |data| > 3 { EncodeIsAscii(data[3..]); }
  }

  /** The URL determines both quoted fields. */
  lemma FieldsUnique(head: string, mid: string, a: string, b: string, c: string, d: string)
    requires mid != "" && mid[0] == '&' && '&' !in a && '&' !in c
    requires head + a + mid + b == head + c + mid + d
    ensures a == c && b == d
  {
    var tail := mid[1..];
    var s, t := head + a + mid + b, head + c + mid + d;
    assert s[|head|..] == a + ['&'] + (tail + b);
    assert t[|head|..] == c + ['&'] + (tail + d);
    SplitUnique(a, tail + b, c, tail + d);
    assert (tail + b)[|tail|..] == b && (tail + d)[|tail|..] == d;
  }

  lemma UnpaddedInjective(x: seq<byte>, y: seq<byte>)
    requires Ascii(Base64.Unpadded(x)) == Ascii(Base64.Unpadded(y))
    ensures x == y
  {
    EncodeIsAscii(x);
    EncodeIsAscii(y);
    AsciiInjective(Base64.Unpadded(x), Base64.Unpadded(y));
    Base64.DecodeUnpadded(x);
    Base64.DecodeUnpadded(y);
  }

  /** Different session uuids or keys give different URLs. */
  lemma UrlInjective(u: seq<byte>, k: seq<byte>, v: seq<byte>, l: seq<byte>)
    requires Build(u, k) == Build(v, l)
    ensures u == v && k == l
  {
    var x, y := Ascii(Base64.Unpadded(Serialize(k))), Ascii(Base64.Unpadded(Serialize(l)));
    QuotedHasNoSeparator(u);
    QuotedHasNoSeparator(v);
    FieldsUnique("sgnl://linkdevice?uuid=", "&pub_key=", Quote(u), Quote(x), Quote(v), Quote(y));
    UnquoteQuote(u);
    UnquoteQuote(v);
    UnquoteQuote(x);
    UnquoteQuote(y);
    UnpaddedInjective(Serialize(k), Serialize(l));
    assert Serialize(k)[1..] == k && Serialize(l)[1..] == l;
  }

  // ------------------------------------------------------------ reading the URL back

  /** What stands before and after the first occurrence of a separator. */
  function Cut(s: string, c: char): Option<(string, string)> {
    if s == "" then None
    else if s[0] == c then Some(("", s[1..]))
    else
      match Cut(s[1..], c)
      case None => None
      case Some((before, after)) => Some(([s[0]] + before, after))
  }

  lemma {:induction false} CutAt(a: string, c: char, b: string)
    requires c !in a
    ensures Cut(a + [c] + b, c) == Some((a, b))
  {
    var s := a + [c] + b;
    if a == [] {
      assert s[0] == c && s[1..] == b;
    } else {
      assert s[0] == a[0] && s[1..] == a[1..] + [c] + b;
      CutAt(a[1..], c, b);
      assert [a[0]] + a[1..] == a;
    }
  }

  /** A parameter: its name and its unquoted value. */
  function Param(s: string): Option<(string, seq<byte>)> {
    match Cut(s, '=')
    case None => None
    case Some((name, value)) => Some((name, Unquote(value)))
  }

  /** What a reader makes of the URL: what precedes the query, and its two parameters. */
  function Read(url: string): Option<(string, (string, seq<byte>), (string, seq<byte>))> {
    match Cut(url, '?')
    case None => None
    case Some((base, query)) =>
      match Cut(query, '&')
      case None => None
      case Some((first, second)) =>
        if Param(first).Some? && Param(second).Some? then Some((base, Param(first).value, Param(second).value)) else None
  }

  lemma ReadsParam(name: string, value: seq<byte>)
    requires '=' !in name
    ensures Param(name + "=" + Quote(value)) == Some((name, value))
  {
    CutAt(name, '=', Quote(value));
    UnquoteQuote(value);
  }

  /** A URL put together from its parts is read back. */
  lemma ReadsParts(base: string, a: string, x: seq<byte>, b: string, y: seq<byte>)
    requires '?' !in base && '&' !in a && '=' !in a && '=' !in b
    ensures Read(base + "?" + ((a + "=" + Quote(x)) + "&" + (b + "=" + Quote(y)))) == Some((base, (a, x), (b, y)))
  {
    var first, second := a + "=" + Quote(x), b + "=" + Quote(y);
    CutAt(base, '?', first + "&" + second);
    QuotedHasNoSeparator(x);
    CutAt(first, '&', second);
    ReadsParam(a, x);
    ReadsParam(b, y);
  }

  lemma BuildParts(uuid: seq<byte>, rawKey: seq<byte>)
    ensures var key := Ascii(Base64.Unpadded([5] + rawKey));
            Build(uuid, rawKey) == "sgnl://linkdevice" + "?" + (("uuid" + "=" + Quote(uuid)) + "&" + ("pub_key" + "=" + Quote(key)))
  {
    var key := Ascii(Base64.Unpadded([5] + rawKey));
    Literals();
    Regroup("sgnl://linkdevice?uuid=", "sgnl://linkdevice" + "?", "uuid" + "=", Quote(uuid), "&pub_key=", "&", "pub_key" + "=", Quote(key));
  }

  lemma Literals()
    ensures "sgnl://linkdevice?uuid=" == ("sgnl://linkdevice" + "?") + ("uuid" + "=")
    ensures "&pub_key=" == "&" + ("pub_key" + "=")
  {
  }

  lemma Regroup(head: string, a: string, b: string, c: string, mid: string, d: string, e: string, f: string)
    requires head == a + b && mid == d + e
    ensures head + c + mid + f == a + ((b + c) + d + (e + f))
  {
  }

  /** Split at '?', '&' and '=' and unquoted, the URL gives the uuid and the unpadded base64 of
      the key tagged with the byte 5. */
  lemma ReadsBack(uuid: seq<byte>, rawKey: seq<byte>)
    ensures Read(Build(uuid, rawKey)) ==
            Some(("sgnl://linkdevice", ("uuid", uuid), ("pub_key", Ascii(Base64.Unpadded([5] + rawKey)))))
  {
    BuildParts(uuid, rawKey);
    ReadsParts("sgnl://linkdevice", "uuid", uuid, "pub_key", Ascii(Base64.Unpadded([5] + rawKey)));
  }

  /** And the key decodes: with the padding restored, to the type byte and the point. */
  lemma KeyDecodes(rawKey: seq<byte>)
    ensures Base64.Decode(Base64.Restore(Base64.Unpadded([5] + rawKey))) == Some([5] + rawKey)
  {
    Base64.DecodeUnpadded([5] + rawKey);
  }
}
