/**
 * The encoding of the Gmail `raw` field: standard base64 (section 4 of
 * RFC 4648), then '+' to '-', '/' to '_' and the trailing '=' removed. The
 * result is shown to be the unpadded URL- and filename-safe encoding of
 * section 5 of RFC 4648, which a decoder reverses.
 */
module Base64Url {
  import opened Common

  /** The value of one base64 character: six bits. */
  type Sextet = v: int | 0 <= v < 64

  /** The alphabet of section 4 of RFC 4648. */
  function StdChar(v: Sextet): char {
    if v < 26 then ('A' as int + v) as char
    else if v < 52 then ('a' as int + (v - 26)) as char
    else if v < 62 then ('0' as int + (v - 52)) as char
    else if v == 62 then '+'
    else '/'
  }

  /** The characters of the alphabet of section 5 of RFC 4648. */
  predicate IsUrlChar(c: char) {
    'A' <= c <= 'Z' || 'a' <= c <= 'z' || '0' <= c <= '9' || c == '-' || c == '_'
  }

  /** The value a character of the section 5 alphabet stands for. */
  function UrlValue(c: char): Sextet
    requires IsUrlChar(c)
  {
    if 'A' <= c <= 'Z' then c as int - 'A' as int
    else if 'a' <= c <= 'z' then c as int - 'a' as int + 26
    else if '0' <= c <= '9' then c as int - '0' as int + 52
    else if c == '-' then 62
    else 63
  }

  /**
   * The alphabet of section 5 of RFC 4648: the section 4 alphabet with '-'
   * and '_' in place of '+' and '/'. Each value gets a character of the
   * alphabet that decodes back to it.
   */
  function UrlChar(v: Sextet): (c: char)
    ensures IsUrlChar(c) && UrlValue(c) == v
    ensures c != '+' && c != '/' && c != '='
  {
    if v == 62 then '-' else if v == 63 then '_' else StdChar(v)
  }

  /** How many characters a final group of `r` bytes (r < 3) takes before padding. */
  function TailLength(r: nat): nat {
    if r == 0 then 0 else r + 1
  }

  /**
   * The 6-bit groups of one to three bytes, read most significant bit first,
   * the last group filled with zero bits.
   */
  function Group(x: seq<Byte>): (v: seq<Sextet>)
    requires 1 <= |x| <= 3
    ensures |v| == |x| + 1
  {
    if |x| == 1 then [x[0] / 4, (x[0] % 4) * 16]
    else if |x| == 2 then [x[0] / 4, (x[0] % 4) * 16 + x[1] / 16, (x[1] % 16) * 4]
    else [x[0] / 4, (x[0] % 4) * 16 + x[1] / 16, (x[1] % 16) * 4 + x[2] / 64, x[2] % 64]
  }

  /** The bytes that two to four 6-bit groups carry, the fill bits of a short group ignored. */
  function Ungroup(v: seq<Sextet>): (x: seq<Byte>)
    requires 2 <= |v| <= 4
    ensures |x| == |v| - 1
  {
    var first: int := (v[0] as int) * 4 + (v[1] as int) / 16;
    if |v| == 2 then [first]
    else
      var second: int := ((v[1] as int) % 16) * 16 + (v[2] as int) / 4;
      if |v| == 3 then [first, second]
      else [first, second, ((v[2] as int) % 4) * 64 + (v[3] as int)]
  }

  /**
   * The bytes read as a bit string cut into 6-bit groups: four groups for
   * every three bytes, then two or three for a final one or two bytes.
   */
  function Sextets(b: seq<Byte>): (v: seq<Sextet>)
    ensures |v| == 4 * (|b| / 3) + TailLength(|b| % 3)
  {
    if |b| == 0 then []
    else if |b| <= 3 then Group(b)
    else Group(b[..3]) + Sextets(b[3..])
  }

  /**
   * The bytes a sequence of 6-bit groups stands for; None for a count no
   * byte string produces (one more than a multiple of four).
   */
  function BytesOf(v: seq<Sextet>): Option<seq<Byte>> {
    if |v| == 0 then Some([])
    else if |v| == 1 then None
    else if |v| <= 4 then Some(Ungroup(v))
    else
      match BytesOf(v[4..])
      case None => None
      case Some(rest) => Some(Ungroup(v[..4]) + rest)
  }

  /** The '=' characters that complete the last group of a section 4 encoding of `n` bytes. */
  function Padding(n: nat): string {
    if n % 3 == 1 then "==" else if n % 3 == 2 then "=" else ""
  }

  /** Standard, padded base64 (section 4 of RFC 4648), as `buffer.toString('base64')` writes it. */
  function StdEncode(b: seq<Byte>): string {
    var v := Sextets(b);
    seq(|v|, i requires 0 <= i < |v| => StdChar(v[i])) + Padding(|b|)
  }

  /** `s.replace(/x/g, y)` for a one-character pattern: every `x` becomes `y`. */
  function ReplaceAll(s: string, x: char, y: char): string {
    seq(|s|, i requires 0 <= i < |s| => if s[i] == x then y else s[i])
  }

  /** `s.replace(/c+$/, '')`: the trailing run of `c` removed. */
  function StripTrailing(s: string, c: char): string
    decreases |s|
  {
    if |s| > 0 && s[|s| - 1] == c then StripTrailing(s[..|s| - 1], c) else s
  }

  /** Unpadded base64url: the section 5 alphabet with the padding left off. */
  function UrlEncode(b: seq<Byte>): string {
    var v := Sextets(b);
    seq(|v|, i requires 0 <= i < |v| => UrlChar(v[i]))
  }

  /** Decoding unpadded base64url; None for a character outside the alphabet or an impossible length. */
  function UrlDecode(s: string): Option<seq<Byte>> {
    if forall i :: 0 <= i < |s| ==> IsUrlChar(s[i]) then
      BytesOf(seq(|s|, i requires 0 <= i < |s| && IsUrlChar(s[i]) => UrlValue(s[i])))
    else None
  }

  /** The characters '+' and '/' arise from the values 62 and 63 only. */
  lemma StdCharSpecial(v: Sextet)
    ensures StdChar(v) == '+' <==> v == 62
    ensures StdChar(v) == '/' <==> v == 63
    ensures StdChar(v) != '='
    ensures v < 62 ==> StdChar(v) == UrlChar(v)
  {
  }

  /** Rewriting '+' and '/' in the section 4 text gives the section 5 text, padding untouched. */
  lemma ReplacedIsUrl(b: seq<Byte>)
    ensures ReplaceAll(ReplaceAll(StdEncode(b), '+', '-'), '/', '_') == UrlEncode(b) + Padding(|b|)
  {
    var v := Sextets(b);
    var std := StdEncode(b);
    var once := ReplaceAll(std, '+', '-');
    var twice := ReplaceAll(once, '/', '_');
    var want := UrlEncode(b) + Padding(|b|);
    assert |twice| == |want|;
    forall i | 0 <= i < |twice| ensures twice[i] == want[i] {
      if i < |v| {
        StdCharSpecial(v[i]);
      }
    }
  }

  /** One more trailing `c` is removed with the rest of the run. */
  lemma StripOneMore(x: string, c: char)
    ensures StripTrailing(x + [c], c) == StripTrailing(x, c)
  {
    assert (x + [c])[..|x|] == x;
  }

  /** Removing the trailing '=' of padded text gives back text that does not end in '='. */
  lemma StripPadding(x: string, n: nat)
    requires x == [] || x[|x| - 1] != '='
    ensures StripTrailing(x + Padding(n), '=') == x
  {
    var p := Padding(n);
    if p == "=" {
      StripOneMore(x, '=');
    } else if p == "==" {
      assert x + p == (x + "=") + "=";
      StripOneMore(x + "=", '=');
      StripOneMore(x, '=');
    } else {
      assert x + p == x;
    }
  }

  /** Regrouping bits: the parts of the groups that straddle a byte boundary. */
  lemma Regroup(x: Byte, y: Byte)
    ensures ((x % 4) * 16 + y / 16) / 16 == x % 4 && ((x % 4) * 16 + y / 16) % 16 == y / 16
    ensures ((x % 16) * 4 + y / 64) / 4 == x % 16 && ((x % 16) * 4 + y / 64) % 4 == y / 64
  {
  }

  /** The groups of one to three bytes carry exactly those bytes. */
  lemma UngroupGroup(x: seq<Byte>)
    requires 1 <= |x| <= 3
    ensures Ungroup(Group(x)) == x
  {
    if |x| >= 2 {
      Regroup(x[0], x[1]);
    }
    if |x| == 3 {
      Regroup(x[1], x[2]);
    }
  }

  /** Six-bit groups decode back to the bytes they were cut from. */
  lemma {:induction false} BytesOfSextets(b: seq<Byte>)
    ensures BytesOf(Sextets(b)) == Some(b)
  {
    if 1 <= |b| <= 3 {
      UngroupGroup(b);
    } else if |b| > 3 {
      var v := Sextets(b);
      UngroupGroup(b[..3]);
      assert v[..4] == Group(b[..3]);
      assert v[4..] == Sextets(b[3..]);
      BytesOfSextets(b[3..]);
      assert b[..3] + b[3..] == b;
    }
  }

  /** Decoding unpadded base64url gives back the bytes that were encoded. */
  lemma UrlDecodeEncode(b: seq<Byte>)
    ensures UrlDecode(UrlEncode(b)) == Some(b)
  {
    var v := Sextets(b);
    var s := UrlEncode(b);
    assert forall i :: 0 <= i < |s| ==> IsUrlChar(s[i]);
    assert seq(|s|, i requires 0 <= i < |s| && IsUrlChar(s[i]) => UrlValue(s[i])) == v;
    BytesOfSextets(b);
  }

  /**
   * The `raw` field of the Gmail request as the source computes it. It is
   * the unpadded base64url text of the bytes: only characters of the
   * section 5 alphabet (so no '+', '/' or '='), four characters for every
   * three bytes plus two or three for a final one or two, and it decodes
   * back to the bytes.
   */
  function GmailRaw(b: seq<Byte>): (r: string)
    ensures r == UrlEncode(b)
    ensures forall i :: 0 <= i < |r| ==> IsUrlChar(r[i]) && r[i] != '+' && r[i] != '/' && r[i] != '='
    ensures |r| == 4 * (|b| / 3) + TailLength(|b| % 3)
    ensures UrlDecode(r) == Some(b)
  {
    ReplacedIsUrl(b);
    StripPadding(UrlEncode(b), |b|);
    UrlDecodeEncode(b);
    StripTrailing(ReplaceAll(ReplaceAll(StdEncode(b), '+', '-'), '/', '_'), '=')
  }

  /** Different byte strings never share a `raw` text. */
  lemma GmailRawInjective(b1: seq<Byte>, b2: seq<Byte>)
    requires GmailRaw(b1) == GmailRaw(b2)
    ensures b1 == b2
  {
  }
}
