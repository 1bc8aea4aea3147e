/** Base64 encoding and decoding (src/base64.cpp; section 4 of RFC 4648, line lengths as in
    section 6.8 of RFC 2045).  Bytes and indices are integers, so the masks and shifts of
    the source read as divisions and remainders by powers of two. */
module Base64 {
  import opened Wrappers
  import opened Arith

  const WORD32 := 0x1_0000_0000

  datatype DecodeError = InvalidCharacter | OutOfRange

  type Decoded = Result<seq<byte>, DecodeError>

  // ---------------------------------------------------------------- alphabets

  /** The i-th character of the standard or the URL-safe alphabet. */
  function CharAt(i: nat, url: bool): char
    requires i < 64
  {
    if i < 26 then ('A' as int + i) as char
    else if i < 52 then ('a' as int + (i - 26)) as char
    else if i < 62 then ('0' as int + (i - 52)) as char
    else if i == 62 then (if url then '-' else '+')
    else (if url then '_' else '/')
  }

  /** Both alphabets are accepted when decoding. */
  function PosOfChar(c: char): Result<nat, DecodeError> {
    if 'A' <= c <= 'Z' then Ok(c as int - 'A' as int)
    else if 'a' <= c <= 'z' then Ok(c as int - 'a' as int + 26)
    else if '0' <= c <= '9' then Ok(c as int - '0' as int + 52)
    else if c == '+' || c == '-' then Ok(62)
    else if c == '/' || c == '_' then Ok(63)
    else Err(InvalidCharacter)
  }

  function Pad(url: bool): char { if url then '.' else '=' }

  predicate IsPad(c: char) { c == '=' || c == '.' }

  lemma PosOfCharAt(i: nat, url: bool)
    requires i < 64
    ensures PosOfChar(CharAt(i, url)) == Ok(i)
    ensures !IsPad(CharAt(i, url)) && CharAt(i, url) != '\n'
  {
  }

  /** The positions are those of the characters in the two alphabets, and nothing else has one. */
  lemma PosOfCharExactly(c: char, i: nat)
    ensures PosOfChar(c) == Ok(i) <==> i < 64 && (c == CharAt(i, false) || c == CharAt(i, true))
    ensures PosOfChar(c).Err? ==> PosOfChar(c).error == InvalidCharacter
    ensures PosOfChar(c).Ok? ==> !IsPad(c) && PosOfChar(c).value < 64
  {
  }

  // ---------------------------------------------------------------- specification

  /** One group of four characters for up to three bytes. */
  function EncodeGroup(b: seq<byte>, url: bool): (q: string)
    requires 1 <= |b| <= 3
    ensures |q| == 4
  {
    if |b| == 3 then
      [CharAt(b[0] / 4, url), CharAt(b[0] % 4 * 16 + b[1] / 16, url), CharAt(b[1] % 16 * 4 + b[2] / 64, url),
       CharAt(b[2] % 64, url)]
    else if |b| == 2 then
      [CharAt(b[0] / 4, url), CharAt(b[0] % 4 * 16 + b[1] / 16, url), CharAt(b[1] % 16 * 4, url), Pad(url)]
    else
      [CharAt(b[0] / 4, url), CharAt(b[0] % 4 * 16, url), Pad(url), Pad(url)]
  }

  function Encode(s: seq<byte>, url: bool): string {
    if s == [] then ""
    else if |s| <= 3 then EncodeGroup(s, url)
    else EncodeGroup(s[..3], url) + Encode(s[3..], url)
  }

  /** The bytes of the group starting a text, or the first fault in it. */
  function DecodeGroup(q: string): Decoded
    requires |q| > 0
  {
    if |q| < 2 then Err(OutOfRange)
    else
      match PosOfChar(q[1])
      case Err(e) => Err(e)
      case Ok(p1) =>
        match PosOfChar(q[0])
        case Err(e) => Err(e)
        case Ok(p0) =>
          var first := (p0 * 4 + p1 / 16) % 256;
          if |q| < 3 || IsPad(q[2]) then Ok([first])
          else
            match PosOfChar(q[2])
            case Err(e) => Err(e)
            case Ok(p2) =>
              var second := (p1 % 16 * 16 + p2 / 4) % 256;
              if |q| < 4 || IsPad(q[3]) then Ok([first, second])
              else
                match PosOfChar(q[3])
                case Err(e) => Err(e)
                case Ok(p3) => Ok([first, second, (p2 % 4 * 64 + p3) % 256])
  }

  function GroupSize(t: string): nat { if |t| < 4 then |t| else 4 }

  function Decode(t: string): Decoded {
    if t == "" then Ok([])
    else
      match DecodeGroup(t[..GroupSize(t)])
      case Err(e) => Err(e)
      case Ok(b) =>
        match Decode(t[GroupSize(t)..])
        case Err(e) => Err(e)
        case Ok(rest) => Ok(b + rest)
  }

  /** A text broken into lines of `d` characters. */
  function BrokenLines(t: string, d: nat): string
    requires d > 0
  {
    if |t| <= d then t else t[..d] + "\n" + BrokenLines(t[d..], d)
  }

  function WithoutNewlines(t: string): string {
    if t == "" then ""
    else if t[0] == '\n' then WithoutNewlines(t[1..])
    else [t[0]] + WithoutNewlines(t[1..])
  }

  function Unpadded(t: string): string {
    if t != "" && IsPad(t[|t| - 1]) then Unpadded(t[..|t| - 1]) else t
  }

  // ---------------------------------------------------------------- the loops

  /** What is still to be encoded at position `pos`. */
  function From<T>(s: seq<T>, pos: nat): seq<T> { if pos <= |s| then s[pos..] else [] }

  lemma FromEnds<T>(s: seq<T>)
    ensures From(s, 0) == s && forall pos: nat :: pos >= |s| ==> From(s, pos) == []
  {
  }

  /** The position after a group, a 32-bit unsigned variable. */
  function Advance(pos: nat): nat { (pos + 3) % WORD32 }

  method Base64Encode(bytes: seq<byte>, url: bool) returns (ret: string)
    requires |bytes| < WORD32
    ensures ret == Encode(bytes, url)
  {
    hide Encode, EncodeGroup, Advance, From;
    ret := "";
    var pos := 0;
    FromEnds(bytes);
    while pos < |bytes|
      invariant 0 <= pos < WORD32 && pos % 3 == 0
      invariant pos <= |bytes| + 2
      invariant ret + Encode(From(bytes, pos), url) == Encode(bytes, url)
      decreases |bytes| + 3 - pos
    {
      NoWrapInside(pos, |bytes|);
      EncodeFrom(bytes, pos, url);
      ghost var before, rest := ret, Encode(From(bytes, pos), url);
      ret := EncodeTurn(bytes, pos, url, ret);
      pos := Advance(pos);
      assert ret + Encode(From(bytes, pos), url) == before + rest;
    }
    EncodeStep([], url);
    assert ret + "" == ret;
  }

  lemma EncodeFrom(bytes: seq<byte>, pos: nat, url: bool)
    requires pos < |bytes|
    ensures Encode(From(bytes, pos), url) ==
              EncodeGroup(if |bytes| - pos < 3 then bytes[pos..] else bytes[pos..][..3], url)
              + Encode(From(bytes, pos + 3), url)
  {
    hide Encode, EncodeGroup;
    EncodeStep(bytes[pos..], url);
    EncodeStep([], url);
    if |bytes| - pos >= 3 { assert bytes[pos..][3..] == From(bytes, pos + 3); }
  }

  /** One turn of the encoder's loop: the characters pushed for the bytes at `pos`. */
  method EncodeTurn(bytes: seq<byte>, pos: nat, url: bool, before: string) returns (ret: string)
    requires pos < |bytes| < WORD32 && pos % 3 == 0
    ensures ret == before + EncodeGroup(if |bytes| - pos < 3 then bytes[pos..] else bytes[pos..][..3], url)
  {
    NoWrapInside(pos, |bytes|);
    hide CharAt;
    var trailing := Pad(url);
    ghost var group := if |bytes| - pos < 3 then bytes[pos..] else bytes[pos..][..3];
    ret := before + [CharAt(bytes[pos] / 4, url)];
    if (pos + 1) % WORD32 < |bytes| {
      ret := ret + [CharAt(bytes[pos] % 4 * 16 + bytes[pos + 1] / 16, url)];
      if (pos + 2) % WORD32 < |bytes| {
        ret := ret + [CharAt(bytes[pos + 1] % 16 * 4 + bytes[pos + 2] / 64, url)];
        ret := ret + [CharAt(bytes[pos + 2] % 64, url)];
      } else {
        ret := ret + [CharAt(bytes[pos + 1] % 16 * 4, url)];
        ret := ret + [trailing];
      }
    } else {
      ret := ret + [CharAt(bytes[pos] % 4 * 16, url)];
      ret := ret + [trailing];
      ret := ret + [trailing];
    }
    assert ret[|before|..] == EncodeGroup(group, url);
    assert ret == before + ret[|before|..];
  }

  /** Below 4 GiB the position never wraps, not even past the last group. */
  lemma NoWrapInside(pos: nat, n: nat)
    requires pos < n < WORD32 && pos % 3 == 0
    ensures (pos + 1) % WORD32 == pos + 1 && (pos + 2) % WORD32 == pos + 2
    ensures Advance(pos) == pos + 3 < WORD32 && (pos + 3) % 3 == 0
  {
  }

  lemma EncodeStep(s: seq<byte>, url: bool)
    ensures s == [] ==> Encode(s, url) == ""
    ensures 1 <= |s| < 3 ==> Encode(s, url) == EncodeGroup(s, url)
    ensures |s| >= 3 ==> Encode(s, url) == EncodeGroup(s[..3], url) + Encode(s[3..], url)
  {
    if |s| == 3 { assert s[..3] == s && s[3..] == []; }
  }

  /** The encoder's position after `k` turns of its loop. */
  function LoopPosition(k: nat): nat {
    if k == 0 then 0 else Advance(LoopPosition(k - 1))
  }

  lemma AdvanceWraps(x: nat)
    ensures Advance(x % WORD32) == (x + 3) % WORD32
  {
    var q, r := x / WORD32, x % WORD32;
    if r + 3 < WORD32 {
      DivModUnique(x + 3, WORD32, q, r + 3);
    } else {
      DivModUnique(x + 3, WORD32, q + 1, r + 3 - WORD32);
    }
  }

  lemma {:induction false} LoopPositionIs(k: nat)
    ensures LoopPosition(k) == 3 * k % WORD32
  {
    if k > 0 {
      LoopPositionIs(k - 1);
      AdvanceWraps(3 * (k - 1));
    }
  }

  /** The encoder's loop ends exactly for inputs shorter than 4 GiB: beyond that the
      position wraps round before it reaches the end. */
  lemma EncodeReturnsExactly(n: nat)
    ensures (exists k: nat :: LoopPosition(k) >= n) <==> n < WORD32
  {
    if n < WORD32 {
      var k := (n + 2) / 3;
      LoopPositionIs(k);
      assert LoopPosition(k) >= n;
    } else {
      forall k: nat ensures LoopPosition(k) < n { LoopPositionIs(k); }
    }
  }

  method InsertLinebreaks(text: string, distance: nat) returns (str: string)
    requires distance > 0
    ensures str == BrokenLines(text, distance)
  {
    hide BrokenLines;
    str := text;
    LastLine("", distance);
    if |str| == 0 { return ""; }
    var pos := distance;
    while pos < |str|
      invariant distance <= pos && pos - distance <= |str|
      invariant str[..pos - distance] + BrokenLines(str[pos - distance..], distance) == BrokenLines(text, distance)
      decreases |str| - pos
    {
      LineBroken(str, pos, distance);
      str := str[..pos] + "\n" + str[pos..];
      pos := pos + distance + 1;
    }
    LastLine(str[pos - distance..], distance);
    assert str[..pos - distance] + str[pos - distance..] == str;
  }

  lemma LastLine(t: string, d: nat)
    requires |t| <= d && d > 0
    ensures BrokenLines(t, d) == t
  {
  }

  /** Breaking at `pos` takes one line off the text that starts `d` before it. */
  lemma LineBroken(t: string, pos: nat, d: nat)
    requires 0 < d <= pos < |t|
    ensures var u := t[..pos] + "\n" + t[pos..];
            u[..pos + 1] + BrokenLines(u[pos + 1..], d) == t[..pos - d] + BrokenLines(t[pos - d..], d)
  {
    var u := t[..pos] + "\n" + t[pos..];
    var rest := t[pos - d..];
    assert u[pos + 1..] == t[pos..] == rest[d..];
    assert u[..pos + 1] == t[..pos - d] + (rest[..d] + "\n");
    assert BrokenLines(rest, d) == rest[..d] + "\n" + BrokenLines(rest[d..], d);
    hide BrokenLines;
  }

  method Base64Decode(encoded: string, removeLinebreaks: bool) returns (r: Decoded)
    ensures r == Decode(if removeLinebreaks then WithoutNewlines(encoded) else encoded)
  {
    if |encoded| == 0 { return Ok([]); }
    var text := encoded;
    if removeLinebreaks { text := WithoutNewlines(encoded); }
    hide Decode;
    var pos := 0;
    var ret: seq<byte> := [];
    assert From(text, 0) == text;
    PrefixedNothing(Decode(text));
    DecodeStep([]);
    while pos < |text|
      invariant 0 <= pos
      invariant Decode(text) == Prefixed(ret, Decode(From(text, pos)))
    {
      ghost var rest := From(text, pos);
      DecodeStep(rest);
      var group := DecodeTurn(text, pos);
      if group.Err? { return group; }
      assert rest[GroupSize(rest)..] == From(text, pos + 4);
      PrefixedTwice(ret, group.value, Decode(From(text, pos + 4)));
      ret := ret + group.value;
      pos := pos + 4;
    }
    assert ret + [] == ret;
    r := Ok(ret);
  }

  /** One turn of the decoder's loop: the bytes for the characters at `pos`, or the fault
      that ends it with an exception. */
  method DecodeTurn(text: string, pos: nat) returns (group: Decoded)
    requires pos < |text|
    ensures group == DecodeGroup(text[pos..][..GroupSize(text[pos..])])
  {
    hide PosOfChar;
    ghost var q := text[pos..][..GroupSize(text[pos..])];
    if pos + 1 >= |text| { return Err(OutOfRange); }
    var p1 := PosOfChar(text[pos + 1]);
    if p1.Err? { return Err(p1.error); }
    var p0 := PosOfChar(text[pos]);
    if p0.Err? { return Err(p0.error); }
    var first := (p0.value * 4 + p1.value / 16) % 256;
    if pos + 2 < |text| && text[pos + 2] != '=' && text[pos + 2] != '.' {
      var p2 := PosOfChar(text[pos + 2]);
      if p2.Err? { return Err(p2.error); }
      var second := (p1.value % 16 * 16 + p2.value / 4) % 256;
      if pos + 3 < |text| && text[pos + 3] != '=' && text[pos + 3] != '.' {
        var p3 := PosOfChar(text[pos + 3]);
        if p3.Err? { return Err(p3.error); }
        return Ok([first, second, (p2.value % 4 * 64 + p3.value) % 256]);
      }
      return Ok([first, second]);
    }
    return Ok([first]);
  }

  lemma DecodeStep(t: string)
    ensures t == "" ==> Decode(t) == Ok([])
    ensures t != "" && DecodeGroup(t[..GroupSize(t)]).Err? ==> Decode(t) == Err(DecodeGroup(t[..GroupSize(t)]).error)
    ensures t != "" && DecodeGroup(t[..GroupSize(t)]).Ok? ==>
      Decode(t) == Prefixed(DecodeGroup(t[..GroupSize(t)]).value, Decode(t[GroupSize(t)..]))
  {
  }

  lemma PrefixedNothing(d: Decoded)
    ensures Prefixed([], d) == d
  {
    if d.Ok? { assert [] + d.value == d.value; }
  }

  lemma PrefixedTwice(front: seq<byte>, group: seq<byte>, d: Decoded)
    ensures Prefixed(front + group, d) == Prefixed(front, Prefixed(group, d))
  {
    if d.Ok? { assert front + (group + d.value) == front + group + d.value; }
  }

  /** A decoding with bytes already produced in front. */
  function Prefixed(front: seq<byte>, d: Decoded): Decoded {
    match d
    case Err(e) => Err(e)
    case Ok(b) => Ok(front + b)
  }

  // ---------------------------------------------------------------- round trips

  lemma BytesFromSextets(b0: byte, b1: byte, b2: byte)
    ensures (b0 / 4 * 4 + (b0 % 4 * 16 + b1 / 16) / 16) % 256 == b0
    ensures (b0 / 4 * 4 + (b0 % 4 * 16) / 16) % 256 == b0
    ensures ((b0 % 4 * 16 + b1 / 16) % 16 * 16 + (b1 % 16 * 4 + b2 / 64) / 4) % 256 == b1
    ensures ((b0 % 4 * 16 + b1 / 16) % 16 * 16 + (b1 % 16 * 4) / 4) % 256 == b1
    ensures ((b1 % 16 * 4 + b2 / 64) % 4 * 64 + b2 % 64) % 256 == b2
  {
    FirstByte(b0, b1 / 16);
    FirstByte(b0, 0);
    SecondByte(b0, b1, b2 / 64);
    SecondByte(b0, b1, 0);
    ThirdByte(b1, b2);
  }

  lemma FirstByte(b: byte, low: nat)
    requires low < 16
    ensures (b / 4 * 4 + (b % 4 * 16 + low) / 16) % 256 == b
  {
    assert (b % 4 * 16 + low) / 16 == b % 4;
  }

  lemma SecondByte(a: byte, b: byte, low: nat)
    requires low < 4
    ensures ((a % 4 * 16 + b / 16) % 16 * 16 + (b % 16 * 4 + low) / 4) % 256 == b
  {
    assert (a % 4 * 16 + b / 16) % 16 == b / 16;
    assert (b % 16 * 4 + low) / 4 == b % 16;
  }

  lemma ThirdByte(a: byte, b: byte)
    ensures ((a % 16 * 4 + b / 64) % 4 * 64 + b % 64) % 256 == b
  {
    assert (a % 16 * 4 + b / 64) % 4 == b / 64;
  }

  lemma OneByteRoundTrip(b0: byte, url: bool)
    ensures DecodeGroup(EncodeGroup([b0], url)) == Ok([b0])
    ensures DecodeGroup(EncodeGroup([b0], url)[..2]) == Ok([b0])
  {
    hide CharAt, PosOfChar;
    BytesFromSextets(b0, 0, 0);
    PosOfCharAt(b0 / 4, url);
    PosOfCharAt(b0 % 4 * 16, url);
  }

  lemma TwoByteRoundTrip(b0: byte, b1: byte, url: bool)
    ensures DecodeGroup(EncodeGroup([b0, b1], url)) == Ok([b0, b1])
    ensures DecodeGroup(EncodeGroup([b0, b1], url)[..3]) == Ok([b0, b1])
  {
    hide CharAt, PosOfChar;
    BytesFromSextets(b0, b1, 0);
    PosOfCharAt(b0 / 4, url);
    PosOfCharAt(b0 % 4 * 16 + b1 / 16, url);
    PosOfCharAt(b1 % 16 * 4, url);
  }

  lemma ThreeByteRoundTrip(b0: byte, b1: byte, b2: byte, url: bool)
    ensures DecodeGroup(EncodeGroup([b0, b1, b2], url)) == Ok([b0, b1, b2])
  {
    hide CharAt, PosOfChar;
    BytesFromSextets(b0, b1, b2);
    PosOfCharAt(b0 / 4, url);
    PosOfCharAt(b0 % 4 * 16 + b1 / 16, url);
    PosOfCharAt(b1 % 16 * 4 + b2 / 64, url);
    PosOfCharAt(b2 % 64, url);
  }

  lemma GroupRoundTrip(b: seq<byte>, url: bool)
    requires 1 <= |b| <= 3
    ensures DecodeGroup(EncodeGroup(b, url)) == Ok(b)
    ensures DecodeGroup(EncodeGroup(b, url)[..|b| + 1]) == Ok(b)
  {
    hide EncodeGroup, DecodeGroup;
    if |b| == 1 {
      OneByteRoundTrip(b[0], url);
      assert b == [b[0]];
    } else if |b| == 2 {
      TwoByteRoundTrip(b[0], b[1], url);
      assert b == [b[0], b[1]];
    } else {
      ThreeByteRoundTrip(b[0], b[1], b[2], url);
      assert b == [b[0], b[1], b[2]];
      assert EncodeGroup(b, url)[..4] == EncodeGroup(b, url);
    }
  }

  /** ROUND TRIP.  Decoding undoes encoding, for every byte string and both alphabets. */
  lemma {:induction false} DecodeEncode(s: seq<byte>, url: bool)
    ensures Decode(Encode(s, url)) == Ok(s)
  {
    if s == [] {
    } else if |s| <= 3 {
      GroupRoundTrip(s, url);
      assert EncodeGroup(s, url)[..4] == EncodeGroup(s, url) && EncodeGroup(s, url)[4..] == "";
      assert s + [] == s;
    } else {
      DecodeEncode(s[3..], url);
      GroupRoundTrip(s[..3], url);
      var g, t := EncodeGroup(s[..3], url), Encode(s[3..], url);
      assert (g + t)[..4] == g && (g + t)[4..] == t;
      assert s == s[..3] + s[3..];
    }
  }

  /** The text of a group without its padding. */
  function GroupText(b: seq<byte>, url: bool): string
    requires 1 <= |b| <= 3
  {
    EncodeGroup(b, url)[..|b| + 1]
  }

  lemma UnpaddedGroup(b: seq<byte>, url: bool)
    requires 1 <= |b| <= 3
    ensures Unpadded(EncodeGroup(b, url)) == GroupText(b, url)
  {
    var q := EncodeGroup(b, url);
    if |b| == 1 {
      PosOfCharAt(b[0] % 4 * 16, url);
      assert q[..3][..2] == q[..2];
      assert Unpadded(q) == Unpadded(q[..3]) == Unpadded(q[..2]) == q[..2];
    } else if |b| == 2 {
      PosOfCharAt(b[1] % 16 * 4, url);
      assert Unpadded(q) == Unpadded(q[..3]) == q[..3];
    } else {
      PosOfCharAt(b[2] % 64, url);
      assert q[..4] == q;
    }
  }

  lemma {:induction false} UnpaddedAfter(front: string, t: string)
    requires Unpadded(t) != ""
    ensures Unpadded(front + t) == front + Unpadded(t)
    decreases |t|
  {
    if IsPad(t[|t| - 1]) {
      assert (front + t)[..|front + t| - 1] == front + t[..|t| - 1];
      UnpaddedAfter(front, t[..|t| - 1]);
    }
  }

  /** Padding is redundant: decoding also undoes encoding followed by stripping it. */
  lemma {:induction false} DecodeUnpadded(s: seq<byte>, url: bool)
    ensures Decode(Unpadded(Encode(s, url))) == Ok(s)
    ensures s != [] ==> Unpadded(Encode(s, url)) != ""
  {
    if s == [] {
    } else if |s| <= 3 {
      GroupRoundTrip(s, url);
      UnpaddedGroup(s, url);
      var u := GroupText(s, url);
      assert u[..GroupSize(u)] == u && u[GroupSize(u)..] == "";
      assert s + [] == s;
      assert |s| == 3 ==> u == EncodeGroup(s, url);
    } else {
      DecodeUnpadded(s[3..], url);
      GroupRoundTrip(s[..3], url);
      var g, t := EncodeGroup(s[..3], url), Encode(s[3..], url);
      UnpaddedAfter(g, t);
      assert (g + Unpadded(t))[..4] == g && (g + Unpadded(t))[4..] == Unpadded(t);
      assert s == s[..3] + s[3..];
    }
  }

  lemma {:induction false} LinesRemoved(t: string, d: nat)
    requires d > 0 && '\n' !in t
    ensures WithoutNewlines(BrokenLines(t, d)) == t
  {
    if |t| <= d {
      NothingRemoved(t, "");
      assert t + "" == t;
    } else {
      var rest := BrokenLines(t[d..], d);
      assert BrokenLines(t, d) == t[..d] + ("\n" + rest);
      hide BrokenLines;
      LinesRemoved(t[d..], d);
      NothingRemoved(t[..d], "\n" + rest);
      NewlineRemoved(rest);
      assert t == t[..d] + t[d..];
    }
  }

  lemma NewlineRemoved(t: string)
    ensures WithoutNewlines("\n" + t) == WithoutNewlines(t)
  {
    assert ("\n" + t)[1..] == t;
  }

  lemma {:induction false} NothingRemoved(front: string, t: string)
    requires '\n' !in front
    ensures WithoutNewlines(front + t) == front + WithoutNewlines(t)
  {
    if front == "" {
      assert front + t == t;
    } else {
      NothingRemoved(front[1..], t);
      assert (front + t)[1..] == front[1..] + t;
      assert front == [front[0]] + front[1..];
    }
  }

  lemma {:induction false} EncodeHasNoNewline(s: seq<byte>, url: bool)
    ensures '\n' !in Encode(s, url)
  {
    if |s| > 3 { EncodeHasNoNewline(s[3..], url); }
  }

  /** PEM and MIME texts: breaking the text into lines of any length and removing the line
      breaks again changes nothing. */
  lemma DecodeLines(s: seq<byte>, url: bool, d: nat)
    requires d > 0
    ensures Decode(WithoutNewlines(BrokenLines(Encode(s, url), d))) == Ok(s)
  {
    EncodeHasNoNewline(s, url);
    LinesRemoved(Encode(s, url), d);
    DecodeEncode(s, url);
  }

  lemma QuotientNext(a: nat, n: nat)
    requires n > 0 && a >= n
    ensures a / n == (a - n) / n + 1 && a % n == (a - n) % n
  {
    DivModUnique(a, n, (a - n) / n + 1, (a - n) % n);
  }

  /** WHERE THE BREAKS ARE.  Every (d + 1)-th character is a line break, and the others are
      the text's, in order; there is none at the end. */
  lemma {:induction false} BreaksExactly(t: string, d: nat, k: nat)
    requires d > 0
    ensures |BrokenLines(t, d)| == |t| + if t == "" then 0 else (|t| - 1) / d
    ensures k < |BrokenLines(t, d)| ==>
              0 <= k - k / (d + 1) < |t| &&
              BrokenLines(t, d)[k] == if k % (d + 1) == d then '\n' else t[k - k / (d + 1)]
  {
    if |t| > d {
      var rest := t[d..];
      BrokenLinesStep(t, d);
      hide BrokenLines;
      QuotientNext(|t| - 1, d);
      if k > d {
        BreaksExactly(rest, d, k - (d + 1));
        QuotientNext(k, d + 1);
      } else {
        BreaksExactly(rest, d, 0);
        DivModUnique(k, d + 1, 0, k);
      }
    } else {
      LastLine(t, d);
      hide BrokenLines;
      if t != "" { DivModUnique(|t| - 1, d, 0, |t| - 1); }
      if k < |t| { DivModUnique(k, d + 1, 0, k); }
    }
  }

  lemma BrokenLinesStep(t: string, d: nat)
    requires 0 < d < |t|
    ensures BrokenLines(t, d) == t[..d] + "\n" + BrokenLines(t[d..], d)
  {
  }


  /** No line is longer than asked for. */
  lemma {:induction false} LinesAreShort(t: string, d: nat, i: nat)
    requires d > 0 && '\n' !in t && i + d < |BrokenLines(t, d)|
    ensures '\n' in BrokenLines(t, d)[i..i + d + 1]
  {
    if |t| > d {
      var rest := BrokenLines(t[d..], d);
      assert BrokenLines(t, d) == t[..d] + "\n" + rest;
      if i <= d {
        assert BrokenLines(t, d)[i..i + d + 1][d - i] == '\n';
      } else {
        assert BrokenLines(t, d)[i..i + d + 1] == rest[i - d - 1..i];
        LinesAreShort(t[d..], d, i - d - 1);
      }
    }
  }

  lemma {:induction false} EncodeLength(s: seq<byte>, url: bool)
    ensures |Encode(s, url)| == (|s| + 2) / 3 * 4
  {
    hide Encode;
    EncodeStep(s, url);
    if |s| >= 3 {
      EncodeLength(s[3..], url);
      Arith.DivModUnique(|s| + 2, 3, (|s| - 1) / 3 + 1, (|s| - 1) % 3);
    }
  }

  // ---------------------------------------------------------------- what decodes, and to what

  /** The characters are those of the alphabets. */
  predicate Digits(t: string) { forall k :: 0 <= k < |t| ==> PosOfChar(t[k]).Ok? }

  /** A group decodes exactly if it has two digits first and each character after them is a
      digit, up to a padding character, after which nothing matters. */
  predicate GoodGroup(q: string) {
    && |q| >= 2 && Digits(q[..2])
    && (|q| >= 3 && !IsPad(q[2]) ==> PosOfChar(q[2]).Ok? && (|q| >= 4 && !IsPad(q[3]) ==> PosOfChar(q[3]).Ok?))
  }

  lemma GroupDecodesExactly(q: string)
    requires 0 < |q| <= 4
    ensures DecodeGroup(q).Ok? <==> GoodGroup(q)
    ensures DecodeGroup(q).Err? ==> (DecodeGroup(q).error == OutOfRange <==> |q| < 2)
  {
    hide PosOfChar, IsPad;
    forall k | 0 <= k < |q| ensures PosOfChar(q[k]).Err? ==> PosOfChar(q[k]).error == InvalidCharacter {
      PosOfCharExactly(q[k], 0);
    }
    if |q| >= 2 { assert q[..2][0] == q[0] && q[..2][1] == q[1]; }
  }

  predicate GoodAt(t: string, k: nat)
    requires k < |t|
  {
    GoodGroup(t[k..][..GroupSize(t[k..])])
  }

  lemma GoodLater(t: string, k: nat)
    requires |t| > 4
    ensures k < |t| - 4 ==> (GoodAt(t[4..], k) <==> GoodAt(t, 4 + k))
  {
    if k < |t| - 4 { assert t[4..][k..] == t[4 + k..]; }
  }

  /** WHAT DECODES.  A text decodes exactly if each of its groups of four characters does, the
      last of which may be shorter. */
  lemma {:induction false} DecodesExactly(t: string)
    ensures Decode(t).Ok? <==> forall k: nat :: k < |t| && k % 4 == 0 ==> GoodAt(t, k)
    decreases |t|
  {
    hide DecodeGroup, GoodGroup;
    if t != "" {
      var n := GroupSize(t);
      DecodeStep(t);
      GroupDecodesExactly(t[..n]);
      assert t[0..] == t;
      assert GoodAt(t, 0) <==> GoodGroup(t[..n]);
      if |t| > 4 {
        DecodesExactly(t[4..]);
        forall k: nat | k < |t| - 4 ensures GoodAt(t[4..], k) <==> GoodAt(t, 4 + k) { GoodLater(t, k); }
        hide GoodAt, Decode;
        if forall k: nat :: k < |t| - 4 && k % 4 == 0 ==> GoodAt(t[4..], k) {
          forall k: nat | 0 < k < |t| && k % 4 == 0 ensures GoodAt(t, k) { assert GoodAt(t[4..], k - 4); }
        } else {
          var k: nat :| k < |t| - 4 && k % 4 == 0 && !GoodAt(t[4..], k);
          assert !GoodAt(t, 4 + k) && (4 + k) % 4 == 0;
        }
      } else {
        assert t[n..] == "" && forall k: nat :: k < |t| && k % 4 == 0 ==> k == 0;
      }
    }
  }

  /** The standard spelling of a text of digits. */
  function Spelled(t: string): (r: string)
    requires Digits(t)
    ensures |r| == |t| && forall k :: 0 <= k < |t| ==> r[k] == Standard(t[k])
  {
    seq(|t|, k requires 0 <= k < |t| => Standard(t[k]))
  }

  function Standard(c: char): (r: char)
    requires PosOfChar(c).Ok?
    ensures PosOfChar(r) == PosOfChar(c) && r !in "-_"
  {
    PosOfCharExactly(c, PosOfChar(c).value);
    PosOfCharAt(PosOfChar(c).value, false);
    CharAt(PosOfChar(c).value, false)
  }

  lemma FirstBack(p0: nat, p1: nat)
    requires p0 < 64 && p1 < 64
    ensures var first := (p0 * 4 + p1 / 16) % 256; first < 256 && first / 4 == p0 && first % 4 == p1 / 16
  {
    DivModUnique(p0 * 4 + p1 / 16, 4, p0, p1 / 16);
  }

  lemma SecondBack(p1: nat, p2: nat)
    requires p1 < 64 && p2 < 64
    ensures var second := (p1 % 16 * 16 + p2 / 4) % 256; second < 256 && second / 16 == p1 % 16 && second % 16 == p2 / 4
  {
    DivModUnique(p1 % 16 * 16 + p2 / 4, 16, p1 % 16, p2 / 4);
  }

  lemma ThirdBack(p2: nat, p3: nat)
    requires p2 < 64 && p3 < 64
    ensures var third := (p2 % 4 * 64 + p3) % 256; third < 256 && third / 64 == p2 % 4 && third % 64 == p3
  {
    DivModUnique(p2 % 4 * 64 + p3, 64, p2 % 4, p3);
  }

  lemma SextetsFromBytes(p0: nat, p1: nat, p2: nat, p3: nat)
    requires p0 < 64 && p1 < 64 && p2 < 64 && p3 < 64
    ensures var first, second, third := (p0 * 4 + p1 / 16) % 256, (p1 % 16 * 16 + p2 / 4) % 256, (p2 % 4 * 64 +
        p3) % 256;
            && first / 4 == p0 && first % 4 * 16 + second / 16 == p1
            && second % 16 * 4 + third / 64 == p2 && third % 64 == p3
  {
    FirstBack(p0, p1);
    SecondBack(p1, p2);
    ThirdBack(p2, p3);
  }

  lemma FullGroupBack(q: string)
    requires |q| == 4 && Digits(q)
    ensures DecodeGroup(q).Ok? && |DecodeGroup(q).value| == 3 && EncodeGroup(DecodeGroup(q).value, false) == Spelled(q)
  {
    hide PosOfChar, CharAt, IsPad;
    forall k | 0 <= k < 4 ensures !IsPad(q[k]) && PosOfChar(q[k]).value < 64 { PosOfCharExactly(q[k], 0); }
    var p0, p1, p2, p3 := PosOfChar(q[0]).value, PosOfChar(q[1]).value, PosOfChar(q[2]).value, PosOfChar(q[3]).value;
    SextetsFromBytes(p0, p1, p2, p3);
    assert DecodeGroup(q) == Ok([(p0 * 4 + p1 / 16) % 256, (p1 % 16 * 16 + p2 / 4) % 256, (p2 % 4 * 64 + p3) % 256]);
  }

  /** THE OTHER WAY ROUND.  Encoding undoes decoding, for every text of whole groups of digits,
      up to the spelling of the two digits that differ between the alphabets. */
  lemma {:induction false} EncodeDecode(t: string)
    requires |t| % 4 == 0 && Digits(t)
    ensures Decode(t).Ok? && Encode(Decode(t).value, false) == Spelled(t)
    decreases |t|
  {
    hide PosOfChar, Standard, DecodeGroup, EncodeGroup;
    if t != "" {
      var head, rest := t[..4], t[4..];
      FullGroupBack(head);
      EncodeDecode(rest);
      DecodeStep(t);
      var bytes := DecodeGroup(head).value + Decode(rest).value;
      EncodeStep(bytes, false);
      assert bytes[..3] == DecodeGroup(head).value && bytes[3..] == Decode(rest).value;
      assert Spelled(t) == Spelled(head) + Spelled(rest);
    }
  }

  // ---------------------------------------------------------------- meaning

  function ByteAt(s: seq<byte>, i: nat): byte { if i < |s| then s[i] else 0 }

  /** Six bits of a two-byte window, from bit `r` on, most significant bit first. */
  function Window(hi: byte, lo: byte, r: nat): nat {
    var x := hi * 256 + lo;
    if r == 0 then x / 1024 % 64
    else if r == 2 then x / 256 % 64
    else if r == 4 then x / 64 % 64
    else x / 16 % 64
  }

  /** Bits 6k .. 6k + 5 of the byte string, zeros beyond the end: what section 4 of
      RFC 4648 says character `k` stands for. */
  function Sextet(s: seq<byte>, k: nat): nat {
    var bit := 6 * k;
    Window(ByteAt(s, bit / 8), ByteAt(s, bit / 8 + 1), bit % 8)
  }

  lemma SextetShift(s: seq<byte>, k: nat)
    requires |s| >= 3 && k >= 4
    ensures Sextet(s, k) == Sextet(s[3..], k - 4)
  {
    assert 6 * k / 8 == 6 * (k - 4) / 8 + 3;
    assert 6 * k % 8 == 6 * (k - 4) % 8;
  }

  lemma Windows(hi: byte, lo: byte)
    ensures Window(hi, lo, 0) == hi / 4
    ensures Window(hi, lo, 6) == hi % 4 * 16 + lo / 16
    ensures Window(hi, lo, 4) == hi % 16 * 4 + lo / 64
    ensures Window(hi, lo, 2) == hi % 64
  {
    var x := hi * 256 + lo;
    DivModUnique(x, 1024, hi / 4, hi % 4 * 256 + lo);
    DivModUnique(x, 16, hi * 16 + lo / 16, lo % 16);
    DivModUnique(x, 64, hi * 4 + lo / 64, lo % 64);
    DivModUnique(x, 256, hi, lo);
    DivModUnique(hi * 16 + lo / 16, 64, hi / 4, hi % 4 * 16 + lo / 16);
    DivModUnique(hi * 4 + lo / 64, 64, hi / 16, hi % 16 * 4 + lo / 64);
  }

  lemma SextetWindow(s: seq<byte>, k: nat, i: nat, r: nat)
    requires 6 * k == 8 * i + r && r < 8
    ensures Sextet(s, k) == Window(ByteAt(s, i), ByteAt(s, i + 1), r)
  {
    DivModUnique(6 * k, 8, i, r);
  }

  lemma SextetsOfGroup(s: seq<byte>)
    requires s != []
    ensures Sextet(s, 0) == s[0] / 4
    ensures Sextet(s, 1) == s[0] % 4 * 16 + ByteAt(s, 1) / 16
    ensures Sextet(s, 2) == ByteAt(s, 1) % 16 * 4 + ByteAt(s, 2) / 64
    ensures Sextet(s, 3) == ByteAt(s, 2) % 64
  {
    assert ByteAt(s, 0) == s[0];
    hide ByteAt, Window, Sextet;
    SextetWindow(s, 0, 0, 0);
    SextetWindow(s, 1, 0, 6);
    SextetWindow(s, 2, 1, 4);
    SextetWindow(s, 3, 2, 2);
    Windows(ByteAt(s, 0), ByteAt(s, 1));
    Windows(ByteAt(s, 1), ByteAt(s, 2));
    Windows(ByteAt(s, 2), ByteAt(s, 3));
  }

  lemma GroupMeaning(s: seq<byte>, url: bool, k: nat)
    requires s != [] && k < 4
    ensures EncodeGroup(if |s| < 3 then s else s[..3], url)[k]
              == if 6 * k < 8 * |s| then CharAt(Sextet(s, k), url) else Pad(url)
  {
    SextetsOfGroup(s);
    hide CharAt, Sextet;
    var b := if |s| < 3 then s else s[..3];
    if |b| == 1 {
    } else if |b| == 2 {
    } else {
      assert b[0] == s[0] && b[1] == s[1] && b[2] == s[2];
    }
  }

  /** MEANING.  Character `k` of the encoding is the alphabet's character for bits
      6k .. 6k + 5 of the input while there are bits left, and padding after that. */
  lemma {:induction false} EncodeMeaning(s: seq<byte>, url: bool, k: nat)
    requires k < |Encode(s, url)|
    ensures Encode(s, url)[k] == if 6 * k < 8 * |s| then CharAt(Sextet(s, k), url) else Pad(url)
    decreases |s|
  {
    EncodeStep(s, url);
    if k < 4 {
      GroupMeaning(s, url, k);
    } else {
      assert |s| > 3 by { EncodeLength(s, url); }
      SextetShift(s, k);
      EncodeMeaning(s[3..], url, k - 4);
      assert Encode(s, url)[k] == Encode(s[3..], url)[k - 4];
    }
  }
}
