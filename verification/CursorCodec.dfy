/** Opaque page cursors: a JSON body and its HMAC in unpadded base64url. */
module CursorCodec {
  import opened Wrappers

  type byte = x: int | 0 <= x < 256

  /** The URL-safe alphabet of RFC 4648, section 5. */
  function Letter(sextet: int): char
    requires 0 <= sextet < 64
  {
    if sextet < 26 then 'A' + sextet as char
    else if sextet < 52 then 'a' + (sextet - 26) as char
    else if sextet < 62 then '0' + (sextet - 52) as char
    else if sextet == 62 then '-' else '_'
  }

  /** The decoder translates `-` and `_` and then reads the standard alphabet, so it also takes `+` and `/`. */
  function SextetOf(c: char): Option<int> {
    if 'A' <= c <= 'Z' then Some((c - 'A') as int)
    else if 'a' <= c <= 'z' then Some((c - 'a') as int + 26)
    else if '0' <= c <= '9' then Some((c - '0') as int + 52)
    else if c == '-' || c == '+' then Some(62)
    else if c == '_' || c == '/' then Some(63)
    else None
  }

  /** The letters in their order: A to Z, a to z, 0 to 9, minus and underscore. */
  lemma LettersInOrder(sextet: int)
    requires 0 <= sextet < 64
    ensures Letter(0) == 'A' && Letter(26) == 'a' && Letter(52) == '0' && Letter(62) == '-' && Letter(63) == '_'
    ensures sextet + 1 !in {26, 52, 62, 63, 64} ==> Letter(sextet + 1) as int == Letter(sextet) as int + 1
  {
  }

  lemma LetterRoundTrip(sextet: int)
    requires 0 <= sextet < 64
    ensures SextetOf(Letter(sextet)) == Some(sextet) && Letter(sextet) != '='
    ensures Letter(sextet) as int < 128
  {
  }

  // ---- base64url without padding ----

  function Group(a: byte, b: byte, c: byte): (text: string)
    ensures |text| == 4
  {
    [Letter(a / 4), Letter(a % 4 * 16 + b / 16), Letter(b % 16 * 4 + c / 64), Letter(c % 64)]
  }

  /** Groups of three bytes as four letters; a last group of one or two bytes as two or three letters. */
  function Encode64(bytes: seq<byte>): string {
    if bytes == [] then ""
    else if |bytes| == 1 then
      [Letter(bytes[0] / 4), Letter(bytes[0] % 4 * 16)]
    else if |bytes| == 2 then
      [Letter(bytes[0] / 4), Letter(bytes[0] % 4 * 16 + bytes[1] / 16), Letter(bytes[1] % 16 * 4)]
    else
      Group(bytes[0], bytes[1], bytes[2]) + Encode64(bytes[3..])
  }

  /** The lenient decoder's scan over padded text: characters outside the alphabet are skipped, padding in
      the second half of a group ends the text once the group is full, and a trailing incomplete group is an
      error. `position` letters of the open group have been read, `left` holds their unwritten bits, and
      `pads` counts its padding. */
  function Scan(text: string, position: nat, left: nat, pads: nat): Option<seq<byte>>
    requires position < 4 && (position == 0 ==> left == 0) && (position == 1 ==> left < 64)
    requires (position == 2 ==> left < 16) && (position == 3 ==> left < 4)
    decreases |text|
  {
    if text == "" then
      if position == 0 then Some([]) else None
    else
      var c, rest := text[0], text[1..];
      if c == '=' then
        if position >= 2 && position + pads + 1 >= 4 then Some([])
        else Scan(rest, position, left, if position >= 2 then pads + 1 else pads)
      else
        match SextetOf(c)
        case None => Scan(rest, position, left, pads)
        case Some(v) =>
          if position == 0 then Scan(rest, 1, v, 0)
          else if position == 1 then Prepend(left * 4 + v / 16, Scan(rest, 2, v % 16, 0))
          else if position == 2 then Prepend(left * 16 + v / 4, Scan(rest, 3, v % 4, 0))
          else Prepend(left * 64 + v, Scan(rest, 0, 0, 0))
  }

  function Prepend(b: byte, tail: Option<seq<byte>>): Option<seq<byte>> {
    if tail.None? then None else Some([b] + tail.value)
  }

  function Padding(n: nat): string {
    if n % 4 == 1 then "===" else if n % 4 == 2 then "==" else if n % 4 == 3 then "=" else ""
  }

  predicate Ascii(text: string) {
    forall i :: 0 <= i < |text| ==> text[i] as int < 128
  }

  function Decode64(text: string): Option<seq<byte>> {
    if Ascii(text) then Scan(text + Padding(|text|), 0, 0, 0) else None
  }

  lemma {:induction false} Encode64IsAscii(bytes: seq<byte>)
    ensures Ascii(Encode64(bytes))
  {
    if |bytes| >= 3 {
      Encode64IsAscii(bytes[3..]);
      assert Ascii(Group(bytes[0], bytes[1], bytes[2]));
    }
  }

  /** Scanning one letter. */
  lemma ScanLetter(sextet: int, rest: string, position: nat, left: nat, pads: nat)
    requires 0 <= sextet < 64
    requires position < 4 && (position == 0 ==> left == 0) && (position == 1 ==> left < 64)
    requires (position == 2 ==> left < 16) && (position == 3 ==> left < 4)
    ensures Scan([Letter(sextet)] + rest, position, left, pads) ==
            (if position == 0 then Scan(rest, 1, sextet, 0)
             else if position == 1 then Prepend(left * 4 + sextet / 16, Scan(rest, 2, sextet % 16, 0))
             else if position == 2 then Prepend(left * 16 + sextet / 4, Scan(rest, 3, sextet % 4, 0))
             else Prepend(left * 64 + sextet, Scan(rest, 0, 0, 0)))
  {
    LetterRoundTrip(sextet);
    assert ([Letter(sextet)] + rest)[1..] == rest;
  }

  /** The bits of three bytes, cut into four sextets and put together again. */
  lemma SextetsRejoin(a: byte, b: byte, c: byte)
    ensures a / 4 * 4 + (a % 4 * 16 + b / 16) / 16 == a
    ensures (a % 4 * 16 + b / 16) % 16 * 16 + (b % 16 * 4 + c / 64) / 4 == b
    ensures (b % 16 * 4 + c / 64) % 4 * 64 + c % 64 == c
    ensures (a % 4 * 16 + b / 16) % 16 == b / 16 && (b % 16 * 4 + c / 64) % 4 == c / 64
  {
  }

  lemma ScanGroup(a: byte, b: byte, c: byte, rest: string)
    ensures Scan(Group(a, b, c) + rest, 0, 0, 0) ==
            Prepend(a, Prepend(b, Prepend(c, Scan(rest, 0, 0, 0))))
  {
    hide Scan, Letter, Prepend;
    var s0, s1, s2, s3 := a / 4, a % 4 * 16 + b / 16, b % 16 * 4 + c / 64, c % 64;
    var t3 := [Letter(s3)] + rest;
    var t2 := [Letter(s2)] + t3;
    var t1 := [Letter(s1)] + t2;
    assert Group(a, b, c) + rest == [Letter(s0)] + t1;
    SextetsRejoin(a, b, c);
    ScanLetter(s0, t1, 0, 0, 0);
    ScanLetter(s1, t2, 1, s0, 0);
    ScanLetter(s2, t3, 2, s1 % 16, 0);
    ScanLetter(s3, rest, 3, s2 % 4, 0);
  }

  lemma ScanLastTwo(a: byte, b: byte)
    ensures Scan(Encode64([a, b]) + "=", 0, 0, 0) == Some([a, b])
  {
    hide Letter;
    var s0, s1, s2 := a / 4, a % 4 * 16 + b / 16, b % 16 * 4;
    var t2 := [Letter(s2)] + "=";
    var t1 := [Letter(s1)] + t2;
    assert Encode64([a, b]) + "=" == [Letter(s0)] + t1;
    SextetsRejoin(a, b, 0);
    assert Scan("=", 3, s2 % 4, 0) == Some([]);
    ScanLetter(s0, t1, 0, 0, 0);
    ScanLetter(s1, t2, 1, s0, 0);
    ScanLetter(s2, "=", 2, s1 % 16, 0);
    assert [a] + ([b] + []) == [a, b];
  }

  lemma ScanLastOne(a: byte)
    ensures Scan(Encode64([a]) + "==", 0, 0, 0) == Some([a])
  {
    hide Letter;
    var s0, s1 := a / 4, a % 4 * 16;
    var t1 := [Letter(s1)] + "==";
    assert Encode64([a]) + "==" == [Letter(s0)] + t1;
    SextetsRejoin(a, 0, 0);
    assert "=="[1..] == "=";
    assert Scan("=", 2, s1 % 16, 1) == Some([]);
    assert Scan("==", 2, s1 % 16, 0) == Some([]);
    ScanLetter(s0, t1, 0, 0, 0);
    ScanLetter(s1, "==", 1, s0, 0);
    assert [a] + [] == [a];
  }

  /** Whole groups do not change the padding, and decode on their own. */
  lemma GroupThenRest(a: byte, b: byte, c: byte, rest: string, bytes: seq<byte>)
    requires Ascii(rest) && Decode64(rest) == Some(bytes) && Ascii(Group(a, b, c) + rest)
    ensures Decode64(Group(a, b, c) + rest) == Some([a, b, c] + bytes)
  {
    hide Scan, Group;
    var text := Group(a, b, c) + rest;
    assert Padding(|text|) == Padding(|rest|);
    assert text + Padding(|rest|) == Group(a, b, c) + (rest + Padding(|rest|));
    ScanGroup(a, b, c, rest + Padding(|rest|));
    assert [a] + ([b] + ([c] + bytes)) == [a, b, c] + bytes;
  }

  /** base64url text without its padding decodes to the bytes it was made from. */
  lemma {:induction false} Decode64Encode64(bytes: seq<byte>)
    ensures Decode64(Encode64(bytes)) == Some(bytes)
  {
    Encode64IsAscii(bytes);
    if bytes == [] {
      assert Scan("", 0, 0, 0) == Some([]);
    } else if |bytes| == 1 {
      ScanLastOne(bytes[0]);
      assert bytes == [bytes[0]];
    } else if |bytes| == 2 {
      ScanLastTwo(bytes[0], bytes[1]);
      assert bytes == [bytes[0], bytes[1]];
    } else {
      hide Scan, Group, Ascii;
      Decode64Encode64(bytes[3..]);
      Encode64IsAscii(bytes[3..]);
      GroupThenRest(bytes[0], bytes[1], bytes[2], Encode64(bytes[3..]), bytes[3..]);
      assert bytes == [bytes[0], bytes[1], bytes[2]] + bytes[3..];
    }
  }

  /** Three bytes are one number of 24 bits, written as four digits to the base 64. */
  lemma GroupIsNumber(a: byte, b: byte, c: byte) returns (s0: int, s1: int, s2: int, s3: int)
    ensures 0 <= s0 < 64 && 0 <= s1 < 64 && 0 <= s2 < 64 && 0 <= s3 < 64
    ensures Group(a, b, c) == [Letter(s0), Letter(s1), Letter(s2), Letter(s3)]
    ensures (a as int) * 0x1_0000 + (b as int) * 0x100 + c == s0 * 0x4_0000 + s1 * 0x1000 + s2 * 0x40 + s3
  {
    s0, s1, s2, s3 := a / 4, a % 4 * 16 + b / 16, b % 16 * 4 + c / 64, c % 64;
  }

  /** A last group of one or two bytes is filled up with zeros, and only the letters that hold its bits are
      written. */
  lemma LastGroupIsFilled(a: byte, b: byte)
    ensures Encode64([a, b]) == Group(a, b, 0)[..3] && Encode64([a]) == Group(a, 0, 0)[..2]
  {
    hide Letter;
    var low, none := b % 16 * 4, a % 4 * 16;
    assert low + 0 / 64 == low && none + 0 / 16 == none;
    assert Group(a, b, 0)[..3] == [Letter(a / 4), Letter(none + b / 16), Letter(low)];
    assert Group(a, 0, 0)[..2] == [Letter(a / 4), Letter(none)];
  }

  lemma FirstGroup(a: byte, b: byte, c: byte, bytes: seq<byte>)
    ensures Encode64([a, b, c] + bytes) == Group(a, b, c) + Encode64(bytes)
  {
    hide Group;
    assert ([a, b, c] + bytes)[3..] == bytes;
  }

  lemma {:induction false} EncodedLength(bytes: seq<byte>)
    ensures 3 * |Encode64(bytes)| <= 4 * |bytes| + 2 && 4 * |bytes| <= 3 * |Encode64(bytes)|
  {
    if |bytes| >= 3 {
      EncodedLength(bytes[3..]);
    }
  }

  // ---- The codec ----

  const DIGEST_SIZE := 32

  /** JSON text of an object and the keyed hash, of which only the stated facts are used. */
  datatype Keyed<!P(!new)> = Keyed(dump: P -> seq<byte>, load: seq<byte> -> Option<P>, mac: seq<byte> -> seq<byte>) {
    ghost predicate Valid() {
      && (forall p :: dump(p) != [] && load(dump(p)) == Some(p))
      && (forall body :: |mac(body)| == DIGEST_SIZE)
    }

    function Encode(payload: P): string {
      Encode64(dump(payload) + mac(dump(payload)))
    }

    function Decode(text: string): Option<P> {
      var decoded := Decode64(text);
      if decoded.None? || Encode64(decoded.value) != text || |decoded.value| <= DIGEST_SIZE then None else
        var split := |decoded.value| - DIGEST_SIZE;
        if mac(decoded.value[..split]) != decoded.value[split..] then None else load(decoded.value[..split])
    }
  }

  lemma DecodeEncode<P(!new)>(codec: Keyed<P>, payload: P)
    requires codec.Valid()
    ensures codec.Decode(codec.Encode(payload)) == Some(payload)
  {
    var body := codec.dump(payload);
    var signed := body + codec.mac(body);
    Decode64Encode64(signed);
    assert signed[..|body|] == body && signed[|body|..] == codec.mac(body);
  }

  /** A digest has 32 bytes, so no text of fewer than 44 letters is accepted. */
  lemma ShortTextsAreRefused<P(!new)>(codec: Keyed<P>, text: string)
    requires codec.Valid() && |text| < 44
    ensures codec.Decode(text).None?
  {
    if codec.Decode(text).Some? {
      EncodedLength(Decode64(text).value);
    }
  }

  /** A text is accepted exactly when it is the one canonical text of a signed, loadable body. */
  lemma AcceptedTexts<P(!new)>(codec: Keyed<P>, text: string, payload: P)
    requires codec.Valid()
    ensures codec.Decode(text) == Some(payload) <==>
            exists body :: body != [] && text == Encode64(body + codec.mac(body)) && codec.load(body) == Some(payload)
  {
    if codec.Decode(text) == Some(payload) {
      var bytes := Decode64(text).value;
      var body := bytes[..|bytes| - DIGEST_SIZE];
      assert bytes == body + codec.mac(body);
      assert body != [] && text == Encode64(body + codec.mac(body)) && codec.load(body) == Some(payload);
    }
    if body :| body != [] && text == Encode64(body + codec.mac(body)) && codec.load(body) == Some(payload) {
      var signed := body + codec.mac(body);
      Decode64Encode64(signed);
      assert signed[..|body|] == body && signed[|body|..] == codec.mac(body);
    }
  }

  /** No byte string has two accepted texts, although the lenient decoder reads many texts as the same bytes. */
  lemma OneTextPerByteString<P(!new)>(codec: Keyed<P>, a: string, b: string)
    requires codec.Valid() && codec.Decode(a).Some? && codec.Decode(b).Some?
    requires Decode64(a) == Decode64(b)
    ensures a == b
  {
  }

  /** A character outside ASCII makes a text unreadable, even for the lenient decoder. */
  lemma OnlyAsciiIsRead(text: string, i: nat)
    requires i < |text| && text[i] as int >= 128
    ensures Decode64(text) == None
  {
    assert !Ascii(text);
  }

  /** `+` and `-` read as the same bytes; only the canonical comparison tells the texts apart. */
  lemma DecoderIsLenient()
    ensures Decode64("+A") == Decode64("-A") && Decode64("-A").Some?
  {
    assert "+A" + Padding(2) == "+A==" && "-A" + Padding(2) == "-A==";
    assert "+A=="[1..] == "A==" && "-A=="[1..] == "A==";
    assert Scan("+A==", 0, 0, 0) == Scan("A==", 1, 62, 0) == Scan("-A==", 0, 0, 0);
    assert "A=="[1..] == "==" && "=="[1..] == "=";
    assert Scan("=", 2, 14, 1) == Some([]) && Scan("==", 2, 0, 0) == Some([]);
  }
}
