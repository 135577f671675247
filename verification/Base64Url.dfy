// The URL-safe base64 alphabet (section 5 of RFC 4648) with padding stripped and
// restored, as the snapshot cursor of api/routes/snapshot.py uses it.

module Base64Url {
  import opened Wrappers

  type byte = n: int | 0 <= n < 256
  type sextet = n: int | 0 <= n < 64

  function Char(n: sextet): (c: char)
    ensures c != '='
  {
    if n < 26 then 'A' + n as char
    else if n < 52 then 'a' + (n - 26) as char
    else if n < 62 then '0' + (n - 52) as char
    else if n == 62 then '-' else '_'
  }

  function Sextet(c: char): Option<sextet> {
    if 'A' <= c <= 'Z' then Some((c - 'A') as int)
    else if 'a' <= c <= 'z' then Some((c - 'a') as int + 26)
    else if '0' <= c <= '9' then Some((c - '0') as int + 52)
    else if c == '-' then Some(62)
    else if c == '_' then Some(63)
    else None
  }

  /** Six bits of `x` beside the upper four of `y`. */
  function Join2(x: byte, y: byte): (q: sextet)
    ensures q / 16 == x % 4 && q % 16 == y / 16
  {
    x % 4 * 16 + y / 16
  }

  /** The lower four bits of `y` beside the upper two of `z`. */
  function Join4(y: byte, z: byte): (r: sextet)
    ensures r / 4 == y % 16 && r % 4 == z / 64
  {
    y % 16 * 4 + z / 64
  }

  /** Four characters for three bytes; a last group of one or two bytes is filled up with '='. */
  function Group(b: seq<byte>): (s: string)
    requires 1 <= |b| <= 3
    ensures |s| == 4
  {
    var y, z := if |b| > 1 then b[1] else 0, if |b| > 2 then b[2] else 0;
    [Char(b[0] / 4), Char(Join2(b[0], y)), if |b| > 1 then Char(Join4(y, z)) else '=', if |b| > 2 then Char(z % 64) else '=']
  }

  function Encode(b: seq<byte>): string {
    if b == [] then "" else if |b| <= 3 then Group(b) else Group(b[..3]) + Encode(b[3..])
  }

  function DecodeGroup(s: string, last: bool): Option<seq<byte>>
    requires |s| == 4
  {
    var p, q, r, t := Sextet(s[0]), Sextet(s[1]), Sextet(s[2]), Sextet(s[3]);
    if p.None? || q.None? then None
    else if last && s[2] == '=' && s[3] == '=' then Some([p.value * 4 + q.value / 16])
    else if r.None? then None
    else if last && s[3] == '=' then Some([p.value * 4 + q.value / 16, q.value % 16 * 16 + r.value / 4])
    else if t.None? then None
    else Some([p.value * 4 + q.value / 16, q.value % 16 * 16 + r.value / 4, r.value % 4 * 64 + t.value])
  }

  function Decode(s: string): Option<seq<byte>> {
    if s == "" then Some([])
    else if |s| < 4 then None
    else
      match (DecodeGroup(s[..4], |s| == 4), Decode(s[4..]))
      case (Some(group), Some(rest)) => Some(group + rest)
      case _ => None
  }

  /** rstrip("=") */
  function Strip(s: string): string {
    if s != "" && s[|s| - 1] == '=' then Strip(s[..|s| - 1]) else s
  }

  function Fill(n: nat): string {
    if n == 0 then "" else Fill(n - 1) + "="
  }

  /** raw + "=" * (-len(raw) % 4) */
  function Pad(raw: string): string {
    raw + Fill((4 - |raw| % 4) % 4)
  }

  lemma SextetOfChar(n: sextet)
    ensures Sextet(Char(n)) == Some(n)
  {
  }

  /** Decoding the characters of the given sextets. */
  lemma GroupOf(p: sextet, q: sextet, r: sextet, t: sextet)
    ensures DecodeGroup([Char(p), Char(q), '=', '='], true) == Some([p * 4 + q / 16])
    ensures DecodeGroup([Char(p), Char(q), Char(r), '='], true) == Some([p * 4 + q / 16, q % 16 * 16 + r / 4])
    ensures forall last :: DecodeGroup([Char(p), Char(q), Char(r), Char(t)], last)
                        == Some([p * 4 + q / 16, q % 16 * 16 + r / 4, r % 4 * 64 + t])
  {
    SextetOfChar(p);
    SextetOfChar(q);
    SextetOfChar(r);
    SextetOfChar(t);
  }

  /** The bytes packed into four sextets come back out. */
  lemma Unpack(x: byte, y: byte, z: byte, p: sextet, q: sextet, r: sextet, t: sextet)
    requires p == x / 4 && q == Join2(x, y) && r == Join4(y, z) && t == z % 64
    ensures p * 4 + q / 16 == x && q % 16 * 16 + r / 4 == y && r % 4 * 64 + t == z
  {
    Whole(x, y, z);
  }

  lemma OneByte(x: byte)
    ensures DecodeGroup(Group([x]), true) == Some([x])
  {
    var p: sextet, q: sextet := x / 4, Join2(x, 0);
    GroupOf(p, q, 0, 0);
    Whole(x, 0, 0);
    assert Group([x]) == [Char(p), Char(q), '=', '='];
  }

  lemma TwoBytes(x: byte, y: byte)
    ensures DecodeGroup(Group([x, y]), true) == Some([x, y])
  {
    var p: sextet, q: sextet, r: sextet := x / 4, Join2(x, y), Join4(y, 0);
    GroupOf(p, q, r, 0);
    Unpack(x, y, 0, p, q, r, 0);
    assert Group([x, y]) == [Char(p), Char(q), Char(r), '='];
  }

  lemma ThreeBytes(x: byte, y: byte, z: byte, last: bool)
    ensures DecodeGroup(Group([x, y, z]), last) == Some([x, y, z])
  {
    var p: sextet, q: sextet, r: sextet, t: sextet := x / 4, Join2(x, y), Join4(y, z), z % 64;
    GroupOf(p, q, r, t);
    Unpack(x, y, z, p, q, r, t);
    assert Group([x, y, z]) == [Char(p), Char(q), Char(r), Char(t)];
  }

  lemma GroupRoundTrip(b: seq<byte>, last: bool)
    requires 1 <= |b| <= 3 && (|b| < 3 ==> last)
    ensures DecodeGroup(Group(b), last) == Some(b)
  {
    if |b| == 1 {
      assert b == [b[0]];
      OneByte(b[0]);
    } else if |b| == 2 {
      assert b == [b[0], b[1]];
      TwoBytes(b[0], b[1]);
    } else {
      assert b == [b[0], b[1], b[2]];
      ThreeBytes(b[0], b[1], b[2], last);
    }
  }

  lemma Whole(x: byte, y: byte, z: byte)
    ensures x / 4 * 4 + x % 4 == x && y / 16 * 16 + y % 16 == y && z / 64 * 64 + z % 64 == z
  {
  }

  lemma {:induction false} RoundTrip(b: seq<byte>)
    ensures Decode(Encode(b)) == Some(b)
  {
    if b != [] {
      if |b| <= 3 {
        GroupRoundTrip(b, true);
        DecodeJoins(Group(b), "", b, []);
      } else {
        RoundTrip(b[3..]);
        GroupRoundTrip(b[..3], false);
        assert Encode(b[3..]) != "" && b == b[..3] + b[3..];
        DecodeJoins(Group(b[..3]), Encode(b[3..]), b[..3], b[3..]);
      }
    }
  }

  lemma DecodeJoins(group: string, rest: string, a: seq<byte>, b: seq<byte>)
    requires |group| == 4 && DecodeGroup(group, rest == "") == Some(a) && Decode(rest) == Some(b)
    ensures Decode(group + rest) == Some(a + b)
    ensures rest == "" ==> group + rest == group
    ensures b == [] ==> a + b == a
  {
    var s := group + rest;
    assert s[..4] == group && s[4..] == rest;
  }

  /** The text of `b` without its padding. */
  function Body(b: seq<byte>): string {
    if b == [] then "" else if |b| <= 3 then Group(b)[..|b| + 1] else Group(b[..3]) + Body(b[3..])
  }

  lemma {:induction false} PaddedShape(b: seq<byte>)
    ensures '=' !in Body(b) && Encode(b) == Pad(Body(b))
  {
    if 1 <= |b| <= 3 {
      GroupIsPadded(b);
    } else if b != [] {
      PaddedShape(b[3..]);
      GroupIsPadded(b[..3]);
      assert Group(b[..3])[..4] == Group(b[..3]);
      PadAfterGroup(Group(b[..3]), Body(b[3..]));
    }
  }

  lemma GroupIsPadded(b: seq<byte>)
    requires 1 <= |b| <= 3
    ensures var body := Group(b)[..|b| + 1]; '=' !in body && Group(b) == Pad(body)
  {
    assert Fill(1) == "=" && Fill(2) == "==";
  }

  lemma PadAfterGroup(group: string, rest: string)
    requires |group| == 4
    ensures Pad(group + rest) == group + Pad(rest)
  {
    assert |group + rest| % 4 == |rest| % 4;
  }

  lemma {:induction false} StripRemovesPadding(body: string, n: nat)
    requires '=' !in body
    ensures Strip(body + Fill(n)) == body
  {
    var s := body + Fill(n);
    if n == 0 {
      assert s == body;
    } else {
      assert s[..|s| - 1] == body + Fill(n - 1);
      StripRemovesPadding(body, n - 1);
    }
  }

  lemma PadAndStrip(s: string, body: string)
    requires '=' !in body && s == Pad(body)
    ensures Strip(s) == body && Pad(Strip(s)) == s
  {
    StripRemovesPadding(body, (4 - |body| % 4) % 4);
  }

  /** The cursor's form: padding off for the wire, padding back before decoding. */
  lemma StrippedRoundTrip(b: seq<byte>)
    ensures Decode(Pad(Strip(Encode(b)))) == Some(b)
    ensures '=' !in Strip(Encode(b))
  {
    PaddedShape(b);
    PadAndStrip(Encode(b), Body(b));
    RoundTrip(b);
  }
}
