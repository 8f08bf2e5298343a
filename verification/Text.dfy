/** Decimal and hexadecimal text as the Rust standard library prints and parses it, and trimming. */
module Text {
  import opened Prelude

  predicate IsDigit(c: char) { '0' <= c <= '9' }

  function DigitChar(d: nat): (c: char)
    requires d < 10
    ensures IsDigit(c) && DigitValue(c) == d
  {
    (d + '0' as int) as char
  }

  function DigitValue(c: char): nat
    requires IsDigit(c)
  {
    c as int - '0' as int
  }

  /** The decimal digits of a number, without leading zeros. */
  function Digits(n: nat): (s: string)
    ensures s != [] && forall c | c in s :: IsDigit(c)
  {
    if n < 10 then [DigitChar(n)] else Digits(n / 10) + [DigitChar(n % 10)]
  }

  function Printed(v: int): string {
    if v < 0 then "-" + Digits(-v) else Digits(v)
  }

  function Value(s: string): nat
    requires forall c | c in s :: IsDigit(c)
  {
    if s == [] then 0
    else
      assert s[|s| - 1] in s;
      Value(s[..|s| - 1]) * 10 + DigitValue(s[|s| - 1])
  }

  function ParseDigits(s: string): Option<nat> {
    if s != [] && forall c | c in s :: IsDigit(c) then Some(Value(s)) else None
  }

  function InRange(v: Option<int>, lo: int, hi: int): Option<int> {
    if v.Some? && lo <= v.value <= hi then v else None
  }

  function Negated(v: Option<int>): Option<int> {
    match v case None => None case Some(n) => Some(-n)
  }

  /** `parse` for a signed type: an optional sign, then digits, within range. */
  function ParseSigned(s: string, lo: int, hi: int): Option<int> {
    if s != [] && s[0] == '-' then InRange(Negated(ParseDigits(s[1..])), lo, hi)
    else ParseUnsigned(s, hi)
  }

  /** `parse` for an unsigned type: only a plus sign may lead. */
  function ParseUnsigned(s: string, hi: int): Option<int> {
    InRange(ParseDigits(if s != [] && s[0] == '+' then s[1..] else s), 0, hi)
  }

  lemma {:induction false} ValueOfDigits(n: nat)
    ensures Value(Digits(n)) == n
  {
    var s := Digits(n);
    if n >= 10 {
      ValueOfDigits(n / 10);
      assert s[..|s| - 1] == Digits(n / 10);
      assert s[|s| - 1] == DigitChar(n % 10);
    } else {
      assert s == [DigitChar(n)] && s[..|s| - 1] == [];
    }
  }

  lemma ParseUndoesDigits(n: nat)
    ensures ParseDigits(Digits(n)) == Some(n)
  {
    ValueOfDigits(n);
  }

  lemma ParseUndoesPrinted(v: int, lo: int, hi: int)
    requires lo <= v <= hi
    ensures ParseSigned(Printed(v), lo, hi) == Some(v)
    ensures v >= 0 ==> ParseUnsigned(Printed(v), hi) == Some(v)
  {
    if v < 0 {
      ParseUndoesDigits(-v);
      assert Printed(v)[1..] == Digits(-v);
    } else {
      ParseUndoesDigits(v);
      assert Digits(v)[0] in Digits(v);
    }
  }

  function TrimStart(p: char -> bool, s: string): string {
    if s != [] && p(s[0]) then TrimStart(p, s[1..]) else s
  }

  function TrimEnd(p: char -> bool, s: string): string {
    if s != [] && p(s[|s| - 1]) then TrimEnd(p, s[..|s| - 1]) else s
  }

  function Trim(p: char -> bool, s: string): string {
    TrimEnd(p, TrimStart(p, s))
  }

  lemma NothingToTrim(p: char -> bool, s: string)
    requires s != [] && !p(s[0]) && !p(s[|s| - 1])
    ensures Trim(p, s) == s
  {}
}

/** Version tags (crates/api/src/objects.rs, etag and parse_version_tag). */
module Tags {
  import opened Prelude
  import opened Text
  import Types

  const MIN_I32: int := -0x8000_0000

  function Etag(version: int): string {
    "W/\"" + Printed(version) + "\""
  }

  function ParseVersionTag(raw: string): Option<int> {
    var s := Trim(Types.White, raw);
    var bare := Trim(Types.White, if "W/" <= s then s[2..] else s);
    ParseSigned(Trim(c => c == '"', bare), MIN_I32, MAX_I32)
  }

  lemma PrintedEnds(v: int)
    ensures var s := Printed(v);
      s != [] && (s[0] == '-' || IsDigit(s[0])) && IsDigit(s[|s| - 1])
  {
    var d := Digits(if v < 0 then -v else v);
    assert d[0] in d && d[|d| - 1] in d;
  }

  lemma QuotesComeOff(s: string)
    requires s != [] && s[0] != '"' && s[|s| - 1] != '"'
    ensures Trim(c => c == '"', "\"" + s + "\"") == s
    ensures Trim(c => c == '"', s) == s
  {
    var p := c => c == '"';
    assert ("\"" + s + "\"")[1..] == s + "\"";
    assert (s + "\"")[..|s|] == s;
    assert TrimStart(p, s + "\"") == s + "\"";
    NothingToTrim(p, s);
  }

  /** Every version comes back from its tag, as the server writes it, without the weak mark, and bare; so
      no two versions share a tag. */
  lemma ParseUndoesEtag(v: int)
    requires MIN_I32 <= v <= MAX_I32
    ensures ParseVersionTag(Etag(v)) == Some(v)
    ensures ParseVersionTag("\"" + Printed(v) + "\"") == Some(v)
    ensures ParseVersionTag(Printed(v)) == Some(v)
  {
    var s := Printed(v);
    var quoted := "\"" + s + "\"";
    PrintedEnds(v);
    ParseUndoesPrinted(v, MIN_I32, MAX_I32);
    QuotesComeOff(s);
    NothingToTrim(Types.White, s);
    NothingToTrim(Types.White, quoted);
    NothingToTrim(Types.White, Etag(v));
    assert Etag(v)[2..] == quoted;
    assert s[0] != 'W' && quoted[0] != 'W';
    assert Etag(v)[..2] == "W/";
  }
}

/** The signed sign-in state (crates/api/src/oauth.rs); the keyed hash is any function of the payload. */
module SignedState {
  import opened Prelude
  import opened Text

  type Byte = b: nat | b < 256
  type Mac = string -> seq<Byte>

  const TTL: nat := 600
  const MAX_U64: int := 0xffff_ffff_ffff_ffff

  function HexChar(d: nat): (c: char)
    requires d < 16
    ensures c != '.' && HexDigit(c) == Some(d)
  {
    if d < 10 then DigitChar(d) else (d - 10 + 'a' as int) as char
  }

  function HexDigit(c: char): (d: Option<nat>)
    ensures d.Some? ==> d.value < 16
  {
    if IsDigit(c) then Some(DigitValue(c))
    else if 'a' <= c <= 'f' then Some(c as int - 'a' as int + 10)
    else if 'A' <= c <= 'F' then Some(c as int - 'A' as int + 10)
    else None
  }

  function Hex(bytes: seq<Byte>): (s: string)
    ensures '.' !in s
  {
    if bytes == [] then [] else [HexChar(bytes[0] / 16), HexChar(bytes[0] % 16)] + Hex(bytes[1..])
  }

  /** `u8::from_str_radix` on two characters: it takes a leading plus sign. */
  function ByteOf(a: char, b: char): Option<Byte> {
    if HexDigit(b).None? then None
    else if a == '+' then Some(HexDigit(b).value)
    else if HexDigit(a).None? then None
    else Some(HexDigit(a).value * 16 + HexDigit(b).value)
  }

  function Unhex(s: string): Option<seq<Byte>> {
    if s == [] then Some([])
    else if |s| == 1 then None
    else
      match (ByteOf(s[0], s[1]), Unhex(s[2..]))
      case (Some(b), Some(rest)) => Some([b] + rest)
      case _ => None
  }

  lemma ByteRoundTrip(b: Byte)
    ensures ByteOf(HexChar(b / 16), HexChar(b % 16)) == Some(b)
  {
    assert b == b / 16 * 16 + b % 16;
    assert HexChar(b / 16) != '+';
  }

  lemma {:induction false} UnhexUndoesHex(bytes: seq<Byte>)
    ensures Unhex(Hex(bytes)) == Some(bytes)
  {
    if bytes != [] {
      UnhexUndoesHex(bytes[1..]);
      ByteRoundTrip(bytes[0]);
      assert Hex(bytes)[2..] == Hex(bytes[1..]);
      assert bytes == [bytes[0]] + bytes[1..];
      hide ByteOf, HexChar;
    }
  }

  predicate LowerHexChar(c: char) {
    IsDigit(c) || 'a' <= c <= 'f'
  }

  predicate LowerHex(s: string) {
    forall c | c in s :: LowerHexChar(c)
  }

  lemma DigitSpelling(c: char)
    requires HexDigit(c).Some?
    ensures HexChar(HexDigit(c).value) == c <==> LowerHexChar(c)
  {}

  /** A byte is spelt back as it was read exactly when both characters are lower-case digits. */
  lemma ByteSpelling(a: char, b: char)
    requires ByteOf(a, b).Some?
    ensures var v := ByteOf(a, b).value;
      HexChar(v / 16) == a && HexChar(v % 16) == b <==> LowerHexChar(a) && LowerHexChar(b)
  {
    var v := ByteOf(a, b).value;
    var low := HexDigit(b).value;
    DigitSpelling(b);
    if a == '+' {
      assert v / 16 == 0 && HexChar(0) == '0';
    } else {
      var high := HexDigit(a).value;
      DigitSpelling(a);
      assert v / 16 == high && v % 16 == low;
    }
  }

  /** Decoding is looser than encoding: it also reads capitals and plus signs, and those are all it reads
      that encoding would not write. */
  lemma {:induction false} HexUndoesUnhexIff(s: string)
    requires Unhex(s).Some?
    ensures Hex(Unhex(s).value) == s <==> LowerHex(s)
  {
    if s != [] {
      var a, b, rest := s[0], s[1], s[2..];
      HexUndoesUnhexIff(rest);
      ByteSpelling(a, b);
      hide ByteOf, HexChar, LowerHexChar;
      var bytes := Unhex(s).value;
      var byte := ByteOf(a, b).value;
      assert bytes == [byte] + Unhex(rest).value && bytes[1..] == Unhex(rest).value;
      var spelt := Hex(bytes);
      assert spelt == [HexChar(byte / 16), HexChar(byte % 16)] + Hex(Unhex(rest).value);
      assert s == [a, b] + rest;
      assert spelt == s <==> HexChar(byte / 16) == a && HexChar(byte % 16) == b && Hex(Unhex(rest).value) == rest by {
        assert spelt[2..] == Hex(Unhex(rest).value);
      }
      assert LowerHex(s) <==> LowerHexChar(a) && LowerHexChar(b) && LowerHex(rest) by {
        assert forall c | c in s :: c == a || c == b || c in rest;
        assert a in s && b in s;
      }
    }
  }

  /** `rsplit_once('.')`. */
  function SplitAtLastDot(s: string): Option<(string, string)> {
    if s == [] then None
    else if s[|s| - 1] == '.' then Some((s[..|s| - 1], ""))
    else match SplitAtLastDot(s[..|s| - 1])
      case None => None
      case Some((before, after)) => Some((before, after + [s[|s| - 1]]))
  }

  lemma {:induction false} SplitsAtTheLastDot(before: string, after: string)
    requires '.' !in after
    ensures SplitAtLastDot(before + "." + after) == Some((before, after))
  {
    var s := before + "." + after;
    if after == [] {
      assert s[..|s| - 1] == before;
    } else {
      var shorter := after[..|after| - 1];
      SplitsAtTheLastDot(before, shorter);
      assert s[..|s| - 1] == before + "." + shorter;
      assert shorter + [after[|after| - 1]] == after;
    }
  }

  lemma {:induction false} SplitPartsMakeTheWhole(s: string)
    requires SplitAtLastDot(s).Some?
    ensures var (before, after) := SplitAtLastDot(s).value; s == before + "." + after && '.' !in after
  {
    if s[|s| - 1] != '.' {
      SplitPartsMakeTheWhole(s[..|s| - 1]);
      assert s == s[..|s| - 1] + [s[|s| - 1]];
    }
  }

  function SignState(mac: Mac, payload: string): string {
    payload + "." + Hex(mac(payload))
  }

  function VerifyState(mac: Mac, signed: string): Option<string> {
    match SplitAtLastDot(signed)
    case None => None
    case Some((payload, sig)) => if Unhex(sig) == Some(mac(payload)) then Some(payload) else None
  }

  /** What verifies is exactly a payload followed by some spelling of its own hash. */
  lemma VerifiesIff(mac: Mac, signed: string, payload: string)
    ensures VerifyState(mac, signed) == Some(payload)
      <==> exists sig :: '.' !in sig && signed == payload + "." + sig && Unhex(sig) == Some(mac(payload))
  {
    if VerifyState(mac, signed) == Some(payload) {
      SplitPartsMakeTheWhole(signed);
    }
    forall sig | '.' !in sig && signed == payload + "." + sig && Unhex(sig) == Some(mac(payload))
      ensures VerifyState(mac, signed) == Some(payload)
    {
      SplitsAtTheLastDot(payload, sig);
    }
  }

  /** Any payload comes back, dots in it included. */
  lemma VerifyUndoesSign(mac: Mac, payload: string)
    ensures VerifyState(mac, SignState(mac, payload)) == Some(payload)
  {
    SplitsAtTheLastDot(payload, Hex(mac(payload)));
    UnhexUndoesHex(mac(payload));
  }

  /** `split_once(':')`. */
  function SplitAtColon(s: string): Option<(string, string)> {
    if s == [] then None
    else if s[0] == ':' then Some(("", s[1..]))
    else match SplitAtColon(s[1..])
      case None => None
      case Some((before, after)) => Some(([s[0]] + before, after))
  }

  lemma {:induction false} SplitsAtTheColon(before: string, after: string)
    requires ':' !in before
    ensures SplitAtColon(before + ":" + after) == Some((before, after))
  {
    var s := before + ":" + after;
    if before == [] {
      assert s[1..] == after;
    } else {
      SplitsAtTheColon(before[1..], after);
      assert s[1..] == before[1..] + ":" + after;
      assert [before[0]] + before[1..] == before;
    }
  }

  /** The cookie value `start` hands out. */
  function Issue(mac: Mac, nonce: string, now: nat): string {
    SignState(mac, nonce + ":" + Digits(now + TTL))
  }

  /** The checks `callback` makes before it talks to the provider. */
  predicate Admits(mac: Mac, cookie: string, state: string, now: nat) {
    match VerifyState(mac, cookie)
    case None => false
    case Some(payload) =>
      match SplitAtColon(payload)
      case None => false
      case Some((nonce, exp)) =>
        var until := match ParseUnsigned(exp, MAX_U64) case Some(n) => n case None => 0;
        nonce == state && now <= until
  }

  /** A cookie handed out at one time is good for its own nonce and for ten minutes, and for nothing else. */
  lemma IssuedIsAdmittedIff(mac: Mac, nonce: string, issued: nat, state: string, now: nat)
    requires ':' !in nonce && issued + TTL <= MAX_U64
    ensures Admits(mac, Issue(mac, nonce, issued), state, now) <==> state == nonce && now <= issued + TTL
  {
    VerifyUndoesSign(mac, nonce + ":" + Digits(issued + TTL));
    SplitsAtTheColon(nonce, Digits(issued + TTL));
    ParseUndoesPrinted(issued + TTL, 0, MAX_U64);
  }
}
