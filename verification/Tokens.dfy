/** The standard base64 encoding of section 4 of RFC 4648, with padding, as Go's `StdEncoding`
    writes and reads it: the reader skips line breaks and does not check the unused low bits. */
module Base64 {
  import opened Bridge

  type Byte = x: int | 0 <= x < 256

  type Sextet = x: int | 0 <= x < 64

  /** The alphabet of the RFC's table 1. */
  function Digit(v: Sextet): char {
    if v < 26 then 'A' + v as char
    else if v < 52 then 'a' + (v - 26) as char
    else if v < 62 then '0' + (v - 52) as char
    else if v == 62 then '+'
    else '/'
  }

  function Value(c: char): Option<Sextet> {
    if 'A' <= c <= 'Z' then Some(c as int - 'A' as int)
    else if 'a' <= c <= 'z' then Some(c as int - 'a' as int + 26)
    else if '0' <= c <= '9' then Some(c as int - '0' as int + 52)
    else if c == '+' then Some(62)
    else if c == '/' then Some(63)
    else None
  }

  lemma ValueOfDigit(v: Sextet)
    ensures Value(Digit(v)) == Some(v)
    ensures Digit(v) != '=' && Digit(v) != ':' && Digit(v) != '\n' && Digit(v) != '\r'
  {
  }

  function EncodeOne(x: Byte): string {
    [Digit(x / 4), Digit(x % 4 * 16), '=', '=']
  }

  function EncodeTwo(x: Byte, y: Byte): string {
    [Digit(x / 4), Digit(x % 4 * 16 + y / 16), Digit(y % 16 * 4), '=']
  }

  function EncodeThree(x: Byte, y: Byte, z: Byte): string {
    [Digit(x / 4), Digit(x % 4 * 16 + y / 16), Digit(y % 16 * 4 + z / 64), Digit(z % 64)]
  }

  function Encode(bs: seq<Byte>): string {
    if |bs| == 0 then ""
    else if |bs| == 1 then EncodeOne(bs[0])
    else if |bs| == 2 then EncodeTwo(bs[0], bs[1])
    else EncodeThree(bs[0], bs[1], bs[2]) + Encode(bs[3..])
  }

  function WithoutBreaks(s: string): string {
    if |s| == 0 then ""
    else (if s[0] == '\n' || s[0] == '\r' then [] else [s[0]]) + WithoutBreaks(s[1..])
  }

  function Byte0(a: Sextet, b: Sextet): Byte { a * 4 + b / 16 }

  function Byte1(b: Sextet, c: Sextet): Byte { b % 16 * 16 + c / 4 }

  function Byte2(c: Sextet, d: Sextet): Byte { c % 4 * 64 + d }

  /** Groups of four; padding only in the last one. */
  function DecodeGroups(s: string): Option<seq<Byte>> {
    if |s| == 0 then Some([])
    else if |s| < 4 then None
    else
      match (Value(s[0]), Value(s[1]), Value(s[2]), Value(s[3]))
      case (Some(a), Some(b), None, None) =>
        if s[2] == '=' && s[3] == '=' && |s| == 4 then Some([Byte0(a, b)]) else None
      case (Some(a), Some(b), Some(c), None) =>
        if s[3] == '=' && |s| == 4 then Some([Byte0(a, b), Byte1(b, c)]) else None
      case (Some(a), Some(b), Some(c), Some(d)) =>
        var rest := DecodeGroups(s[4..]);
        if rest.None? then None else Some([Byte0(a, b), Byte1(b, c), Byte2(c, d)] + rest.value)
      case _ => None
  }

  function Decode(s: string): Option<seq<Byte>> {
    DecodeGroups(WithoutBreaks(s))
  }

  lemma ByteParts(x: Byte, y: Byte, z: Byte)
    ensures Byte0(x / 4, x % 4 * 16 + y / 16) == x
    ensures Byte1(x % 4 * 16 + y / 16, y % 16 * 4 + z / 64) == y
    ensures Byte2(y % 16 * 4 + z / 64, z % 64) == z
  {
  }

  lemma FullGroup(a: Sextet, b: Sextet, c: Sextet, d: Sextet, rest: string)
    ensures DecodeGroups([Digit(a), Digit(b), Digit(c), Digit(d)] + rest)
         == if DecodeGroups(rest).None? then None
            else Some([Byte0(a, b), Byte1(b, c), Byte2(c, d)] + DecodeGroups(rest).value)
  {
    ValueOfDigit(a);
    ValueOfDigit(b);
    ValueOfDigit(c);
    ValueOfDigit(d);
    assert ([Digit(a), Digit(b), Digit(c), Digit(d)] + rest)[4..] == rest;
  }

  lemma PaddedGroups(a: Sextet, b: Sextet, c: Sextet)
    ensures DecodeGroups([Digit(a), Digit(b), '=', '=']) == Some([Byte0(a, b)])
    ensures DecodeGroups([Digit(a), Digit(b), Digit(c), '=']) == Some([Byte0(a, b), Byte1(b, c)])
  {
    ValueOfDigit(a);
    ValueOfDigit(b);
    ValueOfDigit(c);
  }

  lemma OneByte(x: Byte)
    ensures DecodeGroups(EncodeOne(x)) == Some([x])
  {
    PaddedGroups(x / 4, x % 4 * 16, 0);
    ByteParts(x, 0, 0);
  }

  lemma TwoBytes(x: Byte, y: Byte)
    ensures DecodeGroups(EncodeTwo(x, y)) == Some([x, y])
  {
    PaddedGroups(x / 4, x % 4 * 16 + y / 16, y % 16 * 4);
    ByteParts(x, y, 0);
  }

  lemma ThreeBytes(x: Byte, y: Byte, z: Byte, rest: string)
    ensures DecodeGroups(EncodeThree(x, y, z) + rest)
         == if DecodeGroups(rest).None? then None else Some([x, y, z] + DecodeGroups(rest).value)
  {
    FullGroup(x / 4, x % 4 * 16 + y / 16, y % 16 * 4 + z / 64, z % 64, rest);
    ByteParts(x, y, z);
  }

  lemma FirstThree(bs: seq<Byte>)
    requires |bs| >= 3
    ensures [bs[0], bs[1], bs[2]] + bs[3..] == bs
  {
  }

  lemma {:induction false} GroupsRoundTrip(bs: seq<Byte>)
    ensures DecodeGroups(Encode(bs)) == Some(bs)
    decreases |bs|
  {
    if |bs| == 1 {
      OneByte(bs[0]);
      assert bs == [bs[0]];
    } else if |bs| == 2 {
      TwoBytes(bs[0], bs[1]);
      assert bs == [bs[0], bs[1]];
    } else if |bs| > 2 {
      ThreeBytes(bs[0], bs[1], bs[2], Encode(bs[3..]));
      GroupsRoundTrip(bs[3..]);
      FirstThree(bs);
    }
  }

  predicate Plain(c: char) {
    c != ':' && c != '\n' && c != '\r'
  }

  lemma PlainDigits(x: Byte, y: Byte, z: Byte)
    ensures forall i :: 0 <= i < 4 ==>
      Plain(EncodeOne(x)[i]) && Plain(EncodeTwo(x, y)[i]) && Plain(EncodeThree(x, y, z)[i])
  {
  }

  lemma {:induction false} EncodeIsPlain(bs: seq<Byte>)
    ensures forall i :: 0 <= i < |Encode(bs)| ==> Plain(Encode(bs)[i])
    decreases |bs|
  {
    if |bs| > 0 {
      PlainDigits(bs[0], if |bs| > 1 then bs[1] else 0, if |bs| > 2 then bs[2] else 0);
    }
    if |bs| > 2 {
      EncodeIsPlain(bs[3..]);
    }
  }

  lemma {:induction false} NoBreaksToSkip(s: string)
    requires forall i :: 0 <= i < |s| ==> Plain(s[i])
    ensures WithoutBreaks(s) == s
  {
    if |s| > 0 {
      assert Plain(s[0]);
      NoBreaksToSkip(s[1..]);
    }
  }

  /** Reading what was written gives back every byte string. */
  lemma {:induction false} RoundTrip(bs: seq<Byte>)
    ensures Decode(Encode(bs)) == Some(bs)
  {
    EncodeIsPlain(bs);
    NoBreaksToSkip(Encode(bs));
    GroupsRoundTrip(bs);
  }

  /** Table 1 of RFC 4648: three runs of consecutive characters, then two more. */
  lemma AlphabetOfTheRfc()
    ensures Digit(0) == 'A' && Digit(25) == 'Z' && Digit(26) == 'a' && Digit(51) == 'z'
    ensures Digit(52) == '0' && Digit(61) == '9' && Digit(62) == '+' && Digit(63) == '/'
    ensures forall v: Sextet :: v < 61 && v != 25 && v != 51 ==> Digit(v + 1) as int == Digit(v) as int + 1
  {
  }

  /** The digits of a full group spell the 24-bit number that its three bytes form. */
  lemma FullGroupIsNumber(x: Byte, y: Byte, z: Byte)
    ensures exists a: Sextet, b: Sextet, c: Sextet, d: Sextet ::
      && EncodeThree(x, y, z) == [Digit(a), Digit(b), Digit(c), Digit(d)]
      && a * 0x4_0000 + b * 0x1000 + c * 0x40 + d == x * 0x1_0000 + y * 0x100 + z
  {
    var a: Sextet, b: Sextet := x / 4, x % 4 * 16 + y / 16;
    var c: Sextet, d: Sextet := y % 16 * 4 + z / 64, z % 64;
    HighPart(x, y);
    LowPart(y, z);
    assert EncodeThree(x, y, z) == [Digit(a), Digit(b), Digit(c), Digit(d)];
  }

  lemma HighPart(x: Byte, y: Byte)
    ensures x / 4 * 0x40 + (x % 4 * 16 + y / 16) == x * 16 + y / 16
  {
  }

  lemma LowPart(y: Byte, z: Byte)
    ensures y / 16 * 0x1000 + (y % 16 * 4 + z / 64) * 0x40 + z % 64 == y * 0x100 + z
  {
  }

  /** A shorter group is filled up with zero bits and padding. */
  lemma ShortGroupsAreNumbers(x: Byte, y: Byte)
    ensures exists a: Sextet, b: Sextet, c: Sextet ::
      EncodeTwo(x, y) == [Digit(a), Digit(b), Digit(c), '='] && a * 0x1000 + b * 0x40 + c == (x * 0x100 + y) * 4
    ensures exists a: Sextet, b: Sextet ::
      EncodeOne(x) == [Digit(a), Digit(b), '=', '='] && a * 0x40 + b == x * 16
  {
    var a, b, c := x / 4, x % 4 * 16 + y / 16, y % 16 * 4;
    assert EncodeTwo(x, y) == [Digit(a), Digit(b), Digit(c), '='];
    var last: Sextet := x % 4 * 16;
    assert EncodeOne(x) == [Digit(a), Digit(last), '=', '='];
  }

  /** All characters of a string are in the alphabet, but for `p` padding characters at its end. */
  predicate Padded(s: string, p: nat) {
    && p <= |s|
    && (forall i :: 0 <= i < |s| - p ==> Value(s[i]).Some?)
    && forall i :: |s| - p <= i < |s| ==> s[i] == '='
  }

  /** Groups of four, with at most two padding characters, all at the end. */
  predicate WellPadded(s: string) {
    |s| % 4 == 0 && (Padded(s, 0) || (|s| > 0 && (Padded(s, 1) || Padded(s, 2))))
  }

  predicate FullStart(s: string) {
    |s| >= 4 && Value(s[0]).Some? && Value(s[1]).Some? && Value(s[2]).Some? && Value(s[3]).Some?
  }

  lemma PaddedTail(s: string, p: nat)
    requires |s| >= 8 && p <= 2
    ensures Padded(s, p) <==> FullStart(s) && Padded(s[4..], p)
  {
    if FullStart(s) && Padded(s[4..], p) {
      forall i | 0 <= i < |s| - p ensures Value(s[i]).Some? {
        assert i >= 4 ==> s[i] == s[4..][i - 4];
      }
      forall i | |s| - p <= i < |s| ensures s[i] == '=' {
        assert s[i] == s[4..][i - 4];
      }
    }
  }

  lemma LongWellPadded(s: string)
    requires |s| >= 8
    ensures WellPadded(s) <==> FullStart(s) && WellPadded(s[4..])
  {
    PaddedTail(s, 0);
    PaddedTail(s, 1);
    PaddedTail(s, 2);
  }

  lemma LongDecodes(s: string)
    requires |s| > 4
    ensures DecodeGroups(s).Some? <==> FullStart(s) && DecodeGroups(s[4..]).Some?
  {
  }

  lemma OneGroup(s: string)
    requires |s| == 4
    ensures DecodeGroups(s).Some? <==> WellPadded(s)
  {
    assert DecodeGroups(s[4..]) == Some([]);
    assert Padded(s, 0) <==> FullStart(s);
  }

  /** Exactly those can be decoded. */
  lemma {:induction false} DecodableIff(s: string)
    ensures DecodeGroups(s).Some? <==> WellPadded(s)
    decreases |s|
  {
    if |s| > 4 {
      DecodableIff(s[4..]);
      LongDecodes(s);
      if |s| >= 8 {
        LongWellPadded(s);
      }
    } else if |s| == 4 {
      OneGroup(s);
    }
  }

  /** Line breaks are skipped wherever they are. */
  lemma {:induction false} BreaksAreSkipped(s: string, t: string)
    ensures WithoutBreaks(s + "\n" + t) == WithoutBreaks(s + "\r" + t) == WithoutBreaks(s + t)
  {
    if |s| == 0 {
      assert (s + "\n" + t)[1..] == t && (s + "\r" + t)[1..] == t && s + t == t;
    } else {
      BreaksAreSkipped(s[1..], t);
      assert (s + "\n" + t)[1..] == s[1..] + "\n" + t && (s + "\r" + t)[1..] == s[1..] + "\r" + t;
      assert (s + t)[1..] == s[1..] + t;
    }
  }
}

/** Decimal identifiers as `%d` prints them and `strconv.ParseInt(s, 10, 64)` reads them. */
module Decimal {
  import opened Bridge

  const MAX_INT64 := 0x7FFF_FFFF_FFFF_FFFF

  function DigitChar(d: int): char
    requires 0 <= d < 10
  {
    '0' + d as char
  }

  function PrintNat(n: nat): string {
    if n < 10 then [DigitChar(n)] else PrintNat(n / 10) + [DigitChar(n % 10)]
  }

  function Print(n: int): string {
    if n < 0 then "-" + PrintNat(-n) else PrintNat(n)
  }

  predicate IsDigit(c: char) { '0' <= c <= '9' }

  function DigitValue(c: char): (d: nat)
    requires IsDigit(c)
  {
    c as int - '0' as int
  }

  predicate AllDigits(s: string) {
    forall i :: 0 <= i < |s| ==> IsDigit(s[i])
  }

  function NatValue(s: string): nat
    requires AllDigits(s)
  {
    if |s| == 0 then 0 else NatValue(s[..|s| - 1]) * 10 + DigitValue(s[|s| - 1])
  }

  /** An optional sign and at least one digit, within 64 bits. */
  function Parse(s: string): Option<int> {
    var digits := if |s| > 0 && (s[0] == '-' || s[0] == '+') then s[1..] else s;
    if |digits| == 0 || !AllDigits(digits) then None
    else
      var value := (if s[0] == '-' then -1 else 1) * NatValue(digits);
      if -MAX_INT64 - 1 <= value <= MAX_INT64 then Some(value) else None
  }

  lemma {:induction false} PrintedDigits(n: nat)
    ensures |PrintNat(n)| >= 1 && AllDigits(PrintNat(n))
    ensures NatValue(PrintNat(n)) == n
    decreases n
  {
    if n >= 10 {
      PrintedDigits(n / 10);
      assert PrintNat(n)[..|PrintNat(n)| - 1] == PrintNat(n / 10);
    }
  }

  /** Every 64-bit identifier is read back as printed. */
  lemma RoundTrip(n: int)
    requires -MAX_INT64 - 1 <= n <= MAX_INT64
    ensures Parse(Print(n)) == Some(n)
    ensures ':' !in Print(n)
  {
    if n < 0 {
      PrintedDigits(-n);
      assert Print(n)[1..] == PrintNat(-n);
    } else {
      PrintedDigits(n);
      assert IsDigit(PrintNat(n)[0]);
    }
    forall i | 0 <= i < |Print(n)| ensures Print(n)[i] != ':' {
      if n < 0 && i > 0 {
        assert Print(n)[i] == PrintNat(-n)[i - 1];
      }
    }
  }

  lemma Digits105()
    ensures PrintNat(105) == "105" && AllDigits("105") && NatValue("105") == 105
  {
    PrintedDigits(105);
    assert PrintNat(10) == "10";
  }

  /** Numbers as they are usually written, what else is read, and what is refused. */
  lemma Examples()
    ensures Print(-105) == "-105" && Parse("+105") == Some(105)
    ensures Parse("") == None && Parse("-") == None && Parse("1x") == None
  {
    Digits105();
    assert "+105"[1..] == "105";
    assert !IsDigit("1x"[1]);
  }

  /** Numbers beyond 64 bits are refused. */
  lemma TooLarge(n: nat)
    ensures Parse(PrintNat(n)) == if n <= MAX_INT64 then Some(n) else None
  {
    PrintedDigits(n);
    assert IsDigit(PrintNat(n)[0]);
  }
}

/** Access tokens (`CreateUserToken` and `CheckUserToken` in `oiajudge/pkg/oiajudge/store.go`). */
module Tokens {
  import opened Bridge
  import opened Strings
  import Base64
  import Decimal

  type Secret = seq<Base64.Byte>

  datatype TokenRow = TokenRow(userId: Id, secret: Secret)

  datatype CheckResult = Valid | Malformed | Unknown | Forbidden

  function Mint(id: Id, secret: Secret): string {
    Decimal.Print(id) + ":" + Base64.Encode(secret)
  }

  /** The two halves of a token, decoded. */
  function ParseToken(token: string): Option<(Id, Secret)> {
    var v := Split(token, ":");
    if |v| != 2 then None
    else
      match (Decimal.Parse(v[0]), Base64.Decode(v[1]))
      case (Some(id), Some(secret)) => Some((id, secret))
      case _ => None
  }

  /** Splitting and decoding a printed token gives back its id and its bytes. */
  lemma TokenRoundTrip(id: Id, secret: Secret)
    requires -Decimal.MAX_INT64 - 1 <= id <= Decimal.MAX_INT64
    ensures ParseToken(Mint(id, secret)) == Some((id, secret))
  {
    Decimal.RoundTrip(id);
    Base64.RoundTrip(secret);
    Base64.EncodeIsPlain(secret);
    forall i | 0 <= i < |Base64.Encode(secret)| ensures Base64.Encode(secret)[i] != ':' {
      assert Base64.Plain(Base64.Encode(secret)[i]);
    }
    SplitAtOnly(Decimal.Print(id), Base64.Encode(secret), ':');
  }

  type TokenRows = map<Id, TokenRow>

  /** The check as a function of the token table. */
  function Check(rows: TokenRows, u: Id, token: string): CheckResult {
    match ParseToken(token)
    case None => Malformed
    case Some((id, secret)) =>
      if id !in rows || rows[id].userId != u then Unknown
      else if rows[id].secret != secret then Forbidden
      else Valid
  }

  /** A minted token passes for a user exactly while its row exists, is that user's and holds the
      secret; it is never malformed. */
  lemma MintedTokenPassesIff(rows: TokenRows, u: Id, id: Id, secret: Secret)
    requires -Decimal.MAX_INT64 - 1 <= id <= Decimal.MAX_INT64
    ensures Check(rows, u, Mint(id, secret)) == Valid <==> id in rows && rows[id] == TokenRow(u, secret)
    ensures Check(rows, u, Mint(id, secret)) != Malformed
  {
    TokenRoundTrip(id, secret);
  }

  /** Tokens minted for different rows or secrets are different strings. */
  lemma MintIsInjective(id: Id, secret: Secret, id': Id, secret': Secret)
    requires -Decimal.MAX_INT64 - 1 <= id <= Decimal.MAX_INT64
    requires -Decimal.MAX_INT64 - 1 <= id' <= Decimal.MAX_INT64
    requires Mint(id, secret) == Mint(id', secret')
    ensures id == id' && secret == secret'
  {
    TokenRoundTrip(id, secret);
    TokenRoundTrip(id', secret');
  }

  class TokenTable {
    var users: set<Id>
    var rows: TokenRows

    constructor (users: set<Id>)
      ensures this.users == users && rows == map[]
    {
      this.users, rows := users, map[];
    }

    /** `secret` is what the random source gives and `id` what the sequence gives; the insert needs
        the user (foreign key). */
    method CreateUserToken(u: Id, id: Id, secret: Secret) returns (t: string, error: bool)
      requires id !in rows
      modifies this`rows
      ensures error <==> u !in users
      ensures error ==> rows == old(rows)
      ensures !error ==> rows == old(rows)[id := TokenRow(u, secret)] && t == Mint(id, secret)
      ensures !error && -Decimal.MAX_INT64 - 1 <= id <= Decimal.MAX_INT64 ==> Check(rows, u, t) == Valid
    {
      t, error := "", u !in users;
      if !error {
        rows := rows[id := TokenRow(u, secret)];
        t := Decimal.Print(id) + ":" + Base64.Encode(secret);
        if -Decimal.MAX_INT64 - 1 <= id <= Decimal.MAX_INT64 {
          MintedTokenPassesIff(rows, u, id, secret);
        }
      }
    }

    /** Malformed unless there are exactly two parts and both can be decoded; unknown when no row has
        the id for this user; forbidden when the row's secret differs. */
    method CheckUserToken(u: Id, token: string) returns (r: CheckResult)
      ensures r == Check(rows, u, token)
      ensures var v := Split(token, ":");
              && (|v| != 2 ==> r == Malformed)
              && (|v| == 2 ==>
                    var id, value := Decimal.Parse(v[0]), Base64.Decode(v[1]);
                    && (r == Malformed <==> id.None? || value.None?)
                    && (r == Unknown <==> id.Some? && value.Some? && !(id.value in rows && rows[id.value].userId == u))
                    && (r == Forbidden <==> && id.Some? && value.Some? && id.value in rows
                                            && rows[id.value].userId == u && rows[id.value].secret != value.value)
                    && (r == Valid <==> && id.Some? && value.Some? && id.value in rows
                                        && rows[id.value] == TokenRow(u, value.value)))
    {
      var v := Split(token, ":");
      if |v| != 2 {
        return Malformed;
      }
      var id := Decimal.Parse(v[0]);
      if id.None? {
        return Malformed;
      }
      var value := Base64.Decode(v[1]);
      if value.None? {
        return Malformed;
      }
      if id.value !in rows || rows[id.value].userId != u {
        return Unknown;
      }
      var equal := ConstantTimeCompare(rows[id.value].secret, value.value);
      r := if equal then Valid else Forbidden;
    }
  }

  /** Lengths first, then every byte is looked at whether or not an earlier one differed. */
  method ConstantTimeCompare(x: Secret, y: Secret) returns (equal: bool)
    ensures equal <==> x == y
  {
    if |x| != |y| {
      return false;
    }
    equal := true;
    for i := 0 to |x|
      invariant equal <==> x[..i] == y[..i]
    {
      assert x[..i + 1] == x[..i] + [x[i]] && y[..i + 1] == y[..i] + [y[i]];
      equal := (x[i] == y[i]) && equal;
    }
    assert x[..|x|] == x && y[..|y|] == y;
  }
}
