/** The content a webhook signature covers: timestamp, a dot, the body (src/indexer/mod.rs). */
module Framing {
  import opened Base

  const DOT: byte := 46
  const MINUS: byte := 45
  const ZERO: byte := 48

  /** ASCII decimal digits without leading zeros. */
  function Digits(n: nat): seq<byte> {
    if n < 10 then [ZERO + n] else Digits(n / 10) + [ZERO + n % 10]
  }

  /** A signed number in decimal. */
  function Decimal(t: int): seq<byte> {
    if t < 0 then [MINUS] + Digits(-t) else Digits(t)
  }

  function Frame(timestamp: i64, body: seq<byte>): seq<byte> {
    Decimal(timestamp) + [DOT] + body
  }

  lemma {:induction false} DigitsAreDigits(n: nat)
    ensures Digits(n) != [] && forall b <- Digits(n) :: ZERO <= b < ZERO + 10
  {
    if n < 10 {
    } else {
      DigitsAreDigits(n / 10);
    }
  }

  lemma {:induction false} DigitsAreInjective(m: nat, n: nat)
    requires Digits(m) == Digits(n)
    ensures m == n
  {
    var a, b := Digits(m), Digits(n);
    assert a[|a| - 1] == ZERO + m % 10 && b[|b| - 1] == ZERO + n % 10;
    if m >= 10 { DigitsAreDigits(m / 10); }
    if n >= 10 { DigitsAreDigits(n / 10); }
    if m >= 10 && n >= 10 {
      assert a[..|a| - 1] == Digits(m / 10) && b[..|b| - 1] == Digits(n / 10);
      DigitsAreInjective(m / 10, n / 10);
    }
  }

  lemma DecimalIsPlain(t: int, mark: byte)
    requires mark != MINUS && !(ZERO <= mark < ZERO + 10)
    ensures mark !in Decimal(t)
  {
    DigitsAreDigits(if t < 0 then -t else t);
  }

  lemma DecimalIsInjective(s: int, t: int)
    requires Decimal(s) == Decimal(t)
    ensures s == t
  {
    DigitsAreDigits(if s < 0 then -s else s);
    DigitsAreDigits(if t < 0 then -t else t);
    assert Decimal(s)[0] in Decimal(s) && Decimal(t)[0] in Decimal(t);
    if s < 0 && t < 0 {
      assert Decimal(s)[1..] == Digits(-s) && Decimal(t)[1..] == Digits(-t);
      DigitsAreInjective(-s, -t);
    } else if s >= 0 && t >= 0 {
      DigitsAreInjective(s, t);
    }
  }

  lemma NotBefore(mark: byte, f: seq<byte>, x: seq<byte>, a: seq<byte>, y: seq<byte>, b: seq<byte>)
    requires f == x + [mark] + a == y + [mark] + b && mark !in y
    ensures |y| <= |x|
  {
    assert f[|x|] == mark;
    forall i | 0 <= i < |y| ensures f[i] != mark {
      assert f[i] == y[i] && y[i] in y;
    }
  }

  /** What stands before the first mark and what after it. */
  lemma SplitAtMark(mark: byte, x: seq<byte>, a: seq<byte>, y: seq<byte>, b: seq<byte>)
    requires x + [mark] + a == y + [mark] + b && mark !in x && mark !in y
    ensures x == y && a == b
  {
    var f := x + [mark] + a;
    NotBefore(mark, f, x, a, y, b);
    NotBefore(mark, f, y, b, x, a);
    assert f[..|x|] == x && f[..|y|] == y;
    assert f[|x| + 1..] == a && f[|y| + 1..] == b;
  }

  /** The signed bytes determine both the timestamp and the body. */
  lemma FrameIsInjective(s: i64, a: seq<byte>, t: i64, b: seq<byte>)
    requires Frame(s, a) == Frame(t, b)
    ensures s == t && a == b
  {
    DecimalIsPlain(s, DOT);
    DecimalIsPlain(t, DOT);
    SplitAtMark(DOT, Decimal(s), a, Decimal(t), b);
    DecimalIsInjective(s, t);
  }

  // ----- the body of a delivery -----

  const COMMA: byte := 44

  predicate IsAscii(s: string) { forall i | 0 <= i < |s| :: s[i] as int < 128 }

  /** The bytes of a text without characters beyond ASCII. */
  function Ascii(s: string): (bytes: seq<byte>)
    requires IsAscii(s)
    ensures |bytes| == |s| && forall i | 0 <= i < |s| :: bytes[i] == s[i] as int
  {
    if s == "" then []
    else
      var code: byte := s[0] as int;
      [code] + Ascii(s[1..])
  }

  lemma AsciiIsInjective(s: string, t: string)
    requires IsAscii(s) && IsAscii(t) && Ascii(s) == Ascii(t)
    ensures s == t
  {
    assert |s| == |Ascii(s)| == |Ascii(t)| == |t|;
    forall i | 0 <= i < |s| ensures s[i] == t[i] {
      assert Ascii(s)[i] == s[i] as int && Ascii(t)[i] == t[i] as int;
    }
  }

  /** Lower-case words joined by underscores: nothing that JSON would escape. */
  predicate IsWords(name: string) {
    forall i | 0 <= i < |name| :: 'a' <= name[i] <= 'z' || name[i] == '_'
  }

  /** `{"escrow_id":`, `"event":"` and `"}`, in ASCII. */
  const OPEN: seq<byte> := [123, 34, 101, 115, 99, 114, 111, 119, 95, 105, 100, 34, 58]
  const EVENT_KEY: seq<byte> := [34, 101, 118, 101, 110, 116, 34, 58, 34]
  const CLOSE: seq<byte> := [34, 125]

  /** The JSON object with the escrow and the event; names made of words need no escaping. */
  function Payload(escrow: i64, name: string): seq<byte>
    requires IsWords(name)
  {
    OPEN + Decimal(escrow) + [COMMA] + (EVENT_KEY + Ascii(name) + CLOSE)
  }

  /** A body tells both the escrow and the event. */
  lemma PayloadIsInjective(e: i64, m: string, f: i64, n: string)
    requires IsWords(m) && IsWords(n) && Payload(e, m) == Payload(f, n)
    ensures e == f && m == n
  {
    hide Decimal, Ascii;
    var x, y := EVENT_KEY + Ascii(m) + CLOSE, EVENT_KEY + Ascii(n) + CLOSE;
    DecimalIsPlain(e, COMMA);
    DecimalIsPlain(f, COMMA);
    assert Payload(e, m)[|OPEN|..] == Decimal(e) + [COMMA] + x;
    assert Payload(f, n)[|OPEN|..] == Decimal(f) + [COMMA] + y;
    SplitAtMark(COMMA, Decimal(e), x, Decimal(f), y);
    DecimalIsInjective(e, f);
    assert x[|EVENT_KEY|..|x| - |CLOSE|] == Ascii(m) && y[|EVENT_KEY|..|y| - |CLOSE|] == Ascii(n);
    AsciiIsInjective(m, n);
  }

  // ----- reading it back -----

  /** What a string of decimal digits says, read from the left. */
  function ReadFrom(acc: nat, digits: seq<byte>): int
    decreases |digits|
  {
    if digits == [] then acc
    else if 48 <= digits[0] < 58 then ReadFrom(10 * acc + (digits[0] - 48), digits[1..])
    else -1
  }

  /** What a decimal text says, with a leading minus sign for negatives. */
  function ReadDecimal(text: seq<byte>): int {
    if text != [] && text[0] == 45 then -ReadFrom(0, text[1..]) else ReadFrom(0, text)
  }

  lemma {:induction false} ReadSnoc(acc: nat, digits: seq<byte>, b: byte)
    requires (forall d <- digits :: 48 <= d < 58) && 48 <= b < 58
    ensures ReadFrom(acc, digits) >= 0
    ensures ReadFrom(acc, digits + [b]) == 10 * ReadFrom(acc, digits) + (b - 48)
    decreases |digits|
  {
    if digits == [] {
      assert digits + [b] == [b] && [b][1..] == [];
    } else {
      assert digits[0] in digits && forall d <- digits[1..] :: d in digits;
      assert (digits + [b])[0] == digits[0] && (digits + [b])[1..] == digits[1..] + [b];
      ReadSnoc(10 * acc + (digits[0] - 48), digits[1..], b);
    }
  }

  lemma {:induction false} DigitsReadBack(n: nat)
    ensures ReadFrom(0, Digits(n)) == n
    ensures |Digits(n)| > 1 ==> Digits(n)[0] != 48
    ensures n > 0 ==> Digits(n)[0] != 48
    decreases n
  {
    if n < 10 {
      assert Digits(n)[1..] == [];
    } else {
      DigitsReadBack(n / 10);
      DigitsAreDigits(n / 10);
      ReadSnoc(0, Digits(n / 10), ZERO + n % 10);
    }
  }

  /** The printed text reads back as the number, without a leading zero or a minus sign before zero. */
  lemma DecimalReadsBack(t: int)
    ensures ReadDecimal(Decimal(t)) == t
    ensures t >= 0 ==> Decimal(t)[0] != 45 && (|Decimal(t)| > 1 ==> Decimal(t)[0] != 48)
    ensures t < 0 ==> |Decimal(t)| > 1 && Decimal(t)[0] == 45 && Decimal(t)[1] != 48
  {
    var n := if t < 0 then -t else t;
    DigitsReadBack(n);
    DigitsAreDigits(n);
    assert Digits(n)[0] in Digits(n);
    if t < 0 { assert Decimal(t)[1..] == Digits(n); }
  }

  /** The part of a text before the first byte of this value; all of it if there is none. */
  function Before(text: seq<byte>, mark: byte): (part: seq<byte>)
    ensures part <= text && mark !in part && (|part| < |text| ==> text[|part|] == mark)
  {
    if text == [] || text[0] == mark then [] else [text[0]] + Before(text[1..], mark)
  }

  lemma {:induction false} BeforeIs(text: seq<byte>, part: seq<byte>, mark: byte, rest: seq<byte>)
    requires text == part + [mark] + rest && mark !in part
    ensures Before(text, mark) == part
    decreases |part|
  {
    if part == [] {
      assert text[0] == mark;
    } else {
      assert text[0] == part[0] && part[0] in part;
      assert text[1..] == part[1..] + [mark] + rest;
      BeforeIs(text[1..], part[1..], mark, rest);
    }
  }

  /** Up to the first dot, signed content reads back as its timestamp; after it stands the body. */
  lemma FrameReadsBack(timestamp: i64, body: seq<byte>)
    ensures var text := Before(Frame(timestamp, body), 46);
      && ReadDecimal(text) == timestamp
      && |text| < |Frame(timestamp, body)| && Frame(timestamp, body)[|text| + 1..] == body
  {
    DecimalIsPlain(timestamp, DOT);
    BeforeIs(Frame(timestamp, body), Decimal(timestamp), DOT, body);
    DecimalReadsBack(timestamp);
  }

  /**
   * Reads a number and a text from between three fixed pieces; the number ends at its first comma, the text
   * at its first quotation mark.
   */
  function ReadBetween(body: seq<byte>, open: seq<byte>, middle: seq<byte>, close: seq<byte>): Option<(int,
      seq<byte>)> {
    if !(open <= body) then None
    else
      var number := Before(body[|open|..], 44);
      var rest := body[|open|..][|number|..];
      if !(middle <= rest) then None
      else
        var text := Before(rest[|middle|..], 34);
        if rest[|middle|..][|text|..] == close then Some((ReadDecimal(number), text)) else None
  }

  lemma SkipPart(a: seq<byte>, b: seq<byte>)
    ensures a <= a + b && (a + b)[|a|..] == b
  {
  }

  lemma ReadsBetween(open: seq<byte>, n: int, middle: seq<byte>, text: seq<byte>, close: seq<byte>)
    requires middle != [] && middle[0] == 44 && close != [] && close[0] == 34 && 34 !in text
    ensures ReadBetween(open + (Decimal(n) + (middle + (text + close))), open, middle, close) == Some((n, text))
  {
    hide Decimal, Before, ReadDecimal;
    var inner := text + close;
    SkipPart(open, Decimal(n) + (middle + inner));
    SkipPart(Decimal(n), middle + inner);
    SkipPart(middle, inner);
    SkipPart(text, close);
    DecimalIsPlain(n, 44);
    assert Decimal(n) + (middle + inner) == Decimal(n) + [44] + (middle + inner)[1..];
    BeforeIs(Decimal(n) + (middle + inner), Decimal(n), 44, (middle + inner)[1..]);
    DecimalReadsBack(n);
    assert inner == text + [34] + close[1..];
    BeforeIs(inner, text, 34, close[1..]);
  }

  lemma NoQuoteInWords(name: string)
    requires IsWords(name)
    ensures 34 !in Ascii(name)
  {
    forall b <- Ascii(name) ensures b != 34 {
      var i :| 0 <= i < |Ascii(name)| && Ascii(name)[i] == b;
      assert name[i] as int == b;
    }
  }

  /**
   * A delivery body is the text of a JSON object with these two members: this escrow, and this event.  The
   * fixed pieces are `{"escrow_id":`, `,"event":"` and `"}`.
   */
  lemma BodyReadsBack(escrow: i64, name: string)
    requires IsWords(name)
    ensures ReadBetween(Payload(escrow, name),
                        [123, 34, 101, 115, 99, 114, 111, 119, 95, 105, 100, 34, 58],
                        [44, 34, 101, 118, 101, 110, 116, 34, 58, 34],
                        [34, 125]) == Some((escrow as int, Ascii(name)))
  {
    hide Decimal, ReadBetween, Ascii;
    NoQuoteInWords(name);
    var middle: seq<byte> := [44, 34, 101, 118, 101, 110, 116, 34, 58, 34];
    assert middle == [COMMA] + EVENT_KEY;
    assert Payload(escrow, name) == OPEN + (Decimal(escrow) + (middle + (Ascii(name) + CLOSE)));
    ReadsBetween(OPEN, escrow, middle, Ascii(name), CLOSE);
  }

  /** The running input of a MAC computation. */
  class Mac {
    const key: string
    var input: seq<byte>

    constructor (key: string)
      ensures this.key == key && input == []
    {
      this.key := key;
      input := [];
    }

    method Update(bytes: seq<byte>)
      modifies this
      ensures input == old(input) + bytes
    {
      input := input + bytes;
    }
  }

  /** Feeds the three parts one after the other; the MAC is computed over exactly the frame. */
  method SignPayload(secret: string, timestamp: i64, body: seq<byte>) returns (mac: Mac)
    ensures fresh(mac) && mac.key == secret && mac.input == Frame(timestamp, body)
  {
    mac := new Mac(secret);
    mac.Update(Decimal(timestamp));
    mac.Update([DOT]);
    mac.Update(body);
  }
}
