/** Contract values and their decoding (src/indexer/decode.rs). */
module Decode {
  import opened Base

  /** An address, carrying the strkey text of its raw bytes; other address kinds have no text. */
  datatype ScAddress = Account(strkey: string) | Contract(strkey: string) | OtherAddress

  datatype Entry = Entry(key: ScVal, val: ScVal)

  /** The value kinds the decoder looks at; all others are `OtherKind`. */
  datatype ScVal =
    | U32(u32: u32)
    | U64(u64: u64)
    | I128(hi: i64, lo: u64)
    | Bytes(bytes: seq<byte>)
    | Text(text: string)
    | Symbol(symbol: string)
    | Vec(items: Option<seq<ScVal>>)
    | Map(entries: Option<seq<Entry>>)
    | Address(address: ScAddress)
    | OtherKind(tag: nat)

  datatype DecodeError =
    | Undecodable
    | NoTopics
    | NoEscrowTopic
    | WrongKind(expected: string)
    | UnsupportedAddress
    | MissingField(field: string)
    | EmptyResolution
    | MissingBps
    | UnknownVariant(variant: string)
    | TimestampOutOfRange(secs: u64)

  type Decoded<T> = Result<T, DecodeError>

  function ToAddress(val: ScVal): Decoded<string> {
    if !val.Address? then Err(WrongKind("Address"))
    else if val.address.OtherAddress? then Err(UnsupportedAddress)
    else Ok(val.address.strkey)
  }

  function ToU32(val: ScVal): Decoded<u32> {
    if val.U32? then Ok(val.u32) else Err(WrongKind("U32"))
  }

  function ToU64(val: ScVal): Decoded<u64> {
    if val.U64? then Ok(val.u64) else Err(WrongKind("U64"))
  }

  function ToText(val: ScVal): Decoded<string> {
    match val
    case Symbol(s) => Ok(s)
    case Text(s) => Ok(s)
    case _ => Err(WrongKind("Symbol or String"))
  }

  function EmptyAsNone(s: string): Option<string> {
    if s == "" then None else Some(s)
  }

  // ----- 128-bit amounts -----

  const TWO_127: int := 0x8000_0000_0000_0000_0000_0000_0000_0000
  const TWO_128: int := 0x1_0000_0000_0000_0000_0000_0000_0000_0000

  /** Two's-complement bit pattern of a signed 128-bit value. */
  function Pattern128(v: int): nat
    requires -TWO_127 <= v < TWO_127
  {
    if v < 0 then v + TWO_128 else v
  }

  function Signed128(p: nat): int
    requires p < TWO_128
  {
    if p < TWO_127 then p else p - TWO_128
  }

  /** Bitwise or, one binary digit at a time. */
  function BitOr(a: nat, b: nat): nat
    decreases a + b
  {
    if a == 0 && b == 0 then 0
    else 2 * BitOr(a / 2, b / 2) + (if a % 2 == 1 || b % 2 == 1 then 1 else 0)
  }

  /** `((hi as i128) << 64) | (lo as i128)`. */
  function FromParts(hi: i64, lo: u64): int {
    var shifted: nat := Pattern128(hi) * TWO_64 % TWO_128;
    Signed128(BitOr(shifted, lo) % TWO_128)
  }

  function ToI128(val: ScVal): Decoded<int> {
    if val.I128? then Ok(FromParts(val.hi, val.lo)) else Err(WrongKind("I128"))
  }

  function Pow2(n: nat): nat { if n == 0 then 1 else 2 * Pow2(n - 1) }

  lemma {:induction false} BitOrZero(b: nat)
    ensures BitOr(0, b) == b
    decreases b
  {
    if b == 0 {
    } else {
      BitOrZero(b / 2);
    }
  }

  /** Or-ing a value below 2^n into a multiple of 2^n is addition. */
  lemma {:induction false} BitOrDisjoint(a: nat, b: nat, n: nat)
    requires b < Pow2(n)
    ensures BitOr(a * Pow2(n), b) == a * Pow2(n) + b
    decreases n
  {
    if n == 0 {
      BitOrComm(a, 0);
      BitOrZero(a);
    } else {
      var p := Pow2(n - 1);
      assert a * Pow2(n) == 2 * (a * p);
      BitOrDisjoint(a, b / 2, n - 1);
      if a * Pow2(n) != 0 || b != 0 {
        assert (2 * (a * p)) / 2 == a * p && (2 * (a * p)) % 2 == 0;
      }
    }
  }

  lemma {:induction false} BitOrComm(a: nat, b: nat)
    ensures BitOr(a, b) == BitOr(b, a)
    decreases a + b
  {
    if a != 0 || b != 0 { BitOrComm(a / 2, b / 2); }
  }

  lemma Pow2Of64()
    ensures Pow2(64) == TWO_64
  {
    assert Pow2(8) == 0x100;
    Pow2Add(8, 8); Pow2Add(16, 16); Pow2Add(32, 32);
  }

  lemma {:induction false} Pow2Add(a: nat, b: nat)
    ensures Pow2(a + b) == Pow2(a) * Pow2(b)
    decreases a
  {
    if a == 0 {
    } else {
      Pow2Add(a - 1, b);
    }
  }

  /** The shift keeps the low word of the sign-extended pattern. */
  lemma ShiftedPattern(hi: i64) returns (h: nat)
    ensures h == (if hi < 0 then hi + TWO_64 else hi)
    ensures Pattern128(hi) * TWO_64 % TWO_128 == h * TWO_64 < TWO_128
  {
    h := if hi < 0 then hi + TWO_64 else hi;
    var x, q := Pattern128(hi) * TWO_64, if hi < 0 then TWO_64 - 1 else 0;
    assert x == q * TWO_128 + h * TWO_64;
    assert 0 <= h * TWO_64 < TWO_128;
    RemainderIs(x, q, h * TWO_64);
  }

  lemma RemainderIs(x: nat, q: nat, r: nat)
    requires x == q * TWO_128 + r && r < TWO_128
    ensures x % TWO_128 == r
  {
  }

  /** The shift-and-or of the two words is the number they encode. */
  lemma AmountFromParts(hi: i64, lo: u64)
    ensures FromParts(hi, lo) == hi * TWO_64 + lo
    ensures -TWO_127 <= FromParts(hi, lo) < TWO_127
  {
    var h := ShiftedPattern(hi);
    Pow2Of64();
    BitOrDisjoint(h, lo, 64);
    var sum := h * TWO_64 + lo;
    RemainderIs(sum, 0, sum);
  }

  /** The words of an amount. */
  function ToParts(v: int): (parts: (i64, u64))
    requires -TWO_127 <= v < TWO_127
  {
    (v / TWO_64, v % TWO_64)
  }

  /** Decoding is a bijection onto the signed 128-bit range, and every amount fits NUMERIC(39, 0). */
  lemma AmountsAreExact(hi: i64, lo: u64, v: int)
    requires -TWO_127 <= v < TWO_127
    ensures ToParts(v).0 * TWO_64 + ToParts(v).1 == v
    ensures FromParts(ToParts(v).0, ToParts(v).1) == v
    ensures -TWO_127 <= FromParts(hi, lo) < TWO_127 && ToParts(FromParts(hi, lo)) == (hi, lo)
    ensures -1_000_000_000_000_000_000_000_000_000_000_000_000_000 < FromParts(hi, lo)
          < 1_000_000_000_000_000_000_000_000_000_000_000_000_000
  {
    AmountFromParts(hi, lo);
    AmountFromParts(ToParts(v).0, ToParts(v).1);
  }

  // ----- bytes as hex -----

  const HEX_DIGITS: string := "0123456789abcdef"

  function Hex(bytes: seq<byte>): string {
    if bytes == [] then ""
    else [HEX_DIGITS[bytes[0] / 16], HEX_DIGITS[bytes[0] % 16]] + Hex(bytes[1..])
  }

  function ToHex(val: ScVal): Decoded<string> {
    if val.Bytes? then Ok(Hex(val.bytes)) else Err(WrongKind("Bytes"))
  }

  lemma HexDigitsDiffer(i: nat, j: nat)
    requires i < 16 && j < 16 && HEX_DIGITS[i] == HEX_DIGITS[j]
    ensures i == j
  {
  }

  lemma HexStep(a: seq<byte>)
    requires a != []
    ensures |Hex(a)| >= 2 && Hex(a)[0] == HEX_DIGITS[a[0] / 16] && Hex(a)[1] == HEX_DIGITS[a[0] % 16]
    ensures Hex(a)[2..] == Hex(a[1..])
  {
  }

  /** No two byte strings share a rendering. */
  lemma {:induction false} HexIsInjective(a: seq<byte>, b: seq<byte>)
    requires Hex(a) == Hex(b)
    ensures a == b
    decreases |a|
  {
    hide Hex;
    if a == [] || b == [] {
      HexOfNothing(a);
      HexOfNothing(b);
    } else {
      HexStep(a);
      HexStep(b);
      HexDigitsDiffer(a[0] / 16, b[0] / 16);
      HexDigitsDiffer(a[0] % 16, b[0] % 16);
      assert a[0] == 16 * (a[0] / 16) + a[0] % 16 && b[0] == 16 * (b[0] / 16) + b[0] % 16;
      HexIsInjective(a[1..], b[1..]);
      assert a == [a[0]] + a[1..] && b == [b[0]] + b[1..];
    }
  }

  /** Two digits a byte, the high half first, in lower case. */
  lemma {:induction false} HexIsExact(a: seq<byte>)
    ensures |Hex(a)| == 2 * |a|
    ensures forall i | 0 <= i < |a| ::
              Hex(a)[2 * i] == "0123456789abcdef"[a[i] / 16] && Hex(a)[2 * i + 1] == "0123456789abcdef"[a[i] % 16]
    decreases |a|
  {
    hide Hex;
    HexOfNothing(a);
    if a != [] {
      HexStep(a);
      HexIsExact(a[1..]);
      forall i | 0 <= i < |a|
        ensures Hex(a)[2 * i] == "0123456789abcdef"[a[i] / 16]
                && Hex(a)[2 * i + 1] == "0123456789abcdef"[a[i] % 16]
      {
        if i > 0 { assert Hex(a)[2 * i] == Hex(a[1..])[2 * (i - 1)] && a[i] == a[1..][i - 1]; }
      }
    }
  }

  lemma HexOfNothing(a: seq<byte>)
    ensures Hex(a) == [] <==> a == []
  {
  }

  // ----- timestamps -----

  const MIN_DATETIME: int := -8_334_601_228_800
  const MAX_DATETIME: int := 8_210_266_876_799

  /** Ledger seconds as a date-time (seconds since the epoch); the cast to i64 comes first. */
  function ToDateTime(secs: u64): Decoded<int> {
    var s := U64AsI64(secs);
    if MIN_DATETIME <= s <= MAX_DATETIME then Ok(s) else Err(TimestampOutOfRange(secs))
  }

  /**
   * Which timestamps are accepted, from the start of the year -262143 to the end of the year 262142, and
   * that the topmost ones come out before 1970.
   */
  lemma DateTimeRange(secs: u64)
    ensures ToDateTime(secs).Ok? <==> secs <= 8_210_266_876_799 || secs >= 0x1_0000_0000_0000_0000 - 8_334_601_228_800
    ensures secs <= 8_210_266_876_799 ==> ToDateTime(secs) == Ok(secs)
    ensures secs >= 0x1_0000_0000_0000_0000 - 8_334_601_228_800 ==>
              ToDateTime(secs) == Ok(secs - 0x1_0000_0000_0000_0000) && secs - 0x1_0000_0000_0000_0000 < 0
    ensures ToDateTime(secs).Err? ==> ToDateTime(secs) == Err(TimestampOutOfRange(secs))
  {
  }

  // ----- maps -----

  predicate Names(e: Entry, field: string) { e.key == Symbol(field) }

  function Find(entries: seq<Entry>, field: string): Decoded<ScVal> {
    if entries == [] then Err(MissingField(field))
    else if Names(entries[0], field) then Ok(entries[0].val)
    else Find(entries[1..], field)
  }

  function MapGet(val: ScVal, field: string): Decoded<ScVal> {
    if val.Map? && val.entries.Some? then Find(val.entries.value, field) else Err(WrongKind("Map"))
  }

  /** The lookup returns the first entry under that symbol, and fails only when there is none. */
  lemma {:induction false} FindIsFirst(entries: seq<Entry>, field: string)
    ensures Find(entries, field).Ok? <==> exists i | 0 <= i < |entries| :: Names(entries[i], field)
    ensures forall i | 0 <= i < |entries| && Names(entries[i], field)
                    && (forall j | 0 <= j < i :: !Names(entries[j], field)) ::
              Find(entries, field) == Ok(entries[i].val)
  {
    if entries == [] || Names(entries[0], field) {
    } else {
      var rest := entries[1..];
      FindIsFirst(rest, field);
      forall i | 0 <= i < |entries| && Names(entries[i], field) && (forall j | 0 <= j < i :: !Names(entries[j], field))
        ensures Find(entries, field) == Ok(entries[i].val)
      {
        assert rest[i - 1] == entries[i];
        forall j | 0 <= j < i - 1 ensures !Names(rest[j], field) { assert rest[j] == entries[j + 1]; }
      }
      if i :| 0 <= i < |entries| && Names(entries[i], field) { assert rest[i - 1] == entries[i]; }
    }
  }

  /** No field is named twice. */
  predicate DistinctFields(entries: seq<Entry>) {
    forall i, j | 0 <= i < j < |entries| :: entries[i].key != entries[j].key
  }

  /** With distinct fields, an entry anywhere in the map is what the lookup finds. */
  lemma FindEntry(entries: seq<Entry>, field: string, val: ScVal)
    requires DistinctFields(entries) && Entry(Symbol(field), val) in entries
    ensures Find(entries, field) == Ok(val)
  {
    FindIsFirst(entries, field);
    var i :| 0 <= i < |entries| && entries[i] == Entry(Symbol(field), val);
    assert Names(entries[i], field);
  }

  /** Reordering distinct fields changes no lookup, found or not. */
  lemma FieldOrderIrrelevant(a: seq<Entry>, b: seq<Entry>, field: string)
    requires DistinctFields(a) && DistinctFields(b) && multiset(a) == multiset(b)
    ensures Find(a, field) == Find(b, field)
  {
    FindIsFirst(a, field);
    FindIsFirst(b, field);
    if i :| 0 <= i < |a| && Names(a[i], field) {
      assert a[i] in multiset(a);
      assert a[i] in multiset(b);
      FindEntry(a, field, a[i].val);
      FindEntry(b, field, a[i].val);
    } else {
      forall j | 0 <= j < |b| ensures !Names(b[j], field) {
        assert b[j] in multiset(b);
        assert b[j] in multiset(a);
      }
      FindMissing(a, field);
      FindMissing(b, field);
    }
  }

  lemma {:induction false} FindMissing(entries: seq<Entry>, field: string)
    requires forall i | 0 <= i < |entries| :: !Names(entries[i], field)
    ensures Find(entries, field) == Err(MissingField(field))
  {
    if entries == [] {
    } else {
      forall i | 0 <= i < |entries[1..]| ensures !Names(entries[1..][i], field) {
        assert entries[1..][i] == entries[i + 1];
      }
      FindMissing(entries[1..], field);
    }
  }

  lemma {:induction false} FoundIsThere(entries: seq<Entry>, field: string)
    requires Find(entries, field).Ok?
    ensures Entry(Symbol(field), Find(entries, field).value) in entries
  {
    if !Names(entries[0], field) { FoundIsThere(entries[1..], field); }
  }

  // ----- milestones -----

  datatype Milestone = Milestone(id: u32, description: string, amount: int, deadline: u64)

  function DecodeMilestone(entry: ScVal): Decoded<Milestone> {
    var id := MapGet(entry, "id");
    if id.Err? then Err(id.error) else
    var id := ToU32(id.value);
    if id.Err? then Err(id.error) else
    var description := MapGet(entry, "description");
    if description.Err? then Err(description.error) else
    var description := ToText(description.value);
    if description.Err? then Err(description.error) else
    var amount := MapGet(entry, "amount");
    if amount.Err? then Err(amount.error) else
    var amount := ToI128(amount.value);
    if amount.Err? then Err(amount.error) else
    var deadline := MapGet(entry, "deadline");
    if deadline.Err? then Err(deadline.error) else
    var deadline := ToU64(deadline.value);
    if deadline.Err? then Err(deadline.error) else
    Ok(Milestone(id.value, description.value, amount.value, deadline.value))
  }

  function DecodeAll(items: seq<ScVal>): Decoded<seq<Milestone>> {
    if items == [] then Ok([])
    else
      var first := DecodeMilestone(items[0]);
      if first.Err? then Err(first.error)
      else
        var rest := DecodeAll(items[1..]);
        if rest.Err? then rest else Ok([first.value] + rest.value)
  }

  function DecodeMilestones(val: ScVal): Decoded<seq<Milestone>> {
    if val.Vec? && val.items.Some? then DecodeAll(val.items.value) else Err(WrongKind("Vec"))
  }

  /** All or nothing: the list decodes to `ms` exactly when each item decodes to its element. */
  lemma {:induction false} DecodesItemwise(items: seq<ScVal>, ms: seq<Milestone>)
    ensures DecodeAll(items) == Ok(ms)
       <==> |ms| == |items| && forall i | 0 <= i < |items| :: DecodeMilestone(items[i]) == Ok(ms[i])
    decreases |items|
  {
    if items == [] {
    } else {
      var rest := items[1..];
      if ms == [] {
      } else {
        DecodesItemwise(rest, ms[1..]);
        assert ms == [ms[0]] + ms[1..];
        if |ms| == |items| && forall i | 0 <= i < |items| :: DecodeMilestone(items[i]) == Ok(ms[i]) {
          assert DecodeMilestone(items[0]) == Ok(ms[0]);
          forall i | 0 <= i < |rest| ensures DecodeMilestone(rest[i]) == Ok(ms[1..][i]) {
            assert rest[i] == items[i + 1];
          }
        }
        if DecodeAll(items) == Ok(ms) {
          var tail := DecodeAll(rest);
          assert ms == [DecodeMilestone(items[0]).value] + tail.value;
          assert ms[1..] == tail.value;
          forall i | 0 <= i < |items| ensures DecodeMilestone(items[i]) == Ok(ms[i]) {
            if i > 0 { assert DecodeMilestone(rest[i - 1]) == Ok(ms[1..][i - 1]); }
          }
        }
      }
    }
  }

  /** One bad item makes the whole list an error. */
  lemma {:induction false} OneBadItemFails(items: seq<ScVal>)
    ensures DecodeAll(items).Err? <==> exists i | 0 <= i < |items| :: DecodeMilestone(items[i]).Err?
    decreases |items|
  {
    if items == [] {
    } else {
      OneBadItemFails(items[1..]);
      if i :| 0 <= i < |items| && DecodeMilestone(items[i]).Err? {
        if i > 0 { assert items[1..][i - 1] == items[i]; }
      }
    }
  }

  /** A map that encodes `m`: the four fields, in any order, among any other distinct fields. */
  predicate Encodes(entries: seq<Entry>, m: Milestone)
    requires -TWO_127 <= m.amount < TWO_127
  {
    DistinctFields(entries)
    && Entry(Symbol("id"), U32(m.id)) in entries
    && Entry(Symbol("description"), Text(m.description)) in entries
    && Entry(Symbol("amount"), I128(ToParts(m.amount).0, ToParts(m.amount).1)) in entries
    && Entry(Symbol("deadline"), U64(m.deadline)) in entries
  }

  /** Each column of a milestone is read from the field of its name. */
  lemma MilestoneIsRead(entries: seq<Entry>, id: u32, description: string, hi: i64, lo: u64, deadline: u64)
    requires forall i, j | 0 <= i < j < |entries| :: entries[i].key != entries[j].key
    requires Entry(Symbol("id"), U32(id)) in entries
    requires Entry(Symbol("description"), Text(description)) in entries
             || Entry(Symbol("description"), Symbol(description)) in entries
    requires Entry(Symbol("amount"), I128(hi, lo)) in entries
    requires Entry(Symbol("deadline"), U64(deadline)) in entries
    ensures DecodeMilestone(Map(Some(entries)))
         == Ok(Milestone(id, description, hi * 0x1_0000_0000_0000_0000 + lo, deadline))
  {
    hide FromParts, Find;
    FindEntry(entries, "id", U32(id));
    if Entry(Symbol("description"), Text(description)) in entries {
      FindEntry(entries, "description", Text(description));
    } else {
      FindEntry(entries, "description", Symbol(description));
    }
    FindEntry(entries, "amount", I128(hi, lo));
    FindEntry(entries, "deadline", U64(deadline));
    AmountFromParts(hi, lo);
  }

  /** Nothing is made up: a milestone is read only from a map that holds its four fields. */
  lemma ReadMilestonesAreThere(val: ScVal, m: Milestone)
    requires DecodeMilestone(val) == Ok(m)
    ensures val.Map? && val.entries.Some?
    ensures Entry(Symbol("id"), U32(m.id)) in val.entries.value
    ensures Entry(Symbol("description"), Text(m.description)) in val.entries.value
            || Entry(Symbol("description"), Symbol(m.description)) in val.entries.value
    ensures exists hi: i64, lo: u64 ::
              && m.amount == hi * 0x1_0000_0000_0000_0000 + lo
              && Entry(Symbol("amount"), I128(hi, lo)) in val.entries.value
    ensures Entry(Symbol("deadline"), U64(m.deadline)) in val.entries.value
  {
    hide FromParts, Find;
    var entries := val.entries.value;
    FoundIsThere(entries, "id");
    FoundIsThere(entries, "description");
    FoundIsThere(entries, "amount");
    FoundIsThere(entries, "deadline");
    var amount := Find(entries, "amount").value;
    AmountFromParts(amount.hi, amount.lo);
  }

  lemma MilestoneRoundTrip(entries: seq<Entry>, m: Milestone)
    requires -TWO_127 <= m.amount < TWO_127 && Encodes(entries, m)
    ensures DecodeMilestone(Map(Some(entries))) == Ok(m)
  {
    FindEntry(entries, "id", U32(m.id));
    FindEntry(entries, "description", Text(m.description));
    FindEntry(entries, "amount", I128(ToParts(m.amount).0, ToParts(m.amount).1));
    FindEntry(entries, "deadline", U64(m.deadline));
    AmountsAreExact(0, 0, m.amount);
  }

  /** Decoding inverts every encoding of a milestone list, whatever the field order and extra fields. */
  lemma MilestonesRoundTrip(maps: seq<seq<Entry>>, ms: seq<Milestone>)
    requires |maps| == |ms|
    requires forall i | 0 <= i < |ms| :: -TWO_127 <= ms[i].amount < TWO_127 && Encodes(maps[i], ms[i])
    ensures DecodeMilestones(Vec(Some(seq(|maps|, i requires 0 <= i < |maps| => Map(Some(maps[i])))))) == Ok(ms)
  {
    var items := seq(|maps|, i requires 0 <= i < |maps| => Map(Some(maps[i])));
    forall i | 0 <= i < |items| ensures DecodeMilestone(items[i]) == Ok(ms[i]) {
      MilestoneRoundTrip(maps[i], ms[i]);
    }
    DecodesItemwise(items, ms);
  }

  // ----- resolutions -----

  datatype Resolution = ReleaseToProvider | RefundToClient | Split(bps: u32)

  /** The stored kind and basis points. */
  function DecodeResolution(val: ScVal): Decoded<(string, Option<i32>)> {
    if !(val.Vec? && val.items.Some?) then Err(WrongKind("Vec"))
    else
      var items := val.items.value;
      if items == [] then Err(EmptyResolution)
      else if !items[0].Symbol? then Err(WrongKind("Symbol"))
      else if items[0].symbol == "ReleaseToProvider" then Ok(("release", None))
      else if items[0].symbol == "RefundToClient" then Ok(("refund", None))
      else if items[0].symbol == "Split" then
        if |items| < 2 then Err(MissingBps)
        else
          var bps := ToU32(items[1]);
          if bps.Err? then Err(bps.error) else Ok(("split", Some(U32AsI32(bps.value))))
      else Err(UnknownVariant(items[0].symbol))
  }

  function EncodeResolution(r: Resolution): ScVal {
    match r
    case ReleaseToProvider => Vec(Some([Symbol("ReleaseToProvider")]))
    case RefundToClient => Vec(Some([Symbol("RefundToClient")]))
    case Split(bps) => Vec(Some([Symbol("Split"), U32(bps)]))
  }

  /** What each resolution is stored as, whatever follows in its vector. */
  lemma ResolutionsAre(rest: seq<ScVal>, bps: u32)
    ensures DecodeResolution(Vec(Some([Symbol("ReleaseToProvider")] + rest))) == Ok(("release", None))
    ensures DecodeResolution(Vec(Some([Symbol("RefundToClient")] + rest))) == Ok(("refund", None))
    ensures DecodeResolution(Vec(Some([Symbol("Split"), U32(bps)] + rest))) == Ok(("split", Some(U32AsI32(bps))))
    ensures bps < 0x8000_0000 ==>
              DecodeResolution(Vec(Some([Symbol("Split"), U32(bps)] + rest))) == Ok(("split", Some(bps)))
  {
    assert "ReleaseToProvider"[2] == 'l' && "RefundToClient"[2] == 'f' && |"Split"| == 5;
  }

  /** Anything else is an error. */
  lemma OnlyResolutionsDecode(val: ScVal)
    ensures DecodeResolution(val).Ok? <==>
              && val.Vec? && val.items.Some? && |val.items.value| >= 1
              && (val.items.value[0] in {Symbol("ReleaseToProvider"), Symbol("RefundToClient")}
                  || (val.items.value[0] == Symbol("Split") && |val.items.value| >= 2 && val.items.value[1].U32?))
  {
  }

  /** Distinct resolutions are stored distinctly, and basis points accompany exactly the splits. */
  lemma ResolutionsStoredFaithfully(val: ScVal, r: Resolution, s: Resolution)
    ensures DecodeResolution(val).Ok? ==>
              DecodeResolution(val).value.0 in {"release", "refund", "split"}
              && (DecodeResolution(val).value.1.Some? <==> DecodeResolution(val).value.0 == "split")
    ensures DecodeResolution(EncodeResolution(r)).Ok?
    ensures DecodeResolution(EncodeResolution(r)) == DecodeResolution(EncodeResolution(s)) ==> r == s
  {
    assert "ReleaseToProvider"[2] != "RefundToClient"[2];
    assert "release"[2] == 'l' && "refund"[2] == 'f';
    CastsAreInjective();
  }
}
