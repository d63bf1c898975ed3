/** Typed, sortable identifiers (`core/ids.py`): a millisecond and a random number, each in
    fixed-length Crockford base32, minted so that string order is creation order. */
module Ids {
  import opened Util
  import opened Encoding

  const ALPHABET := "0123456789ABCDEFGHJKMNPQRSTVWXYZ"
  const TIME_CHARS := 10
  const RANDOM_CHARS := 16
  const TIME_LIMIT := 0x4_0000_0000_0000                  // 2^50
  const RANDOM_LIMIT := 0x1_0000_0000_0000_0000_0000      // 2^80
  const SEED_LIMIT := 0x8000_0000_0000_0000_0000          // 2^79

  function Pow32(n: nat): nat {
    if n == 0 then 1 else 32 * Pow32(n - 1)
  }

  lemma Limits()
    ensures Pow32(TIME_CHARS) == TIME_LIMIT && Pow32(RANDOM_CHARS) == RANDOM_LIMIT
  {
    assert Pow32(5) == 0x200_0000;
    assert Pow32(10) == 32 * 32 * 32 * 32 * 32 * Pow32(5);
    assert Pow32(15) == 32 * 32 * 32 * 32 * 32 * Pow32(10);
  }

  // ---- fixed-length base32 ---------------------------------------------------------------------

  /** The alphabet by arithmetic: digits, then letters without I, L, O and U. */
  function Digit(d: nat): char
    requires d < 32
  {
    if d < 10 then '0' + d as char
    else if d < 18 then 'A' + (d - 10) as char
    else if d < 20 then 'J' + (d - 18) as char
    else if d < 22 then 'M' + (d - 20) as char
    else if d < 27 then 'P' + (d - 22) as char
    else 'V' + (d - 27) as char
  }

  predicate InAlphabet(c: char) {
    '0' <= c <= '9' || 'A' <= c <= 'H' || 'J' <= c <= 'K' || 'M' <= c <= 'N' || 'P' <= c <= 'T' || 'V' <= c <= 'Z'
  }

  /** `_ALPHABET.index(c)`. */
  function IndexOf(c: char): (i: nat)
    requires InAlphabet(c)
    ensures i < 32 && Digit(i) == c
  {
    var n := c as int;
    if c <= '9' then n - '0' as int
    else if c <= 'H' then n - 'A' as int + 10
    else if c <= 'K' then n - 'J' as int + 18
    else if c <= 'N' then n - 'M' as int + 20
    else if c <= 'T' then n - 'P' as int + 22
    else n - 'V' as int + 27
  }

  /** The arithmetic spells the alphabet. */
  lemma AlphabetSpelled(d: nat)
    requires d < 32
    ensures |ALPHABET| == 32 && ALPHABET[d] == Digit(d) && InAlphabet(Digit(d)) && IndexOf(Digit(d)) == d
  {
  }

  lemma DigitsOrdered(i: nat, j: nat)
    requires i < j < 32
    ensures Digit(i) < Digit(j)
  {
  }

  /** The last *length* base32 digits of *value*. */
  function Base32(value: int, length: nat): (r: string)
    ensures |r| == length && IsBase32(r)
    decreases length
  {
    if length == 0 then "" else
      AlphabetSpelled(value % 32);
      Base32(value / 32, length - 1) + [Digit(value % 32)]
  }

  predicate IsBase32(text: string) {
    forall i :: 0 <= i < |text| ==> InAlphabet(text[i])
  }

  /** `_encode`, filling the characters from the last. */
  method Encode32(value: int, length: nat) returns (text: string)
    ensures text == Base32(value, length)
  {
    var chars := new char[length](_ => ' ');
    var rest := value;
    var i: int := length;
    while i > 0
      invariant 0 <= i <= length
      invariant Base32(value, length) == Base32(rest, i) + chars[i..]
    {
      i := i - 1;
      AlphabetSpelled(rest % 32);
      chars[i] := ALPHABET[rest % 32];
      rest := rest / 32;
    }
    text := chars[..];
  }

  function DigitsOf(text: string): int
    requires IsBase32(text)
  {
    if text == "" then 0 else 32 * DigitsOf(text[..|text| - 1]) + IndexOf(text[|text| - 1])
  }

  lemma {:induction false} DecodeEncode(value: nat, length: nat)
    requires value < Pow32(length)
    ensures DigitsOf(Base32(value, length)) == value
  {
    if length > 0 {
      DecodeEncode(value / 32, length - 1);
      AlphabetSpelled(value % 32);
      assert Base32(value, length)[..length - 1] == Base32(value / 32, length - 1);
    }
  }

  lemma {:induction false} EncodeDecode(text: string)
    requires IsBase32(text)
    ensures 0 <= DigitsOf(text) < Pow32(|text|)
    ensures Base32(DigitsOf(text), |text|) == text
  {
    if text != "" {
      var n := |text| - 1;
      EncodeDecode(text[..n]);
      var high, low := DigitsOf(text[..n]), IndexOf(text[n]);
      assert (32 * high + low) / 32 == high && (32 * high + low) % 32 == low;
      assert text == text[..n] + [text[n]];
    }
  }

  lemma {:induction false} BeforeConcat(a: string, b: string, x: string, y: string)
    requires |a| == |b|
    requires Before(a, b) || (a == b && Before(x, y))
    ensures Before(a + x, b + y)
  {
    if a == "" {
      assert a + x == x && b + y == y;
    } else if a[0] == b[0] {
      BeforeConcat(a[1..], b[1..], x, y);
      assert (a + x)[1..] == a[1..] + x && (b + y)[1..] == b[1..] + y;
    }
  }

  /** Fixed-length base32 keeps numeric order. */
  lemma {:induction false} EncodingOrdered(a: nat, b: nat, length: nat)
    requires a < b < Pow32(length)
    ensures Before(Base32(a, length), Base32(b, length))
  {
    var x, y := [Digit(a % 32)], [Digit(b % 32)];
    if a / 32 < b / 32 {
      EncodingOrdered(a / 32, b / 32, length - 1);
    } else {
      DigitsOrdered(a % 32, b % 32);
    }
    BeforeConcat(Base32(a / 32, length - 1), Base32(b / 32, length - 1), x, y);
  }

  // ---- the generator ---------------------------------------------------------------------------

  datatype Clock = Clock(ms: int, random: int)

  function Body(c: Clock): string {
    Base32(c.ms, TIME_CHARS) + Base32(c.random, RANDOM_CHARS)
  }

  /** The state after minting an id when the wall clock reads *now* and *draw* is drawn. */
  function Tick(c: Clock, now: int, draw: nat): Clock {
    if now > c.ms then Clock(now, draw)
    else if c.random + 1 < RANDOM_LIMIT then Clock(c.ms, c.random + 1)
    else Clock(c.ms + 1, draw)
  }

  /** The module state `_last_ms`, `_last_random`. */
  class Generator {
    var lastMs: int
    var lastRandom: int

    constructor ()
      ensures State() == Clock(-1, 0)
    {
      lastMs, lastRandom := -1, 0;
    }

    function State(): Clock
      reads this
    {
      Clock(lastMs, lastRandom)
    }

    /** `_next_body`, under the lock. */
    method NextBody(wallClock: int, draw: nat) returns (body: string)
      modifies this
      ensures State() == Tick(old(State()), wallClock, draw)
      ensures body == Body(State())
    {
      var now := if wallClock >= lastMs then wallClock else lastMs;
      if now == lastMs {
        lastRandom := lastRandom + 1;
        if lastRandom > RANDOM_LIMIT - 1 {
          now := now + 1;
          lastMs := now;
          lastRandom := draw;
        }
      } else {
        lastMs := now;
        lastRandom := draw;
      }
      var time := Encode32(lastMs, TIME_CHARS);
      var random := Encode32(lastRandom, RANDOM_CHARS);
      body := time + random;
    }
  }

  datatype Reading = Reading(now: int, draw: nat)

  /** The generator's state after its first *k* ids. */
  function After(readings: seq<Reading>, k: nat): Clock
    requires k <= |readings|
  {
    if k == 0 then Clock(-1, 0) else Tick(After(readings, k - 1), readings[k - 1].now, readings[k - 1].draw)
  }

  predicate Draws(readings: seq<Reading>) {
    forall i :: 0 <= i < |readings| ==> readings[i].draw < SEED_LIMIT
  }

  predicate Earlier(a: Clock, b: Clock) {
    a.ms < b.ms || (a.ms == b.ms && a.random < b.random)
  }

  lemma {:induction false} AfterRises(readings: seq<Reading>, i: nat, j: nat)
    requires Draws(readings) && i < j <= |readings|
    ensures -1 <= After(readings, i).ms && 0 <= After(readings, i).random < RANDOM_LIMIT
    ensures Earlier(After(readings, i), After(readings, j))
    ensures 0 <= After(readings, j).random < RANDOM_LIMIT
    decreases j
  {
    if i < j - 1 {
      AfterRises(readings, i, j - 1);
    } else if i > 0 {
      AfterRises(readings, i - 1, i);
    }
  }

  /** The generator never falls behind the clock it has seen. */
  lemma {:induction false} NeverBehind(readings: seq<Reading>, i: nat, k: nat)
    requires i < k <= |readings|
    ensures After(readings, k).ms >= readings[i].now
    decreases k
  {
    if i < k - 1 { NeverBehind(readings, i, k - 1); }
  }

  /** Main result: an id is stamped with the clock's millisecond and a drawn number when the clock has moved on, and else
      with the millisecond of the id before it and the next number; it runs ahead of the clock only by running out of
      numbers. */
  lemma StampedExactly(readings: seq<Reading>, k: nat)
    requires k < |readings|
    ensures var before, id, reading := After(readings, k), After(readings, k + 1), readings[k];
            && (before.ms < reading.now ==> id == Clock(reading.now, reading.draw))
            && (before.ms >= reading.now && before.random < RANDOM_LIMIT - 1 ==> id == Clock(before.ms, before.random + 1))
            && (before.ms >= reading.now && before.random >= RANDOM_LIMIT - 1 ==> id == Clock(before.ms + 1, reading.draw))
  {
  }

  predicate SortsBefore(a: Clock, b: Clock) {
    Before(Body(a), Body(b))
  }

  lemma BodyOrdered(a: Clock, b: Clock)
    requires Earlier(a, b) && 0 <= a.random < RANDOM_LIMIT && 0 <= b.random < RANDOM_LIMIT
    requires a.ms == b.ms || 0 <= a.ms
    requires b.ms < TIME_LIMIT
    ensures SortsBefore(a, b)
  {
    Limits();
    if a.ms < b.ms {
      EncodingOrdered(a.ms, b.ms, TIME_CHARS);
    } else {
      EncodingOrdered(a.random, b.random, RANDOM_CHARS);
    }
    BeforeConcat(Base32(a.ms, TIME_CHARS), Base32(b.ms, TIME_CHARS), Base32(a.random, RANDOM_CHARS), Base32(b.random, RANDOM_CHARS));
  }

  /** The first clock reading is not before the epoch, or they all are, and are fewer than would exhaust the
      random numbers of one millisecond. */
  predicate StartsAfterEpoch(readings: seq<Reading>) {
    readings == [] || readings[0].now >= 0 || (AllBeforeEpoch(readings) && |readings| < RANDOM_LIMIT)
  }

  predicate AllBeforeEpoch(readings: seq<Reading>) {
    forall i :: 0 <= i < |readings| ==> readings[i].now < 0
  }

  /** Before the epoch the generator stays in its initial millisecond, counting. */
  lemma {:induction false} CountsBeforeEpoch(readings: seq<Reading>, k: nat)
    requires k <= |readings| && k < RANDOM_LIMIT && forall i :: 0 <= i < k ==> readings[i].now < 0
    ensures After(readings, k) == Clock(-1, k)
  {
    if k > 0 { CountsBeforeEpoch(readings, k - 1); }
  }

  lemma {:induction false} StaysPastEpoch(readings: seq<Reading>, k: nat, n: nat)
    requires k <= n <= |readings| && After(readings, k).ms >= 0
    ensures After(readings, n).ms >= 0
    decreases n - k
  {
    if k < n { StaysPastEpoch(readings, k, n - 1); }
  }

  /** It leaves that millisecond with the first reading past the epoch, or when its random numbers run out. */
  lemma LeavesEpoch(readings: seq<Reading>)
    requires Draws(readings) && readings != [] && readings[0].now < 0
    ensures After(readings, |readings|).ms < 0 <==> AllBeforeEpoch(readings) && |readings| < RANDOM_LIMIT
  {
    var n := |readings|;
    if AllBeforeEpoch(readings) && n < RANDOM_LIMIT {
      CountsBeforeEpoch(readings, n);
    } else if !AllBeforeEpoch(readings) {
      var k :| 0 <= k < n && readings[k].now >= 0;
      if k > 0 { AfterRises(readings, k - 1, k); }
      assert After(readings, k + 1).ms >= 0;
      StaysPastEpoch(readings, k + 1, n);
    } else {
      CountsBeforeEpoch(readings, RANDOM_LIMIT - 1);
      assert After(readings, RANDOM_LIMIT).ms >= 0;
      StaysPastEpoch(readings, RANDOM_LIMIT, n);
    }
  }

  /** Every id sorts after every id minted before it. */
  predicate Sorted(readings: seq<Reading>) {
    forall i, j :: 1 <= i < j <= |readings| ==> SortsBefore(After(readings, i), After(readings, j))
  }

  /** Main result: over any sequence of clock readings (repeats and backward jumps included) and
      draws, string order is creation order. */
  lemma IdsSortInCreationOrder(readings: seq<Reading>)
    requires Draws(readings) && After(readings, |readings|).ms < TIME_LIMIT
    requires StartsAfterEpoch(readings)
    ensures Sorted(readings)
  {
    forall i, j | 1 <= i < j <= |readings| ensures SortsBefore(After(readings, i), After(readings, j)) {
      PairSorted(readings, i, j);
    }
  }

  lemma PairSorted(readings: seq<Reading>, i: nat, j: nat)
    requires Draws(readings) && After(readings, |readings|).ms < TIME_LIMIT
    requires StartsAfterEpoch(readings) && 1 <= i < j <= |readings|
    ensures SortsBefore(After(readings, i), After(readings, j))
  {
    AfterRises(readings, i, j);
    if j < |readings| { AfterRises(readings, j, |readings|); }
    FirstState(readings);
    if readings[0].now < 0 { LeavesEpoch(readings); }
    if 1 < i { AfterRises(readings, 1, i); }
    BodyOrdered(After(readings, i), After(readings, j));
  }

  lemma FirstState(readings: seq<Reading>)
    requires readings != []
    ensures After(readings, 1) == if readings[0].now >= 0 then Clock(readings[0].now, readings[0].draw) else Clock(-1, 1)
  {
    assert After(readings, 1) == Tick(After(readings, 0), readings[0].now, readings[0].draw);
  }

  lemma {:induction false} MinusOneIsLargest(length: nat)
    ensures Pow32(length) > 0 && Base32(-1, length) == Base32(Pow32(length) - 1, length)
  {
    if length > 0 { MinusOneIsLargest(length - 1); }
  }

  /** The condition on the first reading is needed: an id minted before the epoch encodes the
      largest millisecond, and sorts after the first one minted past the epoch. */
  lemma OrderNeedsEpoch(readings: seq<Reading>)
    requires Draws(readings) && After(readings, |readings|).ms < TIME_LIMIT - 1
    requires !StartsAfterEpoch(readings)
    ensures !Sorted(readings)
  {
    FirstState(readings);
    LeavesEpoch(readings);
    assert |readings| > 1;
    LargestSortsLast(After(readings, 1), After(readings, |readings|));
    assert SortsBefore(After(readings, 1), After(readings, |readings|)) ==> false;
  }

  /** A clock set before the epoch and then corrected mints a pair out of order. */
  lemma OutOfOrder(early: nat, late: nat)
    requires early < SEED_LIMIT && late < SEED_LIMIT
    ensures var readings := [Reading(-1000, early), Reading(1000, late)];
            After(readings, 1) == Clock(-1, 1) && After(readings, 2) == Clock(1000, late)
            && Before(Body(After(readings, 2)), Body(After(readings, 1)))
  {
    var readings := [Reading(-1000, early), Reading(1000, late)];
    assert After(readings, 0) == Clock(-1, 0);
    assert After(readings, 1) == Clock(-1, 1);
    Limits();
    LargestFirst(1000, TIME_CHARS, Base32(late, RANDOM_CHARS), Base32(1, RANDOM_CHARS));
  }

  /** Main result, exactly: string order is creation order if and only if the first reading is not before
      the epoch, or they all are, and are fewer than 2^80. */
  lemma OrderExactly(readings: seq<Reading>)
    requires Draws(readings) && After(readings, |readings|).ms < TIME_LIMIT - 1
    ensures Sorted(readings) <==> StartsAfterEpoch(readings)
  {
    if StartsAfterEpoch(readings) { IdsSortInCreationOrder(readings); } else { OrderNeedsEpoch(readings); }
  }

  lemma LargestSortsLast(a: Clock, b: Clock)
    requires a.ms == -1 && 0 <= b.ms < TIME_LIMIT - 1
    ensures !SortsBefore(a, b)
  {
    Limits();
    LargestFirst(b.ms, TIME_CHARS, Base32(b.random, RANDOM_CHARS), Base32(a.random, RANDOM_CHARS));
    BeforeTrichotomy(Body(b), Body(a));
  }

  lemma LargestFirst(ms: nat, length: nat, x: string, y: string)
    requires ms < Pow32(length) - 1
    ensures Before(Base32(ms, length) + x, Base32(-1, length) + y)
  {
    MinusOneIsLargest(length);
    EncodingOrdered(ms, Pow32(length) - 1, length);
    BeforeConcat(Base32(ms, length), Base32(-1, length), x, y);
  }

  // ---- typed ids -------------------------------------------------------------------------------

  datatype IdRefusal = NotText | WrongPrefix | WrongLength | NotBase32

  /** `TypedId.validate`. */
  function Validate(prefix: string, value: Value): Result<string, IdRefusal> {
    if !value.Str? then Err(NotText)
    else if !(prefix <= value.s) then Err(WrongPrefix)
    else if |value.s[|prefix|..]| != TIME_CHARS + RANDOM_CHARS then Err(WrongLength)
    else if !IsBase32(value.s[|prefix|..]) then Err(NotBase32)
    else Ok(value.s)
  }

  /** `TypedId.created_at_ms`. */
  method CreatedAtMs(prefix: string, id: string) returns (ms: int)
    requires Validate(prefix, Str(id)).Ok?
    ensures ms == DigitsOf(id[|prefix|..][..TIME_CHARS])
  {
    var body := id[|prefix|..];
    ms := 0;
    for i := 0 to TIME_CHARS
      invariant ms == DigitsOf(body[..i])
    {
      assert body[..i + 1][..i] == body[..i];
      ms := ms * 32 + IndexOf(body[i]);
    }
  }

  /** Whatever the generator mints is a valid id of its type, and its timestamp is the one encoded. */
  lemma MintedIdIsValid(prefix: string, c: Clock)
    requires 0 <= c.ms < TIME_LIMIT
    ensures Validate(prefix, Str(prefix + Body(c))) == Ok(prefix + Body(c))
    ensures DigitsOf((prefix + Body(c))[|prefix|..][..TIME_CHARS]) == c.ms
  {
    Limits();
    assert (prefix + Body(c))[|prefix|..] == Body(c);
    assert Body(c)[..TIME_CHARS] == Base32(c.ms, TIME_CHARS);
    DecodeEncode(c.ms, TIME_CHARS);
  }

  /** Conversely, a valid id is the one the generator mints for some millisecond and random number:
      validation accepts nothing else. */
  lemma ValidIdIsMintable(prefix: string, value: Value) returns (c: Clock)
    requires Validate(prefix, value).Ok?
    ensures 0 <= c.ms < TIME_LIMIT && 0 <= c.random < RANDOM_LIMIT
    ensures value == Str(prefix + Body(c))
  {
    Limits();
    var body := value.s[|prefix|..];
    var time, random := body[..TIME_CHARS], body[TIME_CHARS..];
    EncodeDecode(time);
    EncodeDecode(random);
    c := Clock(DigitsOf(time), DigitsOf(random));
    assert body == time + random && value.s == prefix + body;
  }
}
