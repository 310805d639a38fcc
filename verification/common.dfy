/** Values shared by every part of the model: optional values, the Java
    exceptions the services raise, and UTC time as whole seconds. */
module Common {

  datatype Option<+T> = None | Some(value: T)

  /** The exception classes the services throw, one constructor each. */
  datatype Error =
    | NoSuchElement        // java.util.NoSuchElementException
    | IllegalState         // java.lang.IllegalStateException
    | IllegalArgument      // java.lang.IllegalArgumentException
    | OptimisticLock       // jakarta.persistence.OptimisticLockException
    | ConstraintViolation  // jakarta.validation.ConstraintViolationException, raised on persist
    | IndexOutOfBounds     // java.lang.ArrayIndexOutOfBoundsException
    | DataIntegrity        // org.springframework.dao.DataIntegrityViolationException: the database refused a value
    | ClassCast            // java.lang.ClassCastException

  datatype Result<+T> = Ok(value: T) | Err(error: Error)

  /** Entity identifiers (UUIDs or database keys in the source). */
  type CardId = nat
  type DeckId = nat
  type SessionId = nat

  /** An instant on the UTC time line, in seconds since the epoch. */
  type Instant = int

  /** A calendar date (LocalDate) as a day number counted from the epoch. */
  type Day = int

  const SECONDS_PER_DAY: int := 86400
  const SECONDS_PER_MINUTE: int := 60

  /** OffsetDateTime.plusDays at offset UTC: no daylight saving, every day has 86400 seconds. */
  function PlusDays(t: Instant, n: int): Instant {
    t + n * SECONDS_PER_DAY
  }

  function PlusMinutes(t: Instant, m: int): Instant {
    t + m * SECONDS_PER_MINUTE
  }

  /** toLocalDate() at offset UTC: the day that contains the instant. */
  function DayOf(t: Instant): (d: Day)
    ensures d * SECONDS_PER_DAY <= t < (d + 1) * SECONDS_PER_DAY
  {
    t / SECONDS_PER_DAY
  }

  /** atStartOfDay().atOffset(UTC): the first instant of a day. */
  function StartOfDay(d: Day): (r: Instant)
    ensures DayOf(r) == d
    ensures forall t :: DayOf(t) == d ==> r <= t
  {
    d * SECONDS_PER_DAY
  }

  const INT_MIN: int := -0x8000_0000
  const INT_MAX: int := 0x7FFF_FFFF

  /** Java int arithmetic, and BigDecimal.intValue() of a whole number: the
      low-order 32 bits of the exact result read as a two's-complement int. */
  function IntValue(x: int): (r: int)
    ensures INT_MIN <= r <= INT_MAX
    ensures (x - r) % 0x1_0000_0000 == 0
    ensures INT_MIN <= x <= INT_MAX ==> r == x
  {
    var m := x % 0x1_0000_0000;
    if m > INT_MAX then m - 0x1_0000_0000 else m
  }

  /** Two exact results that agree modulo 2^32 wrap to the same int, so int
      arithmetic may wrap at every step or only at the end. */
  lemma {:induction false} IntValueCongruent(x: int, y: int)
    requires (x - y) % 0x1_0000_0000 == 0
    ensures IntValue(x) == IntValue(y)
  {
    var rx, ry := IntValue(x), IntValue(y);
    var a, b, c := (x - rx) / 0x1_0000_0000, (y - ry) / 0x1_0000_0000, (x - y) / 0x1_0000_0000;
    assert x - rx == 0x1_0000_0000 * a;
    assert y - ry == 0x1_0000_0000 * b;
    assert x - y == 0x1_0000_0000 * c;
    assert rx - ry == 0x1_0000_0000 * (c - a + b);
  }

  /** Adding to a wrapped int and wrapping again is adding and wrapping once. */
  lemma {:induction false} IntValueAdd(x: int, d: int)
    ensures IntValue(IntValue(x) + d) == IntValue(x + d)
  {
  }

  function Max(a: int, b: int): int { if a >= b then a else b }
  function Min(a: int, b: int): int { if a <= b then a else b }

  /** Moving an instant by whole days moves its calendar day by the same
      number of days, which is why minusDays(6).toLocalDate() equals
      toLocalDate().minusDays(6) at offset UTC. */
  lemma {:induction false} DayOfPlusDays(t: Instant, n: int)
    ensures DayOf(PlusDays(t, n)) == DayOf(t) + n
  {
    var d := DayOf(t);
    assert (d + n) * SECONDS_PER_DAY <= PlusDays(t, n) < (d + n + 1) * SECONDS_PER_DAY;
    DayOfUnique(PlusDays(t, n), d + n);
  }

  lemma {:induction false} DayOfUnique(t: Instant, d: Day)
    requires d * SECONDS_PER_DAY <= t < (d + 1) * SECONDS_PER_DAY
    ensures DayOf(t) == d
  {
  }
}
