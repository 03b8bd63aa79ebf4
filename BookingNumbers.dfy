/**
 * Booking numbers: `"BK"`, the date `DateTime.Now` reports as `yyyyMMdd`, and
 * a suffix drawn with `new Random().Next(1000, 9999)`. The clock and the
 * random source are an oracle: one `Draw` per attempt, holding the date read
 * and the roll that picks the suffix.
 */
module BookingNumbers {
  import opened Wrappers
  import opened Text
  import opened Dates
  import opened Models
  import opened Linq

  /** The retry budget of the service's generator. */
  const MaxAttempts: nat := 10

  const SuffixMin: int := 1000
  const SuffixMaxExclusive: int := 9999

  datatype Draw = Draw(now: ClockDate, roll: nat)

  /** `Random.Next(minValue, maxValue)`: a value in `[minValue, maxValue)`; the roll picks which. */
  function RandomNext(minValue: int, maxValue: int, roll: nat): (v: int)
    requires minValue < maxValue
    ensures minValue <= v < maxValue
  {
    minValue + roll % (maxValue - minValue)
  }

  /** Every value `Random.Next` can return is the outcome of some roll. */
  lemma RandomNextCoversRange(minValue: int, maxValue: int, v: int)
    requires minValue <= v < maxValue
    ensures RandomNext(minValue, maxValue, v - minValue) == v
  {
  }

  function Suffix(d: Draw): int
  {
    RandomNext(SuffixMin, SuffixMaxExclusive, d.roll)
  }

  /**
   * `$"BK{datePart}{randomPart}"`. The suffix lies in [1000, 9998], so its
   * decimal rendering is exactly its four-digit padding.
   */
  function Candidate(d: Draw): string
  {
    "BK" + FormatYyyyMmDd(d.now) + PadDigits(Suffix(d), 4)
  }

  /** The shape of every generated booking number. */
  predicate WellFormedNumber(n: string)
  {
    && |n| == 14
    && n[..2] == "BK"
    && AllDigits(n[2..])
    && n[10] != '0'
    && SuffixMin <= ParseDigits(n[10..]) < SuffixMaxExclusive
  }

  lemma CandidateWellFormed(d: Draw)
    ensures WellFormedNumber(Candidate(d))
    ensures Candidate(d)[2..10] == FormatYyyyMmDd(d.now)
    ensures ParseDigits(Candidate(d)[10..]) == Suffix(d)
  {
    var n := Candidate(d);
    var date := FormatYyyyMmDd(d.now);
    var p := PadDigits(Suffix(d), 4);
    FormatYyyyMmDdParses(d.now);
    PadDigitsAllDigits(Suffix(d), 4);
    assert n[2..] == date + p;
    assert n[10..] == p;
    assert AllDigits(n[2..]) by {
      forall i | 0 <= i < |n[2..]| ensures IsDigit(n[2..][i]) {
        if i < 8 { assert n[2..][i] == date[i]; } else { assert n[2..][i] == p[i - 8]; }
      }
    }
    assert Pow10(1) == 10;
    assert Pow10(2) == 100;
    assert Pow10(3) == 1000;
    assert Pow10(4) == 10000;
    ParsePadDigits(Suffix(d), 4);
    PadDigitsLeading(Suffix(d), 4);
    assert n[10] == p[0];
  }

  /** Two draws give the same number exactly when they read the same date and drew the same suffix. */
  lemma CandidateInjective(d1: Draw, d2: Draw)
    ensures Candidate(d1) == Candidate(d2) <==> d1.now == d2.now && Suffix(d1) == Suffix(d2)
  {
    CandidateWellFormed(d1);
    CandidateWellFormed(d2);
    FormatYyyyMmDdInjective(d1.now, d2.now);
  }

  /** `BookingExistsAsync`: some booking carries the number. */
  predicate NumberTaken(bookings: seq<Booking>, number: string)
  {
    exists i :: 0 <= i < |bookings| && bookings[i].bookingNumber == number
  }

  /**
   * The number a generator settles on when it tries the draws in order: the
   * first candidate no booking carries, or none when every one is taken.
   */
  function FirstFreeCandidate(draws: seq<Draw>, bookings: seq<Booking>): (r: Option<string>)
    ensures r.None? <==> forall k :: 0 <= k < |draws| ==> NumberTaken(bookings, Candidate(draws[k]))
    ensures r.Some? ==> !NumberTaken(bookings, r.value)
    ensures r.Some? ==> exists k :: 0 <= k < |draws| && r.value == Candidate(draws[k])
                                    && forall j :: 0 <= j < k ==> NumberTaken(bookings, Candidate(draws[j]))
  {
    var k := IndexOfFirst(draws, (d: Draw) => !NumberTaken(bookings, Candidate(d)));
    if k < |draws| then Some(Candidate(draws[k])) else None
  }

  /** Whatever number a generator settles on has the booking-number format. */
  lemma FirstFreeCandidateWellFormed(draws: seq<Draw>, bookings: seq<Booking>)
    ensures var r := FirstFreeCandidate(draws, bookings);
            r.Some? ==> WellFormedNumber(r.value)
  {
    var k := IndexOfFirst(draws, (d: Draw) => !NumberTaken(bookings, Candidate(d)));
    if k < |draws| {
      CandidateWellFormed(draws[k]);
    }
  }

  /** Trying one more draw after a run of taken ones: the first free candidate is that draw's, if it is free. */
  lemma FirstFreeCandidateAt(draws: seq<Draw>, bookings: seq<Booking>, k: nat)
    requires k < |draws|
    requires forall j :: 0 <= j < k ==> NumberTaken(bookings, Candidate(draws[j]))
    requires !NumberTaken(bookings, Candidate(draws[k]))
    ensures FirstFreeCandidate(draws, bookings) == Some(Candidate(draws[k]))
  {
    var i := IndexOfFirst(draws, (d: Draw) => !NumberTaken(bookings, Candidate(d)));
    assert i == k;
  }
}
