/** UTC-Z timestamps: the two producers and the one comparison that reads both.
    A timestamp string is modelled by what it spells: whole seconds and the fractional digits. */
module Timestamps {
  import opened Prelude

  type Digit = d: nat | d < 10

  datatype Iso = Iso(seconds: nat, frac: seq<Digit>)

  const NANOS_PER_SECOND := 1_000_000_000

  /** The last `n` decimal digits of `v`, most significant first. */
  function DigitsOf(v: nat, n: nat): (ds: seq<Digit>)
    ensures |ds| == n
  {
    if n == 0 then [] else DigitsOf(v / 10, n - 1) + [v % 10]
  }

  function ValueOf(ds: seq<Digit>): nat {
    if ds == [] then 0 else 10 * ValueOf(ds[..|ds| - 1]) + ds[|ds| - 1]
  }

  /** The first six digits of a fraction, padded with zeros on the right. */
  function MicroDigits(frac: seq<Digit>): seq<Digit> {
    seq(6, i requires 0 <= i < 6 => if i < |frac| then frac[i] else 0)
  }

  /** The instant a parsed timestamp denotes, in microseconds: at most six fractional digits count. */
  function Micros(t: Iso): nat {
    t.seconds * 1_000_000 + ValueOf(MicroDigits(t.frac))
  }

  function IsoLt(a: Option<Iso>, b: Option<Iso>): bool {
    a.Some? && b.Some? && Micros(a.value) < Micros(b.value)
  }

  /** The nanosecond producer: always nine fractional digits. */
  function NowIsoNanos(ns: nat): Iso {
    Iso(ns / NANOS_PER_SECOND, DigitsOf(ns % NANOS_PER_SECOND, 9))
  }

  /** The second-resolution producer: the fraction is dropped. */
  function NowIsoZ(ns: nat): Iso {
    Iso(ns / NANOS_PER_SECOND, [])
  }

  function Power(n: nat): nat {
    if n == 0 then 1 else 10 * Power(n - 1)
  }

  lemma {:induction false} DigitsRoundTrip(v: nat, n: nat)
    requires v < Power(n)
    ensures ValueOf(DigitsOf(v, n)) == v
  {
    if n > 0 {
      DigitsRoundTrip(v / 10, n - 1);
      assert DigitsOf(v, n)[..n - 1] == DigitsOf(v / 10, n - 1);
    }
  }

  lemma {:induction false} ZerosAreZero(ds: seq<Digit>)
    requires forall i :: 0 <= i < |ds| ==> ds[i] == 0
    ensures ValueOf(ds) == 0
  {
    if ds != [] {
      ZerosAreZero(ds[..|ds| - 1]);
    }
  }

  lemma MicrosOfSeconds(ns: nat)
    ensures Micros(NowIsoZ(ns)) == ns / NANOS_PER_SECOND * 1_000_000
  {
    ZerosAreZero(MicroDigits([]));
  }

  lemma MicrosOfNanos(ns: nat)
    ensures Micros(NowIsoNanos(ns)) == ns / 1000
  {
    var rest := ns % NANOS_PER_SECOND;
    var nine := DigitsOf(rest, 9);
    assert DigitsOf(rest, 9)[..8] == DigitsOf(rest / 10, 8);
    assert DigitsOf(rest / 10, 8)[..7] == DigitsOf(rest / 10 / 10, 7);
    assert DigitsOf(rest / 10 / 10, 7)[..6] == DigitsOf(rest / 10 / 10 / 10, 6);
    assert MicroDigits(nine) == nine[..6] == DigitsOf(rest / 10 / 10 / 10, 6);
    assert Power(3) == 1000;
    assert Power(6) == 1000 * Power(3);
    DigitsRoundTrip(rest / 10 / 10 / 10, 6);
  }

  /** Exactly when a second-resolution approval reads as earlier than a nanosecond stamp. */
  lemma StaleExactly(approvedNs: nat, stampNs: nat)
    ensures IsoLt(Some(NowIsoZ(approvedNs)), Some(NowIsoNanos(stampNs)))
       <==> approvedNs / NANOS_PER_SECOND * 1_000_000 < stampNs / 1000
  {
    MicrosOfSeconds(approvedNs);
    MicrosOfNanos(stampNs);
  }

  /** One second of waiting is always enough, whatever the truncation drops. */
  lemma OneSecondSuffices(approvedNs: nat, stampNs: nat)
    requires approvedNs >= stampNs + NANOS_PER_SECOND
    ensures !IsoLt(Some(NowIsoZ(approvedNs)), Some(NowIsoNanos(stampNs)))
  {
    StaleExactly(approvedNs, stampNs);
  }

  /** A shorter wait is not: half a second later, within the same second, reads as stale. */
  lemma HalfSecondCanBeStale()
    ensures IsoLt(Some(NowIsoZ(700_000_000)), Some(NowIsoNanos(200_000_000)))
  {
    StaleExactly(700_000_000, 200_000_000);
  }
}
