/** The ride record and its kind (package unter, unter.go). */
module Unter {
  import opened Decimal

  /** Go's `uint` on a 64-bit platform. */
  newtype Kind = k: int | 0 <= k < 0x1_0000_0000_0000_0000

  const Shared: Kind := 1
  const Private: Kind := 2

  /** Kind.String: the two labels, and "<Kind n>" for every other value. */
  function KindString(k: Kind): (s: string)
    ensures s == "shared" <==> k == Shared
    ensures s == "private" <==> k == Private
    ensures s != []
  {
    if k == Shared then "shared"
    else if k == Private then "private"
    else "<Kind " + FormatNat(k as nat) + ">"
  }

  lemma SharedLabel()
    ensures KindString(Shared) == "shared"
  {
  }

  lemma PrivateLabel()
    ensures KindString(Private) == "private"
  {
  }

  /** Any kind but the two defined ones, the zero value included, prints as
      "<Kind n>" with n in decimal, and that text is neither label. */
  lemma OtherKindLabel(k: Kind)
    requires k != Shared && k != Private
    ensures KindString(k) == "<Kind " + FormatNat(k as nat) + ">"
    ensures KindString(k)[0] == '<'
    ensures KindString(k) != "shared" && KindString(k) != "private"
  {
  }

  /** The labels of distinct kinds differ, whatever the kinds. */
  lemma {:induction false} KindStringInjective(j: Kind, k: Kind)
    requires KindString(j) == KindString(k)
    ensures j == k
  {
    if j != Shared && j != Private {
      var sj, sk := KindString(j), KindString(k);
      assert sj[0] == '<';
      assert k != Shared && k != Private;
      assert sj[6..|sj| - 1] == FormatNat(j as nat);
      assert sk[6..|sk| - 1] == FormatNat(k as nat);
      FormatNatRoundTrip(j as nat);
      FormatNatRoundTrip(k as nat);
    }
  }

  /** A wall-clock instant, in nanoseconds since Go's zero `time.Time`;
      the zero instant is 0. */
  type Time = int

  /** time.Duration: a signed 64-bit count of nanoseconds. */
  type Duration = d: int | MinInt64 <= d <= MaxInt64

  const Second: Duration := 1_000_000_000
  const Minute: Duration := 60 * Second
  const Hour: Duration := 60 * Minute

  /** time.Time.Sub: t - u, saturated to the range of a Duration. */
  function Sub(t: Time, u: Time): (d: Duration)
    ensures MinInt64 <= t - u <= MaxInt64 ==> d == t - u
    ensures t - u > MaxInt64 ==> d == MaxInt64
    ensures t - u < MinInt64 ==> d == MinInt64
  {
    if t - u > MaxInt64 then MaxInt64
    else if t - u < MinInt64 then MinInt64
    else t - u
  }

  datatype Ride = Ride(
    id: string,
    driver: string,
    kind: Kind,
    start: Time,
    end: Time,
    distance: real)

  /** unter.Ride{}: every field at its zero value. */
  const ZeroRide := Ride("", "", 0, 0, 0, 0.0)
}
