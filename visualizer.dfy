/**
 * The band reducer of src/_utils/visualizerUtils.ts: three byte spectra
 * (bass, mid, treble) become three energies that drive the particle shader.
 * Numbers are modelled as exact reals; `Math.pow(_, 0.8)` is a parameter
 * about which only PowLike is known.
 */
module Visualizer {
  import opened Base

  datatype Range = Range(min: real, max: real)

  datatype FreqConfig = FreqConfig(bass: Range, mid: Range, tre: Range, amp: real)

  /** The three-element array `[bassFr * amp, midFr * amp, treFr * amp]`. */
  datatype Energies = Energies(bass: real, mid: real, tre: real)

  /** The exported `freqConfig`. */
  const DefaultConfig := FreqConfig(Range(0.0, 8.0), Range(0.0, 4.0), Range(0.0, 2.0), 7.0)

  /** What the model requires of `x => Math.pow(x, 0.8)` on the non-negative reals. */
  ghost predicate PowLike(pow: real -> real) {
    && pow(0.0) == 0.0
    && (forall x :: 0.0 <= x ==> 0.0 <= pow(x))
    && (forall x, y :: 0.0 <= x <= y ==> pow(x) <= pow(y))
  }

  /** Where `val` sits in [minVal, maxVal], as a fraction. */
  function Fractionate(val: real, minVal: real, maxVal: real): (r: real)
    requires minVal != maxVal
    ensures r * (maxVal - minVal) == val - minVal
  {
    (val - minVal) / (maxVal - minVal)
  }

  /** Linear remap of [minVal, maxVal] onto [outMin, outMax]. */
  function Modulate(val: real, minVal: real, maxVal: real, outMin: real, outMax: real): (r: real)
    requires minVal != maxVal
    ensures (r - outMin) * (maxVal - minVal) == (val - minVal) * (outMax - outMin)
  {
    var fr := Fractionate(val, minVal, maxVal);
    var delta := outMax - outMin;
    outMin + fr * delta
  }

  lemma ModulateEndpoints(minVal: real, maxVal: real, outMin: real, outMax: real)
    requires minVal != maxVal
    ensures Modulate(minVal, minVal, maxVal, outMin, outMax) == outMin
    ensures Modulate(maxVal, minVal, maxVal, outMin, outMax) == outMax
  {
  }

  lemma ModulateMonotone(v: real, w: real, minVal: real, maxVal: real, outMin: real, outMax: real)
    requires minVal < maxVal && outMin <= outMax && v <= w
    ensures Modulate(v, minVal, maxVal, outMin, outMax) <= Modulate(w, minVal, maxVal, outMin, outMax)
  {
    var fv, fw := Fractionate(v, minVal, maxVal), Fractionate(w, minVal, maxVal);
    assert fv <= fw;
    MulMonotone(outMax - outMin, fv, fw);
  }

  lemma MulMonotone(a: real, x: real, y: real)
    requires 0.0 <= a && x <= y
    ensures x * a <= y * a
  {
  }

  lemma MulStrict(a: real, x: real, y: real)
    requires 0.0 < a && x < y
    ensures x * a < y * a
  {
  }

  /** Division by a positive count keeps bounds that hold of the scaled value. */
  lemma QuotientBounds(x: real, n: real, lo: real, hi: real)
    requires n > 0.0 && lo * n <= x <= hi * n
    ensures lo <= x / n <= hi
  {
    var q := x / n;
    assert q * n == x;
  }

  lemma QuotientAboveOne(x: real, n: real)
    requires n > 0.0 && x > n
    ensures x / n > 1.0
  {
    var q := x / n;
    assert q * n == x;
    assert (q - 1.0) * n > 0.0;
  }

  lemma QuotientMonotone(x: real, y: real, n: real)
    requires n > 0.0 && x <= y
    ensures x / n <= y / n
  {
    var p, q := x / n, y / n;
    assert p * n == x && q * n == y;
  }

  /** `arr.reduce((a, b) => Math.max(a, b))` once the first element is the accumulator. */
  function MaxFold(acc: int, s: seq<Byte>): (r: int)
    ensures acc <= r
    ensures forall i :: 0 <= i < |s| ==> s[i] <= r
    ensures r == acc || r in s
    decreases |s|
  {
    if s == [] then acc
    else MaxFold(if acc < s[0] then s[0] else acc, s[1..])
  }

  /** The sum of the bytes, added from the last one backwards. */
  function Sum(s: seq<Byte>): nat {
    if s == [] then 0 else Sum(s[..|s| - 1]) + s[|s| - 1]
  }

  /** Summing from the front agrees with Sum. */
  lemma {:induction false} SumFront(s: seq<Byte>)
    requires s != []
    ensures Sum(s) == s[0] + Sum(s[1..])
    decreases |s|
  {
    if |s| > 1 {
      SumFront(s[..|s| - 1]);
      assert s[..|s| - 1][1..] == s[1..][..|s| - 2];
      assert s[..|s| - 1][0] == s[0];
    } else {
      assert s[..0] == [] && s[1..] == [];
    }
  }

  /** `arr.reduce((sum, b) => sum + b)` once the first element is the accumulator. */
  function SumFold(acc: int, s: seq<Byte>): (r: int)
    ensures acc <= r <= acc + 255 * |s|
    ensures (forall i :: 0 <= i < |s| ==> s[i] == 0) ==> r == acc
    ensures (forall i :: 0 <= i < |s| ==> s[i] == 255) ==> r == acc + 255 * |s|
    decreases |s|
  {
    if s == [] then acc else SumFold(acc + s[0], s[1..])
  }

  /** The fold adds exactly the bytes to its seed. */
  lemma {:induction false} SumFoldIsSum(acc: int, s: seq<Byte>)
    ensures SumFold(acc, s) == acc + Sum(s)
    decreases |s|
  {
    if s != [] {
      SumFoldIsSum(acc + s[0], s[1..]);
      SumFront(s);
    }
  }

  /** `max(arr)`: `reduce` without an initial value throws on an empty array. */
  function MaxOf(arr: seq<Byte>): (r: Option<int>)
    ensures r.None? <==> arr == []
    ensures r.Some? ==> r.value in arr && forall i :: 0 <= i < |arr| ==> arr[i] <= r.value
  {
    if arr == [] then None else Some(MaxFold(arr[0], arr[1..]))
  }

  /** `avg(arr)`: the sum over the length; throws (None) on an empty array. */
  function AvgOf(arr: seq<Byte>): (r: Option<real>)
    ensures r.None? <==> arr == []
    ensures r.Some? ==> r.value == Sum(arr) as real / |arr| as real
    ensures r.Some? ==> 0.0 <= r.value <= 255.0
    ensures r.Some? && (forall i :: 0 <= i < |arr| ==> arr[i] == 0) ==> r.value == 0.0
    ensures r.Some? && (forall i :: 0 <= i < |arr| ==> arr[i] == 255) ==> r.value == 255.0
  {
    if arr == [] then None
    else
      var total := SumFold(arr[0], arr[1..]);
      AvgTotal(arr);
      AvgFacts(arr);
      Some(total as real / |arr| as real)
  }

  lemma AvgTotal(arr: seq<Byte>)
    requires arr != []
    ensures SumFold(arr[0], arr[1..]) == Sum(arr)
  {
    SumFoldIsSum(arr[0], arr[1..]);
    SumFront(arr);
  }

  /** The sum of bytes lies in [0, 255 n]: 0 on silence, 255 n at full scale. */
  lemma SumRange(arr: seq<Byte>)
    requires arr != []
    ensures 0 <= Sum(arr) <= 255 * |arr|
    ensures (forall i :: 0 <= i < |arr| ==> arr[i] == 0) ==> Sum(arr) == 0
    ensures (forall i :: 0 <= i < |arr| ==> arr[i] == 255) ==> Sum(arr) == 255 * |arr|
  {
    AvgTotal(arr);
  }

  /** The mean of bytes is a byte value, 0 on silence and 255 at full scale. */
  lemma AvgFacts(arr: seq<Byte>)
    requires arr != []
    ensures var q := Sum(arr) as real / |arr| as real;
      && 0.0 <= q <= 255.0
      && ((forall i :: 0 <= i < |arr| ==> arr[i] == 0) ==> q == 0.0)
      && ((forall i :: 0 <= i < |arr| ==> arr[i] == 255) ==> q == 255.0)
  {
    SumRange(arr);
    var n := |arr| as real;
    var total := Sum(arr);
    QuotientBounds(total as real, n, 0.0, 255.0);
    if forall i :: 0 <= i < |arr| ==> arr[i] == 255 {
      QuotientBounds(total as real, n, 255.0, 255.0);
    }
  }

  /** Every byte of the band is 0. */
  predicate Silent(s: seq<Byte>) {
    forall i :: 0 <= i < |s| ==> s[i] == 0
  }

  /** A band range that starts at or above 0 and is not reversed. */
  predicate Ordered(range: Range) {
    0.0 <= range.min <= range.max
  }

  /** A configuration whose bands are all Ordered, with a non-negative amp. */
  predicate WellFormed(config: FreqConfig) {
    Ordered(config.bass) && Ordered(config.mid) && Ordered(config.tre) && config.amp >= 0.0
  }

  /** One band's energy from its level: the level remapped from [0, 1] onto the band's range, times amp. */
  function BandEnergy(level: real, range: Range, amp: real): (e: real)
    ensures e == (range.min + level * (range.max - range.min)) * amp
    ensures level == 0.0 ==> e == range.min * amp
    ensures level >= 0.0 && Ordered(range) && amp >= 0.0 ==> e >= range.min * amp >= 0.0
  {
    var v := Modulate(level, 0.0, 1.0, range.min, range.max) * amp;
    assert v == (range.min + level * (range.max - range.min)) * amp;
    BandEnergyFloor(level, range, amp, v);
    v
  }

  lemma BandEnergyFloor(level: real, range: Range, amp: real, v: real)
    requires v == (range.min + level * (range.max - range.min)) * amp
    ensures level >= 0.0 && Ordered(range) && amp >= 0.0 ==> v >= range.min * amp >= 0.0
  {
    if level >= 0.0 && Ordered(range) && amp >= 0.0 {
      var x := range.min + level * (range.max - range.min);
      MulMonotone(level, 0.0, range.max - range.min);
      assert x >= range.min;
      MulMonotone(amp, 0.0, range.min);
      MulMonotone(amp, range.min, x);
    }
  }

  /** `max(bass) / bass.length`. */
  function BassLevel(bass: seq<Byte>): (b: real)
    requires bass != []
    ensures 0.0 <= b <= 255.0
    ensures Silent(bass) ==> b == 0.0
  {
    var peak := MaxOf(bass).value as real;
    QuotientBounds(peak, |bass| as real, 0.0, 255.0);
    peak / |bass| as real
  }

  /** `avg(mid) / tre.length`: the mid mean over the TREBLE length. */
  function MidLevel(mid: seq<Byte>, tre: seq<Byte>): (m: real)
    requires mid != [] && tre != []
    ensures 0.0 <= m <= 255.0
    ensures Silent(mid) ==> m == 0.0
  {
    QuotientBounds(AvgOf(mid).value, |tre| as real, 0.0, 255.0);
    AvgOf(mid).value / |tre| as real
  }

  /** `avg(tre) / tre.length`. */
  function TrebleLevel(tre: seq<Byte>): (t: real)
    requires tre != []
    ensures 0.0 <= t <= 255.0
    ensures Silent(tre) ==> t == 0.0
  {
    QuotientBounds(AvgOf(tre).value, |tre| as real, 0.0, 255.0);
    AvgOf(tre).value / |tre| as real
  }

  /** The bass output: `modulate(pow(b), 0, 1, bass.min, bass.max) * amp`. */
  function BassEnergy(bass: seq<Byte>, config: FreqConfig, pow: real -> real): (e: real)
    requires bass != []
    ensures PowLike(pow) && Ordered(config.bass) && config.amp >= 0.0 ==> e >= config.bass.min * config.amp >= 0.0
    ensures pow(0.0) == 0.0 && Silent(bass) ==> e == config.bass.min * config.amp
  {
    BandEnergy(pow(BassLevel(bass)), config.bass, config.amp)
  }

  /** The mid output: `modulate(m, 0, 1, mid.min, mid.max) * amp`. */
  function MidEnergy(mid: seq<Byte>, tre: seq<Byte>, config: FreqConfig): (e: real)
    requires mid != [] && tre != []
    ensures Ordered(config.mid) && config.amp >= 0.0 ==> e >= config.mid.min * config.amp >= 0.0
    ensures Silent(mid) ==> e == config.mid.min * config.amp
  {
    BandEnergy(MidLevel(mid, tre), config.mid, config.amp)
  }

  /** The treble output: `modulate(t, 0, 1, tre.min, tre.max) * amp`. */
  function TrebleEnergy(tre: seq<Byte>, config: FreqConfig): (e: real)
    requires tre != []
    ensures Ordered(config.tre) && config.amp >= 0.0 ==> e >= config.tre.min * config.amp >= 0.0
    ensures Silent(tre) ==> e == config.tre.min * config.amp
  {
    BandEnergy(TrebleLevel(tre), config.tre, config.amp)
  }

  /**
   * `getFrequencies`: None when any band is empty (the reduction throws). Under a
   * well-formed configuration the outputs are never negative, and a silent band
   * gives its range's minimum times amp.
   */
  function GetFrequencies(bass: seq<Byte>, mid: seq<Byte>, tre: seq<Byte>, config: FreqConfig, pow: real -> real): (r: Option<Energies>)
    ensures r.None? <==> bass == [] || mid == [] || tre == []
    ensures r.Some? && PowLike(pow) && WellFormed(config) ==>
      r.value.bass >= 0.0 && r.value.mid >= 0.0 && r.value.tre >= 0.0
    ensures r.Some? && pow(0.0) == 0.0 && Silent(bass) ==> r.value.bass == config.bass.min * config.amp
    ensures r.Some? && Silent(mid) ==> r.value.mid == config.mid.min * config.amp
    ensures r.Some? && Silent(tre) ==> r.value.tre == config.tre.min * config.amp
  {
    if bass == [] || mid == [] || tre == [] then None
    else Some(Energies(BassEnergy(bass, config, pow), MidEnergy(mid, tre, config), TrebleEnergy(tre, config)))
  }

  /** A band's energy never falls as its level rises, for a non-reversed range and a non-negative amp. */
  lemma BandEnergyMonotone(l1: real, l2: real, range: Range, amp: real)
    requires l1 <= l2 && range.min <= range.max && amp >= 0.0
    ensures BandEnergy(l1, range, amp) <= BandEnergy(l2, range, amp)
  {
    MulMonotone(range.max - range.min, l1, l2);
    MulMonotone(amp, range.min + l1 * (range.max - range.min), range.min + l2 * (range.max - range.min));
  }

  /** A louder bass peak never lowers the bass energy. */
  lemma BassMonotone(b1: seq<Byte>, b2: seq<Byte>, config: FreqConfig, pow: real -> real)
    requires b1 != [] && |b1| == |b2|
    requires MaxOf(b1).value <= MaxOf(b2).value
    requires PowLike(pow) && config.amp >= 0.0 && config.bass.min <= config.bass.max
    ensures BassEnergy(b1, config, pow) <= BassEnergy(b2, config, pow)
  {
    var n := |b1| as real;
    QuotientMonotone(MaxOf(b1).value as real, MaxOf(b2).value as real, n);
    var x1, x2 := BassLevel(b1), BassLevel(b2);
    assert 0.0 <= x1 <= x2;
    assert pow(x1) <= pow(x2);
    BandEnergyMonotone(pow(x1), pow(x2), config.bass, config.amp);
  }

  /** The mid energy is scaled by the treble array's length; of the mid array only its mean matters. */
  lemma MidUsesTrebleLength(mid: seq<Byte>, tre: seq<Byte>, config: FreqConfig)
    requires mid != [] && tre != []
    ensures MidEnergy(mid, tre, config)
         == (config.mid.min + AvgOf(mid).value / |tre| as real * (config.mid.max - config.mid.min)) * config.amp
  {
  }

  /** Same mid mean and same treble length give the same mid energy, whatever the mid length. */
  lemma MidIgnoresOwnLength(mid1: seq<Byte>, mid2: seq<Byte>, tre: seq<Byte>, config: FreqConfig)
    requires mid1 != [] && mid2 != [] && tre != []
    requires AvgOf(mid1) == AvgOf(mid2)
    ensures MidEnergy(mid1, tre, config) == MidEnergy(mid2, tre, config)
  {
  }

  /** A one-byte mid band of 255 beside a two-byte treble band is divided by 2, not by 1. */
  lemma MidDividedByTrebleLengthExample()
    ensures MidEnergy([255], [0, 0], DefaultConfig) == 3570.0
  {
    assert AvgOf([255]).value == 255.0;
    assert MidLevel([255], [0, 0]) == 127.5;
  }

  /** Silent spectra give silent energies under the exported configuration. */
  lemma SilenceIsZero(bass: seq<Byte>, mid: seq<Byte>, tre: seq<Byte>, pow: real -> real)
    requires bass != [] && mid != [] && tre != [] && PowLike(pow)
    requires forall i :: 0 <= i < |bass| ==> bass[i] == 0
    requires forall i :: 0 <= i < |mid| ==> mid[i] == 0
    requires forall i :: 0 <= i < |tre| ==> tre[i] == 0
    ensures GetFrequencies(bass, mid, tre, DefaultConfig, pow) == Some(Energies(0.0, 0.0, 0.0))
  {
    SilentBass(bass, pow);
    SilentMid(mid, tre);
    SilentTreble(tre);
  }

  lemma SilentBass(bass: seq<Byte>, pow: real -> real)
    requires bass != [] && PowLike(pow)
    requires forall i :: 0 <= i < |bass| ==> bass[i] == 0
    ensures BassEnergy(bass, DefaultConfig, pow) == 0.0
  {
    var peak := MaxOf(bass).value;
    assert peak in bass;
    assert BassLevel(bass) == 0.0;
    assert pow(0.0) == 0.0;
  }

  lemma SilentMid(mid: seq<Byte>, tre: seq<Byte>)
    requires mid != [] && tre != []
    requires forall i :: 0 <= i < |mid| ==> mid[i] == 0
    ensures MidEnergy(mid, tre, DefaultConfig) == 0.0
  {
    assert AvgOf(mid).value == 0.0;
    assert MidLevel(mid, tre) == 0.0;
  }

  lemma SilentTreble(tre: seq<Byte>)
    requires tre != []
    requires forall i :: 0 <= i < |tre| ==> tre[i] == 0
    ensures TrebleEnergy(tre, DefaultConfig) == 0.0
  {
    assert AvgOf(tre).value == 0.0;
    assert TrebleLevel(tre) == 0.0;
  }

  /** Byte spectra give non-negative energies under the exported configuration. */
  lemma EnergiesNonNegative(bass: seq<Byte>, mid: seq<Byte>, tre: seq<Byte>, pow: real -> real)
    requires bass != [] && mid != [] && tre != [] && PowLike(pow)
    ensures var r := GetFrequencies(bass, mid, tre, DefaultConfig, pow);
      r.Some? && r.value.bass >= 0.0 && r.value.mid >= 0.0 && r.value.tre >= 0.0
  {
    assert pow(BassLevel(bass)) >= 0.0;
  }

  /** No clamping: a level above 1 takes the energy above amp * max. */
  lemma BandOvershoot(level: real, range: Range, amp: real)
    requires level > 1.0 && amp > 0.0 && range.min < range.max
    ensures BandEnergy(level, range, amp) > amp * range.max
  {
    var d := range.max - range.min;
    MulStrict(d, 1.0, level);
    var x := range.min + level * d;
    assert x > range.max;
    MulStrict(amp, range.max, x);
  }

  /** Nothing clamps the treble energy: a mean above the length overshoots amp * tre.max. */
  lemma TrebleUnclamped(tre: seq<Byte>, config: FreqConfig)
    requires tre != [] && config.amp > 0.0 && config.tre.min < config.tre.max
    requires AvgOf(tre).value > |tre| as real
    ensures TrebleEnergy(tre, config) > config.amp * config.tre.max
  {
    QuotientAboveOne(AvgOf(tre).value, |tre| as real);
    BandOvershoot(TrebleLevel(tre), config.tre, config.amp);
  }

  /** With 255 or more bins in the bass and treble bands, every energy lies in [0, amp * max]. */
  lemma BoundedForLongSpectra(bass: seq<Byte>, mid: seq<Byte>, tre: seq<Byte>, pow: real -> real)
    requires mid != [] && |bass| >= 255 && |tre| >= 255
    requires PowLike(pow) && pow(1.0) == 1.0
    ensures var r := GetFrequencies(bass, mid, tre, DefaultConfig, pow);
      && r.Some?
      && 0.0 <= r.value.bass <= 56.0
      && 0.0 <= r.value.mid <= 28.0
      && 0.0 <= r.value.tre <= 14.0
  {
    QuotientBounds(MaxOf(bass).value as real, |bass| as real, 0.0, 1.0);
    var b := BassLevel(bass);
    assert 0.0 <= pow(b) <= pow(1.0);
    QuotientBounds(AvgOf(mid).value, |tre| as real, 0.0, 1.0);
    QuotientBounds(AvgOf(tre).value, |tre| as real, 0.0, 1.0);
  }

  /** Full-scale spectra of exactly 255 bins reach amp * max: the divisor is the length, not 255. */
  lemma FullScaleAt255Bins(bass: seq<Byte>, tre: seq<Byte>, pow: real -> real)
    requires |bass| == 255 && |tre| == 255 && pow(1.0) == 1.0
    requires forall i :: 0 <= i < |bass| ==> bass[i] == 255
    requires forall i :: 0 <= i < |tre| ==> tre[i] == 255
    ensures BassEnergy(bass, DefaultConfig, pow) == 56.0
    ensures TrebleEnergy(tre, DefaultConfig) == 14.0
  {
    var peak := MaxOf(bass).value;
    assert peak in bass;
    assert BassLevel(bass) == 1.0;
    assert TrebleLevel(tre) == 1.0;
  }
}
