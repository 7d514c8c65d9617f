/**
 Bluetooth LE channel lookup tables, `ble_channel_constants.c`: centre
 frequency (MHz), wavelength (mm) and wavenumber (rad/mm) per channel index,
 with a zero default for indices outside 0..39.
 */
module BleChannel {
  import opened Common

  /** Number of BLE channel indices. */
  const ChannelCount: nat := 40

  /** `ble_channel_frequencies`, indexed by channel index. */
  const Frequencies: seq<int> := [
    2404, 2406, 2408, 2410, 2412,
    2414, 2416, 2418, 2420, 2422,
    2424, 2428, 2430, 2432, 2434,
    2436, 2438, 2440, 2442, 2444,
    2446, 2448, 2450, 2452, 2454,
    2456, 2458, 2460, 2462, 2464,
    2466, 2468, 2470, 2472, 2474,
    2476, 2478, 2402, 2426, 2480
  ]

  /** `ble_channel_wavelengths`, read as exact decimals. */
  const Wavelengths: seq<real> := [
    124.705681, 124.602019, 124.498529, 124.395211, 124.292064,
    124.189088, 124.086282, 123.983647, 123.881181, 123.778884,
    123.676757, 123.473006, 123.371382, 123.269925, 123.168635,
    123.067511, 122.966554, 122.865761, 122.765134, 122.664672,
    122.564374, 122.464239, 122.364269, 122.264461, 122.164816,
    122.065333, 121.966012, 121.866853, 121.767855, 121.669017,
    121.570340, 121.471823, 121.373465, 121.275266, 121.177226,
    121.079345, 120.981621, 124.809516, 123.574797, 120.884056
  ]

  /** `ble_channel_wavenumbers`, read as exact decimals. */
  const Wavenumbers: seq<real> := [
    0.050384, 0.050426, 0.050468, 0.050510, 0.050552,
    0.050594, 0.050636, 0.050678, 0.050719, 0.050761,
    0.050803, 0.050887, 0.050929, 0.050971, 0.051013,
    0.051055, 0.051097, 0.051139, 0.051181, 0.051222,
    0.051264, 0.051306, 0.051348, 0.051390, 0.051432,
    0.051474, 0.051516, 0.051558, 0.051600, 0.051642,
    0.051684, 0.051725, 0.051767, 0.051809, 0.051851,
    0.051893, 0.051935, 0.050342, 0.050845, 0.051977
  ]

  /** `ble_channel_get_frequency` */
  function GetFrequency(index: Octet): (r: int)
    ensures index < ChannelCount ==> r == 2402 + 2 * RfChannel(index)
    ensures index >= ChannelCount ==> r == 0
  {
    FrequencyTableFollowsChannelMap();
    if index < ChannelCount then Frequencies[index] else 0
  }

  /** `ble_channel_get_wavelength` */
  function GetWavelength(index: Octet): (r: real)
    ensures index < ChannelCount ==> 299792.45 < r * GetFrequency(index) as real < 299792.47
    ensures index >= ChannelCount ==> r == 0.0
  {
    WavelengthIsSpeedOfLightOverFrequency();
    if index < ChannelCount then Wavelengths[index] else 0.0
  }

  /** `ble_channel_get_wavenumber` */
  function GetWavenumber(index: Octet): (r: real)
    ensures index < ChannelCount ==> r > 0.0 && 6.2831 < r * GetWavelength(index) < 6.2833
    ensures index >= ChannelCount ==> r == 0.0
  {
    WavenumberIsTwoPiOverWavelength();
    if index < ChannelCount then Wavenumbers[index] else 0.0
  }

  /** The reference channel map: the RF channel (centre frequency
      2402 + 2k MHz) that carries each channel index, per Bluetooth Core
      Specification 5.4, Vol 6, Part B, Section 1.4.1. The advertising
      channels 37, 38 and 39 sit on RF channels 0, 12 and 39; the data
      channels fill the remaining RF channels in order. */
  function RfChannel(index: nat): (k: nat)
    requires index < ChannelCount
    ensures k < ChannelCount
  {
    if index <= 10 then index + 1
    else if index <= 36 then index + 2
    else if index == 37 then 0
    else if index == 38 then 12
    else 39
  }

  /** The inverse of `RfChannel`. */
  function ChannelIndex(k: nat): (index: nat)
    requires k < ChannelCount
    ensures index < ChannelCount
  {
    if k == 0 then 37
    else if k <= 11 then k - 1
    else if k == 12 then 38
    else if k <= 38 then k - 2
    else 39
  }

  /** The channel map is a bijection on 0..39. */
  lemma RfChannelBijective()
    ensures forall index :: 0 <= index < ChannelCount ==> ChannelIndex(RfChannel(index)) == index
    ensures forall k :: 0 <= k < ChannelCount ==> RfChannel(ChannelIndex(k)) == k
  {
  }

  /** The frequency table is the reference map: 2404 + 2i for data
      channels 0..10, 2406 + 2i for 11..36, and 2402, 2426, 2480 for the
      advertising channels. */
  lemma FrequencyTableFollowsChannelMap()
    ensures |Frequencies| == ChannelCount
    ensures forall i :: 0 <= i < ChannelCount ==> Frequencies[i] == 2402 + 2 * RfChannel(i)
    ensures forall i :: 0 <= i <= 10 ==> Frequencies[i] == 2404 + 2 * i
    ensures forall i :: 11 <= i <= 36 ==> Frequencies[i] == 2406 + 2 * i
    ensures Frequencies[37] == 2402 && Frequencies[38] == 2426 && Frequencies[39] == 2480
  {
  }

  /** All 40 frequencies are distinct, even and within 2402..2480 MHz, and
      every even frequency in that band is some channel's. */
  lemma {:induction false} FrequenciesDistinctEvenInBand()
    ensures forall i, j :: 0 <= i < j < ChannelCount ==> Frequencies[i] != Frequencies[j]
    ensures forall i :: 0 <= i < ChannelCount ==>
      Frequencies[i] % 2 == 0 && 2402 <= Frequencies[i] <= 2480
    ensures forall f :: 2402 <= f <= 2480 && f % 2 == 0 ==>
      exists i :: 0 <= i < ChannelCount && Frequencies[i] == f
  {
    FrequencyTableFollowsChannelMap();
    RfChannelBijective();
    forall f | 2402 <= f <= 2480 && f % 2 == 0
      ensures exists i :: 0 <= i < ChannelCount && Frequencies[i] == f
    {
      var i := ChannelIndex((f - 2402) / 2);
      assert Frequencies[i] == f;
    }
  }

  /** Over the data channels 0..36 the frequency strictly increases. */
  lemma DataChannelFrequenciesIncrease()
    ensures forall i, j :: 0 <= i < j <= 36 ==> Frequencies[i] < Frequencies[j]
  {
    FrequencyTableFollowsChannelMap();
  }

  /** Each tabulated wavelength is the speed of light (299792458 m/s)
      divided by the channel frequency, to within the table's rounding. */
  lemma WavelengthIsSpeedOfLightOverFrequency()
    ensures |Wavelengths| == ChannelCount
    ensures forall i :: 0 <= i < ChannelCount ==>
      299792.45 < Wavelengths[i] * Frequencies[i] as real < 299792.47
  {
    WavelengthsFrom(0, 20);
    WavelengthsFrom(20, 40);
  }

  /** The wavelength check over the indices lo..hi-1. */
  lemma WavelengthsFrom(lo: nat, hi: nat)
    requires (lo == 0 && hi == 20) || (lo == 20 && hi == 40)
    ensures forall i :: lo <= i < hi ==>
      i < |Wavelengths| && i < |Frequencies| && 299792.45 < Wavelengths[i] * Frequencies[i] as real < 299792.47
  {
  }

  /** Each tabulated wavenumber is 2 pi over the tabulated wavelength, to
      within the table's rounding, and is positive. */
  lemma WavenumberIsTwoPiOverWavelength()
    ensures |Wavenumbers| == ChannelCount
    ensures forall i :: 0 <= i < ChannelCount ==>
      Wavenumbers[i] > 0.0 && 6.2831 < Wavenumbers[i] * Wavelengths[i] < 6.2833
  {
    WavenumbersFrom(0, 20);
    WavenumbersFrom(20, 40);
  }

  /** The wavenumber check over the indices lo..hi-1. */
  lemma WavenumbersFrom(lo: nat, hi: nat)
    requires (lo == 0 && hi == 20) || (lo == 20 && hi == 40)
    ensures forall i :: lo <= i < hi ==>
      i < |Wavenumbers| && i < |Wavelengths| && Wavenumbers[i] > 0.0 && 6.2831 < Wavenumbers[i] * Wavelengths[i] < 6.2833
  {
  }
}
