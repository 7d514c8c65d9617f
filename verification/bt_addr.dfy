/**
 Bluetooth device address (MAC) comparison, `bt_addr_utils.c`.
 */
module BtAddr {
  import opened Common

  /** BT_ADDR_SIZE */
  const AddrSize: nat := 6

  /** A 6-octet Bluetooth device address. */
  type Mac = s: seq<Octet> | |s| == 6 witness [0, 0, 0, 0, 0, 0]

  /** `memcmp` over the first `n` octets, compared as unsigned char. Only the
      sign of the C result is specified, so the model returns -1, 0 or 1. */
  function Memcmp(a: seq<Octet>, b: seq<Octet>, n: nat): (r: int)
    requires n <= |a| && n <= |b|
    ensures -1 <= r <= 1
    ensures r == 0 <==> a[..n] == b[..n]
    decreases n
  {
    if n == 0 then 0
    else if a[0] < b[0] then
      assert a[..n][0] != b[..n][0];
      -1
    else if a[0] > b[0] then
      assert a[..n][0] != b[..n][0];
      1
    else
      assert a[..n] == [a[0]] + a[1..][..n - 1];
      assert b[..n] == [b[0]] + b[1..][..n - 1];
      Memcmp(a[1..], b[1..], n - 1)
  }

  /** Swapping the operands of `memcmp` negates its sign. */
  lemma {:induction false} MemcmpAntisymmetric(a: seq<Octet>, b: seq<Octet>, n: nat)
    requires n <= |a| && n <= |b|
    ensures Memcmp(b, a, n) == -Memcmp(a, b, n)
    decreases n
  {
    if n > 0 && a[0] == b[0] {
      MemcmpAntisymmetric(a[1..], b[1..], n - 1);
    }
  }

  /** `bt_addr_mac_compare`: -EINVAL if either pointer is NULL, 1 if the six
      octets are equal, 0 otherwise. */
  function MacCompare(mac1: Ptr<Mac>, mac2: Ptr<Mac>): (r: int)
    ensures r == -EINVAL <==> mac1.Null? || mac2.Null?
    ensures mac1.Ref? && mac2.Ref? ==>
              (r == 1 <==> (forall k :: 0 <= k < AddrSize ==> mac1.value[k] == mac2.value[k]))
    ensures mac1.Ref? && mac2.Ref? ==> r == 0 || r == 1
  {
    if mac1.Null? || mac2.Null? then -EINVAL
    else
      var a, b := mac1.value, mac2.value;
      assert a[..AddrSize] == a && b[..AddrSize] == b;
      if Memcmp(a, b, AddrSize) == 0 then 1 else 0
  }

  /** Address comparison is an equivalence on non-NULL addresses. */
  lemma MacCompareEquivalence(a: Mac, b: Mac, c: Mac)
    ensures MacCompare(Ref(a), Ref(a)) == 1
    ensures MacCompare(Ref(a), Ref(b)) == MacCompare(Ref(b), Ref(a))
    ensures MacCompare(Ref(a), Ref(b)) == 1 <==> a == b
    ensures MacCompare(Ref(a), Ref(b)) == 1 && MacCompare(Ref(b), Ref(c)) == 1 ==>
              MacCompare(Ref(a), Ref(c)) == 1
  {
  }

  /** Octet reversal between the human-readable (big-endian) order and the
      transmitted order: multi-octet fields are sent least significant octet
      first (Bluetooth Core Specification 5.4, Vol 6, Part B, Sections 1.2-1.3). */
  function ToLittleEndian(bigEndian: Mac): (r: Mac)
    ensures forall k :: 0 <= k < AddrSize ==> r[k] == bigEndian[AddrSize - 1 - k]
  {
    [bigEndian[5], bigEndian[4], bigEndian[3], bigEndian[2], bigEndian[1], bigEndian[0]]
  }

  /** Reversal is its own inverse, so it is injective: two beacons have the same
      little-endian address exactly when they have the same big-endian one. */
  lemma ToLittleEndianInvolution(a: Mac, b: Mac)
    ensures ToLittleEndian(ToLittleEndian(a)) == a
    ensures ToLittleEndian(a) == ToLittleEndian(b) <==> a == b
  {
  }
}
