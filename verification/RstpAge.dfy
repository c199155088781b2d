/**
 Message age: what keeps a dead root's vector from circling for ever.

 A bridge believes a vector younger than its max age, adds a second, and sends
 both on in 1/256 s in sixteen bits. Each way is a truncating division, so a
 hop gains a little less than a second.
 */
module RstpAge {
  import RstpState

  /** t_to: milliseconds to 1/256 s, in the sixteen bits of a BPDU field. */
  function ToWire(ms: nat): (v: nat)
    ensures v < 0x1_0000
  {
    (ms * 256 / 1000) % 0x1_0000
  }

  /** t_from: back again. */
  function FromWire(v: nat): nat {
    v * 1000 / 256
  }

  function OverWire(ms: nat): nat {
    FromWire(ToWire(ms))
  }

  /** A received vector's message age and max age, in milliseconds. */
  datatype Aged = Aged(age: nat, max: nat)

  predicate Believed(x: Aged) {
    x.age < x.max
  }

  /** What the next bridge receives of a vector this one relays. */
  function Relay(x: Aged): Aged {
    Aged(OverWire(x.age + 1000), OverWire(x.max))
  }

  /** It is what a bridge's times come to, once it follows the port that received
      that vector. */
  lemma RelayIsSelection(b: RstpState.Bridge, key: nat, x: Aged)
    requires key < |b.ports| && b.ports[key].pt.msgAge == x.age && b.ports[key].pt.maxAge == x.max
    ensures var t := RstpState.TimesFor(b, key);
      t.msgAge >= 0 && t.maxAge >= 0 && Relay(x) == Aged(OverWire(t.msgAge), OverWire(t.maxAge))
  {
  }

  function Relayed(x: Aged, hops: nat): Aged {
    if hops == 0 then x else Relay(Relayed(x, hops - 1))
  }

  /** Whole seconds survive the encoding exactly. */
  lemma WholeSeconds(s: nat)
    requires s <= 255
    ensures OverWire(1000 * s) == 1000 * s
  {
    assert 1000 * s * 256 / 1000 == 256 * s;
  }

  /** A time that fits loses less than 5 ms; none is ever raised. */
  lemma WireLoss(ms: nat)
    ensures OverWire(ms) <= ms
    ensures ms < 256000 ==> ms - 4 <= OverWire(ms)
  {
    var v := ms * 256 / 1000;
    assert v * 1000 <= ms * 256 < v * 1000 + 1000;
    assert (v % 0x1_0000) <= v;
    assert FromWire(v % 0x1_0000) * 256 <= (v % 0x1_0000) * 1000;
  }

  /** A hop gains at least 996 ms exactly when the age still fits once raised. */
  lemma HopGains(x: Aged)
    requires Believed(x) && x.max < 256000
    ensures Relay(x).age >= x.age + 996 <==> x.age < 255000
    ensures Relay(x).max <= x.max
  {
    WireLoss(x.age + 1000);
    WireLoss(x.max);
    if x.age >= 255000 {
      var v := (x.age + 1000) * 256 / 1000;
      assert 65536 <= v < 2 * 65536;
    }
  }

  /** Otherwise it wraps: an age of 255 s comes back as none. */
  lemma LongAgeWraps()
    ensures Believed(Aged(255000, 255500)) && Relay(Aged(255000, 255500)).age == 0
  {
    assert 256000 * 256 / 1000 == 65536;
  }

  /**
   A vector dies: with a max age of at most 255 s -- the protocol allows 40 --
   one believed at every one of so many hops has been relayed fewer than
   max / 996 times, and its max age was never raised.
   */
  lemma {:induction false} VectorDies(x: Aged, hops: nat)
    requires x.max <= 255000
    requires forall i :: 0 <= i <= hops ==> Believed(Relayed(x, i))
    ensures Relayed(x, hops).age >= x.age + 996 * hops && Relayed(x, hops).max <= x.max
    ensures 996 * hops < x.max
  {
    assert Believed(Relayed(x, hops));
    if hops > 0 {
      VectorDies(x, hops - 1);
      assert Believed(Relayed(x, hops - 1));
      HopGains(Relayed(x, hops - 1));
    }
  }
}
