/** Three-component positions (THREE.Vector3) and the stride-3 layout in which
    the scene keeps them in flat Float32Array buffers: point i occupies
    slots 3i, 3i+1 and 3i+2.  Floats are modelled as reals. */
module Vectors {

  datatype Vec3 = Vec3(x: real, y: real, z: real)

  function Abs(r: real): (a: real)
    ensures a >= 0.0 && (a == r || a == -r)
  {
    if r < 0.0 then -r else r
  }

  function Add(a: Vec3, b: Vec3): Vec3 {
    Vec3(a.x + b.x, a.y + b.y, a.z + b.z)
  }

  /** Vector3.multiplyScalar. */
  function Scale(a: Vec3, k: real): Vec3 {
    Vec3(a.x * k, a.y * k, a.z * k)
  }

  /** Squared distance from the origin. */
  function NormSq(p: Vec3): real {
    p.x * p.x + p.y * p.y + p.z * p.z
  }

  /** Squared distance from the vertical (y) axis. */
  function HorizontalNormSq(p: Vec3): real {
    p.x * p.x + p.z * p.z
  }

  /** The point stored at index i of a stride-3 buffer. */
  function Slot(s: seq<real>, i: int): Vec3
    requires 0 <= i && 3 * i + 2 < |s|
  {
    Vec3(s[3 * i], s[3 * i + 1], s[3 * i + 2])
  }

  /** A stride-3 buffer of n points is determined by its n slots. */
  lemma SlotsDetermine(a: seq<real>, b: seq<real>, n: nat)
    requires |a| == 3 * n && |b| == 3 * n
    requires forall i :: 0 <= i < n ==> Slot(a, i) == Slot(b, i)
    ensures a == b
  {
    forall j | 0 <= j < |a|
      ensures a[j] == b[j]
    {
      var i := j / 3;
      assert Slot(a, i) == Slot(b, i);
    }
  }

  /** Writes point v into slot i of buf (three indexed stores); every other
      slot keeps its point. */
  method SetSlot(buf: array<real>, i: nat, v: Vec3)
    requires 3 * i + 2 < buf.Length
    modifies buf
    ensures Slot(buf[..], i) == v
    ensures forall m :: 0 <= m && 3 * m + 2 < buf.Length && m != i ==> Slot(buf[..], m) == Slot(old(buf[..]), m)
  {
    buf[3 * i] := v.x;
    buf[3 * i + 1] := v.y;
    buf[3 * i + 2] := v.z;
  }
}
