/** The few integer vector operations of the `vek` crate that the modelled code uses. */
module Vek {
  datatype Vec2 = Vec2(x: int, y: int) {
    function Add(o: Vec2): Vec2 { Vec2(x + o.x, y + o.y) }
    function MagnitudeSquared(): int { x * x + y * y }
  }

  datatype Vec3 = Vec3(x: int, y: int, z: int) {
    function Add(o: Vec3): Vec3 { Vec3(x + o.x, y + o.y, z + o.z) }
    function XY(): Vec2 { Vec2(x, y) }
    /** `self + Vec3::unit_z() * dz` */
    function Up(dz: int): Vec3 { Vec3(x, y, z + dz) }
  }

  function Min(a: int, b: int): int { if a < b then a else b }

  function Max(a: int, b: int): int { if a < b then b else a }

  function Abs(a: int): int { if a < 0 then -a else a }
}
