/** Small value types and JavaScript-semantics helpers shared by every module of
    the voxel sandbox model: optional values, real and integer 3-vectors, the
    truncating `%` of JavaScript, ASCII lower-casing, clamping and order-keeping
    filters. */
module Common {

  /** A value that may be absent (`undefined` / `null` in the source). */
  datatype Option<T> = None | Some(value: T)

  /** The outcome of an operation that the source ends by throwing an `Error`
      with `message`. */
  datatype Result<T> = Ok(value: T) | Err(message: string)

  /** A point or direction with real coordinates (a Babylon `Vector3`). */
  datatype Vec3 = Vec3(x: real, y: real, z: real)
  {
    function Add(o: Vec3): Vec3 { Vec3(x + o.x, y + o.y, z + o.z) }
    function Scale(k: real): Vec3 { Vec3(k * x, k * y, k * z) }
  }

  /** Squared Euclidean distance (`Vector3.DistanceSquared`). */
  function DistSq(a: Vec3, b: Vec3): (d: real)
    ensures d >= 0.0
  {
    (a.x - b.x) * (a.x - b.x) + (a.y - b.y) * (a.y - b.y) + (a.z - b.z) * (a.z - b.z)
  }

  /** An integer grid cell. */
  datatype Cell = Cell(x: int, y: int, z: int)

  function Abs(r: real): (a: real)
    ensures a >= 0.0 && (a == r || a == -r)
  {
    if r < 0.0 then -r else r
  }

  function IntAbs(i: int): (a: nat)
    ensures a == i || a == -i
  {
    if i < 0 then -i else i
  }

  /** JavaScript's `a % b` on integers: the remainder of division truncated
      toward zero, so it takes the sign of the dividend. Only positive divisors
      occur in the modelled code. */
  function JsRem(a: int, b: int): (r: int)
    requires b > 0
    ensures a >= 0 ==> 0 <= r < b
    ensures a < 0 ==> -b < r <= 0
  {
    if a >= 0 then a % b else -((-a) % b)
  }

  /** Quotient and remainder are unique: any split of `a` into a multiple of
      `d` and an offset in [0, d) is Dafny's (floor) division. */
  lemma DivModUnique(a: int, d: int, q: int, r: int)
    requires d > 0 && 0 <= r < d && a == d * q + r
    ensures a / d == q && a % d == r
  {
    var q', r' := a / d, a % d;
    assert a == d * q' + r';
    assert d * (q - q') == r' - r;
    if q > q' {
      MulAtLeast(d, q - q');
    } else if q < q' {
      MulAtLeast(d, q' - q);
    }
  }

  lemma MulAtLeast(d: int, k: int)
    requires d > 0 && k >= 1
    ensures d * k >= d
  {
    assert d * k == d + d * (k - 1);
  }

  /** Babylon's `Scalar.Clamp(v, lo, hi)`, that is `min(hi, max(lo, v))`. */
  function Clamp(v: real, lo: real, hi: real): (r: real)
    ensures lo <= hi ==> lo <= r <= hi
    ensures lo <= v <= hi ==> r == v
    ensures v < lo && lo <= hi ==> r == lo
    ensures v > hi ==> r == hi
  {
    if v > hi then hi else if v < lo then lo else v
  }

  /** `toLowerCase` restricted to the ASCII letters. */
  function LowerChar(c: char): (l: char)
    ensures !('A' <= c <= 'Z') ==> l == c
    ensures 'A' <= c <= 'Z' ==> 'a' <= l <= 'z'
  {
    if 'A' <= c <= 'Z' then (c as int - 'A' as int + 'a' as int) as char else c
  }

  function Lower(s: string): (l: string)
    ensures |l| == |s|
    ensures forall i :: 0 <= i < |s| ==> l[i] == LowerChar(s[i])
  {
    if s == [] then [] else [LowerChar(s[0])] + Lower(s[1..])
  }

  /** The elements of `s` that satisfy `keep`, in their original order
      (`Array.prototype.filter`). */
  function Filter<T>(s: seq<T>, keep: T -> bool): (r: seq<T>)
    ensures |r| <= |s|
    ensures forall i :: 0 <= i < |r| ==> r[i] in s && keep(r[i])
    ensures forall i :: 0 <= i < |s| && keep(s[i]) ==> s[i] in r
  {
    if s == [] then []
    else if keep(s[0]) then [s[0]] + Filter(s[1..], keep)
    else Filter(s[1..], keep)
  }

  /** `Filter` distributes over concatenation, which is what lets a loop that
      scans `s` left to right build `Filter(s, keep)` one element at a time. */
  lemma {:induction false} FilterAppend<T>(a: seq<T>, b: seq<T>, keep: T -> bool)
    ensures Filter(a + b, keep) == Filter(a, keep) + Filter(b, keep)
  {
    if a == [] {
      assert a + b == b;
    } else {
      assert (a + b)[1..] == a[1..] + b;
      FilterAppend(a[1..], b, keep);
    }
  }

  /** One step of a left-to-right filtering loop: the filter of the first
      i + 1 elements extends that of the first i by element i when it is
      kept. */
  lemma FilterStep<T>(s: seq<T>, i: int, keep: T -> bool)
    requires 0 <= i < |s|
    ensures Filter(s[..i + 1], keep) == Filter(s[..i], keep) + (if keep(s[i]) then [s[i]] else [])
  {
    assert s[..i + 1] == s[..i] + [s[i]];
    FilterAppend(s[..i], [s[i]], keep);
    assert Filter([s[i]], keep) == if keep(s[i]) then [s[i]] else [] by {
      assert [s[i]][1..] == [];
    }
  }
}
