/** Machine words of the tracer (64-bit target) and Rust's saturating operations on them. */
module Words {
  const U64_MAX: int := 0xFFFF_FFFF_FFFF_FFFF
  const I64_MAX: int := 0x7FFF_FFFF_FFFF_FFFF
  const I64_MIN: int := -0x8000_0000_0000_0000

  /** `u64`, and also `usize`. */
  type U64 = x: int | 0 <= x <= U64_MAX
  type I64 = x: int | I64_MIN <= x <= I64_MAX

  datatype Option<+T> = None | Some(value: T)

  function Min(a: int, b: int): int {
    if a <= b then a else b
  }

  function Max(a: int, b: int): int {
    if a >= b then a else b
  }

  function SaturatingAdd(a: U64, b: U64): U64 {
    Min(U64_MAX, a + b)
  }

  function SaturatingSub(a: U64, b: U64): U64 {
    Max(0, a - b)
  }

  /** The nearest `i64` to an integer; `saturating_add` and `saturating_sub` on `i64` clamp the exact result. */
  function ClampI64(x: int): (r: I64)
    ensures I64_MIN <= r <= I64_MAX && (r < x ==> r == I64_MAX) && (r > x ==> r == I64_MIN)
  {
    Max(I64_MIN, Min(I64_MAX, x))
  }

  /** `fetch_add` on a `u64`, which wraps around. */
  function WrappingAdd(a: U64, n: nat): U64 {
    (a + n) % (U64_MAX + 1)
  }

  /** It loses exactly 2^64 each time it passes the largest `u64`, and nothing else. */
  lemma WrapsAround(a: U64, n: U64)
    ensures WrappingAdd(a, n) == if a + n <= U64_MAX then a + n else a + n - U64_MAX - 1
  {
  }

  lemma WrappingAddSucc(a: U64, n: nat)
    ensures WrappingAdd(WrappingAdd(a, n), 1) == WrappingAdd(a, n + 1)
  {
    var m := a + n;
    var q, r := m / (U64_MAX + 1), m % (U64_MAX + 1);
    if r == U64_MAX {
      assert m + 1 == (q + 1) * (U64_MAX + 1);
    } else {
      assert m + 1 == q * (U64_MAX + 1) + (r + 1);
    }
  }

  /** Two's complement reduction: what unchecked `i64` arithmetic yields. */
  function WrapI64(x: int): (r: I64)
    ensures I64_MIN <= x <= I64_MAX ==> r == x
    ensures I64_MAX < x <= I64_MAX + U64_MAX + 1 ==> r == x - U64_MAX - 1
    ensures I64_MIN - U64_MAX - 1 <= x < I64_MIN ==> r == x + U64_MAX + 1
  {
    var m := x % (U64_MAX + 1);
    if m <= I64_MAX then m else m - (U64_MAX + 1)
  }

  /** Removes a key, as `HashMap::remove` and `DashMap::remove` do. */
  function Without<K, V>(m: map<K, V>, key: K): (r: map<K, V>)
    ensures r.Keys == m.Keys - {key}
    ensures forall k :: k in r ==> r[k] == m[k]
  {
    m - {key}
  }

  /** `HashMap::get`. */
  function Lookup<K, V>(m: map<K, V>, key: K): Option<V> {
    if key in m then Some(m[key]) else None
  }
}
