// Vocabulary shared by every part of the model.

module Common {

  datatype Option<+T> = None | Some(value: T)

  newtype byte = b: int | 0 <= b < 256

  /** A UTF-8 string as its bytes: the program compares, sorts and hashes bytes. */
  type Text = seq<byte>

  /** The bytes of ASCII text. */
  function Ascii(s: string): Text
    requires forall c :: c in s ==> c < 128 as char
  {
    seq(|s|, i requires 0 <= i < |s| => assert s[i] in s; s[i] as byte)
  }

  const U64_MAX: nat := 0xFFFF_FFFF_FFFF_FFFF

  function Elements<T(==)>(s: seq<T>): set<T> {
    set x | x in s
  }

  /** `u64::saturating_add`. */
  function SaturatingAdd(a: nat, b: nat): nat {
    if a + b <= U64_MAX then a + b else U64_MAX
  }

  /** `u64::saturating_sub`. */
  function SaturatingSub(a: nat, b: nat): nat {
    if a >= b then a - b else 0
  }

  /** `u64::abs_diff`. */
  function AbsDiff(a: nat, b: nat): nat {
    if a >= b then a - b else b - a
  }

  lemma SubsetCardinality<T>(small: set<T>, large: set<T>)
    requires small <= large
    ensures |small| <= |large|
  {
    if small == {} {
    } else {
      var x :| x in small;
      SubsetCardinality(small - {x}, large - {x});
    }
  }

  /** A map that sends different keys to different values has no more keys than its codomain. */
  lemma InjectionCardinality<K, V>(m: map<K, V>, codomain: set<V>)
    requires forall k :: k in m ==> m[k] in codomain
    requires forall k, l :: k in m && l in m && m[k] == m[l] ==> k == l
    ensures |m.Keys| <= |codomain|
  {
    if m.Keys == {} {
    } else {
      var k :| k in m.Keys;
      var rest := map l | l in m && l != k :: m[l];
      assert rest.Keys == m.Keys - {k};
      InjectionCardinality(rest, codomain - {m[k]});
    }
  }
}

/** Every duration of the wake protocol, in milliseconds. */
module Timing {
  const LEDGER_TTL: int := 15 * 60_000
  const PENDING_LEDGER_TTL: int := 2 * 60_000
  const RETRY_TTL: int := 90_000
  const MONITOR_TIMEOUT: int := 60_000
  const RECOVERY_TIMEOUT: int := 13 * 60_000
  const CONNECT_TIMEOUT: int := 5_000
  const RECEIPT_TIMEOUT: int := 15_000
  const REQUEST_SKEW: int := 60_000
  const WAKE_WAIT_TIMEOUT: int := 60_000
  const WAKE_COOLDOWN: int := 10_000
  const PENDING_OPERATION_TTL: int := 180_000
}
