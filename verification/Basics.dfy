/** Vocabulary shared by the whole project. */
module Basics {

  datatype Option<+T> = None | Some(value: T)

  // Go's byte.
  type byte = b: int | 0 <= b < 256

  function Repeat(b: byte, n: nat): (s: seq<byte>)
    ensures |s| == n && forall i :: 0 <= i < n ==> s[i] == b
  {
    seq(n, _ => b)
  }

  function Indicator(b: bool): nat {
    if b then 1 else 0
  }

  ghost function Where<K, V>(m: map<K, V>, p: V -> bool): set<K> {
    set k | k in m && p(m[k])
  }

  /** How many entries of `m` satisfy `p`. */
  ghost function Tally<K, V>(m: map<K, V>, p: V -> bool): nat {
    |Where(m, p)|
  }

  /** Writing one entry moves the tally by exactly that entry's contribution. */
  lemma TallyPut<K, V>(m: map<K, V>, k: K, v: V, p: V -> bool)
    ensures Tally(m[k := v], p) == Tally(m, p) - Indicator(k in m && p(m[k])) + Indicator(p(v))
  {
    var before, after := Where(m, p), Where(m[k := v], p);
    var rest := before - {k};
    forall x ensures x in after <==> x in rest || (x == k && p(v)) {}
    if p(v) { assert after == rest + {k}; } else { assert after == rest; }
    if k in before { assert before == rest + {k}; } else { assert before == rest; }
  }

  /** A tally is zero exactly when no entry satisfies the predicate. */
  lemma TallyZero<K, V>(m: map<K, V>, p: V -> bool)
    ensures Tally(m, p) == 0 <==> forall k :: k in m ==> !p(m[k])
  {
    if Tally(m, p) == 0 {
      assert Where(m, p) == {};
      forall k | k in m ensures !p(m[k]) { assert k !in Where(m, p); }
    } else {
      var k :| k in Where(m, p);
    }
  }
}
