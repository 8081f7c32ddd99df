/** 256-bit peer identities and the XOR metric that orders them.

    `xor_distance` yields a byte array and every comparison in the source is the
    lexicographic comparison of such arrays.  `Distance` reads the same array as
    one big-endian number; `DistanceOrderIsByteOrder` says the two orders agree,
    so the rest of the project compares numbers. */
module Keys {
  const KEY_BYTES: nat := 32

  type Key = k: seq<bv8> | |k| == KEY_BYTES witness seq(KEY_BYTES, _ => 0 as bv8)

  function Xor(left: Key, right: Key): Key {
    seq(KEY_BYTES, i requires 0 <= i < KEY_BYTES => left[i] ^ right[i])
  }

  /** The in-place loop of the source. */
  method XorDistance(left: Key, right: Key) returns (distance: Key)
    ensures distance == Xor(left, right)
    // XOR-ing the target back in recovers the identity
    ensures Xor(distance, right) == left
  {
    var output := new bv8[KEY_BYTES](_ => 0);
    for index := 0 to KEY_BYTES
      invariant forall i :: 0 <= i < index ==> output[i] == left[i] ^ right[i]
    {
      output[index] := left[index] ^ right[index];
    }
    distance := output[..];
    assert forall i :: 0 <= i < KEY_BYTES ==> (distance[i] ^ right[i]) == left[i];
  }

  function BigEndian(bytes: seq<bv8>): nat {
    if bytes == [] then 0
    else BigEndian(bytes[..|bytes| - 1]) * 256 + bytes[|bytes| - 1] as nat
  }

  /** Lexicographic order of byte arrays of one length. */
  ghost predicate ByteLess(a: seq<bv8>, b: seq<bv8>)
    requires |a| == |b|
  {
    exists i :: 0 <= i < |a| && a[..i] == b[..i] && a[i] < b[i]
  }

  lemma ByteLessSnoc(a: seq<bv8>, x: bv8, b: seq<bv8>, y: bv8)
    requires |a| == |b|
    ensures ByteLess(a + [x], b + [y]) <==> ByteLess(a, b) || (a == b && x < y)
  {
    var u, v, n := a + [x], b + [y], |a|;
    assert forall i :: 0 <= i <= n ==> u[..i] == a[..i] && v[..i] == b[..i];
    if a == b && x < y {
      assert u[..n] == v[..n] && u[n] < v[n];
    }
  }

  lemma LastDigitDecides(m: nat, x: bv8, n: nat, y: bv8)
    ensures m * 256 + x as nat < n * 256 + y as nat <==> m < n || (m == n && x < y)
    ensures m * 256 + x as nat == n * 256 + y as nat <==> m == n && x == y
  {
  }

  lemma {:induction false} BigEndianOrder(a: seq<bv8>, b: seq<bv8>)
    requires |a| == |b|
    ensures BigEndian(a) == BigEndian(b) <==> a == b
    ensures BigEndian(a) < BigEndian(b) <==> ByteLess(a, b)
  {
    if a != [] {
      var n := |a| - 1;
      BigEndianOrder(a[..n], b[..n]);
      assert a == a[..n] + [a[n]] && b == b[..n] + [b[n]];
      ByteLessSnoc(a[..n], a[n], b[..n], b[n]);
      LastDigitDecides(BigEndian(a[..n]), a[n], BigEndian(b[..n]), b[n]);
    }
  }

  /** The XOR distance as a number. */
  function Distance(target: Key, peer: Key): nat {
    BigEndian(Xor(peer, target))
  }

  lemma DistanceInjective(target: Key, p: Key, q: Key)
    ensures Distance(target, p) == Distance(target, q) <==> p == q
  {
    var dp, dq := Xor(p, target), Xor(q, target);
    BigEndianOrder(dp, dq);
    if dp == dq {
      forall i | 0 <= i < KEY_BYTES ensures p[i] == q[i] {
        assert dp[i] == dq[i];
      }
    }
  }

  lemma AllDistancesInjective(target: Key)
    ensures forall p: Key, q: Key {:trigger Distance(target, p), Distance(target, q)} ::
              Distance(target, p) == Distance(target, q) ==> p == q
  {
    forall p: Key, q: Key {:trigger Distance(target, p), Distance(target, q)}
      ensures Distance(target, p) == Distance(target, q) ==> p == q
    {
      DistanceInjective(target, p, q);
    }
  }

  /** Order of the `(distance, id)` pairs that key the source's queue and sorts. */
  ghost predicate SourceLess(target: Key, p: Key, q: Key) {
    || ByteLess(Xor(p, target), Xor(q, target))
    || (Xor(p, target) == Xor(q, target) && ByteLess(p, q))
  }

  /** Comparing numbers decides every comparison of the source; the id tie-break never fires. */
  lemma DistanceOrderIsByteOrder(target: Key, p: Key, q: Key)
    ensures SourceLess(target, p, q) <==> Distance(target, p) < Distance(target, q)
    ensures SourceLess(target, p, q) <==> ByteLess(Xor(p, target), Xor(q, target))
    ensures SourceLess(target, p, q) || SourceLess(target, q, p) || p == q
  {
    BigEndianOrder(Xor(p, target), Xor(q, target));
    BigEndianOrder(Xor(q, target), Xor(p, target));
    DistanceInjective(target, p, q);
    BigEndianOrder(p, q);
  }
}
