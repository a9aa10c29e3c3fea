/** Bytes, big-endian integers and the key order of a BTreeMap. */
module Bytes {
  type byte = b: int | 0 <= b < 256
  type Text = seq<byte>

  datatype Option<+T> = None | Some(value: T)

  /** `part` stands in `whole` at offset `at`. */
  predicate At(whole: Text, at: nat, part: Text) {
    at + |part| <= |whole| && forall k {:trigger part[k]} | 0 <= k < |part| :: whole[at + k] == part[k]
  }

  lemma AtSplit(whole: Text, at: nat, left: Text, right: Text)
    requires At(whole, at, left + right)
    ensures At(whole, at, left) && At(whole, at + |left|, right)
  {
    forall k | 0 <= k < |left| ensures whole[at + k] == left[k] {
      assert (left + right)[k] == left[k];
    }
    forall k | 0 <= k < |right| ensures whole[at + |left| + k] == right[k] {
      assert (left + right)[|left| + k] == right[k];
    }
  }

  lemma AtStart(part: Text, more: Text)
    ensures At(part + more, 0, part)
  {
  }

  lemma AtSlice(whole: Text, at: nat, part: Text, i: nat, n: nat)
    requires At(whole, at, part) && i + n <= |part|
    ensures whole[at + i..at + i + n] == part[i..i + n]
  {
    var inner, outer := part[i..i + n], whole[at + i..at + i + n];
    forall k | 0 <= k < n ensures outer[k] == inner[k] {
      assert part[i + k] == whole[at + (i + k)];
    }
  }

  // ----- fixed-width two's-complement integers, most significant byte first

  function Width(n: nat): (w: nat)
    ensures w > 0
    ensures n > 0 ==> w % 2 == 0
  {
    if n == 0 then 1 else 256 * Width(n - 1)
  }

  lemma Widths()
    ensures Width(1) == 0x100 && Width(2) == 0x1_0000 && Width(4) == 0x1_0000_0000
    ensures Width(8) == 0x1_0000_0000_0000_0000
  {
    assert Width(2) == 256 * Width(1);
    assert Width(4) == 256 * Width(3) && Width(3) == 256 * Width(2);
    assert Width(8) == 256 * Width(7) && Width(7) == 256 * Width(6);
    assert Width(6) == 256 * Width(5) && Width(5) == 256 * Width(4);
  }

  function BigEndian(u: nat, n: nat): (s: Text)
    ensures |s| == n
  {
    if n == 0 then [] else BigEndian(u / 256, n - 1) + [u % 256]
  }

  function FromBigEndian(s: Text): (u: nat)
    ensures u < Width(|s|)
  {
    if s == [] then 0 else FromBigEndian(s[..|s| - 1]) * 256 + s[|s| - 1]
  }

  lemma {:induction false} BigEndianRoundTrip(u: nat, n: nat)
    requires u < Width(n)
    ensures FromBigEndian(BigEndian(u, n)) == u
  {
    if n > 0 {
      BigEndianRoundTrip(u / 256, n - 1);
      var s := BigEndian(u, n);
      assert s[..|s| - 1] == BigEndian(u / 256, n - 1);
    }
  }

  /** The `n`-byte encoding of `v`, keeping the low bits of a value that does not fit. */
  function EncInt(v: int, n: nat): (s: Text)
    ensures |s| == n
  {
    BigEndian(v % Width(n), n)
  }

  function DecInt(s: Text): (v: int)
    ensures s != [] ==> -(Width(|s|) / 2) <= v < Width(|s|) / 2
  {
    var u := FromBigEndian(s);
    if u >= Width(|s|) / 2 && s != [] then u - Width(|s|) else u
  }

  predicate InRange(v: int, n: nat) {
    -(Width(n) / 2) <= v < Width(n) / 2
  }

  lemma IntRoundTrip(v: int, n: nat)
    requires n == 2 || n == 4 || n == 8
    requires InRange(v, n)
    ensures DecInt(EncInt(v, n)) == v
  {
    var u := v % Width(n);
    assert u == if v < 0 then v + Width(n) else v by {
      Widths();
      hide Width;
    }
    BigEndianRoundTrip(u, n);
    hide BigEndian, FromBigEndian;
  }

  // ----- the order in which a BTreeMap<String, _> is iterated

  predicate Below(a: Text, b: Text) {
    b != [] && (a == [] || a[0] < b[0] || (a[0] == b[0] && Below(a[1..], b[1..])))
  }

  lemma {:induction false} BelowTrichotomy(a: Text, b: Text)
    ensures Below(a, b) || a == b || Below(b, a)
    ensures !(Below(a, b) && (a == b || Below(b, a)))
  {
    if a != [] && b != [] && a[0] == b[0] {
      BelowTrichotomy(a[1..], b[1..]);
      assert a == [a[0]] + a[1..] && b == [b[0]] + b[1..];
    }
  }

  lemma {:induction false} BelowTransitive(a: Text, b: Text, c: Text)
    requires Below(a, b) && Below(b, c)
    ensures Below(a, c)
  {
    if a != [] && a[0] == b[0] == c[0] {
      BelowTransitive(a[1..], b[1..], c[1..]);
    }
  }

  predicate IsLeast(k: Text, keys: set<Text>) {
    k in keys && forall j | j in keys && j != k :: Below(k, j)
  }

  lemma {:induction false} LeastExists(keys: set<Text>)
    requires keys != {}
    ensures exists k :: IsLeast(k, keys)
    decreases |keys|
  {
    var x :| x in keys;
    if keys == {x} {
      assert IsLeast(x, keys);
    } else {
      LeastExists(keys - {x});
      var m :| IsLeast(m, keys - {x});
      BelowTrichotomy(x, m);
      if Below(m, x) {
        assert IsLeast(m, keys);
      } else {
        forall j | j in keys && j != x ensures Below(x, j) {
          if j != m { BelowTransitive(x, m, j); }
        }
        assert IsLeast(x, keys);
      }
    }
  }

  lemma LeastUnique(k: Text, j: Text, keys: set<Text>)
    requires IsLeast(k, keys) && IsLeast(j, keys)
    ensures k == j
  {
    BelowTrichotomy(k, j);
  }

  ghost function SortedKeys(keys: set<Text>): (r: seq<Text>)
    ensures |r| == |keys|
    ensures forall k :: k in r <==> k in keys
    ensures forall i, j | 0 <= i < j < |r| :: Below(r[i], r[j])
    decreases |keys|
  {
    if keys == {} then [] else
      LeastExists(keys);
      var k :| IsLeast(k, keys);
      [k] + SortedKeys(keys - {k})
  }

  lemma SortedKeysStep(keys: set<Text>, k: Text)
    requires IsLeast(k, keys)
    ensures SortedKeys(keys) == [k] + SortedKeys(keys - {k})
  {
    var j := SortedKeys(keys)[0];
    LeastExists(keys);
    var l :| IsLeast(l, keys) && SortedKeys(keys) == [l] + SortedKeys(keys - {l});
    LeastUnique(k, l, keys);
  }
}
