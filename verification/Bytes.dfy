/**
 Bytes, where a byte string stands inside another, their order, and fixed-width big-endian numbers.
 */
module Bytes {

  type byte = x: int | 0 <= x < 256

  datatype Option<+T> = None | Some(value: T)

  /** `s` stands in the data at position `i`. */
  predicate At(data: seq<byte>, i: nat, s: seq<byte>) {
    i + |s| <= |data| && data[i..i + |s|] == s
  }

  /** A concatenation stands at `i` exactly when its parts stand one after the other. */
  lemma AtConcat(data: seq<byte>, i: nat, s: seq<byte>, t: seq<byte>)
    ensures At(data, i, s + t) <==> At(data, i, s) && At(data, i + |s|, t)
  {
    if At(data, i, s + t) {
      var whole := data[i..i + |s + t|];
      assert data[i..i + |s|] == whole[..|s|] == s;
      assert data[i + |s|..i + |s| + |t|] == whole[|s|..] == t;
    }
    if At(data, i, s) && At(data, i + |s|, t) {
      assert data[i..i + |s + t|] == data[i..i + |s|] + data[i + |s|..i + |s| + |t|];
    }
  }

  /** The unsigned number a big-endian byte string stands for. */
  function FromBigEndian(s: seq<byte>): nat {
    if s == [] then 0 else FromBigEndian(s[..|s| - 1]) * 256 + s[|s| - 1]
  }

  function Power256(width: nat): (p: nat)
    ensures p > 0
  {
    if width == 0 then 1 else 256 * Power256(width - 1)
  }

  function ToBigEndian(value: nat, width: nat): (s: seq<byte>)
    ensures |s| == width
  {
    if width == 0 then [] else ToBigEndian(value / 256, width - 1) + [value % 256]
  }

  lemma {:induction false} BigEndianBound(s: seq<byte>)
    ensures FromBigEndian(s) < Power256(|s|)
    decreases |s|
  {
    if s != [] { BigEndianBound(s[..|s| - 1]); }
  }

  /** Numbers survive being written and read. */
  lemma {:induction false} BigEndianRead(value: nat, width: nat)
    requires value < Power256(width)
    ensures FromBigEndian(ToBigEndian(value, width)) == value
    decreases width
  {
    if width > 0 {
      BigEndianRead(value / 256, width - 1);
      var s := ToBigEndian(value, width);
      assert s[..|s| - 1] == ToBigEndian(value / 256, width - 1);
    }
  }

  /** Byte strings survive being read and written. */
  lemma {:induction false} BigEndianWrite(s: seq<byte>)
    ensures ToBigEndian(FromBigEndian(s), |s|) == s
    decreases |s|
  {
    if s != [] {
      var front := s[..|s| - 1];
      BigEndianWrite(front);
      assert s == front + [s[|s| - 1]];
    }
  }

  /** Lexicographic comparison of byte strings, strictly below. */
  predicate BytesLess(a: seq<byte>, b: seq<byte>) {
    b != [] && (a == [] || a[0] < b[0] || (a[0] == b[0] && BytesLess(a[1..], b[1..])))
  }

  /** The comparison in one piece: up to some place the strings agree, and there the first one ends or has the smaller
      byte. */
  lemma {:induction false} BytesLessExact(a: seq<byte>, b: seq<byte>)
    ensures BytesLess(a, b) <==>
      exists k: nat :: k <= |a| && k < |b| && a[..k] == b[..k] && (k == |a| || a[k] < b[k])
    decreases |a|
  {
    if a != [] && b != [] {
      BytesLessExact(a[1..], b[1..]);
      if BytesLess(a, b) {
        if a[0] < b[0] {
          assert a[..0] == b[..0];
        } else {
          var c, d := a[1..], b[1..];
          var k: nat :| k <= |c| && k < |d| && c[..k] == d[..k] && (k == |c| || c[k] < d[k]);
          assert a[..k + 1] == [a[0]] + c[..k] && b[..k + 1] == [b[0]] + d[..k];
        }
      }
      forall k: nat | k <= |a| && k < |b| && a[..k] == b[..k] && (k == |a| || a[k] < b[k]) ensures BytesLess(a, b) {
        if k > 0 {
          assert a[0] == a[..k][0] == b[..k][0] == b[0];
          assert a[1..][..k - 1] == a[..k][1..] == b[..k][1..] == b[1..][..k - 1];
        }
      }
    } else if b != [] {
      assert a[..0] == b[..0];
    }
  }

  lemma {:induction false} BytesTrichotomy(a: seq<byte>, b: seq<byte>)
    ensures BytesLess(a, b) || a == b || BytesLess(b, a)
    ensures !(BytesLess(a, b) && BytesLess(b, a))
    ensures a == b ==> !BytesLess(a, b)
    decreases |a|
  {
    if a != [] && b != [] && a[0] == b[0] {
      BytesTrichotomy(a[1..], b[1..]);
      assert a == [a[0]] + a[1..] && b == [b[0]] + b[1..];
    }
  }

  lemma {:induction false} BytesTransitive(a: seq<byte>, b: seq<byte>, c: seq<byte>)
    requires BytesLess(a, b) && BytesLess(b, c)
    ensures BytesLess(a, c)
    decreases |a|
  {
    if a != [] && a[0] == b[0] == c[0] {
      BytesTransitive(a[1..], b[1..], c[1..]);
    }
  }
}
