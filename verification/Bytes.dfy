/**
 * Bytewise order, and the canonical encoding of a `u256` as 32 big-endian bytes
 * (`semantic-types.ts`): the stored form orders as the value does.
 */
module Bytes {
  import opened Options

  function Sign(x: int): int { if x < 0 then -1 else if x > 0 then 1 else 0 }

  /** The first difference decides; a prefix comes first. */
  function Compare(a: seq<nat>, b: seq<nat>): int {
    if a == [] || b == [] then |a| - |b|
    else if a[0] != b[0] then a[0] - b[0]
    else Compare(a[1..], b[1..])
  }

  /** `compareBytes` of the IndexedDB accessor. */
  method CompareBytes(a: seq<nat>, b: seq<nat>) returns (c: int)
    ensures c == Compare(a, b)
  {
    var length := if |a| < |b| then |a| else |b|;
    var i := 0;
    while i < length
      invariant 0 <= i <= length
      invariant Compare(a, b) == Compare(a[i..], b[i..])
    {
      if a[i] != b[i] { return a[i] as int - b[i] as int; }
      assert a[i..][1..] == a[i + 1..] && b[i..][1..] == b[i + 1..];
      i := i + 1;
    }
    c := |a| - |b|;
  }

  lemma {:induction false} CompareIsZeroOnlyOnEquals(a: seq<nat>, b: seq<nat>)
    ensures Compare(a, b) == 0 <==> a == b
  {
    if a != [] && b != [] {
      CompareIsZeroOnlyOnEquals(a[1..], b[1..]);
      assert a == [a[0]] + a[1..] && b == [b[0]] + b[1..];
    }
  }

  /** Where two sequences first differ decides, whatever follows. */
  lemma {:induction false} FirstDifference(a: seq<nat>, b: seq<nat>, i: nat)
    requires i < |a| && i < |b| && a[..i] == b[..i] && a[i] != b[i]
    ensures Compare(a, b) == a[i] as int - b[i] as int
  {
    if i > 0 {
      assert a[0] == a[..i][0] && b[0] == b[..i][0];
      assert a[1..][..i - 1] == a[..i][1..] && b[1..][..i - 1] == b[..i][1..];
      FirstDifference(a[1..], b[1..], i - 1);
    }
  }

  lemma {:induction false} SharedPrefix(p: seq<nat>, a: seq<nat>, b: seq<nat>)
    ensures Compare(p + a, p + b) == Compare(a, b)
  {
    if p == [] {
      assert p + a == a && p + b == b;
    } else {
      assert (p + a)[1..] == p[1..] + a && (p + b)[1..] == p[1..] + b;
      SharedPrefix(p[1..], a, b);
    }
  }

  lemma {:induction false} CompareSnoc(a: seq<nat>, b: seq<nat>, x: nat, y: nat)
    requires |a| == |b|
    ensures Compare(a + [x], b + [y]) == if a != b then Compare(a, b) else x - y
  {
    if a != [] {
      assert (a + [x])[1..] == a[1..] + [x] && (b + [y])[1..] == b[1..] + [y];
      assert a == [a[0]] + a[1..] && b == [b[0]] + b[1..];
      CompareSnoc(a[1..], b[1..], x, y);
    }
  }

  // ---------------------------------------------------------------------- big-endian

  function Pow256(k: nat): (p: nat)
    ensures p > 0
  {
    if k == 0 then 1 else 256 * Pow256(k - 1)
  }

  /** The low `k` base-256 digits of `n`, most significant first. */
  function BigEndian(n: nat, k: nat): (bytes: seq<nat>)
    ensures |bytes| == k && forall i :: 0 <= i < k ==> bytes[i] < 256
  {
    if k == 0 then [] else BigEndian(n / 256, k - 1) + [n % 256]
  }

  function ValueOf(bytes: seq<nat>): nat {
    if bytes == [] then 0 else ValueOf(bytes[..|bytes| - 1]) * 256 + bytes[|bytes| - 1]
  }

  lemma {:induction false} ValueOfBigEndian(n: nat, k: nat)
    requires n < Pow256(k)
    ensures ValueOf(BigEndian(n, k)) == n
  {
    if k > 0 {
      ValueOfBigEndian(n / 256, k - 1);
      assert BigEndian(n, k)[..k - 1] == BigEndian(n / 256, k - 1);
    }
  }

  lemma {:induction false} BigEndianOfValue(bytes: seq<nat>)
    requires forall i :: 0 <= i < |bytes| ==> bytes[i] < 256
    ensures ValueOf(bytes) < Pow256(|bytes|) && BigEndian(ValueOf(bytes), |bytes|) == bytes
  {
    if bytes != [] {
      BigEndianOfValue(bytes[..|bytes| - 1]);
      assert bytes == bytes[..|bytes| - 1] + [bytes[|bytes| - 1]];
    }
  }

  /** Fixed width and big-endian: bytewise order is numeric order, for any width. */
  lemma {:induction false} BigEndianOrders(n: nat, m: nat, k: nat)
    requires n < Pow256(k) && m < Pow256(k)
    ensures Sign(Compare(BigEndian(n, k), BigEndian(m, k))) == Sign(n - m)
  {
    if k > 0 {
      BigEndianOrders(n / 256, m / 256, k - 1);
      CompareSnoc(BigEndian(n / 256, k - 1), BigEndian(m / 256, k - 1), n % 256, m % 256);
      CompareIsZeroOnlyOnEquals(BigEndian(n / 256, k - 1), BigEndian(m / 256, k - 1));
    }
  }

  const U256_BYTES: nat := 32

  predicate IsU256(value: int) { 0 <= value < Pow256(U256_BYTES) }

  lemma {:induction false} ZeroBytes(k: nat)
    ensures BigEndian(0, k) == seq(k, _ => 0)
  {
    if k > 0 { ZeroBytes(k - 1); }
  }

  lemma SplitAt<T>(s: seq<T>, i: int)
    requires -1 <= i < |s|
    ensures s == s[..i + 1] + s[i + 1..]
    ensures i >= 0 ==> s[i..] == [s[i]] + s[i + 1..]
  {
  }

  /** `u256.encode`: refused outside the range, 32 bytes otherwise. */
  method EncodeU256(value: int) returns (bytes: Option<seq<nat>>)
    ensures bytes == if IsU256(value) then Some(BigEndian(value, U256_BYTES)) else None
  {
    if value < 0 { return None; }
    if value > Pow256(U256_BYTES) - 1 { return None; }
    var out := new nat[U256_BYTES](_ => 0);
    var rest := value;
    var index := U256_BYTES - 1;
    while index >= 0 && rest > 0
      invariant -1 <= index < U256_BYTES && rest >= 0 && out.Length == U256_BYTES
      invariant forall i :: 0 <= i <= index ==> out[i] == 0
      invariant BigEndian(value, U256_BYTES) == BigEndian(rest, index + 1) + out[index + 1..]
      decreases index
    {
      assert BigEndian(rest, index + 1) == BigEndian(rest / 256, index) + [rest % 256];
      out[index] := rest % 256;
      rest := rest / 256;
      SplitAt(out[..], index);
      index := index - 1;
    }
    if rest == 0 {
      ZeroBytes(index + 1);
      assert out[..index + 1] == BigEndian(0, index + 1);
    }
    SplitAt(out[..], index);
    bytes := Some(out[..]);
  }

  /** `u256.decode`: 32 bytes, or refused. */
  method DecodeU256(bytes: seq<nat>) returns (value: Option<nat>)
    ensures value == if |bytes| == U256_BYTES then Some(ValueOf(bytes)) else None
  {
    if |bytes| != U256_BYTES { return None; }
    var v := 0;
    var i := 0;
    while i < |bytes|
      invariant 0 <= i <= |bytes| && v == ValueOf(bytes[..i])
    {
      assert bytes[..i + 1][..i] == bytes[..i];
      v := v * 256 + bytes[i];
      i := i + 1;
    }
    assert bytes[..i] == bytes;
    value := Some(v);
  }
}
