// Big-endian integers over byte buffers and the GCM nonce layout (cajui_wire.h).
module Wire {

  type byte = x: int | 0 <= x < 256

  function Pow256(n: nat): (p: nat)
    ensures p >= 1
  {
    if n == 0 then 1 else 256 * Pow256(n - 1)
  }

  /** The low `size` bytes of `value`, most significant first. */
  function Be(value: nat, size: nat): (s: seq<byte>)
    ensures |s| == size
  {
    if size == 0 then [] else Be(value / 256, size - 1) + [value % 256]
  }

  /** The number a big-endian byte string stands for. */
  function Unbe(s: seq<byte>): nat
  {
    if s == [] then 0 else Unbe(s[..|s| - 1]) * 256 + s[|s| - 1]
  }

  lemma SliceOfSlice<T>(s: seq<T>, lo: nat, hi: nat, i: nat, j: nat)
    requires lo + i <= lo + j <= hi <= |s|
    ensures s[lo..hi][i..j] == s[lo + i..lo + j]
  {
    assert |s[lo..hi][i..j]| == |s[lo + i..lo + j]|;
    forall k | 0 <= k < j - i ensures s[lo..hi][i..j][k] == s[lo + i..lo + j][k] {
    }
  }

  /** Adjacent slices join. */
  lemma Join<T>(s: seq<T>, i: nat, j: nat, k: nat)
    requires i <= j <= k <= |s|
    ensures s[i..j] + s[j..k] == s[i..k]
  {
  }

  /** A slice known to be two parts splits where the first one ends. */
  lemma Split<T>(s: seq<T>, lo: nat, mid: nat, hi: nat, x: seq<T>, y: seq<T>)
    requires lo <= mid <= hi <= |s| && s[lo..hi] == x + y && |x| == mid - lo
    ensures s[lo..mid] == x && s[mid..hi] == y
  {
    assert (x + y)[..|x|] == x && (x + y)[|x|..] == y;
    SliceOfSlice(s, lo, hi, 0, mid - lo);
    SliceOfSlice(s, lo, hi, mid - lo, hi - lo);
    assert s[lo..hi][mid - lo..hi - lo] == s[lo..hi][mid - lo..];
  }

  /** A slice within the first part of a concatenation is a slice of that part. */
  lemma Inner<T>(p: seq<T>, rest: seq<T>, i: nat, j: nat)
    requires i <= j <= |p|
    ensures (p + rest)[i..j] == p[i..j]
  {
  }

  /** A big-endian field reads back from where it was written. */
  lemma FieldAt(before: seq<byte>, value: nat, size: nat, after: seq<byte>)
    requires value < Pow256(size)
    ensures Unbe((before + Be(value, size) + after)[|before|..|before| + size]) == value
  {
    MiddleSlice(before, Be(value, size), after);
    UnbeBe(value, size);
  }

  lemma Assoc<T>(a: seq<T>, b: seq<T>, c: seq<T>)
    ensures a + b + c == a + (b + c)
  {
  }

  lemma MiddleSlice<T>(a: seq<T>, m: seq<T>, b: seq<T>)
    ensures (a + m + b)[|a|..|a| + |m|] == m
  {
  }

  lemma Widths()
    ensures Pow256(1) == 0x100
    ensures Pow256(2) == 0x1_0000
    ensures Pow256(4) == 0x1_0000_0000
    ensures Pow256(8) == 0x1_0000_0000_0000_0000
  {
    assert Pow256(3) == 256 * Pow256(2);
    assert Pow256(6) == 256 * Pow256(5);
    assert Pow256(7) == 256 * Pow256(6);
  }

  lemma {:induction false} UnbeBound(s: seq<byte>)
    ensures Unbe(s) < Pow256(|s|)
  {
    if s != [] {
      UnbeBound(s[..|s| - 1]);
    }
  }

  /** Reading back what was written gives the number written, when it fits. */
  lemma {:induction false} UnbeBe(value: nat, size: nat)
    requires value < Pow256(size)
    ensures Unbe(Be(value, size)) == value
  {
    if size != 0 {
      UnbeBe(value / 256, size - 1);
      assert Be(value, size)[..size - 1] == Be(value / 256, size - 1);
    }
  }

  /** Every byte string of a field is the encoding of the number it stands for. */
  lemma {:induction false} BeUnbe(s: seq<byte>)
    ensures Be(Unbe(s), |s|) == s
  {
    if s != [] {
      BeUnbe(s[..|s| - 1]);
      assert s == s[..|s| - 1] + [s[|s| - 1]];
    }
  }

  /** Two numbers that fit a field and are written alike are equal. */
  lemma BeInjective(a: nat, b: nat, size: nat)
    requires a < Pow256(size) && b < Pow256(size)
    requires Be(a, size) == Be(b, size)
    ensures a == b
  {
    UnbeBe(a, size);
    UnbeBe(b, size);
  }

  /** `wire::put`: fills `out[at .. at + size)` from the last byte to the first. */
  method Put(out: array<byte>, at: nat, value: nat, size: nat)
    requires at + size <= out.Length
    modifies out
    ensures out[at..at + size] == Be(value, size)
    ensures forall j :: 0 <= j < out.Length && !(at <= j < at + size) ==> out[j] == old(out[j])
  {
    var rest := value;
    for i := 0 to size
      invariant Be(value, size) == Be(rest, size - i) + out[at + size - i..at + size]
      invariant forall j :: 0 <= j < out.Length && !(at <= j < at + size) ==> out[j] == old(out[j])
    {
      ghost var before := out[at + size - i..at + size];
      out[at + size - 1 - i] := rest % 256;
      assert out[at + size - 1 - i..at + size] == [rest % 256] + before;
      rest := rest / 256;
    }
  }

  /** `wire::get`: reads `size` bytes from `at`. */
  method Get(input: seq<byte>, at: nat, size: nat) returns (value: nat)
    requires at + size <= |input|
    ensures value == Unbe(input[at..at + size])
  {
    value := 0;
    for i := 0 to size
      invariant value == Unbe(input[at..at + i])
    {
      assert input[at..at + i + 1][..i] == input[at..at + i];
      value := value * 256 + input[at + i];
    }
  }
}
