/** Vocabulary shared by every module: bytes, optional values, concatenation and
    rounding-up division. */
module Prelude {

  datatype Option<+T> = None | Some(value: T)

  /** A Go `byte`. */
  type Byte = b: int | 0 <= b < 256

  type Bytes = seq<Byte>

  function Min(a: int, b: int): int {
    if a <= b then a else b
  }

  function Max(a: int, b: int): int {
    if a <= b then b else a
  }

  function CeilDiv(a: nat, b: nat): nat
    requires b > 0
  {
    (a + b - 1) / b
  }

  /** Taking one block of `b` away lowers the number of blocks by exactly one. */
  lemma CeilDivStep(a: nat, b: nat)
    requires b > 0
    ensures a > 0 ==> CeilDiv(a, b) == 1 + CeilDiv(if a <= b then 0 else a - b, b)
    ensures CeilDiv(0, b) == 0
  {
    assert (b - 1) / b == 0;
    if 0 < a <= b {
      assert a + b - 1 == b + (a - 1);
      assert (a + b - 1) / b == 1 by { DivIs(a + b - 1, b, 1); }
    } else if a > b {
      DivIs(a + b - 1, b, 1 + (a - b + b - 1) / b);
    }
  }

  lemma DivIs(a: nat, b: nat, q: nat)
    requires b > 0 && q * b <= a < q * b + b
    ensures a / b == q
  {
    var d := a / b;
    assert d * b <= a < d * b + b;
    if d < q {
      MulMono(d + 1, q, b);
    } else if d > q {
      MulMono(q + 1, d, b);
    }
  }

  lemma MulMono(x: int, y: int, b: nat)
    requires x <= y
    ensures x * b <= y * b
  {
  }

  /** `a` needs at most `n` blocks of `b` exactly when it fits in `n * b`. */
  lemma CeilDivFits(a: nat, b: nat, n: nat)
    requires b > 0
    ensures CeilDiv(a, b) <= n <==> a <= n * b
    decreases n
  {
    CeilDivStep(a, b);
    if n > 0 && a > 0 {
      CeilDivFits(if a <= b then 0 else a - b, b, n - 1);
      assert n * b == (n - 1) * b + b;
    }
  }

  function Flatten<T>(ss: seq<seq<T>>): seq<T> {
    if |ss| == 0 then [] else ss[0] + Flatten(ss[1..])
  }

  lemma Assoc<T>(a: seq<T>, b: seq<T>, c: seq<T>)
    ensures (a + b) + c == a + (b + c)
  {
  }

  lemma {:induction false} FlattenAppend<T>(a: seq<seq<T>>, b: seq<seq<T>>)
    ensures Flatten(a + b) == Flatten(a) + Flatten(b)
  {
    if |a| == 0 {
      assert a + b == b;
    } else {
      FlattenAppend(a[1..], b);
      assert (a + b)[1..] == a[1..] + b && (a + b)[0] == a[0];
      Assoc(a[0], Flatten(a[1..]), Flatten(b));
    }
  }

  /** A prefix of a list of chunks holds a prefix of its bytes. */
  lemma FlattenPrefix<T>(a: seq<seq<T>>, b: seq<seq<T>>)
    requires a <= b
    ensures Flatten(a) <= Flatten(b)
  {
    FlattenAppend(a, b[|a|..]);
    assert b == a + b[|a|..];
  }

  /** A map that differs in one place is an update. */
  lemma SameBut<K, V>(m: map<K, V>, m': map<K, V>, k: K)
    requires m'.Keys == m.Keys && k in m && forall x :: x in m && x != k ==> m'[x] == m[x]
    ensures m' == m[k := m'[k]]
  {
  }
}
