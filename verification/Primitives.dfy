/** Small vocabulary shared by every component model. */
module Primitives {

  datatype Option<+T> = None | Some(value: T)

  type Byte = x: int | 0 <= x < 0x100
  type I16 = x: int | -0x8000 <= x < 0x8000

  const U16: nat := 0x1_0000
  const U32: nat := 0x1_0000_0000
  const U64: nat := 0x1_0000_0000_0000_0000

  function Min(a: int, b: int): int {
    if a <= b then a else b
  }

  function Max(a: int, b: int): int {
    if a >= b then a else b
  }

  function CeilDiv(a: nat, b: nat): nat
    requires b > 0
  {
    (a + b - 1) / b
  }

  function Repeat<T>(x: T, n: nat): (s: seq<T>)
    ensures |s| == n
    ensures forall i :: 0 <= i < n ==> s[i] == x
  {
    seq(n, _ => x)
  }
}

/** Division facts for products the solver does not find alone. */
module Arithmetic {

  lemma MulAtLeast(n: int, d: int)
    requires n > 0 && d > 0
    ensures n * d >= n
    decreases d
  {
    if d > 1 {
      MulAtLeast(n, d - 1);
      assert n * d == n * (d - 1) + n;
    }
  }

  lemma MulGap(n: int, a: int, b: int)
    requires n > 0 && a < b
    ensures n * b >= n * a + n
  {
    MulAtLeast(n, b - a);
    assert n * (b - a) == n * b - n * a;
  }

  lemma DivisionUnique(n: int, q: int, r: int, q': int, r': int)
    requires n > 0 && 0 <= r < n && 0 <= r' < n && n * q + r == n * q' + r'
    ensures q == q' && r == r'
  {
    if q < q' {
      MulGap(n, q, q');
    } else if q' < q {
      MulGap(n, q', q);
    }
  }

  lemma Division(x: nat, n: nat)
    requires n > 0
    ensures x == n * (x / n) + x % n && 0 <= x % n < n
  {
  }

  lemma NextResidue(x: nat, n: nat)
    requires n > 0
    ensures (x + 1) % n == if x % n + 1 == n then 0 else x % n + 1
  {
    Division(x, n);
    Division(x + 1, n);
    var (q, r) := (x / n, x % n);
    if r + 1 == n {
      assert n * (q + 1) == n * q + n;
      DivisionUnique(n, (x + 1) / n, (x + 1) % n, q + 1, 0);
    } else {
      DivisionUnique(n, (x + 1) / n, (x + 1) % n, q, r + 1);
    }
  }

  /** Stepping an index that is kept modulo n. */
  lemma NextIndex(x: nat, n: nat)
    requires n > 0
    ensures (x % n + 1) % n == (x + 1) % n
  {
    NextResidue(x, n);
    if x % n + 1 < n {
      DivisionUnique(n, (x % n + 1) / n, (x % n + 1) % n, 0, x % n + 1);
    }
  }
}

/** Audio on its way through the media pipeline. */
module Media {
  import opened Primitives

  datatype Samples = Pcm(samples: seq<I16>) | Rtp(payloadType: Byte, payload: seq<Byte>) | Empty
  datatype AudioFrame = AudioFrame(trackId: string, samples: Samples, sampleRate: nat, channels: nat)

  const INTERNAL_SAMPLERATE: nat := 16000
}
