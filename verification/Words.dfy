/** What the arithmetic of the machine comes to, said without its definitions: on the integers
    modulo 2^32 and on the bits of the words. */
module Words {
  import opened Bpf

  /** Bit i of x. */
  predicate Bit(x: nat, i: nat) {
    (PowerPositive(i); x / Pow2(i) % 2 == 1)
  }

  lemma {:induction false} PowerPositive(n: nat)
    ensures Pow2(n) > 0
  {
    if n > 0 {
      PowerPositive(n - 1);
    }
  }

  /** x and y are the same modulo 2^32. */
  predicate Congruent(x: int, y: int) {
    (x - y) % WORDS == 0
  }

  /** w is what the operation makes of a and b. A division by zero and shifts by 32 or more are the
      cases that the C leaves undefined. */
  ghost predicate Makes(op: AluOp, a: Word, b: Word, w: Word) {
    match op
    case Add => Congruent(w, a + b)
    case Sub => Congruent(w + b, a)
    case Mul => Congruent(w, a * b)
    case Div => b != 0 ==> w * b <= a < (w + 1) * b
    case And => forall i: nat {:trigger Bit(w, i)} :: Bit(w, i) <==> Bit(a, i) && Bit(b, i)
    case Or => forall i: nat {:trigger Bit(w, i)} :: Bit(w, i) <==> Bit(a, i) || Bit(b, i)
    case Lsh => b < 32 ==> w == a * Pow2(b) % WORDS
    case Rsh => b < 32 ==> (PowerPositive(b); w == a / Pow2(b))
  }

  // ----- bits -----

  lemma HalfTwice(x: nat, n: nat)
    requires n > 0
    ensures x / 2 / n == x / (2 * n)
  {
    var q := x / 2 / n;
    var r := x / 2 - q * n;
    assert 0 <= r < n;
    assert x == 2 * (q * n + r) + x % 2;
    QuotientIs(x, 2 * n, q, 2 * r + x % 2);
  }

  lemma QuotientIs(x: nat, d: nat, q: nat, r: nat)
    requires x == q * d + r && r < d
    ensures x / d == q
  {
    var q' := x / d;
    assert x == q' * d + x % d;
    assert (q - q') * d == x % d - r;
    Stretches(q - q', d);
  }

  lemma Stretches(k: int, d: nat)
    ensures (k >= 1 ==> k * d >= d) && (k <= -1 ==> k * d + d <= 0)
  {
  }

  /** Bit i of x is bit i - 1 of its half. */
  lemma BitNext(x: nat, i: nat)
    requires i > 0
    ensures Bit(x, i) <==> Bit(x / 2, i - 1)
  {
    PowerPositive(i - 1);
    HalfTwice(x, Pow2(i - 1));
  }

  lemma BitFirst(x: nat)
    ensures Bit(x, 0) <==> x % 2 == 1
  {
  }

  lemma {:induction false} ZeroBits(i: nat)
    ensures !Bit(0, i)
  {
    PowerPositive(i);
  }

  lemma {:induction false} AndBits(a: nat, b: nat, i: nat)
    ensures Bit(BitAnd(a, b), i) <==> Bit(a, i) && Bit(b, i)
    decreases i
  {
    ZeroBits(i);
    if a != 0 && b != 0 {
      var w := BitAnd(a, b);
      assert w / 2 == BitAnd(a / 2, b / 2);
      if i == 0 {
        BitFirst(a);
        BitFirst(b);
        BitFirst(w);
      } else {
        BitNext(a, i);
        BitNext(b, i);
        BitNext(w, i);
        AndBits(a / 2, b / 2, i - 1);
      }
    }
  }

  lemma {:induction false} OrBits(a: nat, b: nat, i: nat)
    ensures Bit(BitOr(a, b), i) <==> Bit(a, i) || Bit(b, i)
    decreases i
  {
    ZeroBits(i);
    if a != 0 && b != 0 {
      var w := BitOr(a, b);
      assert w / 2 == BitOr(a / 2, b / 2);
      if i == 0 {
        BitFirst(a);
        BitFirst(b);
        BitFirst(w);
      } else {
        BitNext(a, i);
        BitNext(b, i);
        BitNext(w, i);
        OrBits(a / 2, b / 2, i - 1);
      }
    }
  }

  /** A number without bits is zero. */
  lemma {:induction false} SomeBit(x: nat) returns (i: nat)
    requires x > 0
    ensures Bit(x, i)
    decreases x
  {
    if x % 2 == 1 {
      i := 0;
    } else {
      i := SomeBit(x / 2);
      i := i + 1;
      BitNext(x, i);
    }
  }

  // ----- shifts -----

  lemma ModTwice(x: nat, y: nat)
    requires y == (x + x) % WORDS
    ensures forall n: nat :: y * n % WORDS == (x + x) * n % WORDS
  {
    var k := (x + x) / WORDS;
    assert x + x == k * WORDS + y;
    forall n: nat ensures y * n % WORDS == (x + x) * n % WORDS {
      assert (x + x) * n == y * n + (k * n) * WORDS;
      AddMultiple(y * n, k * n);
    }
  }

  lemma {:induction false} AddMultiple(x: nat, k: nat)
    ensures (x + k * WORDS) % WORDS == x % WORDS
    decreases k
  {
    if k > 0 {
      AddMultiple(x, k - 1);
      assert x + k * WORDS == (x + (k - 1) * WORDS) + WORDS;
    }
  }

  lemma {:induction false} LeftIsTimes(a: Word, n: nat)
    ensures ShiftLeft(a, n) == a * Pow2(n) % WORDS
    decreases n
  {
    if n > 0 {
      var b := (a + a) % WORDS;
      LeftIsTimes(b, n - 1);
      ModTwice(a, b);
      assert b * Pow2(n - 1) % WORDS == (a + a) * Pow2(n - 1) % WORDS;
      assert (a + a) * Pow2(n - 1) == a * Pow2(n);
    }
  }

  lemma {:induction false} RightIsQuotient(a: Word, n: nat)
    ensures Pow2(n) > 0 && ShiftRight(a, n) == a / Pow2(n)
    decreases n
  {
    PowerPositive(n);
    if n > 0 {
      PowerPositive(n - 1);
      RightIsQuotient(a / 2, n - 1);
      HalfTwice(a, Pow2(n - 1));
    }
  }

  // ----- the operations -----

  lemma QuotientBounds(a: nat, b: nat)
    requires b > 0
    ensures a / b * b <= a < (a / b + 1) * b
  {
    assert a == a / b * b + a % b;
  }

  lemma ModCongruent(x: nat)
    ensures Congruent(x % WORDS, x)
  {
  }

  /** Each operation of the interpreter makes what it should. */
  lemma AluMakes(op: AluOp, a: Word, b: Word)
    ensures Makes(op, a, b, Alu(op, a, b))
  {
    match op
    case Mul => ModCongruent(a * b);
    case Div =>
      if b != 0 {
        QuotientBounds(a, b);
      }
    case And =>
      forall i: nat ensures Bit(BitAnd(a, b), i) <==> Bit(a, i) && Bit(b, i) {
        AndBits(a, b, i);
      }
    case Or =>
      forall i: nat ensures Bit(BitOr(a, b), i) <==> Bit(a, i) || Bit(b, i) {
        OrBits(a, b, i);
      }
    case Lsh => LeftIsTimes(a, b);
    case Rsh => RightIsQuotient(a, b);
    case _ =>
  }

  /** The test for bits looks for one that both words have. */
  lemma JsetMeans(a: Word, b: Word)
    ensures Test(Jset, a, b) <==> exists i: nat {:trigger Bit(a, i)} :: Bit(a, i) && Bit(b, i)
  {
    if BitAnd(a, b) != 0 {
      var i := SomeBit(BitAnd(a, b));
      AndBits(a, b, i);
    } else if i: nat :| Bit(a, i) && Bit(b, i) {
      AndBits(a, b, i);
      ZeroBits(i);
    }
  }
}
