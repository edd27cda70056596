/** The rotating window of the route repair (cmd/gc/build_desired_state.go): a
    64-bit cursor that advances by five a pass picks the row a pass starts at. */
module Rotation {

  const LIMIT := 5
  const WORD := 0x1_0000_0000_0000_0000

  /** The index at distance `offset` from `start` in a ring of n rows. */
  function Ring(start: nat, offset: nat, n: nat): nat
    requires start < n && offset < n
    ensures Ring(start, offset, n) < n
  {
    if start + offset < n then start + offset else start + offset - n
  }

  /** The offset at which a row's turn comes: the inverse of Ring. */
  function Turn(start: nat, i: nat, n: nat): (o: nat)
    requires start < n && i < n
    ensures o < n && Ring(start, o, n) == i
  {
    if start <= i then i - start else i + n - start
  }

  lemma RingIsModulo(start: nat, offset: nat, n: nat)
    requires start < n && offset < n
    ensures Ring(start, offset, n) == (start + offset) % n
  {
  }

  function CeilDiv(n: nat): nat {
    (n + LIMIT - 1) / LIMIT
  }

  /** The cursor a domain has at its p-th pass from `c`. */
  function CursorAt(c: nat, p: nat): nat {
    (c + LIMIT * p) % WORD
  }

  /** Row j is among the first five of the p-th pass. */
  predicate InFront(c: nat, p: nat, n: nat, j: nat)
    requires j < n
  {
    Turn(CursorAt(c, p) % n, j, n) < LIMIT
  }

  ghost predicate InFrontWithin(c: nat, k: nat, n: nat, j: nat)
    requires j < n
  {
    exists p | 0 <= p < k :: InFront(c, p, n, j)
  }

  // ---- distances ---------------------------------------------------------------------

  /** The only multiples of n strictly between -n and 2n. */
  lemma SmallMultiple(m: int, n: int)
    requires n > 0 && 0 - n < m * n < 2 * n
    ensures 0 <= m <= 1
  {
  }

  lemma Minus(a: int, b: int, n: int)
    ensures (a - b) * n == a * n - b * n
  {
  }

  lemma Division(a: nat, n: nat)
    requires n > 0
    ensures a == (a / n) * n + a % n && a % n < n
  {
  }

  /** Moving t rows on from a cursor v reaches row j. */
  lemma TurnFrom(v: nat, n: nat, j: nat, t: nat, q: int)
    requires j < n && t < n && v + t == j + q * n
    ensures Turn(v % n, j, n) == t
  {
    var s, m := v % n, q - v / n;
    Division(v, n);
    Minus(q, v / n, n);
    SmallMultiple(m, n);
  }

  lemma TurnReaches(c: nat, n: nat, j: nat) returns (q: int)
    requires j < n
    ensures c + Turn(c % n, j, n) == j + q * n
  {
    Division(c, n);
    q := c / n + if c % n <= j then 0 else 1;
    Minus(q, c / n, n);
  }

  /** The distance of row j at pass p, from its distance at the first pass: a
      wrapped cursor lags by 2^64 modulo n. */
  lemma TurnAt(c: nat, n: nat, j: nat, p: nat, t: int)
    requires j < n && c < WORD && c + LIMIT * p < 2 * WORD
    requires t == Turn(c % n, j, n) - LIMIT * p + (if c + LIMIT * p < WORD then 0 else WORD % n) && 0 <= t < n
    ensures Turn(CursorAt(c, p) % n, j, n) == t
  {
    var q := TurnReaches(c, n, j);
    if c + LIMIT * p < WORD {
      assert CursorAt(c, p) == c + LIMIT * p;
      TurnFrom(c + LIMIT * p, n, j, t, q);
    } else {
      assert CursorAt(c, p) == c + LIMIT * p - WORD;
      var w := WORD / n;
      Division(WORD, n);
      Minus(q, w, n);
      TurnFrom(c + LIMIT * p - WORD, n, j, t, q - w);
    }
  }

  // ---- the exact bound -----------------------------------------------------------------

  /** ceil(n/5) passes from c bring every row to the front: the cursor does not
      wrap before the last of them, or the lag fits into the slack of 5k - n. */
  predicate OneRound(c: nat, n: nat)
    requires n > 0
  {
    c + LIMIT * (CeilDiv(n) - 1) < WORD || WORD % n <= LIMIT * CeilDiv(n) - n
  }

  /** The pass that serves distance z when the lag r is at most 5k - n. */
  function ServingPass(c: nat, z: nat, r: nat): nat {
    if c + LIMIT * (z / LIMIT) < WORD then z / LIMIT else (z + r) / LIMIT
  }

  lemma ServingPassIs(c: nat, n: nat, k: nat, r: nat, z: nat)
    requires z < n <= LIMIT * k < n + LIMIT && r < n <= WORD && c < WORD
    requires c + LIMIT * (k - 1) < WORD || r <= LIMIT * k - n
    ensures var p := ServingPass(c, z, r);
            p < k && c + LIMIT * p < 2 * WORD && 0 <= z - LIMIT * p + (if c + LIMIT * p < WORD then 0 else r) < LIMIT
  {
  }

  lemma ServedWithin(c: nat, n: nat, j: nat)
    requires j < n <= WORD && c < WORD && OneRound(c, n)
    ensures InFrontWithin(c, CeilDiv(n), n, j)
  {
    var z, r := Turn(c % n, j, n), WORD % n;
    Division(WORD, n);
    var p := ServingPass(c, z, r);
    ServingPassIs(c, n, CeilDiv(n), r, z);
    TurnAt(c, n, j, p, z - LIMIT * p + (if c + LIMIT * p < WORD then 0 else r));
    assert InFront(c, p, n, j);
  }

  /** The first pass whose cursor has wrapped. */
  function WrapPass(c: nat): nat
    requires c < WORD
  {
    (WORD - c + LIMIT - 1) / LIMIT
  }

  /** Otherwise the row at this distance is passed over. */
  function Missed(k: nat, q: nat, r: nat): int {
    if LIMIT * k - r >= LIMIT * q then LIMIT * k - r else LIMIT * q
  }

  lemma MissedStaysBehind(c: nat, n: nat, k: nat, r: nat, p: nat)
    requires n <= LIMIT * k < n + LIMIT && LIMIT * k - n < r < n <= WORD && c < WORD && p < k
    requires c + LIMIT * (k - 1) >= WORD
    ensures var z := Missed(k, WrapPass(c), r);
            0 <= z < n && c + LIMIT * p < 2 * WORD && LIMIT <= z - LIMIT * p + (if c + LIMIT * p < WORD then 0 else r) < n
  {
  }

  function MissedRow(c: nat, n: nat): (j: nat)
    requires 0 < n <= WORD && c < WORD && !OneRound(c, n)
    ensures j < n && Turn(c % n, j, n) == Missed(CeilDiv(n), WrapPass(c), WORD % n)
  {
    Division(WORD, n);
    MissedStaysBehind(c, n, CeilDiv(n), WORD % n, 0);
    Ring(c % n, Missed(CeilDiv(n), WrapPass(c), WORD % n), n)
  }

  lemma MissedEveryPass(c: nat, n: nat, p: nat)
    requires 0 < n <= WORD && c < WORD && !OneRound(c, n) && p < CeilDiv(n)
    ensures !InFront(c, p, n, MissedRow(c, n))
  {
    var r := WORD % n;
    Division(WORD, n);
    MissedStaysBehind(c, n, CeilDiv(n), r, p);
    var z := Missed(CeilDiv(n), WrapPass(c), r);
    TurnAt(c, n, MissedRow(c, n), p, z - LIMIT * p + (if c + LIMIT * p < WORD then 0 else r));
  }

  /** For every cursor and every list a machine can index, every row is in front
      within ceil(n/5) passes exactly when OneRound holds. */
  lemma OneRoundExactlyWhen(c: nat, n: nat)
    requires 0 < n <= WORD && c < WORD
    ensures (forall j: nat | j < n :: InFrontWithin(c, CeilDiv(n), n, j)) <==> OneRound(c, n)
  {
    if OneRound(c, n) {
      forall j: nat | j < n ensures InFrontWithin(c, CeilDiv(n), n, j) {
        ServedWithin(c, n, j);
      }
    } else {
      var j := MissedRow(c, n);
      forall p | 0 <= p < CeilDiv(n) ensures !InFront(c, p, n, j) {
        MissedEveryPass(c, n, p);
      }
      assert !InFrontWithin(c, CeilDiv(n), n, j);
    }
  }

  /** Eleven rows and a cursor five short of 2^64: row ten is in front in none of
      the three passes of a round. */
  lemma ElevenRows()
    ensures CeilDiv(11) == 3 && !OneRound(WORD - 5, 11) && !InFrontWithin(WORD - 5, 3, 11, 10)
  {
    assert CursorAt(WORD - 5, 0) % 11 == 0 && CursorAt(WORD - 5, 1) == 0 && CursorAt(WORD - 5, 2) == 5;
  }

  /** Twice as many passes always do. */
  lemma TwoRounds(c: nat, n: nat, j: nat)
    requires j < n < 0x8000_0000_0000_0000 && c < WORD
    ensures InFrontWithin(c, 2 * CeilDiv(n), n, j)
  {
    var k := CeilDiv(n);
    if OneRound(c, n) {
      ServedWithin(c, n, j);
      var p :| 0 <= p < k && InFront(c, p, n, j);
    } else {
      var q := WrapPass(c);
      assert q < k && c + LIMIT * q >= WORD;
      var c' := c + LIMIT * q - WORD;
      assert c' + LIMIT * (k - 1) < WORD;
      ServedWithin(c', n, j);
      var p :| 0 <= p < k && InFront(c', p, n, j);
      CursorAfterWrap(c, q, p);
      assert InFront(c, q + p, n, j);
    }
  }

  lemma CursorAfterWrap(c: nat, q: nat, p: nat)
    requires c + LIMIT * q >= WORD
    ensures CursorAt(c, q + p) == CursorAt(c + LIMIT * q - WORD, p)
  {
  }
}
