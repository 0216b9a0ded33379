/** Round-robin positions (internal/runtime/state.go): the stored position against its closed form. */
module Rotation {

  /** Where a Combo's rotation stands: the start index and how many requests in a row have used it. */
  datatype Position = Position(index: nat, uses: nat)

  /** StickyRotations, and the limit ComboRotation applies: a limit of none is one. */
  function Sticky(limit: nat): (k: nat)
    ensures k > 0
  {
    if limit < 1 then 1 else limit
  }

  /** The start a call uses. */
  function StartOf(p: Position, length: nat): nat
    requires length > 0
  {
    p.index % length
  }

  function Advanced(p: Position, length: nat, sticky: nat): Position
    requires length > 0
  {
    if p.uses + 1 >= Sticky(sticky) then Position((StartOf(p, length) + 1) % length, 0)
    else Position(StartOf(p, length), p.uses + 1)
  }

  class RuntimeState {
    var cursors: map<string, nat>
    var rotations: map<string, Position>

    constructor ()
      ensures cursors == map[] && rotations == map[]
    {
      cursors, rotations := map[], map[];
    }

    function PositionOf(key: string): Position
      reads this
    {
      if key in rotations then rotations[key] else Position(0, 0)
    }

    /** NextCursor: each call gets the next number. */
    method NextCursor(provider: string) returns (value: nat)
      modifies this`cursors
      ensures value == if provider in old(cursors) then old(cursors)[provider] else 0
      ensures cursors == old(cursors)[provider := value + 1]
    {
      value := if provider in cursors then cursors[provider] else 0;
      cursors := cursors[provider := value + 1];
    }

    method ComboRotation(key: string, length: int, sticky: nat) returns (start: nat)
      modifies this`rotations
      ensures length <= 0 ==> start == 0 && rotations == old(rotations)
      ensures length > 0 ==> start == StartOf(old(PositionOf(key)), length) < length
      ensures length > 0 ==> rotations == old(rotations)[key := Advanced(old(PositionOf(key)), length, sticky)]
    {
      if length <= 0 {
        return 0;
      }
      var state := PositionOf(key);
      var limit := if sticky < 1 then 1 else sticky;
      start := state.index % length;
      if state.uses + 1 >= limit {
        rotations := rotations[key := Position((start + 1) % length, 0)];
      } else {
        rotations := rotations[key := Position(start, state.uses + 1)];
      }
    }
  }

  /** The position after `i` calls with the same length and limit. */
  function After(length: nat, sticky: nat, i: nat): Position
    requires length > 0
  {
    if i == 0 then Position(0, 0) else Advanced(After(length, sticky, i - 1), length, sticky)
  }

  /** The start of call `i`. */
  function Start(length: nat, sticky: nat, i: nat): nat
    requires length > 0
  {
    (i / Sticky(sticky)) % length
  }

  lemma QuotientNext(i: nat, k: nat)
    requires k > 0
    ensures (i + 1) / k == if i % k == k - 1 then i / k + 1 else i / k
    ensures (i + 1) % k == if i % k == k - 1 then 0 else i % k + 1
  {
    var q, r := i / k, i % k;
    assert i == q * k + r;
    if r == k - 1 {
      assert i + 1 == (q + 1) * k;
      DivideUnique(i + 1, k, q + 1, 0);
    } else {
      DivideUnique(i + 1, k, q, r + 1);
    }
  }

  lemma AtLeast(d: nat, k: nat)
    requires d >= 1
    ensures d * k >= k
  {
    assert d * k == (d - 1) * k + k;
  }

  lemma NotLarger(q: nat, r: nat, q2: nat, r2: nat, k: nat)
    requires q * k + r == q2 * k + r2 && r < k && r2 < k
    ensures q <= q2
  {
    if q > q2 {
      var d := q - q2;
      assert (q2 + d) * k == q2 * k + d * k;
      AtLeast(d, k);
    }
  }

  lemma DivideUnique(n: nat, k: nat, q: nat, r: nat)
    requires k > 0 && n == q * k + r && r < k
    ensures n / k == q && n % k == r
  {
    assert n == (n / k) * k + n % k;
    NotLarger(q, r, n / k, n % k, k);
    NotLarger(n / k, n % k, q, r, k);
  }

  lemma RemainderNext(q: nat, n: nat)
    requires n > 0
    ensures (q % n + 1) % n == (q + 1) % n
  {
    QuotientNext(q, n);
    if q % n == n - 1 {
      DivideUnique(n, n, 1, 0);
    } else {
      DivideUnique(q % n + 1, n, 0, q % n + 1);
    }
  }

  /** With a constant length and limit the i-th call starts at (i / limit) mod length. */
  lemma {:induction false} ClosedForm(length: nat, sticky: nat, i: nat)
    requires length > 0
    ensures After(length, sticky, i) == Position(Start(length, sticky, i), i % Sticky(sticky))
    ensures StartOf(After(length, sticky, i), length) == Start(length, sticky, i) == (i / if sticky > 0 then sticky else 1) % length
  {
    var k := Sticky(sticky);
    if i == 0 {
      DivideUnique(0, k, 0, 0);
      DivideUnique(0, length, 0, 0);
    } else {
      ClosedForm(length, sticky, i - 1);
      QuotientNext(i - 1, k);
      RemainderNext((i - 1) / k, length);
    }
    DivideUnique(Start(length, sticky, i), length, 0, Start(length, sticky, i));
  }

  // ------------------------------------------------------------ fairness

  /** How many of `count` calls from call `from` on start at `s`. */
  function Uses(length: nat, sticky: nat, from: nat, count: nat, s: nat): nat
    requires length > 0
    decreases count
  {
    if count == 0 then 0
    else Uses(length, sticky, from, count - 1, s) + if Start(length, sticky, from + count - 1) == s then 1 else 0
  }

  lemma StartInBlock(length: nat, sticky: nat, q: nat, r: nat)
    requires length > 0 && r < Sticky(sticky)
    ensures Start(length, sticky, q * Sticky(sticky) + r) == q % length
  {
    DivideUnique(q * Sticky(sticky) + r, Sticky(sticky), q, r);
  }

  lemma {:induction false} UsesInBlock(length: nat, sticky: nat, q: nat, r: nat, s: nat)
    requires length > 0 && r <= Sticky(sticky) && q < length
    ensures Uses(length, sticky, 0, q * Sticky(sticky) + r, s) == Uses(length, sticky, 0, q * Sticky(sticky), s) + if q == s then r else 0
    decreases r
  {
    if r > 0 {
      UsesInBlock(length, sticky, q, r - 1, s);
      StartInBlock(length, sticky, q, r - 1);
      DivideUnique(q, length, 0, q);
      assert q * Sticky(sticky) + r - 1 == q * Sticky(sticky) + (r - 1);
    }
  }

  lemma {:induction false} UsesOfBlocks(length: nat, sticky: nat, q: nat, s: nat)
    requires length > 0 && q <= length
    ensures Uses(length, sticky, 0, q * Sticky(sticky), s) == if s < q then Sticky(sticky) else 0
    decreases q
  {
    if q > 0 {
      var k := Sticky(sticky);
      BlockEnd(q, k);
      UsesOfBlocks(length, sticky, q - 1, s);
      UsesInBlock(length, sticky, q - 1, k, s);
    }
  }

  lemma BlockEnd(q: nat, k: nat)
    requires q > 0
    ensures (q - 1) * k + k == q * k
  {
  }

  lemma AddBlocks(n: nat, k: nat, d: nat)
    requires k > 0
    ensures (n + d * k) / k == n / k + d && (n + d * k) % k == n % k
  {
    var q, r := n / k, n % k;
    assert n == q * k + r;
    assert (q + d) * k == q * k + d * k;
    DivideUnique(n + d * k, k, q + d, r);
  }

  /** Starts repeat after length times limit calls. */
  lemma StartRepeats(length: nat, sticky: nat, i: nat)
    requires length > 0
    ensures Start(length, sticky, i + length * Sticky(sticky)) == Start(length, sticky, i)
  {
    var k := Sticky(sticky);
    AddBlocks(i, k, length);
    AddBlocks(i / k, length, 1);
    assert 1 * length == length;
  }

  lemma {:induction false} UsesFromFront(length: nat, sticky: nat, from: nat, count: nat, s: nat)
    requires length > 0 && count > 0
    ensures Uses(length, sticky, from, count, s) == (if Start(length, sticky, from) == s then 1 else 0) + Uses(length, sticky, from + 1, count - 1, s)
    decreases count
  {
    if count > 1 {
      UsesFromFront(length, sticky, from, count - 1, s);
      assert from + 1 + (count - 1) - 1 == from + count - 1;
    }
  }

  /** Any length times limit calls in a row use each start exactly limit times. */
  lemma {:induction false} EachStartAlike(length: nat, sticky: nat, from: nat, s: nat)
    requires length > 0 && s < length
    ensures Uses(length, sticky, from, length * Sticky(sticky), s) == Sticky(sticky)
    decreases from
  {
    var period := length * Sticky(sticky);
    if from == 0 {
      UsesOfBlocks(length, sticky, length, s);
    } else {
      assert period > 0 by {
        assert length * Sticky(sticky) >= Sticky(sticky);
      }
      EachStartAlike(length, sticky, from - 1, s);
      UsesFromFront(length, sticky, from - 1, period, s);
      StartRepeats(length, sticky, from - 1);
      assert Uses(length, sticky, from, period, s)
          == Uses(length, sticky, from, period - 1, s) + if Start(length, sticky, from + period - 1) == s then 1 else 0;
    }
  }
}
