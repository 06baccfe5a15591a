/**
 * The five-slot wheel of the draw page: `getVisibleIndices` and the per-slot
 * scale, opacity and winner highlight derived from a slot's offset.
 */
module Carousel {
  import opened Wrappers
  import opened Tickets

  /** JavaScript's `a % b`: truncating, so the remainder takes the sign of `a`. */
  function JsRem(a: int, b: int): (r: int)
    requires b != 0
    ensures a >= 0 ==> 0 <= r < if b > 0 then b else -b
    ensures a < 0 ==> -(if b > 0 then b else -b) < r <= 0
    ensures a >= 0 ==> r == a % b
    ensures (a - r) % b == 0
  {
    if a >= 0 then
      MultipleMod(a / b, b);
      a % b
    else
      MultipleMod(-((-a) / b), b);
      assert a + (-a) % b == (-((-a) / b)) * b;
      -((-a) % b)
  }

  /** The offsets of the five slots, left to right. */
  const Offsets: seq<int> := [-2, -1, 0, 1, 2]

  /** `getVisibleIndices`: `(center + offset + len) % len` for each offset; nothing for an empty pool. */
  function VisibleIndices(len: nat, center: int): (r: seq<int>)
    ensures len == 0 <==> r == []
    ensures len > 0 ==> |r| == |Offsets|
  {
    if len == 0 then []
    else seq(|Offsets|, k requires 0 <= k < |Offsets| => JsRem(center + Offsets[k] + len, len))
  }

  lemma {:induction false} MulAtLeast(d: nat, len: nat)
    requires d >= 1
    ensures d * len >= len
    decreases d
  {
    if d > 1 {
      MulAtLeast(d - 1, len);
      assert d * len == (d - 1) * len + len;
    }
  }

  /** A multiple of `len` strictly between `-len` and `len` is zero. */
  lemma SmallMultiple(d: int, len: nat)
    requires len > 0 && -(len as int) < d * len < len
    ensures d == 0
  {
    if d >= 1 {
      MulAtLeast(d, len);
    }
  }

  /** A multiple of a non-zero `b` leaves no remainder, whatever the signs. */
  lemma MultipleMod(q: int, b: int)
    requires b != 0
    ensures (q * b) % b == 0
  {
    var x := q * b;
    assert x == (x / b) * b + x % b;
    if b > 0 {
      assert (q - x / b) * b == x % b;
      SmallMultiple(q - x / b, b);
    } else {
      assert (x / b - q) * (-b) == x % b;
      SmallMultiple(x / b - q, -b);
    }
  }

  /** `a == q * len + r` with `0 <= r < len` fixes `a % len` to `r`. */
  lemma ModUnique(a: int, len: nat, q: int, r: int)
    requires len > 0 && 0 <= r < len && a == q * len + r
    ensures a % len == r
  {
    var q', r' := a / len, a % len;
    assert a == q' * len + r';
    assert (q - q') * len == r' - r;
    SmallMultiple(q - q', len);
  }

  lemma ShiftMod(x: int, len: nat)
    requires len > 0
    ensures (x + len) % len == x % len
  {
    assert x == (x / len) * len + x % len;
    assert x + len == (x / len + 1) * len + x % len;
    ModUnique(x + len, len, x / len + 1, x % len);
  }

  lemma SuccMod(x: int, len: nat)
    requires len > 0
    ensures (x + 1) % len == (x % len + 1) % len
  {
    var q, r := x / len, x % len;
    assert x == q * len + r;
    if r + 1 < len {
      ModUnique(x + 1, len, q, r + 1);
      ModUnique(r + 1, len, 0, r + 1);
    } else {
      assert x + 1 == (q + 1) * len + 0;
      ModUnique(x + 1, len, q + 1, 0);
      ModUnique(r + 1, len, 1, 0);
    }
  }

  /**
   * For a non-negative centre the five indices are in range and are the cyclic
   * neighbours of the centre: slot k shows position (center + k - 2) mod len.
   */
  lemma VisibleIndicesCyclic(len: nat, center: int)
    requires len > 0 && center >= 0
    ensures forall k :: 0 <= k < |Offsets| ==>
      0 <= VisibleIndices(len, center)[k] < len &&
      VisibleIndices(len, center)[k] == (center + k - 2) % len
  {
    var r := VisibleIndices(len, center);
    forall k | 0 <= k < |Offsets|
      ensures 0 <= r[k] < len && r[k] == (center + k - 2) % len
    {
      assert Offsets[k] == k - 2;
      var a := center + (k - 2) + len;
      if a >= 0 {
        ShiftMod(center + k - 2, len);
      } else {
        // only a one-ticket pool reaches a negative dividend; -0 is 0
        assert len == 1;
      }
    }
  }

  /** The middle slot shows `center mod len`: the sentinel `center == len` shows position 0. */
  lemma CentreSlot(len: nat, center: int)
    requires len > 0 && center >= 0
    ensures VisibleIndices(len, center)[2] == center % len
    ensures center < len ==> VisibleIndices(len, center)[2] == center
    ensures center == len ==> VisibleIndices(len, center)[2] == 0
  {
    VisibleIndicesCyclic(len, center);
    if center < len {
      ModUnique(center, len, 0, center);
    } else if center == len {
      ModUnique(center, len, 1, 0);
    }
  }

  /** Each slot shows the position after the one to its left, cyclically. */
  lemma NeighbouringSlots(len: nat, center: int)
    requires len > 0 && center >= 0
    ensures forall k :: 0 <= k < |Offsets| - 1 ==>
      VisibleIndices(len, center)[k + 1] == (VisibleIndices(len, center)[k] + 1) % len
  {
    VisibleIndicesCyclic(len, center);
    forall k | 0 <= k < |Offsets| - 1
      ensures VisibleIndices(len, center)[k + 1] == (VisibleIndices(len, center)[k] + 1) % len
    {
      SuccMod(center + k - 2, len);
    }
  }

  // ---------------------------------------------------------------------------
  // Slots

  /** The `transform: scale(...)` of the slot at offset `pos`. */
  function SlotScale(pos: int): real {
    if pos == 0 then 1.1 else if pos == 1 || pos == -1 then 0.9 else 0.75
  }

  /** The opacity of the slot at offset `pos`. */
  function SlotOpacity(pos: int): real {
    if pos == 0 then 1.0 else 0.6
  }

  /** `ganador && ganador.ticket === venta.ticket`: raw equality, without stripping zeros. */
  predicate IsGanador(ganador: Option<Ticket>, venta: Ticket) {
    ganador.Some? && ganador.value.ticket == venta.ticket
  }

  datatype Slot = Slot(index: int, venta: Ticket, scale: real, opacity: real, highlighted: bool)

  /**
   * The wheel as rendered: per visible index, the ticket there, the scale and
   * opacity of its offset and whether it is the winner.
   */
  function Ruleta(pool: seq<Ticket>, center: int, ganador: Option<Ticket>): (slots: seq<Slot>)
    requires center >= 0
    ensures |slots| == |VisibleIndices(|pool|, center)|
    ensures forall p :: 0 <= p < |slots| ==>
      var idx := VisibleIndices(|pool|, center)[p];
      && 0 <= idx < |pool|
      && slots[p].index == idx
      && slots[p].venta == pool[idx]
      && slots[p].scale == (if p == 2 then 1.1 else if p == 1 || p == 3 then 0.9 else 0.75)
      && slots[p].opacity == (if p == 2 then 1.0 else 0.6)
      && (slots[p].highlighted <==> ganador.Some? && ganador.value.ticket == pool[idx].ticket)
  {
    if |pool| == 0 then []
    else
      var idx := VisibleIndices(|pool|, center);
      VisibleIndicesCyclic(|pool|, center);
      seq(|idx|, p requires 0 <= p < |idx| =>
        Slot(idx[p], pool[idx[p]], SlotScale(p - 2), SlotOpacity(p - 2), IsGanador(ganador, pool[idx[p]])))
  }

  /**
   * After a draw whose number is in the pool stops, the middle slot shows the
   * winner and is highlighted.
   */
  lemma MatchedWinnerAtCentre(pool: seq<Ticket>, resp: DrawResponse, now: nat)
    requires |pool| > 0 && resp.numeroRifa.Some?
    requires FindIndex(pool, resp.numeroRifa.value) >= 0
    ensures Resolve(pool, resp, now).Success?
    ensures var w := Resolve(pool, resp, now).value;
      var slots := Ruleta(pool, StopIndex(pool, w), Some(w));
      slots[2].venta == w && slots[2].highlighted
  {
    var w := Resolve(pool, resp, now).value;
    var i := StopIndex(pool, w);
    ResolvedStopIndex(pool, resp, now);
    CentreSlot(|pool|, i);
  }

  /**
   * After a draw whose number is not in the pool stops on the sentinel, no slot
   * is highlighted: no pool ticket even matches the number, let alone equals it.
   */
  lemma UnmatchedWinnerNotShown(pool: seq<Ticket>, resp: DrawResponse, now: nat)
    requires |pool| > 0 && resp.numeroRifa.Some?
    requires FindIndex(pool, resp.numeroRifa.value) < 0
    ensures Resolve(pool, resp, now).Success?
    ensures var w := Resolve(pool, resp, now).value;
      var slots := Ruleta(pool, StopIndex(pool, w), Some(w));
      StopIndex(pool, w) == |pool| && forall p :: 0 <= p < |slots| ==> !slots[p].highlighted
  {
    var w := Resolve(pool, resp, now).value;
    ResolvedStopIndex(pool, resp, now);
    var slots := Ruleta(pool, |pool|, Some(w));
    forall p | 0 <= p < |slots| ensures !slots[p].highlighted {
      var idx := VisibleIndices(|pool|, |pool|)[p];
      assert !Matches(pool[idx].ticket, w.ticket);
    }
  }
}
