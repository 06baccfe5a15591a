/**
 * The ticket pool of the draw page and the pure logic over it: mapping the
 * backend rows into tickets, the leading-zero-insensitive match on ticket
 * numbers, the `find`/`findIndex` lookups, and the resolution of the winner
 * the backend declares.
 */
module Tickets {
  import opened Wrappers
  import Decimal

  /** One row of `GET ventas/reporte-por-premio/{id}`. */
  datatype VentaRow = VentaRow(idRifa: int, numeroRifa: string, nombreCliente: string, sexo: string, estadoVenta: int)

  /**
   * A ticket as the page holds it. Pool tickets carry `sexo` and `estado`;
   * the placeholder built for a winner outside the pool has neither.
   */
  datatype Ticket = Ticket(uid: string, id: int, ticket: string, comprador: string, sexo: Option<string>, estado: Option<int>)

  /** The body of `POST agente/sorteo/{id}`; `numeroRifa` is `None` when the field is missing or null. */
  datatype DrawResponse = DrawResponse(idRifa: int, numeroRifa: Option<string>, nombreCliente: string)

  // ---------------------------------------------------------------------------
  // Loading the pool

  /** `${idRifa}-${numeroRifa}-${index}` */
  function PoolUid(row: VentaRow, index: nat): string {
    Decimal.IntToString(row.idRifa) + "-" + row.numeroRifa + "-" + Decimal.NatToString(index)
  }

  /** The `data.map(...)` of the pool fetch: one ticket per row, in the same order. */
  function MapPool(rows: seq<VentaRow>): (pool: seq<Ticket>)
    ensures |pool| == |rows|
    ensures forall i :: 0 <= i < |rows| ==>
      && pool[i].uid == PoolUid(rows[i], i)
      && pool[i].id == rows[i].idRifa
      && pool[i].ticket == rows[i].numeroRifa
      && pool[i].comprador == rows[i].nombreCliente
      && pool[i].sexo == Some(rows[i].sexo)
      && pool[i].estado == Some(rows[i].estadoVenta)
  {
    seq(|rows|, i requires 0 <= i < |rows| =>
      Ticket(PoolUid(rows[i], i), rows[i].idRifa, rows[i].numeroRifa, rows[i].nombreCliente,
             Some(rows[i].sexo), Some(rows[i].estadoVenta)))
  }

  /** The position suffix of a uid determines the position. */
  lemma PoolUidDeterminesIndex(a: VentaRow, i: nat, b: VentaRow, j: nat)
    requires PoolUid(a, i) == PoolUid(b, j)
    ensures i == j
  {
    var ti, tj := Decimal.NatToString(i), Decimal.NatToString(j);
    var pa := Decimal.IntToString(a.idRifa) + "-" + a.numeroRifa;
    var pb := Decimal.IntToString(b.idRifa) + "-" + b.numeroRifa;
    assert PoolUid(a, i) == pa + "-" + ti;
    assert PoolUid(b, j) == pb + "-" + tj;
    Decimal.SameTailAfterLastDash(pa, ti, pb, tj);
    Decimal.NatToStringInjective(i, j);
  }

  /**
   * Every ticket of a loaded pool has its own uid, even when ticket numbers
   * repeat: the uid ends in the ticket's position.
   */
  lemma PoolUidsDistinct(rows: seq<VentaRow>)
    ensures forall i, j :: 0 <= i < j < |rows| ==> MapPool(rows)[i].uid != MapPool(rows)[j].uid
  {
    var pool := MapPool(rows);
    forall i, j | 0 <= i < j < |rows|
      ensures pool[i].uid != pool[j].uid
    {
      if pool[i].uid == pool[j].uid {
        PoolUidDeterminesIndex(rows[i], i, rows[j], j);
      }
    }
  }

  // ---------------------------------------------------------------------------
  // Ticket-number matching

  /**
   * `t.replace(/^0+/, "")`: `s` is a run of '0's followed by the result, and the
   * result does not start with '0', so the run removed is the longest one.
   */
  function Normalize(s: string): (r: string)
    ensures |r| <= |s| && r == s[|s| - |r|..]
    ensures forall i :: 0 <= i < |s| - |r| ==> s[i] == '0'
    ensures r == [] || r[0] != '0'
    decreases |s|
  {
    if |s| > 0 && s[0] == '0' then Normalize(s[1..]) else s
  }

  /** Any split of `s` into a run of '0's and a rest not starting with '0' is the one Normalize finds. */
  lemma {:induction false} NormalizeUnique(zeros: string, rest: string)
    requires forall i :: 0 <= i < |zeros| ==> zeros[i] == '0'
    requires rest == [] || rest[0] != '0'
    ensures Normalize(zeros + rest) == rest
    decreases |zeros|
  {
    if zeros == [] {
      assert zeros + rest == rest;
    } else {
      assert (zeros + rest)[1..] == zeros[1..] + rest;
      NormalizeUnique(zeros[1..], rest);
    }
  }

  lemma NormalizeIdempotent(s: string)
    ensures Normalize(Normalize(s)) == Normalize(s)
  {
    NormalizeUnique([], Normalize(s));
  }

  /** The rule shared by the winner lookup and the index lookup: equal after stripping leading zeros. */
  predicate Matches(a: string, b: string) {
    Normalize(a) == Normalize(b)
  }

  /** "007" and "07" match "7". */
  lemma PaddedNumbersMatch()
    ensures Matches("007", "7") && Matches("07", "7")
  {
    assert "007" == "00" + "7" && "07" == "0" + "7" && "7" == [] + "7";
    NormalizeUnique("00", "7");
    NormalizeUnique("0", "7");
    NormalizeUnique([], "7");
  }

  /** "7" does not match "70". */
  lemma TrailingZeroMatters()
    ensures !Matches("7", "70")
  {
    assert "7" == [] + "7" && "70" == [] + "70";
    NormalizeUnique([], "7");
    NormalizeUnique([], "70");
  }

  /** "0" and "000" both normalise to the empty string. */
  lemma ZerosNormaliseToEmpty()
    ensures Normalize("0") == "" && Normalize("000") == ""
  {
    assert "0" == "0" + [] && "000" == "000" + [];
    NormalizeUnique("0", []);
    NormalizeUnique("000", []);
  }

  // ---------------------------------------------------------------------------
  // The lookups

  /** `pool.findIndex(v => Matches(v.ticket, key))`: the first matching position, or -1. */
  function FindIndex(pool: seq<Ticket>, key: string): (r: int)
    ensures -1 <= r < |pool|
    ensures r >= 0 ==> Matches(pool[r].ticket, key)
    ensures forall j :: 0 <= j < |pool| && (r < 0 || j < r) ==> !Matches(pool[j].ticket, key)
    decreases |pool|
  {
    if |pool| == 0 then -1
    else if Matches(pool[0].ticket, key) then 0
    else
      var k := FindIndex(pool[1..], key);
      if k < 0 then -1 else k + 1
  }

  /** `pool.find(v => Matches(v.ticket, key))`: the first matching ticket, if any. */
  function Find(pool: seq<Ticket>, key: string): Option<Ticket>
    decreases |pool|
  {
    if |pool| == 0 then None
    else if Matches(pool[0].ticket, key) then Some(pool[0])
    else Find(pool[1..], key)
  }

  /** `find` returns the element at the position `findIndex` reports. */
  lemma {:induction false} FindAgreesWithFindIndex(pool: seq<Ticket>, key: string)
    ensures Find(pool, key) == if FindIndex(pool, key) >= 0 then Some(pool[FindIndex(pool, key)]) else None
    decreases |pool|
  {
    if |pool| > 0 && !Matches(pool[0].ticket, key) {
      FindAgreesWithFindIndex(pool[1..], key);
    }
  }

  // ---------------------------------------------------------------------------
  // Winner resolution

  /** The stand-in ticket `{ uid: nuevo-${idRifa}-${now}, id, ticket, comprador }`. */
  function Placeholder(resp: DrawResponse, numero: string, now: nat): Ticket {
    Ticket("nuevo-" + Decimal.IntToString(resp.idRifa) + "-" + Decimal.NatToString(now),
           resp.idRifa, numero, resp.nombreCliente, None, None)
  }

  /**
   * The winner of a draw response (`ganadorReal`): the first pool ticket whose
   * number matches the drawn `numeroRifa`, otherwise a placeholder carrying
   * that number. A missing `numeroRifa` makes `.toString()` throw inside the
   * lookup of a non-empty pool: the draw fails. `now` stands for `Date.now()`.
   */
  function Resolve(pool: seq<Ticket>, resp: DrawResponse, now: nat): (r: Result<Ticket>)
    requires |pool| > 0
    ensures r.Failure? <==> resp.numeroRifa.None?
    ensures r.Success? && FindIndex(pool, resp.numeroRifa.value) >= 0 ==>
      r.value == pool[FindIndex(pool, resp.numeroRifa.value)]
    ensures r.Success? && FindIndex(pool, resp.numeroRifa.value) < 0 ==>
      r.value == Placeholder(resp, resp.numeroRifa.value, now) &&
      r.value.ticket == resp.numeroRifa.value && r.value.id == resp.idRifa &&
      r.value.comprador == resp.nombreCliente && r.value.estado.None?
  {
    match resp.numeroRifa
    case None => Failure("numeroRifa is undefined")
    case Some(numero) =>
      FindAgreesWithFindIndex(pool, numero);
      match Find(pool, numero)
      case Some(t) => Success(t)
      case None => Success(Placeholder(resp, numero, now))
  }

  /** `index >= 0 ? index : ventas.length` for `index = findIndex(… ganador.ticket …)`. */
  function StopIndex(pool: seq<Ticket>, winner: Ticket): (i: nat)
    ensures i <= |pool|
    ensures i < |pool| ==> Matches(pool[i].ticket, winner.ticket)
    ensures forall j :: 0 <= j < i && j < |pool| ==> !Matches(pool[j].ticket, winner.ticket)
  {
    var k := FindIndex(pool, winner.ticket);
    if k >= 0 then k else |pool|
  }

  /**
   * Stopping on a resolved winner snaps to the first pool position matching the
   * drawn number, or to the sentinel `|pool|` when the number is not in the pool.
   */
  lemma ResolvedStopIndex(pool: seq<Ticket>, resp: DrawResponse, now: nat)
    requires |pool| > 0 && resp.numeroRifa.Some?
    ensures Resolve(pool, resp, now).Success?
    ensures var k := FindIndex(pool, resp.numeroRifa.value);
      StopIndex(pool, Resolve(pool, resp, now).value) == if k >= 0 then k else |pool|
  {
    var n := resp.numeroRifa.value;
    var w := Resolve(pool, resp, now).value;
    var k := FindIndex(pool, n);
    var i := StopIndex(pool, w);
    if k >= 0 {
      // pool[k] matches itself, so the lookup stops at k or earlier; anything
      // earlier would match n too, and nothing before k does
      assert Matches(pool[k].ticket, w.ticket);
      assert forall j :: 0 <= j < k ==> !Matches(pool[j].ticket, w.ticket);
    }
  }

  /** The backend rows of the two scenarios below. */
  const RowsOneTwo: seq<VentaRow> := [VentaRow(1, "001", "Ana", "F", 2), VentaRow(2, "002", "Luis", "M", 2)]
  const RowsFive: seq<VentaRow> := [VentaRow(5, "005", "Eva", "F", 2)]

  /** A drawn "1" finds "001" in the pool of RowsOneTwo, and the draw stops on position 0. */
  lemma ScenarioMatchedWinner(resp: DrawResponse, now: nat)
    requires resp.numeroRifa == Some("1")
    ensures var pool := MapPool(RowsOneTwo);
      Resolve(pool, resp, now) == Success(pool[0]) && StopIndex(pool, pool[0]) == 0
  {
    var pool := MapPool(RowsOneTwo);
    assert pool[0].ticket == "001" == "00" + "1";
    NormalizeUnique("00", "1");
    NormalizeUnique([], "1");
    assert Matches(pool[0].ticket, "1");
    assert FindIndex(pool, "1") == 0;
    assert FindIndex(pool, "001") == 0;
  }

  /** A drawn "9" is not in the pool of RowsFive: the winner is a placeholder and the index the sentinel 1. */
  lemma ScenarioUnmatchedWinner(resp: DrawResponse, now: nat)
    requires resp.numeroRifa == Some("9")
    ensures var pool := MapPool(RowsFive);
      var r := Resolve(pool, resp, now);
      r.Success? && r.value.ticket == "9" && r.value.estado.None? && StopIndex(pool, r.value) == 1
  {
    var pool := MapPool(RowsFive);
    assert pool[0].ticket == "005" == "00" + "5";
    NormalizeUnique("00", "5");
    NormalizeUnique([], "9");
    assert !Matches(pool[0].ticket, "9");
    assert FindIndex(pool, "9") == -1;
  }
}
