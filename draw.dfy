/**
 * The draw page (`SorteoPage`) as a state machine. Its React state becomes
 * the fields of `DrawController`; each handler becomes a method. The timers
 * and the HTTP calls are replaced by method calls made by the environment:
 * `Tick` for one firing of the 80 ms interval, `ResolveWith` and
 * `ResolveFailed` for the outcome of the draw request, `DelayedStop` for the
 * 3000 ms timeout. What a callback captured when it was created (the pool its
 * closure sees) travels in the `PendingDraw` and `PendingStop` values.
 */
module Draw {
  import opened Wrappers
  import opened Tickets
  import Lists
  import Carousel

  /** A draw request in flight: the prize, the `agenteHabilitado` header, and the pool its callbacks see. */
  datatype PendingDraw = PendingDraw(premio: int, agenteHabilitado: string, pool: seq<Ticket>)

  /** The armed 3000 ms timeout: it will stop the draw on `winner`, looking it up in `pool`. */
  datatype PendingStop = PendingStop(pool: seq<Ticket>, winner: Ticket)

  /** What `handleStartSorteo` did. */
  datatype StartOutcome = Ignored | NoActiveTickets | Started(draw: PendingDraw)

  /** The verdict of the two early returns of `handleStartSorteo`. */
  datatype StartVerdict = NoSelection | NoActive | Accepted

  predicate IsActivo(v: Ticket) {
    v.estado == Some(2)
  }

  /** `ventas.filter(v => v.estado === 2)` */
  function Activos(ventas: seq<Ticket>): seq<Ticket> {
    Lists.Filter(ventas, IsActivo)
  }

  /**
   * `if (!selectedPremio || ventas.length === 0) return;` then the check for
   * active tickets. A prize id of 0 is falsy in JavaScript and counts as no
   * selection.
   */
  function CheckStart(selectedPremio: Option<int>, ventas: seq<Ticket>): (v: StartVerdict)
    ensures v == NoSelection <==> selectedPremio.None? || selectedPremio.value == 0 || |ventas| == 0
    ensures v == Accepted <==>
      selectedPremio.Some? && selectedPremio.value != 0 &&
      exists i :: 0 <= i < |ventas| && ventas[i].estado == Some(2)
  {
    Lists.FilterEmpty(ventas, IsActivo);
    if selectedPremio.None? || selectedPremio.value == 0 || |ventas| == 0 then NoSelection
    else if |Activos(ventas)| == 0 then NoActive
    else Accepted
  }

  /** `agenteActivo.toString()` */
  function BoolText(b: bool): string {
    if b then "true" else "false"
  }

  class DrawController {
    var selectedPremio: Option<int>
    var ventas: seq<Ticket>
    var ganador: Option<Ticket>
    var isSorteando: bool
    var loading: bool
    var error: Option<string>
    var indiceVisual: int
    var agenteActivo: bool
    /** Whether `ruletaInterval.current` holds a live interval. */
    var intervalRunning: bool
    /** The `ventas.length` the live interval's callback captured. */
    var ruletaLen: nat

    /**
     * The index never goes negative, the interval runs exactly while a draw
     * is on, and while a draw is on there is no winner yet.
     */
    ghost predicate Valid()
      reads this
    {
      && indiceVisual >= 0
      && intervalRunning == isSorteando
      && (isSorteando ==> ruletaLen > 0 && ganador.None?)
    }

    /** The initial state of the page's `useState` hooks. */
    constructor ()
      ensures Valid()
      ensures selectedPremio.None? && ventas == [] && ganador.None? && !isSorteando
      ensures !loading && error.None? && indiceVisual == 0 && !agenteActivo && !intervalRunning
    {
      selectedPremio := None;
      ventas := [];
      ganador := None;
      isSorteando := false;
      loading := false;
      error := None;
      indiceVisual := 0;
      agenteActivo := false;
      intervalRunning := false;
      ruletaLen := 0;
    }

    /** `toggleAgente` */
    method ToggleAgente()
      requires Valid()
      modifies this
      ensures Valid()
      ensures agenteActivo == !old(agenteActivo)
      ensures selectedPremio == old(selectedPremio) && ventas == old(ventas) && ganador == old(ganador)
      ensures isSorteando == old(isSorteando) && loading == old(loading) && error == old(error)
      ensures indiceVisual == old(indiceVisual) && intervalRunning == old(intervalRunning) && ruletaLen == old(ruletaLen)
    {
      agenteActivo := !agenteActivo;
    }

    /**
     * The click on prize `p`: clicking the selected prize deselects it and
     * empties the pool; any other prize becomes the selection and its pool is
     * requested (`fetch` is the prize whose tickets are fetched). Neither
     * branch touches the running interval or the index.
     */
    method ClickPremio(p: int) returns (fetch: Option<int>)
      requires Valid()
      modifies this
      ensures Valid()
      ensures old(selectedPremio) == Some(p) ==>
        selectedPremio.None? && ventas == [] && ganador.None? && fetch.None? && loading == old(loading)
      ensures old(selectedPremio) != Some(p) ==>
        selectedPremio == Some(p) && fetch == Some(p) && loading &&
        ventas == old(ventas) && ganador == old(ganador)
      ensures isSorteando == old(isSorteando) && error == old(error) && indiceVisual == old(indiceVisual)
      ensures agenteActivo == old(agenteActivo) && intervalRunning == old(intervalRunning) && ruletaLen == old(ruletaLen)
    {
      if selectedPremio == Some(p) {
        selectedPremio := None;
        ventas := [];
        ganador := None;
        fetch := None;
      } else {
        selectedPremio := Some(p);
        loading := true;
        fetch := Some(p);
      }
    }

    /** A successful pool fetch: the rows replace the pool; the winner is cleared and the index reset. */
    method PoolLoaded(rows: seq<VentaRow>)
      requires Valid()
      modifies this
      ensures Valid()
      ensures ventas == MapPool(rows) && ganador.None? && indiceVisual == 0 && !loading
      ensures selectedPremio == old(selectedPremio) && isSorteando == old(isSorteando) && error == old(error)
      ensures agenteActivo == old(agenteActivo) && intervalRunning == old(intervalRunning) && ruletaLen == old(ruletaLen)
    {
      ventas := MapPool(rows);
      ganador := None;
      indiceVisual := 0;
      loading := false;
    }

    /** A failed pool fetch: the message is shown; the selection and the old pool stay. */
    method PoolFailed(message: string)
      requires Valid()
      modifies this
      ensures Valid()
      ensures error == Some(message) && !loading
      ensures selectedPremio == old(selectedPremio) && ventas == old(ventas) && ganador == old(ganador)
      ensures isSorteando == old(isSorteando) && indiceVisual == old(indiceVisual)
      ensures agenteActivo == old(agenteActivo) && intervalRunning == old(intervalRunning) && ruletaLen == old(ruletaLen)
    {
      error := Some(message);
      loading := false;
    }

    /**
     * `handleStartSorteo`, reached through the Sortear button, which is
     * disabled while a draw is on. A rejected start changes nothing; an
     * accepted one starts the interval over the current pool, clears the
     * winner and issues the draw request.
     */
    method StartSorteo() returns (outcome: StartOutcome)
      requires Valid() && !isSorteando
      modifies this
      ensures Valid()
      ensures CheckStart(old(selectedPremio), old(ventas)) == NoSelection ==> outcome == Ignored && unchanged(this)
      ensures CheckStart(old(selectedPremio), old(ventas)) == NoActive ==> outcome == NoActiveTickets && unchanged(this)
      ensures CheckStart(old(selectedPremio), old(ventas)) == Accepted ==>
        && outcome == Started(PendingDraw(old(selectedPremio).value, BoolText(old(agenteActivo)), old(ventas)))
        && isSorteando && intervalRunning && ruletaLen == |ventas| && ganador.None?
        && selectedPremio == old(selectedPremio) && ventas == old(ventas) && loading == old(loading)
        && error == old(error) && indiceVisual == old(indiceVisual) && agenteActivo == old(agenteActivo)
    {
      var verdict := CheckStart(selectedPremio, ventas);
      if verdict == NoSelection {
        return Ignored;
      }
      if verdict == NoActive {
        return NoActiveTickets;
      }
      isSorteando := true;
      ganador := None;
      intervalRunning := true;
      ruletaLen := |ventas|;
      outcome := Started(PendingDraw(selectedPremio.value, BoolText(agenteActivo), ventas));
    }

    /** One firing of the interval: the index advances by one modulo the captured pool length. */
    method Tick()
      requires Valid() && intervalRunning
      modifies this
      ensures Valid()
      ensures intervalRunning == old(intervalRunning) && ruletaLen == old(ruletaLen) && ruletaLen > 0
      ensures indiceVisual == (old(indiceVisual) + 1) % ruletaLen
      ensures 0 <= indiceVisual < ruletaLen
      ensures selectedPremio == old(selectedPremio) && ventas == old(ventas) && ganador == old(ganador)
      ensures isSorteando == old(isSorteando) && loading == old(loading) && error == old(error)
      ensures agenteActivo == old(agenteActivo)
    {
      // the dividend is positive, so JavaScript's % and Dafny's agree
      indiceVisual := Carousel.JsRem(indiceVisual + 1, ruletaLen);
    }

    /**
     * `handleStopSorteo(w)` as seen by a closure whose `ventas` is `pool`: the
     * interval is cleared and the draw is off; given a winner, the index snaps
     * to the winner's position in `pool` (or to `|pool|` when it is not there)
     * and the winner is set; given none, index and winner stay.
     */
    method StopWith(pool: seq<Ticket>, w: Option<Ticket>)
      requires Valid()
      modifies this
      ensures Valid()
      ensures !isSorteando && !intervalRunning
      ensures w.Some? ==> ganador == w && indiceVisual == StopIndex(pool, w.value)
      ensures w.None? ==> ganador == old(ganador) && indiceVisual == old(indiceVisual)
      ensures selectedPremio == old(selectedPremio) && ventas == old(ventas) && loading == old(loading)
      ensures error == old(error) && agenteActivo == old(agenteActivo) && ruletaLen == old(ruletaLen)
    {
      intervalRunning := false;
      isSorteando := false;
      if w.Some? {
        indiceVisual := StopIndex(pool, w.value);
        ganador := w;
      }
    }

    /**
     * The Parar button: `handleStopSorteo(ganador)` with the current pool.
     * During a draw the winner is still unset, so the wheel just freezes.
     */
    method StopButton()
      requires Valid()
      modifies this
      ensures Valid()
      ensures !isSorteando && !intervalRunning
      ensures old(isSorteando) ==> ganador.None? && indiceVisual == old(indiceVisual)
      ensures ganador == old(ganador)
      ensures old(ganador).Some? ==> indiceVisual == StopIndex(ventas, ganador.value)
      ensures old(ganador).None? ==> indiceVisual == old(indiceVisual)
      ensures selectedPremio == old(selectedPremio) && ventas == old(ventas) && loading == old(loading)
      ensures error == old(error) && agenteActivo == old(agenteActivo) && ruletaLen == old(ruletaLen)
    {
      StopWith(ventas, ganador);
    }

    /**
     * The draw request answered with a parsable body. If the winner resolves,
     * nothing changes yet and the 3000 ms timeout is armed (`timer`); if the
     * lookup throws, the draw stops at once with no winner.
     */
    method ResolveWith(d: PendingDraw, resp: DrawResponse, now: nat) returns (timer: Option<PendingStop>)
      requires Valid() && |d.pool| > 0
      modifies this
      ensures Valid()
      ensures Resolve(d.pool, resp, now).Success? ==>
        timer == Some(PendingStop(d.pool, Resolve(d.pool, resp, now).value)) && unchanged(this)
      ensures Resolve(d.pool, resp, now).Failure? ==>
        && timer.None? && !isSorteando && !intervalRunning
        && ganador == old(ganador) && indiceVisual == old(indiceVisual)
        && selectedPremio == old(selectedPremio) && ventas == old(ventas) && loading == old(loading)
        && error == old(error) && agenteActivo == old(agenteActivo) && ruletaLen == old(ruletaLen)
    {
      var r := Resolve(d.pool, resp, now);
      match r
      case Success(w) =>
        timer := Some(PendingStop(d.pool, w));
      case Failure(_) =>
        StopWith(d.pool, None);
        timer := None;
    }

    /** The draw request failed (network error, or a body `res.json()` cannot parse): stop with no winner. */
    method ResolveFailed(d: PendingDraw)
      requires Valid()
      modifies this
      ensures Valid()
      ensures !isSorteando && !intervalRunning && ganador == old(ganador) && indiceVisual == old(indiceVisual)
      ensures selectedPremio == old(selectedPremio) && ventas == old(ventas) && loading == old(loading)
      ensures error == old(error) && agenteActivo == old(agenteActivo) && ruletaLen == old(ruletaLen)
    {
      StopWith(d.pool, None);
    }

    /** The armed timeout fires: stop on its winner, looked up in the pool it captured. */
    method DelayedStop(t: PendingStop)
      requires Valid()
      modifies this
      ensures Valid()
      ensures !isSorteando && !intervalRunning
      ensures ganador == Some(t.winner) && indiceVisual == StopIndex(t.pool, t.winner)
      ensures selectedPremio == old(selectedPremio) && ventas == old(ventas) && loading == old(loading)
      ensures error == old(error) && agenteActivo == old(agenteActivo) && ruletaLen == old(ruletaLen)
    {
      StopWith(t.pool, Some(t.winner));
    }

    /** The wheel as the page renders it from the current state. */
    function Wheel(): (slots: seq<Carousel.Slot>)
      requires Valid()
      reads this
      ensures |slots| == if |ventas| == 0 then 0 else 5
    {
      Carousel.Ruleta(ventas, indiceVisual, ganador)
    }
  }

  // ---------------------------------------------------------------------------
  // Client scenarios: what a caller can conclude from the contracts alone

  /** Pool "001", "002" (both paid); the backend draws "1": the wheel stops on position 0 with "001". */
  method ScenarioMatchedDraw()
  {
    var c := new DrawController();
    var fetch := c.ClickPremio(7);
    c.PoolLoaded(RowsOneTwo);
    assert c.ventas[0].estado == Some(2);
    var outcome := c.StartSorteo();
    assert outcome.Started?;
    c.Tick();
    c.Tick();
    var resp := DrawResponse(1, Some("1"), "Ana");
    ScenarioMatchedWinner(resp, 0);
    var timer := c.ResolveWith(outcome.draw, resp, 0);
    c.DelayedStop(timer.value);
    assert !c.isSorteando && c.ganador == Some(c.ventas[0]) && c.indiceVisual == 0;
  }

  /** Pool "005"; the backend draws "9": the winner is a placeholder and the index the sentinel 1. */
  method ScenarioUnmatchedDraw()
  {
    var c := new DrawController();
    var fetch := c.ClickPremio(3);
    c.PoolLoaded(RowsFive);
    assert c.ventas[0].estado == Some(2);
    var outcome := c.StartSorteo();
    assert outcome.Started?;
    var resp := DrawResponse(9, Some("9"), "Zoe");
    ScenarioUnmatchedWinner(resp, 0);
    var timer := c.ResolveWith(outcome.draw, resp, 0);
    c.DelayedStop(timer.value);
    assert c.ganador.value.ticket == "9" && c.indiceVisual == 1 == |c.ventas|;
  }

  /** The draw request fails: the draw stops with no winner and the interval is gone. */
  method ScenarioFailedDraw()
  {
    var c := new DrawController();
    var fetch := c.ClickPremio(3);
    c.PoolLoaded([VentaRow(5, "005", "Eva", "F", 2)]);
    assert c.ventas[0].estado == Some(2);
    var outcome := c.StartSorteo();
    assert outcome.Started?;
    c.Tick();
    c.ResolveFailed(outcome.draw);
    assert !c.isSorteando && !c.intervalRunning && c.ganador.None?;
  }

  /** Only pending (1) and rejected (3) tickets: the start is refused and nothing changes. */
  method ScenarioNoActiveTickets()
  {
    var c := new DrawController();
    var fetch := c.ClickPremio(3);
    c.PoolLoaded([VentaRow(5, "005", "Eva", "F", 1), VentaRow(6, "006", "Ian", "M", 3)]);
    var outcome := c.StartSorteo();
    assert outcome == NoActiveTickets && !c.isSorteando;
  }

  /** Clicking the same prize twice deselects it. */
  method ScenarioReselect()
  {
    var c := new DrawController();
    var first := c.ClickPremio(4);
    var second := c.ClickPremio(4);
    assert first == Some(4) && second.None?;
    assert c.selectedPremio.None? && c.ventas == [] && c.ganador.None?;
  }
}
