/**
 * The sales report page (`VentasPage`): which report endpoint the token's
 * company id selects, how backend rows become table rows, and the search and
 * prize filters over the table.
 */
module Ventas {
  import opened Wrappers
  import Decimal
  import Lists
  import Text

  const ApiUrlGeneral: string := "http://localhost:8080/v1/azzar/ventas/reporte-general"
  const ApiUrlEmpresa: string := "http://localhost:8080/v1/azzar/ventas/reporte-empresa"

  /** The company id that stands for the administrator of all companies. */
  const AdminEmpresa: int := -99

  /** `${idEmpresa}` for the token's claim: its digits, or "undefined" when the claim is missing. */
  function IdText(idEmpresa: Option<int>): string {
    match idEmpresa
    case None => "undefined"
    case Some(i) => Decimal.IntToString(i)
  }

  /** The report URL: the general report for the administrator, otherwise the company report of that id. */
  function ReportUrl(idEmpresa: Option<int>): (url: string)
    ensures url == ApiUrlGeneral <==> idEmpresa == Some(AdminEmpresa)
    ensures idEmpresa != Some(AdminEmpresa) ==> url == ApiUrlEmpresa + "?idEmpresa=" + IdText(idEmpresa)
  {
    if idEmpresa == Some(AdminEmpresa) then ApiUrlGeneral
    else
      var url := ApiUrlEmpresa + "?idEmpresa=" + IdText(idEmpresa);
      // the two endpoints part at "reporte-g…" versus "reporte-e…"
      assert ApiUrlGeneral[46] == 'g' && url[46] == 'e';
      url
  }

  /** Different company ids ask for different reports. */
  lemma ReportUrlInjective(a: Option<int>, b: Option<int>)
    requires ReportUrl(a) == ReportUrl(b)
    ensures a == b
  {
    if a != Some(AdminEmpresa) && b != Some(AdminEmpresa) {
      var pre := ApiUrlEmpresa + "?idEmpresa=";
      assert IdText(a) == ReportUrl(a)[|pre|..];
      assert IdText(b) == ReportUrl(b)[|pre|..];
      if a.Some? && b.Some? {
        Decimal.IntToStringInjective(a.value, b.value);
      }
    }
  }

  /** One row of the sales report as the backend sends it (date and price left out). */
  datatype BackendVenta = BackendVenta(idVenta: int, numeroRifa: string, nombreCliente: string, nombrePremio: string, estadoVenta: int)

  /** One row of the table. */
  datatype Venta = Venta(id: int, ticket: string, comprador: string, premio: string, estado: string)

  /** The sale state shown: 1 is pending payment, 2 paid, anything else blank. */
  function EstadoLabel(estadoVenta: int): (shown: string)
    ensures shown == "Pendiente de Pago" <==> estadoVenta == 1
    ensures shown == "Pagado" <==> estadoVenta == 2
    ensures shown == "" <==> estadoVenta != 1 && estadoVenta != 2
  {
    if estadoVenta == 1 then "Pendiente de Pago"
    else if estadoVenta == 2 then "Pagado"
    else ""
  }

  const TicketPrefix: string := "Rifa #"

  /** `"Rifa #" + numeroRifa`; dropping the prefix gives the number back. */
  function TicketLabel(numeroRifa: string): (shown: string)
    ensures |shown| == |TicketPrefix| + |numeroRifa|
    ensures shown[..|TicketPrefix|] == TicketPrefix && shown[|TicketPrefix|..] == numeroRifa
  {
    TicketPrefix + numeroRifa
  }

  function MapVenta(v: BackendVenta): Venta {
    Venta(v.idVenta, TicketLabel(v.numeroRifa), v.nombreCliente, v.nombrePremio, EstadoLabel(v.estadoVenta))
  }

  /** `data.map(...)`: one table row per backend row, in order, keeping id, buyer and prize. */
  function MapVentas(data: seq<BackendVenta>): (ventas: seq<Venta>)
    ensures |ventas| == |data|
    ensures forall i :: 0 <= i < |data| ==>
      && ventas[i].id == data[i].idVenta
      && ventas[i].ticket == TicketLabel(data[i].numeroRifa)
      && ventas[i].comprador == data[i].nombreCliente
      && ventas[i].premio == data[i].nombrePremio
      && ventas[i].estado == EstadoLabel(data[i].estadoVenta)
  {
    seq(|data|, i requires 0 <= i < |data| => MapVenta(data[i]))
  }

  /** The search box: the lower-cased text occurs in the lower-cased buyer or prize. */
  predicate MatchesSearch(v: Venta, search: string) {
    Text.Includes(Text.Lower(v.comprador), Text.Lower(search)) ||
    Text.Includes(Text.Lower(v.premio), Text.Lower(search))
  }

  /** The prize selector: "" is "all prizes", anything else must equal the prize exactly. */
  predicate MatchesPremio(v: Venta, selectedPremio: string) {
    selectedPremio == "" || v.premio == selectedPremio
  }

  predicate Keep(v: Venta, search: string, selectedPremio: string) {
    MatchesSearch(v, search) && MatchesPremio(v, selectedPremio)
  }

  /** `filteredVentas`: the rows both filters accept, in table order. */
  function FilteredVentas(ventas: seq<Venta>, search: string, selectedPremio: string): (r: seq<Venta>)
    ensures Lists.IsSubsequence(r, ventas)
    ensures forall i :: 0 <= i < |r| ==> r[i] in ventas && Keep(r[i], search, selectedPremio)
    ensures forall i :: 0 <= i < |ventas| && Keep(ventas[i], search, selectedPremio) ==> ventas[i] in r
    ensures forall v :: multiset(r)[v] == if Keep(v, search, selectedPremio) then multiset(ventas)[v] else 0
  {
    Lists.FilterCounts(ventas, v => Keep(v, search, selectedPremio));
    Lists.Filter(ventas, v => Keep(v, search, selectedPremio))
  }

  /** With an empty search and "all prizes", the whole table shows. */
  lemma NoFilterKeepsAll(ventas: seq<Venta>)
    ensures FilteredVentas(ventas, "", "") == ventas
  {
    forall i | 0 <= i < |ventas| ensures Keep(ventas[i], "", "") {
      Text.IncludesEmpty(Text.Lower(ventas[i].comprador));
    }
    Lists.FilterAll(ventas, v => Keep(v, "", ""));
  }

  /** With a prize selected, every row shown is of that prize. */
  lemma SelectedPremioOnly(ventas: seq<Venta>, search: string, selectedPremio: string)
    requires selectedPremio != ""
    ensures forall i :: 0 <= i < |FilteredVentas(ventas, search, selectedPremio)| ==>
      FilteredVentas(ventas, search, selectedPremio)[i].premio == selectedPremio
  {
  }

  /** The two filters combine by AND: filtering by search, then by prize, is the same table. */
  lemma FiltersCombineByAnd(ventas: seq<Venta>, search: string, selectedPremio: string)
    ensures FilteredVentas(ventas, search, selectedPremio) ==
      Lists.Filter(Lists.Filter(ventas, v => MatchesSearch(v, search)), v => MatchesPremio(v, selectedPremio))
  {
    Lists.FilterFilter(ventas, v => MatchesSearch(v, search), v => MatchesPremio(v, selectedPremio),
                       v => Keep(v, search, selectedPremio));
  }

  /** The search ignores the case of ASCII letters in what is typed. */
  lemma SearchIgnoresCase(ventas: seq<Venta>, search: string, selectedPremio: string)
    ensures FilteredVentas(ventas, Text.Lower(search), selectedPremio) == FilteredVentas(ventas, search, selectedPremio)
  {
    Text.LowerIdempotent(search);
    Lists.FilterCongruent(ventas, v => Keep(v, Text.Lower(search), selectedPremio), v => Keep(v, search, selectedPremio));
  }
}
