/** `InventarioCambiadoEvent` and its one subscriber, which logs every event
    and raises an alert by the new quantity alone. */
module InventarioEventos {
  import opened Comun

  /** The `tipoOperacion` strings `CREACION`, `COMPRA`, `ACTUALIZACION` and
      `ELIMINACION_HUERFANO`. */
  datatype TipoOperacion = Creacion | Compra | Actualizacion | EliminacionHuerfano

  datatype InventarioCambiadoEvent = InventarioCambiadoEvent(
    productoId: int,
    cantidadAnterior: int,
    cantidadNueva: int,
    tipoOperacion: TipoOperacion,
    timestamp: Timestamp)

  /** The critical alert (logged as an error), the low-stock alert (logged
      as a warning), or no alert. */
  datatype Alerta = AlertaCritica | AlertaStockBajo | SinAlerta

  /** Below this new quantity the alert is critical. */
  const UMBRAL_CRITICO: int := 5
  /** Below this new quantity (and at or above the critical one) the alert
      is a warning. */
  const UMBRAL_STOCK_BAJO: int := 10

  /** The severity rule of `handleInventarioCambiado`: exactly one of the
      three outcomes, chosen by `cantidadNueva`. */
  function Clasificar(e: InventarioCambiadoEvent): (r: Alerta)
    ensures r == AlertaCritica <==> e.cantidadNueva < 5
    ensures r == AlertaStockBajo <==> 5 <= e.cantidadNueva < 10
    ensures r == SinAlerta <==> e.cantidadNueva >= 10
  {
    if e.cantidadNueva < UMBRAL_CRITICO then AlertaCritica
    else if e.cantidadNueva < UMBRAL_STOCK_BAJO then AlertaStockBajo
    else SinAlerta
  }

  datatype Nivel = Info | Warn | Error

  /** The levels of the lines `handleInventarioCambiado` logs, in order: the
      banner, the five fields and the closing rule, then the alert if any.
      The handler returns nothing and touches no inventory state, so what it
      logs is all it does. */
  function HandleInventarioCambiado(e: InventarioCambiadoEvent): (r: seq<Nivel>)
    ensures |r| == 7 <==> Clasificar(e) == SinAlerta
    ensures |r| == 7 || |r| == 8
    ensures forall i | 0 <= i < 7 :: r[i] == Info
    ensures |r| == 8 ==> (r[7] == Error <==> Clasificar(e) == AlertaCritica)
    ensures |r| == 8 ==> (r[7] == Warn <==> Clasificar(e) == AlertaStockBajo)
  {
    var informativas := [Info, Info, Info, Info, Info, Info, Info];
    match Clasificar(e)
    case AlertaCritica => informativas + [Error]
    case AlertaStockBajo => informativas + [Warn]
    case SinAlerta => informativas
  }

  function Severidad(a: Alerta): nat {
    match a
    case AlertaCritica => 2
    case AlertaStockBajo => 1
    case SinAlerta => 0
  }

  /** The alert depends on the new quantity only: not on the product, the
      previous quantity, the operation or the time. */
  lemma ClasificarSoloPorCantidadNueva(e1: InventarioCambiadoEvent, e2: InventarioCambiadoEvent)
    requires e1.cantidadNueva == e2.cantidadNueva
    ensures Clasificar(e1) == Clasificar(e2)
  {
  }

  /** Less stock never gives a milder alert. */
  lemma ClasificarAntimonotona(e1: InventarioCambiadoEvent, e2: InventarioCambiadoEvent)
    requires e1.cantidadNueva <= e2.cantidadNueva
    ensures Severidad(Clasificar(e1)) >= Severidad(Clasificar(e2))
  {
  }

  /** The boundaries: 4 is critical, 5 and 8 warn, 9 still warns, 10 is
      silent. */
  lemma ClasificarFronteras(e: InventarioCambiadoEvent)
    ensures e.cantidadNueva == 4 ==> Clasificar(e) == AlertaCritica
    ensures e.cantidadNueva == 5 ==> Clasificar(e) == AlertaStockBajo
    ensures e.cantidadNueva == 8 ==> Clasificar(e) == AlertaStockBajo
    ensures e.cantidadNueva == 9 ==> Clasificar(e) == AlertaStockBajo
    ensures e.cantidadNueva == 10 ==> Clasificar(e) == SinAlerta
  {
  }
}
