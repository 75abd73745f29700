/** `InventarioService` as values. The stock store is the `inventarios`
    table keyed by product id (its unique index) together with the log of
    published `InventarioCambiadoEvent`s; every operation is a function from
    the store before the call to the store after it and the call's outcome.
    The product lookup of `ProductoClient` is `ProductoModelo.ObtenerPorId`
    on a snapshot of the catalogue. `InventarioServicio` runs the operations
    in place and is proved against these functions. */
module InventarioModelo {
  import opened Comun
  import opened InventarioEntidad
  import opened InventarioEventos
  import ProductoModelo

  /** Create and update request; absent thresholds are `null`. */
  datatype InventarioRequest = InventarioRequest(cantidad: int, cantidadMinima: Option<int>, cantidadMaxima: Option<int>)

  datatype CompraRequest = CompraRequest(cantidad: int)

  /** The bean-validation constraints on `InventarioRequest`: quantity and
      minimum at least 0, maximum at least 1 (all `Integer`s). */
  predicate InventarioRequestValido(req: InventarioRequest) {
    && 0 <= req.cantidad <= INT_MAX
    && (req.cantidadMinima.Some? ==> 0 <= req.cantidadMinima.value <= INT_MAX)
    && (req.cantidadMaxima.Some? ==> 1 <= req.cantidadMaxima.value <= INT_MAX)
  }

  /** The bean-validation constraint on `CompraRequest`: at least 1. */
  predicate CompraRequestValido(req: CompraRequest) {
    1 <= req.cantidad <= INT_MAX
  }

  /** What the product lookup returns. */
  datatype ProductoDTO = ProductoDTO(id: int, nombre: string, precio: ProductoModelo.Precio)

  /** The projected view of one record: its stock figures, the `stock_bajo`
      flag and the product's name and price. */
  datatype InventarioResponse = InventarioResponse(
    id: int,
    cantidad: int,
    cantidadMinima: int,
    cantidadMaxima: int,
    stockBajo: bool,
    ultimaActualizacion: Timestamp,
    producto: ProductoDTO)

  /** A page of results and the total it reports. */
  datatype Pagina<T> = Pagina(contenido: seq<T>, total: nat)

  /** `ResourceNotFoundException`; the two `IllegalArgumentException`s
      (duplicate record, insufficient stock); `ProductoServiceException`. */
  datatype Error = NoEncontrado | InventarioDuplicado | StockInsuficiente | ProductoNoDisponible

  /** The `inventarios` table keyed by `productoId`, the events published so
      far, and the next value of the identity column. */
  datatype Almacen = Almacen(filas: map<int, Fila>, eventos: seq<InventarioCambiadoEvent>, siguienteId: int)

  /** The store after a call, and what the call returned or threw. */
  datatype Salida<T> = Salida(almacen: Almacen, resultado: Result<T, Error>)

  /** The store after the orphan sweep, and how many records it deleted. */
  datatype Limpieza = Limpieza(almacen: Almacen, eliminados: nat)

  /** The table's invariants: every row sits under its own product id (so
      there is at most one record per product), satisfies the column
      constraints, has an id below the next one to hand out, and no two rows
      are the same record by id. */
  predicate Valido(a: Almacen) {
    && a.siguienteId >= 1
    && (forall p | p in a.filas ::
          && a.filas[p].productoId == p
          && FilaValida(a.filas[p])
          && 1 <= a.filas[p].id < a.siguienteId)
    && (forall p, q | p in a.filas && q in a.filas && MismoRegistro(a.filas[p], a.filas[q]) :: p == q)
  }

  /** `ProductoClient.obtenerProducto`: the product, or a failure (any
      transport fault is a product the snapshot does not hold). */
  function ObtenerProducto(cat: ProductoModelo.Catalogo, productoId: int): (r: Option<ProductoDTO>)
    ensures r.Some? <==> productoId in cat.productos
    ensures r.Some? ==> && r.value.nombre == cat.productos[productoId].nombre
                        && r.value.precio == cat.productos[productoId].precio
                        && (ProductoModelo.Valido(cat) ==> r.value.id == productoId)
  {
    match ProductoModelo.ObtenerPorId(cat, productoId)
    case Ok(p) => Some(ProductoDTO(p.id, p.nombre, p.precio))
    case Err(_) => None
  }

  /** `mapToResponse`: the record's figures, unchanged, and `stock_bajo`
      exactly when the quantity is at or below the minimum. */
  function MapToResponse(f: Fila, p: ProductoDTO): (r: InventarioResponse)
    ensures r.stockBajo <==> f.cantidad <= f.cantidadMinima
    ensures && r.id == f.id && r.cantidad == f.cantidad
            && r.cantidadMinima == f.cantidadMinima && r.cantidadMaxima == f.cantidadMaxima
            && r.producto == p
  {
    InventarioResponse(f.id, f.cantidad, f.cantidadMinima, f.cantidadMaxima,
                       f.cantidad <= f.cantidadMinima, f.ultimaActualizacion, p)
  }

  /** `mapToResponseSafe`: the projection, or nothing when the lookup fails. */
  function MapToResponseSafe(f: Fila, cat: ProductoModelo.Catalogo): (r: Option<InventarioResponse>)
    ensures r.Some? <==> f.productoId in cat.productos
    ensures r.Some? ==> r.value == MapToResponse(f, ObtenerProducto(cat, f.productoId).value)
  {
    match ObtenerProducto(cat, f.productoId)
    case None => None
    case Some(p) => Some(MapToResponse(f, p))
  }

  /** `.map(this::mapToResponseSafe).filter(Objects::nonNull)`: the
      projections of the records whose product resolves, and only those. */
  function ProyectarValidos(filas: seq<Fila>, cat: ProductoModelo.Catalogo): (r: seq<InventarioResponse>)
    ensures |r| <= |filas|
    ensures forall x | x in r :: exists f | f in filas :: MapToResponseSafe(f, cat) == Some(x)
    ensures forall f | f in filas && f.productoId in cat.productos :: MapToResponseSafe(f, cat).value in r
    decreases |filas|
  {
    if filas == [] then []
    else
      var resto := ProyectarValidos(filas[1..], cat);
      assert forall f | f in filas[1..] :: f in filas;
      match MapToResponseSafe(filas[0], cat)
      case None => resto
      case Some(x) => [x] + resto
  }

  /** `.filter(inv -> inv.getCantidad() <= inv.getCantidadMinima())`. */
  function FiltrarStockBajo(filas: seq<Fila>): (r: seq<Fila>)
    ensures |r| <= |filas|
    ensures forall f :: f in r <==> f in filas && f.cantidad <= f.cantidadMinima
    decreases |filas|
  {
    if filas == [] then []
    else
      var resto := FiltrarStockBajo(filas[1..]);
      assert filas == [filas[0]] + filas[1..];
      if filas[0].cantidad <= filas[0].cantidadMinima then [filas[0]] + resto else resto
  }

  /** `listarInventarios`: the page's records whose product resolves,
      projected; the reported total is the number kept. */
  function ListarInventarios(pagina: seq<Fila>, cat: ProductoModelo.Catalogo): (r: Pagina<InventarioResponse>)
    ensures r.total == |r.contenido| <= |pagina|
    ensures forall x | x in r.contenido :: exists f | f in pagina :: MapToResponseSafe(f, cat) == Some(x)
    ensures forall f | f in pagina && f.productoId in cat.productos :: MapToResponseSafe(f, cat).value in r.contenido
  {
    if pagina == [] then
      Pagina([], 0)
    else
      var validos := ProyectarValidos(pagina, cat);
      Pagina(validos, |validos|)
  }

  /** `listarInventariosConStockBajo`: exactly the page's records at or below
      their minimum whose product resolves, projected, each flagged as low
      stock; the reported total is the number kept. */
  function ListarInventariosConStockBajo(pagina: seq<Fila>, cat: ProductoModelo.Catalogo): (r: Pagina<InventarioResponse>)
    ensures r.total == |r.contenido| <= |pagina|
    ensures forall x | x in r.contenido :: x.stockBajo
    ensures forall x | x in r.contenido ::
              exists f | f in pagina :: f.cantidad <= f.cantidadMinima && MapToResponseSafe(f, cat) == Some(x)
    ensures forall f | f in pagina && f.cantidad <= f.cantidadMinima && f.productoId in cat.productos ::
              MapToResponseSafe(f, cat).value in r.contenido
  {
    var stockBajo := ProyectarValidos(FiltrarStockBajo(pagina), cat);
    Pagina(stockBajo, |stockBajo|)
  }

  /** The row `crearInventario` builds and persists. */
  function NuevaFila(id: int, productoId: int, req: InventarioRequest, ahora: Timestamp): Fila {
    Fila(id, productoId, req.cantidad,
         req.cantidadMinima.GetOr(CANTIDAD_MINIMA_POR_DEFECTO),
         req.cantidadMaxima.GetOr(CANTIDAD_MAXIMA_POR_DEFECTO),
         ahora, ahora, 0)
  }

  /** `crearInventario`: the product must resolve (checked first) and have no
      record yet; then a record with the request's quantity and the
      request's thresholds, or 10 and 1000, is stored and one `CREACION`
      event from 0 is published. A failed call changes nothing. */
  function CrearInventario(a: Almacen, productoId: int, req: InventarioRequest,
                           cat: ProductoModelo.Catalogo, ahora: Timestamp): (r: Salida<InventarioResponse>)
    ensures r.resultado == Err(ProductoNoDisponible) <==> productoId !in cat.productos
    ensures r.resultado == Err(InventarioDuplicado) <==> productoId in cat.productos && productoId in a.filas
    ensures r.resultado.Ok? <==> productoId in cat.productos && productoId !in a.filas
    ensures r.resultado.Err? ==> r.almacen == a
    ensures r.resultado.Ok? ==>
              && productoId !in a.filas
              && productoId in r.almacen.filas
              && r.almacen.filas - {productoId} == a.filas
              && r.almacen.filas[productoId].cantidad == req.cantidad
              && r.almacen.filas[productoId].cantidadMinima
                   == (if req.cantidadMinima.Some? then req.cantidadMinima.value else 10)
              && r.almacen.filas[productoId].cantidadMaxima
                   == (if req.cantidadMaxima.Some? then req.cantidadMaxima.value else 1000)
              && r.almacen.filas[productoId].createdAt == ahora
              && r.almacen.eventos == a.eventos + [InventarioCambiadoEvent(productoId, 0, req.cantidad, Creacion, ahora)]
              && r.resultado.value.cantidad == req.cantidad
    ensures Valido(a) && InventarioRequestValido(req) ==> Valido(r.almacen)
  {
    match ObtenerProducto(cat, productoId)
    case None => Salida(a, Err(ProductoNoDisponible))
    case Some(producto) =>
      if productoId in a.filas then
        Salida(a, Err(InventarioDuplicado))
      else
        var f := NuevaFila(a.siguienteId, productoId, req, ahora);
        var evento := InventarioCambiadoEvent(productoId, 0, f.cantidad, Creacion, ahora);
        assert a.filas[productoId := f] - {productoId} == a.filas;
        Salida(Almacen(a.filas[productoId := f], a.eventos + [evento], a.siguienteId + 1),
               Ok(MapToResponse(f, producto)))
  }

  /** `consultarInventario`: not-found when there is no record (before any
      lookup), otherwise the record's projection if the product resolves. */
  function ConsultarInventario(a: Almacen, productoId: int, cat: ProductoModelo.Catalogo): (r: Result<InventarioResponse, Error>)
    ensures r == Err(NoEncontrado) <==> productoId !in a.filas
    ensures r == Err(ProductoNoDisponible) <==> productoId in a.filas && productoId !in cat.productos
    ensures r.Ok? <==> productoId in a.filas && productoId in cat.productos
    ensures r.Ok? ==> && r.value.cantidad == a.filas[productoId].cantidad
                      && r.value.cantidadMinima == a.filas[productoId].cantidadMinima
                      && r.value.cantidadMaxima == a.filas[productoId].cantidadMaxima
                      && r.value.stockBajo == (a.filas[productoId].cantidad <= a.filas[productoId].cantidadMinima)
  {
    if productoId !in a.filas then
      Err(NoEncontrado)
    else
      match ObtenerProducto(cat, productoId)
      case None => Err(ProductoNoDisponible)
      case Some(producto) => Ok(MapToResponse(a.filas[productoId], producto))
  }

  /** The row after `save` of a loaded entity whose quantity and thresholds
      were set: `@UpdateTimestamp` and `@Version` advance, `createdAt`
      (not updatable) stays. */
  function Modificada(f: Fila, cantidad: int, cantidadMinima: int, cantidadMaxima: int, ahora: Timestamp): Fila {
    f.(cantidad := cantidad, cantidadMinima := cantidadMinima, cantidadMaxima := cantidadMaxima,
       ultimaActualizacion := ahora, version := f.version + 1)
  }

  /** `procesarCompra`: not-found without a record; insufficient stock when
      the request exceeds the quantity; both change nothing. Otherwise the
      quantity drops by the request and nothing else about the record
      changes but its timestamp and version, one `COMPRA` event is published,
      and then the product is looked up: if that fails the call fails with
      the deduction already made. */
  function ProcesarCompra(a: Almacen, productoId: int, req: CompraRequest,
                          cat: ProductoModelo.Catalogo, ahora: Timestamp): (r: Salida<InventarioResponse>)
    ensures r.resultado == Err(NoEncontrado) <==> productoId !in a.filas
    ensures r.resultado == Err(StockInsuficiente) <==>
              productoId in a.filas && a.filas[productoId].cantidad < req.cantidad
    ensures r.resultado == Err(NoEncontrado) || r.resultado == Err(StockInsuficiente) ==> r.almacen == a
    ensures productoId in a.filas && req.cantidad <= a.filas[productoId].cantidad ==>
              var f := a.filas[productoId];
              && productoId in r.almacen.filas
              && r.almacen.filas[productoId].cantidad == f.cantidad - req.cantidad
              && r.almacen.filas[productoId].cantidadMinima == f.cantidadMinima
              && r.almacen.filas[productoId].cantidadMaxima == f.cantidadMaxima
              && r.almacen.filas[productoId].id == f.id
              && r.almacen.filas[productoId].createdAt == f.createdAt
              && r.almacen.filas.Keys == a.filas.Keys
              && r.almacen.filas - {productoId} == a.filas - {productoId}
              && r.almacen.siguienteId == a.siguienteId
              && r.almacen.eventos == a.eventos + [InventarioCambiadoEvent(productoId, f.cantidad, f.cantidad - req.cantidad, Compra, ahora)]
              && (r.resultado.Ok? <==> productoId in cat.productos)
              && (r.resultado.Ok? ==> r.resultado.value.cantidad == f.cantidad - req.cantidad)
              && (r.resultado.Err? ==> r.resultado.error == ProductoNoDisponible)
    ensures Valido(a) ==> forall p | p in r.almacen.filas :: r.almacen.filas[p].cantidad >= 0
    ensures Valido(a) && CompraRequestValido(req) ==> Valido(r.almacen)
  {
    if productoId !in a.filas then
      Salida(a, Err(NoEncontrado))
    else
      var f := a.filas[productoId];
      var anterior := f.cantidad;
      if anterior < req.cantidad then
        Salida(a, Err(StockInsuficiente))
      else
        var g := Modificada(f, anterior - req.cantidad, f.cantidadMinima, f.cantidadMaxima, ahora);
        var evento := InventarioCambiadoEvent(productoId, anterior, g.cantidad, Compra, ahora);
        var b := Almacen(a.filas[productoId := g], a.eventos + [evento], a.siguienteId);
        assert b.filas - {productoId} == a.filas - {productoId};
        match ObtenerProducto(cat, productoId)
        case None => Salida(b, Err(ProductoNoDisponible))
        case Some(producto) => Salida(b, Ok(MapToResponse(g, producto)))
  }

  /** `actualizarInventario`: not-found without a record, changing nothing.
      Otherwise the quantity is overwritten with no sufficiency check, each
      threshold only when the request gives one, one `ACTUALIZACION` event
      is published, and then the product is looked up: if that fails the
      call fails with the overwrite already made. */
  function ActualizarInventario(a: Almacen, productoId: int, req: InventarioRequest,
                                cat: ProductoModelo.Catalogo, ahora: Timestamp): (r: Salida<InventarioResponse>)
    ensures r.resultado == Err(NoEncontrado) <==> productoId !in a.filas
    ensures r.resultado == Err(NoEncontrado) ==> r.almacen == a
    ensures productoId in a.filas ==>
              var f := a.filas[productoId];
              && productoId in r.almacen.filas
              && r.almacen.filas[productoId].cantidad == req.cantidad
              && r.almacen.filas[productoId].cantidadMinima
                   == (if req.cantidadMinima.Some? then req.cantidadMinima.value else f.cantidadMinima)
              && r.almacen.filas[productoId].cantidadMaxima
                   == (if req.cantidadMaxima.Some? then req.cantidadMaxima.value else f.cantidadMaxima)
              && r.almacen.filas[productoId].id == f.id
              && r.almacen.filas[productoId].createdAt == f.createdAt
              && r.almacen.filas.Keys == a.filas.Keys
              && r.almacen.filas - {productoId} == a.filas - {productoId}
              && r.almacen.siguienteId == a.siguienteId
              && r.almacen.eventos == a.eventos + [InventarioCambiadoEvent(productoId, f.cantidad, req.cantidad, Actualizacion, ahora)]
              && (r.resultado.Ok? <==> productoId in cat.productos)
              && (r.resultado.Err? ==> r.resultado.error == ProductoNoDisponible)
    ensures Valido(a) && InventarioRequestValido(req) ==> Valido(r.almacen)
  {
    if productoId !in a.filas then
      Salida(a, Err(NoEncontrado))
    else
      var f := a.filas[productoId];
      var anterior := f.cantidad;
      var g := Modificada(f, req.cantidad,
                          req.cantidadMinima.GetOr(f.cantidadMinima),
                          req.cantidadMaxima.GetOr(f.cantidadMaxima), ahora);
      var evento := InventarioCambiadoEvent(productoId, anterior, g.cantidad, Actualizacion, ahora);
      var b := Almacen(a.filas[productoId := g], a.eventos + [evento], a.siguienteId);
      assert b.filas - {productoId} == a.filas - {productoId};
      match ObtenerProducto(cat, productoId)
      case None => Salida(b, Err(ProductoNoDisponible))
      case Some(producto) => Salida(b, Ok(MapToResponse(g, producto)))
  }

  /** `inventarioRepository.delete(inventario)`: removes the rows that are the
      same record as `f`, that is, the rows with its id. */
  function BorrarPorId(filas: map<int, Fila>, f: Fila): map<int, Fila> {
    map p | p in filas && !MismoRegistro(filas[p], f) :: filas[p]
  }

  /** One iteration of the sweep for a record whose product did not resolve:
      delete it, then publish an `ELIMINACION_HUERFANO` event to 0. */
  function EliminarHuerfano(a: Almacen, f: Fila, ahora: Timestamp): Almacen {
    Almacen(BorrarPorId(a.filas, f),
            a.eventos + [InventarioCambiadoEvent(f.productoId, f.cantidad, 0, EliminacionHuerfano, ahora)],
            a.siguienteId)
  }

  /** `limpiarInventariosHuerfanos` over the list `findAll()` returned, in
      list order: each record whose product does not resolve is deleted and
      counted. */
  function LimpiarInventariosHuerfanos(a: Almacen, todos: seq<Fila>, cat: ProductoModelo.Catalogo,
                                       ahora: Timestamp): (r: Limpieza)
    ensures r.eliminados <= |todos|
    ensures r.almacen.filas.Keys <= a.filas.Keys
    ensures r.almacen.siguienteId == a.siguienteId
    decreases |todos|
  {
    if todos == [] then
      Limpieza(a, 0)
    else if todos[0].productoId in cat.productos then
      LimpiarInventariosHuerfanos(a, todos[1..], cat, ahora)
    else
      var r := LimpiarInventariosHuerfanos(EliminarHuerfano(a, todos[0], ahora), todos[1..], cat, ahora);
      Limpieza(r.almacen, r.eliminados + 1)
  }

  /** The events the sweep publishes for `todos`, in list order: one per
      record whose product does not resolve. */
  function EventosHuerfanos(todos: seq<Fila>, cat: ProductoModelo.Catalogo, ahora: Timestamp): (r: seq<InventarioCambiadoEvent>)
    ensures |r| <= |todos|
    decreases |todos|
  {
    if todos == [] then []
    else
      var resto := EventosHuerfanos(todos[1..], cat, ahora);
      if todos[0].productoId in cat.productos then resto
      else [InventarioCambiadoEvent(todos[0].productoId, todos[0].cantidad, 0, EliminacionHuerfano, ahora)] + resto
  }

  /** The product ids of the records in `todos` whose product does not
      resolve. */
  function IdsHuerfanos(todos: seq<Fila>, cat: ProductoModelo.Catalogo): set<int> {
    set f | f in todos && f.productoId !in cat.productos :: f.productoId
  }

  /** `todos` lists stored rows, none of them twice. */
  predicate ListaDe(todos: seq<Fila>, filas: map<int, Fila>) {
    && (forall i | 0 <= i < |todos| :: todos[i].productoId in filas && filas[todos[i].productoId] == todos[i])
    && SinRepetir(todos)
  }

  /** No product appears twice in `todos`. */
  predicate SinRepetir(todos: seq<Fila>) {
    forall i, j | 0 <= i < j < |todos| :: todos[i].productoId != todos[j].productoId
  }

  /** `todos` is what `findAll()` returns: every stored row exactly once, in
      some order. */
  predicate Enumera(todos: seq<Fila>, filas: map<int, Fila>) {
    ListaDe(todos, filas) && forall p | p in filas :: filas[p] in todos
  }
}
