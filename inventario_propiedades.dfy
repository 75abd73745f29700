/** Properties of `InventarioService` that relate several calls, or a call to
    the store's invariant. */
module InventarioPropiedades {
  import opened Comun
  import opened InventarioEntidad
  import opened InventarioEventos
  import opened InventarioModelo
  import ProductoModelo

  /** Projecting a page is projecting its two halves one after the other:
      the records kept stay in page order. */
  lemma {:induction false} ProyectarValidosConcat(a: seq<Fila>, b: seq<Fila>, cat: ProductoModelo.Catalogo)
    ensures ProyectarValidos(a + b, cat) == ProyectarValidos(a, cat) + ProyectarValidos(b, cat)
    decreases |a|
  {
    if a != [] {
      assert (a + b)[1..] == a[1..] + b;
      ProyectarValidosConcat(a[1..], b, cat);
    } else {
      assert a + b == b;
    }
  }

  /** The low-stock filter keeps page order. */
  lemma {:induction false} FiltrarStockBajoConcat(a: seq<Fila>, b: seq<Fila>)
    ensures FiltrarStockBajo(a + b) == FiltrarStockBajo(a) + FiltrarStockBajo(b)
    decreases |a|
  {
    if a != [] {
      assert (a + b)[1..] == a[1..] + b;
      FiltrarStockBajoConcat(a[1..], b);
    } else {
      assert a + b == b;
    }
  }

  /** The low-stock listing of a page is the listing of its first part
      followed by the listing of the rest: results come in page order. */
  lemma ListarStockBajoEnOrden(a: seq<Fila>, b: seq<Fila>, cat: ProductoModelo.Catalogo)
    ensures ListarInventariosConStockBajo(a + b, cat).contenido
            == ListarInventariosConStockBajo(a, cat).contenido + ListarInventariosConStockBajo(b, cat).contenido
  {
    FiltrarStockBajoConcat(a, b);
    ProyectarValidosConcat(FiltrarStockBajo(a), FiltrarStockBajo(b), cat);
  }

  /** Deleting a stored record by id removes exactly its own row: ids are
      unique, so no other row is the same record. */
  lemma BorrarPorIdQuitaSuClave(a: Almacen, p: int)
    requires Valido(a) && p in a.filas
    ensures BorrarPorId(a.filas, a.filas[p]) == a.filas - {p}
  {
    var f := a.filas[p];
    forall q | q in a.filas && q != p
      ensures !MismoRegistro(a.filas[q], f)
    {
    }
  }

  /** The sweep publishes, after the events already there, exactly the
      orphan events of the list in list order, and counts one deletion per
      event. */
  lemma {:induction false} LimpiarEventos(a: Almacen, todos: seq<Fila>, cat: ProductoModelo.Catalogo, ahora: Timestamp)
    ensures var r := LimpiarInventariosHuerfanos(a, todos, cat, ahora);
            && r.almacen.eventos == a.eventos + EventosHuerfanos(todos, cat, ahora)
            && r.eliminados == |EventosHuerfanos(todos, cat, ahora)|
    decreases |todos|
  {
    if todos != [] {
      if todos[0].productoId in cat.productos {
        LimpiarEventos(a, todos[1..], cat, ahora);
      } else {
        var b := EliminarHuerfano(a, todos[0], ahora);
        LimpiarEventos(b, todos[1..], cat, ahora);
        assert b.eventos + EventosHuerfanos(todos[1..], cat, ahora) == a.eventos + EventosHuerfanos(todos, cat, ahora);
      }
    }
  }

  /** The orphan ids of a non-empty list: the head's, when it is an orphan,
      and those of the tail. */
  lemma IdsHuerfanosPaso(todos: seq<Fila>, cat: ProductoModelo.Catalogo)
    requires todos != []
    ensures todos[0].productoId in cat.productos ==> IdsHuerfanos(todos, cat) == IdsHuerfanos(todos[1..], cat)
    ensures todos[0].productoId !in cat.productos ==>
              IdsHuerfanos(todos, cat) == {todos[0].productoId} + IdsHuerfanos(todos[1..], cat)
  {
    assert forall g | g in todos :: g == todos[0] || g in todos[1..] by {
      assert todos == [todos[0]] + todos[1..];
    }
  }

  /** A list that names no product twice has one orphan event per orphan
      product. */
  lemma {:induction false} CuentaHuerfanos(todos: seq<Fila>, cat: ProductoModelo.Catalogo, ahora: Timestamp)
    requires SinRepetir(todos)
    ensures |EventosHuerfanos(todos, cat, ahora)| == |IdsHuerfanos(todos, cat)|
    decreases |todos|
  {
    if todos == [] {
      assert IdsHuerfanos(todos, cat) == {};
    } else {
      RestoSinRepetir(todos);
      CuentaHuerfanos(todos[1..], cat, ahora);
      IdsHuerfanosPaso(todos, cat);
      if todos[0].productoId !in cat.productos {
        assert todos[0].productoId !in IdsHuerfanos(todos[1..], cat);
      }
    }
  }

  /** The tail of a list that names no product twice names no product twice,
      and not the head's. */
  lemma RestoSinRepetir(todos: seq<Fila>)
    requires SinRepetir(todos) && todos != []
    ensures SinRepetir(todos[1..])
    ensures forall g | g in todos[1..] :: g.productoId != todos[0].productoId
  {
    var resto := todos[1..];
    forall i, j | 0 <= i < j < |resto|
      ensures resto[i].productoId != resto[j].productoId
    {
      assert resto[i] == todos[i + 1] && resto[j] == todos[j + 1];
    }
    forall g | g in resto
      ensures g.productoId != todos[0].productoId
    {
      var j :| 0 <= j < |resto| && resto[j] == g;
      assert todos[j + 1] == g;
    }
  }

  /** The tail of a list of stored rows lists stored rows, both before and
      after the head's row is deleted. */
  lemma RestoListaDe(todos: seq<Fila>, filas: map<int, Fila>)
    requires ListaDe(todos, filas) && todos != []
    ensures ListaDe(todos[1..], filas)
    ensures ListaDe(todos[1..], filas - {todos[0].productoId})
  {
    RestoSinRepetir(todos);
    var resto := todos[1..];
    forall i | 0 <= i < |resto|
      ensures resto[i].productoId in filas && filas[resto[i].productoId] == resto[i]
      ensures resto[i].productoId != todos[0].productoId
    {
      assert resto[i] == todos[i + 1];
      assert resto[i] in resto;
    }
  }

  /** Deleting one stored orphan keeps the invariant and removes exactly its
      row. */
  lemma EliminarHuerfanoValido(a: Almacen, f: Fila, ahora: Timestamp)
    requires Valido(a) && f.productoId in a.filas && a.filas[f.productoId] == f
    ensures EliminarHuerfano(a, f, ahora).filas == a.filas - {f.productoId}
    ensures Valido(EliminarHuerfano(a, f, ahora))
  {
    BorrarPorIdQuitaSuClave(a, f.productoId);
  }

  /** The sweep over a list of stored rows deletes the listed records whose
      product does not resolve, keeps every other row as it was, and keeps
      the invariant. */
  lemma {:induction false} LimpiarFilas(a: Almacen, todos: seq<Fila>, cat: ProductoModelo.Catalogo, ahora: Timestamp)
    requires Valido(a) && ListaDe(todos, a.filas)
    ensures var r := LimpiarInventariosHuerfanos(a, todos, cat, ahora);
            && Valido(r.almacen)
            && (forall p :: p in r.almacen.filas <==> p in a.filas && p !in IdsHuerfanos(todos, cat))
            && (forall p | p in r.almacen.filas :: r.almacen.filas[p] == a.filas[p])
    decreases |todos|
  {
    if todos == [] {
      assert IdsHuerfanos(todos, cat) == {};
    } else {
      RestoListaDe(todos, a.filas);
      IdsHuerfanosPaso(todos, cat);
      if todos[0].productoId in cat.productos {
        LimpiarFilas(a, todos[1..], cat, ahora);
      } else {
        EliminarHuerfanoValido(a, todos[0], ahora);
        LimpiarFilas(EliminarHuerfano(a, todos[0], ahora), todos[1..], cat, ahora);
      }
    }
  }

  /** Every orphan event comes from an orphan record of the list, carrying
      its quantity and going to 0; every orphan record of the list has one. */
  lemma {:induction false} EventosHuerfanosMiembros(todos: seq<Fila>, cat: ProductoModelo.Catalogo, ahora: Timestamp)
    ensures forall e | e in EventosHuerfanos(todos, cat, ahora) ::
              && e.tipoOperacion == EliminacionHuerfano && e.cantidadNueva == 0 && e.timestamp == ahora
              && exists f | f in todos :: && f.productoId == e.productoId && f.cantidad == e.cantidadAnterior
                                          && f.productoId !in cat.productos
    ensures forall f | f in todos && f.productoId !in cat.productos ::
              exists e | e in EventosHuerfanos(todos, cat, ahora) ::
                e.productoId == f.productoId && e.cantidadAnterior == f.cantidad
    decreases |todos|
  {
    if todos != [] {
      EventosHuerfanosMiembros(todos[1..], cat, ahora);
      assert forall g | g in todos :: g == todos[0] || g in todos[1..] by {
        assert todos == [todos[0]] + todos[1..];
      }
      assert forall g | g in todos[1..] :: g in todos;
    }
  }

  /** When the list is everything stored, its orphan ids are the stored
      products that do not resolve. */
  lemma IdsHuerfanosDeTodos(a: Almacen, todos: seq<Fila>, cat: ProductoModelo.Catalogo)
    requires Valido(a) && Enumera(todos, a.filas)
    ensures IdsHuerfanos(todos, cat) == a.filas.Keys - cat.productos.Keys
  {
    forall p | p in a.filas.Keys - cat.productos.Keys
      ensures p in IdsHuerfanos(todos, cat)
    {
      assert a.filas[p] in todos;
    }
    forall p | p in IdsHuerfanos(todos, cat)
      ensures p in a.filas.Keys - cat.productos.Keys
    {
      var f :| f in todos && f.productoId !in cat.productos && f.productoId == p;
      var i :| 0 <= i < |todos| && todos[i] == f;
    }
  }

  /** `limpiarInventariosHuerfanos` over everything `findAll()` returns:
      afterwards exactly the records whose product resolves are left, each
      as it was; the count is the number of orphans; the events appended are
      one `ELIMINACION_HUERFANO` event to 0 per orphan, carrying its last
      quantity. */
  lemma LimpiarEliminaExactamenteHuerfanos(a: Almacen, todos: seq<Fila>, cat: ProductoModelo.Catalogo, ahora: Timestamp)
    requires Valido(a) && Enumera(todos, a.filas)
    ensures var r := LimpiarInventariosHuerfanos(a, todos, cat, ahora);
            && Valido(r.almacen)
            && (forall p :: p in r.almacen.filas <==> p in a.filas && p in cat.productos)
            && (forall p | p in r.almacen.filas :: r.almacen.filas[p] == a.filas[p])
            && r.eliminados == |a.filas.Keys - cat.productos.Keys|
            && |r.almacen.eventos| == |a.eventos| + r.eliminados
            && r.almacen.eventos[..|a.eventos|] == a.eventos
            && (forall e | e in r.almacen.eventos[|a.eventos|..] ::
                  && e.tipoOperacion == EliminacionHuerfano && e.cantidadNueva == 0
                  && e.productoId in a.filas && e.productoId !in cat.productos
                  && e.cantidadAnterior == a.filas[e.productoId].cantidad)
            && (forall p | p in a.filas && p !in cat.productos ::
                  exists e | e in r.almacen.eventos[|a.eventos|..] :: e.productoId == p)
  {
    LimpiarEventos(a, todos, cat, ahora);
    LimpiarFilas(a, todos, cat, ahora);
    CuentaHuerfanos(todos, cat, ahora);
    IdsHuerfanosDeTodos(a, todos, cat);
    EventosHuerfanosMiembros(todos, cat, ahora);
    var r := LimpiarInventariosHuerfanos(a, todos, cat, ahora);
    var nuevos := EventosHuerfanos(todos, cat, ahora);
    assert r.almacen.eventos[|a.eventos|..] == nuevos;
    forall e | e in nuevos
      ensures e.productoId in a.filas && e.cantidadAnterior == a.filas[e.productoId].cantidad
    {
      var f :| f in todos && f.productoId == e.productoId && f.cantidad == e.cantidadAnterior
               && f.productoId !in cat.productos;
      var i :| 0 <= i < |todos| && todos[i] == f;
    }
    forall p | p in a.filas && p !in cat.productos
      ensures exists e | e in nuevos :: e.productoId == p
    {
      assert a.filas[p] in todos;
    }
  }

  /** Purchases of one product applied one after another, as the row lock
      serialises them; the second component is the total deducted. */
  function ComprasSucesivas(a: Almacen, productoId: int, pedidos: seq<CompraRequest>,
                            cat: ProductoModelo.Catalogo, ahora: Timestamp): (Almacen, int)
    decreases |pedidos|
  {
    if pedidos == [] then
      (a, 0)
    else
      var s := ProcesarCompra(a, productoId, pedidos[0], cat, ahora);
      var deducido := if s.resultado == Err(NoEncontrado) || s.resultado == Err(StockInsuficiente) then 0
                      else pedidos[0].cantidad;
      var resto := ComprasSucesivas(s.almacen, productoId, pedidos[1..], cat, ahora);
      (resto.0, resto.1 + deducido)
  }

  /** No overselling: whatever purchases arrive, the quantity left is the
      initial quantity minus what was deducted, and the total deducted
      never exceeds the initial quantity. */
  lemma {:induction false} SinSobreventa(a: Almacen, productoId: int, pedidos: seq<CompraRequest>,
                                         cat: ProductoModelo.Catalogo, ahora: Timestamp)
    requires Valido(a) && productoId in a.filas
    requires forall i | 0 <= i < |pedidos| :: CompraRequestValido(pedidos[i])
    ensures var r := ComprasSucesivas(a, productoId, pedidos, cat, ahora);
            && Valido(r.0) && productoId in r.0.filas
            && r.0.filas[productoId].cantidad == a.filas[productoId].cantidad - r.1
            && 0 <= r.1 <= a.filas[productoId].cantidad
    decreases |pedidos|
  {
    if pedidos != [] {
      var s := ProcesarCompra(a, productoId, pedidos[0], cat, ahora);
      SinSobreventa(s.almacen, productoId, pedidos[1..], cat, ahora);
    }
  }

  /** A second `crearInventario` for the same product always fails, whatever
      the request: with the duplicate error once the product resolves. */
  lemma CrearDosVecesFalla(a: Almacen, productoId: int, req: InventarioRequest, otro: InventarioRequest,
                           cat: ProductoModelo.Catalogo, ahora: Timestamp, despues: Timestamp)
    requires CrearInventario(a, productoId, req, cat, ahora).resultado.Ok?
    ensures var b := CrearInventario(a, productoId, req, cat, ahora).almacen;
            CrearInventario(b, productoId, otro, cat, despues) == Salida(b, Err(InventarioDuplicado))
  {
  }

  /** A record just created is read back with the request's quantity and the
      request's thresholds or the defaults. */
  lemma CrearLuegoConsultar(a: Almacen, productoId: int, req: InventarioRequest,
                            cat: ProductoModelo.Catalogo, ahora: Timestamp)
    requires productoId in cat.productos && productoId !in a.filas
    ensures var b := CrearInventario(a, productoId, req, cat, ahora).almacen;
            var r := ConsultarInventario(b, productoId, cat);
            && r.Ok?
            && r.value.cantidad == req.cantidad
            && r.value.cantidadMinima == req.cantidadMinima.GetOr(CANTIDAD_MINIMA_POR_DEFECTO)
            && r.value.cantidadMaxima == req.cantidadMaxima.GetOr(CANTIDAD_MAXIMA_POR_DEFECTO)
  {
  }

  /** An update is read back as written: the new quantity, and each threshold
      as given or as it was. */
  lemma ActualizarLuegoConsultar(a: Almacen, productoId: int, req: InventarioRequest,
                                 cat: ProductoModelo.Catalogo, ahora: Timestamp)
    requires productoId in a.filas && productoId in cat.productos
    ensures var b := ActualizarInventario(a, productoId, req, cat, ahora).almacen;
            var r := ConsultarInventario(b, productoId, cat);
            && r.Ok?
            && r.value.cantidad == req.cantidad
            && r.value.cantidadMinima == req.cantidadMinima.GetOr(a.filas[productoId].cantidadMinima)
            && r.value.cantidadMaxima == req.cantidadMaxima.GetOr(a.filas[productoId].cantidadMaxima)
  {
  }

  /** A purchase is read back as the old quantity minus the request; low
      stock is reported exactly when that is at or below the minimum. */
  lemma CompraLuegoConsultar(a: Almacen, productoId: int, req: CompraRequest,
                             cat: ProductoModelo.Catalogo, ahora: Timestamp)
    requires productoId in a.filas && req.cantidad <= a.filas[productoId].cantidad
    requires productoId in cat.productos
    ensures var b := ProcesarCompra(a, productoId, req, cat, ahora).almacen;
            var r := ConsultarInventario(b, productoId, cat);
            && r.Ok?
            && r.value.cantidad == a.filas[productoId].cantidad - req.cantidad
            && (r.value.stockBajo <==> a.filas[productoId].cantidad - req.cantidad <= a.filas[productoId].cantidadMinima)
  {
  }

  /** With no record the outcome is not-found and the store is unchanged,
      whatever the catalogue holds: the lookup plays no part. */
  lemma SinRegistroNoConsultaProducto(a: Almacen, productoId: int, cat1: ProductoModelo.Catalogo,
                                      cat2: ProductoModelo.Catalogo, compra: CompraRequest,
                                      req: InventarioRequest, ahora: Timestamp)
    requires productoId !in a.filas
    ensures ConsultarInventario(a, productoId, cat1) == ConsultarInventario(a, productoId, cat2) == Err(NoEncontrado)
    ensures ProcesarCompra(a, productoId, compra, cat1, ahora) == ProcesarCompra(a, productoId, compra, cat2, ahora)
            == Salida(a, Err(NoEncontrado))
    ensures ActualizarInventario(a, productoId, req, cat1, ahora) == ActualizarInventario(a, productoId, req, cat2, ahora)
            == Salida(a, Err(NoEncontrado))
  {
  }

  /** The purchase scenario: 15 in stock with minimum 10, buy 6: 9 left,
      low stock reported, and the event goes from 15 to 9. */
  lemma CompraQuinceMenosSeis(a: Almacen, productoId: int, cat: ProductoModelo.Catalogo, ahora: Timestamp)
    requires productoId in a.filas && productoId in cat.productos
    requires a.filas[productoId].cantidad == 15 && a.filas[productoId].cantidadMinima == 10
    ensures var r := ProcesarCompra(a, productoId, CompraRequest(6), cat, ahora);
            && r.resultado.Ok?
            && r.resultado.value.cantidad == 9 && r.resultado.value.stockBajo
            && r.almacen.eventos[|r.almacen.eventos| - 1] == InventarioCambiadoEvent(productoId, 15, 9, Compra, ahora)
  {
  }

  /** The event a successful purchase publishes raises the critical alert
      exactly when fewer than 5 units are left. */
  lemma CompraAlertaCritica(a: Almacen, productoId: int, req: CompraRequest,
                            cat: ProductoModelo.Catalogo, ahora: Timestamp)
    requires productoId in a.filas && req.cantidad <= a.filas[productoId].cantidad
    ensures var r := ProcesarCompra(a, productoId, req, cat, ahora);
            && |r.almacen.eventos| > 0
            && (Clasificar(r.almacen.eventos[|r.almacen.eventos| - 1]) == AlertaCritica
                <==> a.filas[productoId].cantidad - req.cantidad < 5)
  {
  }

  /** Deleting a product from the catalogue makes its stock record an
      orphan: the next sweep deletes it and keeps the other records whose
      product's lookup still succeeds. */
  lemma EliminarProductoLuegoLimpiar(a: Almacen, todos: seq<Fila>, cat: ProductoModelo.Catalogo,
                                     productoId: int, ahora: Timestamp)
    requires Valido(a) && Enumera(todos, a.filas)
    requires productoId in a.filas
    ensures var c := ProductoModelo.Eliminar(cat, productoId).catalogo;
            var r := LimpiarInventariosHuerfanos(a, todos, c, ahora);
            && productoId !in r.almacen.filas
            && (forall p | p in a.filas && p != productoId && p in cat.productos :: p in r.almacen.filas)
  {
    var c := ProductoModelo.Eliminar(cat, productoId).catalogo;
    LimpiarEliminaExactamenteHuerfanos(a, todos, c, ahora);
  }
}
