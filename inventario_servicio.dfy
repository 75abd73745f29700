/** `InventarioService` as the source runs it: the `inventarios` table and
    the published events are fields the methods update in place, records are
    loaded into `Inventario` objects, changed with setters and saved back.
    Each method is proved to have the effect and the outcome that
    `InventarioModelo` gives the same call. */
module InventarioServicio {
  import opened Comun
  import opened InventarioEntidad
  import opened InventarioEventos
  import opened InventarioModelo
  import InventarioPropiedades
  import ProductoModelo

  class InventarioService {
    /** The `inventarios` table, keyed by its unique `producto_id`. */
    var filas: map<int, Fila>
    /** Every event handed to the publisher so far, in order. */
    var eventos: seq<InventarioCambiadoEvent>
    /** The next value of the identity column. */
    var siguienteId: int

    ghost function Estado(): Almacen
      reads this
    {
      Almacen(filas, eventos, siguienteId)
    }

    ghost predicate Valid()
      reads this
    {
      Valido(Estado())
    }

    constructor ()
      ensures Valid() && filas == map[] && eventos == []
    {
      filas := map[];
      eventos := [];
      siguienteId := 1;
    }

    /** `inventarioRepository.save`. A new entity is persisted: `@PrePersist`
        runs, the identity column hands out the next id, both timestamps are
        the current time and the version starts at 0. A loaded entity is
        merged over its row: the version advances, `ultimaActualizacion`
        becomes the current time and the stored `createdAt` stays (the column
        is not updatable). Either way the entity ends up holding the row. An
        insert under a product id already stored would break the unique
        index, so it is excluded. */
    method Guardar(inv: Inventario, ahora: Timestamp) returns (g: Fila)
      requires inv.id.None? ==> inv.productoId !in filas
      requires inv.id.Some? ==> && inv.productoId in filas
                                && filas[inv.productoId].id == inv.id.value
                                && filas[inv.productoId].productoId == inv.productoId
      modifies this, inv
      ensures old(inv.id).None? ==>
                && g == Fila(old(siguienteId), old(inv.productoId), old(inv.cantidad),
                             old(inv.cantidadMinima), old(inv.cantidadMaxima),
                             old(inv.createdAt).GetOr(ahora), ahora, 0)
                && siguienteId == old(siguienteId) + 1
      ensures old(inv.id).Some? ==>
                && g == Modificada(old(filas[inv.productoId]), old(inv.cantidad),
                                   old(inv.cantidadMinima), old(inv.cantidadMaxima), ahora)
                && siguienteId == old(siguienteId)
      ensures filas == old(filas)[g.productoId := g] && eventos == old(eventos)
      ensures inv.Refleja(g)
    {
      if inv.id.None? {
        inv.OnPrePersist(ahora);
        inv.id := Some(siguienteId);
        siguienteId := siguienteId + 1;
        inv.ultimaActualizacion := Some(ahora);
        inv.version := Some(0);
      } else {
        var almacenada := filas[inv.productoId];
        inv.createdAt := Some(almacenada.createdAt);
        inv.ultimaActualizacion := Some(ahora);
        inv.version := Some(almacenada.version + 1);
      }
      g := Fila(inv.id.value, inv.productoId, inv.cantidad, inv.cantidadMinima, inv.cantidadMaxima,
                inv.createdAt.value, inv.ultimaActualizacion.value, inv.version.value);
      filas := filas[g.productoId := g];
    }

    /** `inventarioRepository.delete`: removes the rows that are the same
        record as `f`. */
    method Borrar(f: Fila)
      modifies this
      ensures filas == BorrarPorId(old(filas), f)
      ensures eventos == old(eventos) && siguienteId == old(siguienteId)
    {
      filas := BorrarPorId(filas, f);
    }

    /** `eventPublisher.publishEvent`. */
    method Publicar(e: InventarioCambiadoEvent)
      modifies this
      ensures eventos == old(eventos) + [e]
      ensures filas == old(filas) && siguienteId == old(siguienteId)
    {
      eventos := eventos + [e];
    }

    method CrearInventario(productoId: int, req: InventarioRequest, cat: ProductoModelo.Catalogo, ahora: Timestamp)
      returns (r: Result<InventarioResponse, Error>)
      requires Valid() && InventarioRequestValido(req)
      modifies this
      ensures Valid()
      ensures Salida(Estado(), r) == InventarioModelo.CrearInventario(old(Estado()), productoId, req, cat, ahora)
    {
      var producto := ObtenerProducto(cat, productoId);
      if producto.None? {
        return Err(ProductoNoDisponible);
      }
      if productoId in filas {
        return Err(InventarioDuplicado);
      }
      var nuevo := new Inventario(productoId, req.cantidad,
                                  if req.cantidadMinima.Some? then req.cantidadMinima.value else CANTIDAD_MINIMA_POR_DEFECTO,
                                  if req.cantidadMaxima.Some? then req.cantidadMaxima.value else CANTIDAD_MAXIMA_POR_DEFECTO);
      var guardado := Guardar(nuevo, ahora);
      Publicar(InventarioCambiadoEvent(productoId, 0, nuevo.cantidad, Creacion, ahora));
      r := Ok(MapToResponse(guardado, producto.value));
    }

    method ConsultarInventario(productoId: int, cat: ProductoModelo.Catalogo) returns (r: Result<InventarioResponse, Error>)
      ensures r == InventarioModelo.ConsultarInventario(Estado(), productoId, cat)
    {
      if productoId !in filas {
        return Err(NoEncontrado);
      }
      var inv := filas[productoId];
      var producto := ObtenerProducto(cat, productoId);
      if producto.None? {
        return Err(ProductoNoDisponible);
      }
      r := Ok(MapToResponse(inv, producto.value));
    }

    method ProcesarCompra(productoId: int, req: CompraRequest, cat: ProductoModelo.Catalogo, ahora: Timestamp)
      returns (r: Result<InventarioResponse, Error>)
      requires Valid() && CompraRequestValido(req)
      modifies this
      ensures Valid()
      ensures Salida(Estado(), r) == InventarioModelo.ProcesarCompra(old(Estado()), productoId, req, cat, ahora)
    {
      if productoId !in filas {
        return Err(NoEncontrado);
      }
      var inv := new Inventario.Cargar(filas[productoId]);
      var anterior := inv.cantidad;
      var aRestar := req.cantidad;
      if anterior < aRestar {
        return Err(StockInsuficiente);
      }
      inv.SetCantidad(anterior - aRestar);
      var actualizado := Guardar(inv, ahora);
      Publicar(InventarioCambiadoEvent(productoId, anterior, actualizado.cantidad, Compra, ahora));
      var producto := ObtenerProducto(cat, productoId);
      if producto.None? {
        return Err(ProductoNoDisponible);
      }
      r := Ok(MapToResponse(actualizado, producto.value));
    }

    method ActualizarInventario(productoId: int, req: InventarioRequest, cat: ProductoModelo.Catalogo, ahora: Timestamp)
      returns (r: Result<InventarioResponse, Error>)
      requires Valid() && InventarioRequestValido(req)
      modifies this
      ensures Valid()
      ensures Salida(Estado(), r) == InventarioModelo.ActualizarInventario(old(Estado()), productoId, req, cat, ahora)
    {
      if productoId !in filas {
        return Err(NoEncontrado);
      }
      var inv := new Inventario.Cargar(filas[productoId]);
      var anterior := inv.cantidad;
      inv.SetCantidad(req.cantidad);
      if req.cantidadMinima.Some? {
        inv.SetCantidadMinima(req.cantidadMinima.value);
      }
      if req.cantidadMaxima.Some? {
        inv.SetCantidadMaxima(req.cantidadMaxima.value);
      }
      var actualizado := Guardar(inv, ahora);
      Publicar(InventarioCambiadoEvent(productoId, anterior, actualizado.cantidad, Actualizacion, ahora));
      var producto := ObtenerProducto(cat, productoId);
      if producto.None? {
        return Err(ProductoNoDisponible);
      }
      r := Ok(MapToResponse(actualizado, producto.value));
    }

    /** `inventarioRepository.findAll()`: every stored row once, in whatever
        order the keys are visited. */
    method FindAll() returns (todos: seq<Fila>)
      requires Valid()
      ensures Enumera(todos, filas)
    {
      todos := [];
      var restantes := filas.Keys;
      while restantes != {}
        invariant restantes <= filas.Keys
        invariant forall i | 0 <= i < |todos| ::
                    && todos[i].productoId in filas && filas[todos[i].productoId] == todos[i]
                    && todos[i].productoId !in restantes
        invariant SinRepetir(todos)
        invariant forall p | p in filas && p !in restantes :: filas[p] in todos
      {
        HayClave(restantes);
        var p :| p in restantes;
        todos := todos + [filas[p]];
        restantes := restantes - {p};
      }
    }

    /** A set that is not empty has an element to pick. */
    static lemma HayClave(s: set<int>)
      requires s != {}
      ensures exists p :: p in s
    {
      if forall p :: p !in s {
        assert false;
      }
    }

    /** `limpiarInventariosHuerfanos`: walks the list `findAll()` returned,
        deleting and reporting each record whose product does not resolve;
        `todos` is that list. */
    method LimpiarInventariosHuerfanos(cat: ProductoModelo.Catalogo, ahora: Timestamp)
      returns (eliminados: nat, ghost todos: seq<Fila>)
      requires Valid()
      modifies this
      ensures Valid()
      ensures Enumera(todos, old(filas))
      ensures Limpieza(Estado(), eliminados)
              == InventarioModelo.LimpiarInventariosHuerfanos(old(Estado()), todos, cat, ahora)
    {
      var todosInventarios := FindAll();
      todos := todosInventarios;
      ghost var inicial := Estado();
      ghost var objetivo := InventarioModelo.LimpiarInventariosHuerfanos(inicial, todosInventarios, cat, ahora);
      eliminados := 0;
      var i := 0;
      while i < |todosInventarios|
        invariant 0 <= i <= |todosInventarios|
        invariant var resto := InventarioModelo.LimpiarInventariosHuerfanos(Estado(), todosInventarios[i..], cat, ahora);
                  resto.almacen == objetivo.almacen && eliminados + resto.eliminados == objetivo.eliminados
      {
        var inventario := todosInventarios[i];
        assert todosInventarios[i..][1..] == todosInventarios[i + 1..];
        var producto := ObtenerProducto(cat, inventario.productoId);
        if producto.None? {
          Borrar(inventario);
          Publicar(InventarioCambiadoEvent(inventario.productoId, inventario.cantidad, 0, EliminacionHuerfano, ahora));
          eliminados := eliminados + 1;
        }
        i := i + 1;
      }
      assert todosInventarios[i..] == [];
      InventarioPropiedades.LimpiarFilas(inicial, todosInventarios, cat, ahora);
    }
  }
}
