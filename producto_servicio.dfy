/** `ProductoService` as the source runs it: the `productos` table is a map
    the methods update in place. Each method is proved to have the effect
    and the outcome that `ProductoModelo` gives the same call. */
module ProductoServicio {
  import opened Comun
  import opened ProductoModelo

  class ProductoService {
    /** The `productos` table, keyed by id. */
    var productos: map<int, Producto>
    /** The next value of the identity column. */
    var siguienteId: int

    ghost function Estado(): Catalogo
      reads this
    {
      Catalogo(productos, siguienteId)
    }

    ghost predicate Valid()
      reads this
    {
      Valido(Estado())
    }

    constructor ()
      ensures Valid() && productos == map[]
    {
      productos := map[];
      siguienteId := 1;
    }

    method Crear(req: ProductoRequest) returns (r: Result<ProductoResponse, ErrorProducto>)
      requires Valid() && RequestValido(req)
      modifies this
      ensures Valid()
      ensures SalidaProducto(Estado(), r) == ProductoModelo.Crear(old(Estado()), req)
    {
      var repetido := exists id | id in productos :: productos[id].nombre == req.nombre;
      if repetido {
        return Err(ProductoDuplicado);
      }
      var producto := Producto(siguienteId, req.nombre, req.precio);
      productos := productos[producto.id := producto];
      siguienteId := siguienteId + 1;
      r := Ok(MapToResponse(producto));
    }

    method ObtenerPorId(id: int) returns (r: Result<ProductoResponse, ErrorProducto>)
      requires Valid()
      ensures r == ProductoModelo.ObtenerPorId(Estado(), id)
    {
      if id !in productos {
        return Err(ProductoNoEncontrado);
      }
      r := Ok(MapToResponse(productos[id]));
    }

    method Actualizar(id: int, req: ProductoRequest) returns (r: Result<ProductoResponse, ErrorProducto>)
      requires Valid() && RequestValido(req)
      modifies this
      ensures Valid()
      ensures SalidaProducto(Estado(), r) == ProductoModelo.Actualizar(old(Estado()), id, req)
    {
      if id !in productos {
        return Err(ProductoNoEncontrado);
      }
      var producto := productos[id];
      producto := producto.(nombre := req.nombre);
      producto := producto.(precio := req.precio);
      productos := productos[id := producto];
      r := Ok(MapToResponse(producto));
    }

    method Eliminar(id: int) returns (r: Result<(), ErrorProducto>)
      requires Valid()
      modifies this
      ensures Valid()
      ensures SalidaProducto(Estado(), r) == ProductoModelo.Eliminar(old(Estado()), id)
    {
      if id !in productos {
        return Err(ProductoNoEncontrado);
      }
      productos := productos - {id};
      r := Ok(());
    }
  }
}
