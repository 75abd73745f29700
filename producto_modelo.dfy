/** The product catalogue of `ProductoService` as values: each operation is
    a function from the catalogue before the call to the catalogue after it
    and the call's outcome. `ProductoServicio` runs the same operations in
    place and is proved against these functions. */
module ProductoModelo {
  import opened Comun

  /** A `BigDecimal` price, as a whole number of cents; only stored,
      compared and returned, never computed with. */
  type Precio = int

  /** A row of the `productos` table. */
  datatype Producto = Producto(id: int, nombre: string, precio: Precio)

  datatype ProductoRequest = ProductoRequest(nombre: string, precio: Precio)

  datatype ProductoResponse = ProductoResponse(id: int, nombre: string, precio: Precio)

  /** `DuplicateProductException` and `ProductoNotFoundException`. */
  datatype ErrorProducto = ProductoDuplicado | ProductoNoEncontrado

  /** The `productos` table keyed by id, and the next value of the identity
      column. */
  datatype Catalogo = Catalogo(productos: map<int, Producto>, siguienteId: int)

  /** The catalogue after a call, and what the call returned or threw. */
  datatype SalidaProducto<T> = SalidaProducto(catalogo: Catalogo, resultado: Result<T, ErrorProducto>)

  predicate EsBlanco(c: char) {
    c == ' ' || c == '\t' || c == '\n' || c == '\r'
  }

  /** `@NotBlank` and `@Size(min = 3, max = 100)` on `ProductoRequest.nombre`. */
  predicate NombreValido(nombre: string) {
    && 3 <= |nombre| <= 100
    && exists i | 0 <= i < |nombre| :: !EsBlanco(nombre[i])
  }

  /** The bean-validation constraints checked before a request reaches the
      service: a valid name and a price of at least 0.01. */
  predicate RequestValido(req: ProductoRequest) {
    NombreValido(req.nombre) && req.precio >= 1
  }

  /** Identity values are positive and below the next one to hand out, every
      row is stored under its own id, and every row passed validation. */
  predicate Valido(c: Catalogo) {
    && c.siguienteId >= 1
    && forall id | id in c.productos ::
         && 1 <= id < c.siguienteId
         && c.productos[id].id == id
         && NombreValido(c.productos[id].nombre)
         && c.productos[id].precio >= 1
  }

  /** `ProductoRepository.existsByNombre`. */
  predicate ExisteNombre(c: Catalogo, nombre: string) {
    exists id | id in c.productos :: c.productos[id].nombre == nombre
  }

  predicate NombresUnicos(c: Catalogo) {
    forall i, j | i in c.productos && j in c.productos && c.productos[i].nombre == c.productos[j].nombre :: i == j
  }

  function MapToResponse(p: Producto): ProductoResponse {
    ProductoResponse(p.id, p.nombre, p.precio)
  }

  /** `crear`: refuses a name that is already taken, otherwise stores the
      request's name and price under a fresh id. */
  function Crear(c: Catalogo, req: ProductoRequest): (r: SalidaProducto<ProductoResponse>)
    ensures r.resultado == Err(ProductoDuplicado) <==> ExisteNombre(c, req.nombre)
    ensures r.resultado.Ok? <==> !ExisteNombre(c, req.nombre)
    ensures r.resultado.Err? ==> r.catalogo == c
    ensures r.resultado.Ok? ==>
              var id := r.resultado.value.id;
              && r.resultado.value == ProductoResponse(id, req.nombre, req.precio)
              && (Valido(c) ==> id !in c.productos)
              && r.catalogo.productos == c.productos[id := Producto(id, req.nombre, req.precio)]
    ensures Valido(c) && RequestValido(req) ==> Valido(r.catalogo)
  {
    if ExisteNombre(c, req.nombre) then
      SalidaProducto(c, Err(ProductoDuplicado))
    else
      var p := Producto(c.siguienteId, req.nombre, req.precio);
      SalidaProducto(Catalogo(c.productos[p.id := p], c.siguienteId + 1), Ok(MapToResponse(p)))
  }

  /** `obtenerPorId`: the stored product, or not-found. */
  function ObtenerPorId(c: Catalogo, id: int): (r: Result<ProductoResponse, ErrorProducto>)
    ensures r.Ok? <==> id in c.productos
    ensures r.Err? ==> r.error == ProductoNoEncontrado
    ensures r.Ok? ==> && r.value.nombre == c.productos[id].nombre
                      && r.value.precio == c.productos[id].precio
                      && (Valido(c) ==> r.value.id == id)
  {
    if id in c.productos then Ok(MapToResponse(c.productos[id])) else Err(ProductoNoEncontrado)
  }

  /** `actualizar`: not-found for an unknown id; otherwise overwrites both
      the name and the price and leaves every other product alone. The new
      name is not checked against the other products' names. */
  function Actualizar(c: Catalogo, id: int, req: ProductoRequest): (r: SalidaProducto<ProductoResponse>)
    ensures r.resultado.Ok? <==> id in c.productos
    ensures r.resultado.Err? ==> r.resultado.error == ProductoNoEncontrado && r.catalogo == c
    ensures r.resultado.Ok? ==>
              && r.catalogo.siguienteId == c.siguienteId
              && r.catalogo.productos.Keys == c.productos.Keys
              && r.catalogo.productos[id] == Producto(c.productos[id].id, req.nombre, req.precio)
              && (forall k | k in c.productos && k != id :: r.catalogo.productos[k] == c.productos[k])
              && r.resultado.value == ProductoResponse(c.productos[id].id, req.nombre, req.precio)
    ensures Valido(c) && RequestValido(req) ==> Valido(r.catalogo)
  {
    if id !in c.productos then
      SalidaProducto(c, Err(ProductoNoEncontrado))
    else
      var p := c.productos[id].(nombre := req.nombre, precio := req.precio);
      SalidaProducto(c.(productos := c.productos[id := p]), Ok(MapToResponse(p)))
  }

  /** `eliminar`: not-found for an unknown id; otherwise removes exactly
      that id. */
  function Eliminar(c: Catalogo, id: int): (r: SalidaProducto<()>)
    ensures r.resultado.Ok? <==> id in c.productos
    ensures r.resultado.Err? ==> r.resultado.error == ProductoNoEncontrado && r.catalogo == c
    ensures r.resultado.Ok? ==> r.catalogo == c.(productos := c.productos - {id})
    ensures Valido(c) ==> Valido(r.catalogo)
  {
    if id !in c.productos then
      SalidaProducto(c, Err(ProductoNoEncontrado))
    else
      SalidaProducto(c.(productos := c.productos - {id}), Ok(()))
  }

  /** `listarTodos`: the page's products, one response each, in page order. */
  function ListarTodos(pagina: seq<Producto>): (r: seq<ProductoResponse>)
    ensures |r| == |pagina|
    ensures forall i | 0 <= i < |pagina| ::
              r[i].id == pagina[i].id && r[i].nombre == pagina[i].nombre && r[i].precio == pagina[i].precio
  {
    seq(|pagina|, i requires 0 <= i < |pagina| => MapToResponse(pagina[i]))
  }

  /** Listing a page is listing its two halves one after the other: order is
      preserved and nothing is dropped or added. */
  lemma ListarTodosConcat(a: seq<Producto>, b: seq<Producto>)
    ensures ListarTodos(a + b) == ListarTodos(a) + ListarTodos(b)
  {
  }

  /** A product just created can be read back with the request's fields. */
  lemma CrearLuegoObtener(c: Catalogo, req: ProductoRequest)
    requires Valido(c)
    requires Crear(c, req).resultado.Ok?
    ensures var r := Crear(c, req);
            ObtenerPorId(r.catalogo, r.resultado.value.id) == Ok(ProductoResponse(r.resultado.value.id, req.nombre, req.precio))
  {
  }

  /** A second `crear` with a name just used is always refused, whatever the
      price. */
  lemma CrearDosVecesEsDuplicado(c: Catalogo, req: ProductoRequest, otro: ProductoRequest)
    requires otro.nombre == req.nombre
    ensures var r := Crear(c, req);
            Crear(r.catalogo, otro).resultado == Err(ProductoDuplicado)
  {
    var r := Crear(c, req);
    if r.resultado.Ok? {
      var id := r.resultado.value.id;
      assert r.catalogo.productos[id].nombre == otro.nombre;
    }
  }

  /** Creating keeps names unique, because a taken name is refused. */
  lemma CrearPreservaNombresUnicos(c: Catalogo, req: ProductoRequest)
    requires Valido(c) && NombresUnicos(c)
    ensures NombresUnicos(Crear(c, req).catalogo)
  {
    var r := Crear(c, req);
    if r.resultado.Ok? {
      assert !ExisteNombre(c, req.nombre);
    }
  }

  /** `actualizar` does not check the new name, so it can give two products
      the same name, which `crear` would have refused. */
  lemma ActualizarPuedeDuplicarNombres()
    ensures exists c: Catalogo, id: int, req: ProductoRequest ::
              && Valido(c) && NombresUnicos(c) && RequestValido(req)
              && Actualizar(c, id, req).resultado.Ok?
              && !NombresUnicos(Actualizar(c, id, req).catalogo)
  {
    var a := Producto(1, "uno", 100);
    var b := Producto(2, "dos", 200);
    var c := Catalogo(map[1 := a, 2 := b], 3);
    var req := ProductoRequest("uno", 300);
    assert !EsBlanco("uno"[0]);
    assert !EsBlanco("dos"[0]);
    assert Valido(c);
    var r := Actualizar(c, 2, req);
    assert r.catalogo.productos[1].nombre == r.catalogo.productos[2].nombre;
    assert RequestValido(req) && Actualizar(c, 2, req).resultado.Ok?;
  }

  /** An update is read back as written, both fields at once. */
  lemma ActualizarLuegoObtener(c: Catalogo, id: int, req: ProductoRequest)
    requires Valido(c) && id in c.productos
    ensures ObtenerPorId(Actualizar(c, id, req).catalogo, id) == Ok(ProductoResponse(id, req.nombre, req.precio))
  {
  }

  /** After a successful `eliminar` the id is not found any more. */
  lemma EliminarLuegoObtener(c: Catalogo, id: int)
    ensures ObtenerPorId(Eliminar(c, id).catalogo, id) == Err(ProductoNoEncontrado)
  {
  }
}
