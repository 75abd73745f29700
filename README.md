# linktic inventory and catalogue services, modelled in Dafny

linktic is two Spring Boot services. `productos-service` keeps a product
catalogue: products have a unique name and a price, and can be created,
read, updated, deleted and listed. `inventario-service` keeps one stock
record per product. A record holds a quantity, a minimum (reorder) threshold
and a maximum. The service creates records, reads them, processes purchases
(check the stock, then deduct), lets an administrator overwrite them, lists
them (optionally only those at or below their minimum), and sweeps away
"orphan" records whose product no longer resolves in the catalogue. Every
change publishes an `InventarioCambiadoEvent`. One listener classifies each
event by its new quantity: below 5 is a critical alert, below 10 a warning,
anything else no alert.

The project has eight modules:

- `Comun`: `Option`, `Result`, timestamps and the `Integer` bound.
- `ProductoModelo`: the catalogue as a value (`Catalogo`: a map from id to
  product, plus the next id). Every `ProductoService` operation is a
  function from the catalogue before the call to the catalogue after it and
  the outcome. The lemmas about the operations sit here too.
- `ProductoServicio`: class `ProductoService`. Its fields are the table and
  the id counter, and its methods update them in place. Each method is
  proved equal, in effect and outcome, to the `ProductoModelo` function.
- `InventarioEntidad`: the stored row (`Fila`) and the mutable `Inventario`
  entity. The entity has the builder constructor, setters and the
  `@PrePersist` hook.
- `InventarioEventos`: the event, and the listener's severity rule.
- `InventarioModelo`: the inventory store as a value. An `Almacen` is the
  `inventarios` table keyed by its unique `producto_id`, the log of
  published events and the identity counter. Every `InventarioService`
  operation is a function of the store.
- `InventarioServicio`: class `InventarioService`. It works on the table and
  the event log in place. It loads records into `Inventario` objects,
  changes them with setters and saves them through a modelled JPA `save`.
  The orphan sweep is a loop. Each method is proved equal to its
  `InventarioModelo` function.
- `InventarioPropiedades`: the properties that relate several calls.
  - No overselling under any sequence of purchases.
  - The sweep deletes exactly the orphans.
  - Read-after-write round trips.
  - The low-stock listing keeps page order.

The product lookup that `inventario-service` does over HTTP is modelled as
`ProductoModelo.ObtenerPorId` on a snapshot of the catalogue, passed as a
parameter. The current time is a parameter too.

## Model

| member | source | states |
|---|---|---|
| ProductoModelo.Crear | productos-service/src/main/java/com/linktic/productos_service/service/ProductoService.java:24-42 | fails with the duplicate error exactly when the name is already taken, and then changes nothing; succeeds exactly when the name is free, and then stores the request's name and price under a fresh id, leaves every other product alone and returns them; keeps the catalogue invariant |
| ProductoModelo.ObtenerPorId | productos-service/src/main/java/com/linktic/productos_service/service/ProductoService.java:45-54 | succeeds exactly when the id is stored, returning that product's name, price and id; not-found otherwise |
| ProductoModelo.Actualizar | productos-service/src/main/java/com/linktic/productos_service/service/ProductoService.java:56-71 | not-found and no change when the id is absent; otherwise overwrites both name and price of that product only, with the same ids and counter; keeps the invariant |
| ProductoModelo.Eliminar | productos-service/src/main/java/com/linktic/productos_service/service/ProductoService.java:73-84 | not-found and no change when the id is absent; otherwise removes exactly that id |
| ProductoModelo.ListarTodos | productos-service/src/main/java/com/linktic/productos_service/service/ProductoService.java:86-106 | maps the page one to one: same length, and element i carries product i's id, name and price |
| ProductoModelo.ListarTodosConcat | productos-service/src/main/java/com/linktic/productos_service/service/ProductoService.java:91-92 | listing keeps page order: the listing of a concatenation is the concatenation of the listings |
| ProductoModelo.CrearLuegoObtener | productos-service/src/main/java/com/linktic/productos_service/service/ProductoService.java:33-53 | a product just created is read back under its new id with the request's name and price |
| ProductoModelo.CrearDosVecesEsDuplicado | productos-service/src/main/java/com/linktic/productos_service/service/ProductoService.java:27-31 | creating a second product with a name just used fails with the duplicate error, whatever its price |
| ProductoModelo.CrearPreservaNombresUnicos | productos-service/src/main/java/com/linktic/productos_service/service/ProductoService.java:27-38 | `crear` alone never makes two products share a name |
| ProductoModelo.ActualizarPuedeDuplicarNombres | productos-service/src/main/java/com/linktic/productos_service/service/ProductoService.java:59-67 | `actualizar` has no uniqueness check: an update can give a product the name of another |
| ProductoModelo.ActualizarLuegoObtener | productos-service/src/main/java/com/linktic/productos_service/service/ProductoService.java:59-70 | an update is read back with the new name and price |
| ProductoModelo.EliminarLuegoObtener | productos-service/src/main/java/com/linktic/productos_service/service/ProductoService.java:76-82 | after a delete the id reads as not-found |
| ProductoServicio.ProductoService.Crear | productos-service/src/main/java/com/linktic/productos_service/service/ProductoService.java:24-42 | the in-place `crear` keeps the invariant and has exactly the effect and outcome of `ProductoModelo.Crear` |
| ProductoServicio.ProductoService.ObtenerPorId | productos-service/src/main/java/com/linktic/productos_service/service/ProductoService.java:45-54 | returns what `ProductoModelo.ObtenerPorId` gives on the current table |
| ProductoServicio.ProductoService.Actualizar | productos-service/src/main/java/com/linktic/productos_service/service/ProductoService.java:56-71 | the in-place `actualizar` keeps the invariant and equals `ProductoModelo.Actualizar` |
| ProductoServicio.ProductoService.Eliminar | productos-service/src/main/java/com/linktic/productos_service/service/ProductoService.java:73-84 | the in-place `eliminar` keeps the invariant and equals `ProductoModelo.Eliminar` |
| InventarioEntidad.Inventario.constructor | inventario-service/src/main/java/com/linktic/inventario_service/entity/Inventario.java:15-52 | the builder gives a new entity with the four given values and no id, timestamps or version |
| InventarioEntidad.Inventario.Cargar | inventario-service/src/main/java/com/linktic/inventario_service/entity/Inventario.java:22-52 | a loaded entity holds exactly the stored row |
| InventarioEntidad.Inventario.SetCantidad | inventario-service/src/main/java/com/linktic/inventario_service/entity/Inventario.java:30-33 | the setter changes the quantity and nothing else |
| InventarioEntidad.Inventario.SetCantidadMinima | inventario-service/src/main/java/com/linktic/inventario_service/entity/Inventario.java:35-37 | the setter changes the minimum and nothing else |
| InventarioEntidad.Inventario.SetCantidadMaxima | inventario-service/src/main/java/com/linktic/inventario_service/entity/Inventario.java:39-41 | the setter changes the maximum and nothing else |
| InventarioEntidad.Inventario.OnPrePersist | inventario-service/src/main/java/com/linktic/inventario_service/entity/Inventario.java:58-63 | stamps `createdAt` with the current time only when it is unset, and otherwise leaves it alone |
| InventarioEventos.Clasificar | inventario-service/src/main/java/com/linktic/inventario_service/events/InventarioEventListener.java:23-27 | critical exactly when the new quantity is below 5, warning exactly when it is 5 to 9, no alert exactly from 10 up |
| InventarioEventos.HandleInventarioCambiado | inventario-service/src/main/java/com/linktic/inventario_service/events/InventarioEventListener.java:13-28 | the handler logs seven informational lines, then one error line exactly for a critical alert or one warning line exactly for a low-stock alert; it returns nothing and has no other effect |
| InventarioEventos.ClasificarSoloPorCantidadNueva | inventario-service/src/main/java/com/linktic/inventario_service/events/InventarioEventListener.java:23-27 | two events with the same new quantity get the same alert, whatever the product, previous quantity, operation or time |
| InventarioEventos.ClasificarAntimonotona | inventario-service/src/main/java/com/linktic/inventario_service/events/InventarioEventListener.java:23-27 | less stock never gives a milder alert |
| InventarioEventos.ClasificarFronteras | inventario-service/src/main/java/com/linktic/inventario_service/events/InventarioEventListener.java:23-26 | 4 is critical, 5, 8 and 9 warn, 10 raises no alert |
| InventarioModelo.ObtenerProducto | inventario-service/src/main/java/com/linktic/inventario_service/client/ProductoClient.java:33-76 | the lookup succeeds exactly when the catalogue holds the product, and then carries its id, name and price |
| InventarioModelo.MapToResponse | inventario-service/src/main/java/com/linktic/inventario_service/service/InventarioService.java:244-276 | copies id, quantity and thresholds unchanged; `stockBajo` is true exactly when the quantity is at or below the minimum |
| InventarioModelo.MapToResponseSafe | inventario-service/src/main/java/com/linktic/inventario_service/service/InventarioService.java:231-242 | the projection when the product resolves, nothing exactly when it does not |
| InventarioModelo.ProyectarValidos | inventario-service/src/main/java/com/linktic/inventario_service/service/InventarioService.java:168-172 | every projection kept comes from a record of the page, and every record whose product resolves is kept |
| InventarioModelo.FiltrarStockBajo | inventario-service/src/main/java/com/linktic/inventario_service/service/InventarioService.java:186-188 | keeps exactly the records whose quantity is at or below their minimum, equality included |
| InventarioModelo.ListarInventarios | inventario-service/src/main/java/com/linktic/inventario_service/service/InventarioService.java:156-178 | the page's records whose product resolves, projected, and only those; the total reported is the number kept |
| InventarioModelo.ListarInventariosConStockBajo | inventario-service/src/main/java/com/linktic/inventario_service/service/InventarioService.java:180-196 | exactly the page's records at or below their minimum whose product resolves, each flagged low-stock; the total is the number kept |
| InventarioModelo.CrearInventario | inventario-service/src/main/java/com/linktic/inventario_service/service/InventarioService.java:37-72 | fails, changing nothing, exactly when the product does not resolve (checked first) or already has a record; succeeds exactly when the product resolves and has no record, and then stores a record with the request's quantity, its thresholds or 10 and 1000, and the creation time, adds no other row, and publishes exactly one `CREACION` event from 0; keeps the store invariant |
| InventarioModelo.ConsultarInventario | inventario-service/src/main/java/com/linktic/inventario_service/service/InventarioService.java:74-84 | not-found exactly without a record; product-unavailable exactly when there is a record but the product does not resolve; succeeds exactly when the record exists and the product resolves, with the record's figures and low-stock flag |
| InventarioModelo.ProcesarCompra | inventario-service/src/main/java/com/linktic/inventario_service/service/InventarioService.java:86-119 | not-found exactly without a record and insufficient-stock exactly when the request exceeds the quantity, both changing nothing; otherwise the quantity drops by the request, the thresholds, id and `createdAt` stay, no other row changes, one `COMPRA` event from the old to the new quantity is published, and the call then succeeds exactly when the product resolves; every quantity stays at least 0 and the invariant holds |
| InventarioModelo.ActualizarInventario | inventario-service/src/main/java/com/linktic/inventario_service/service/InventarioService.java:121-154 | not-found exactly without a record, changing nothing; otherwise the quantity is overwritten with no sufficiency check, each threshold only when the request gives one, id and `createdAt` stay, no other row changes, one `ACTUALIZACION` event is published, and the call succeeds exactly when the product resolves |
| InventarioModelo.LimpiarInventariosHuerfanos | inventario-service/src/main/java/com/linktic/inventario_service/service/InventarioService.java:198-229 | the sweep counts at most one deletion per listed record, only deletes, and leaves the identity counter alone |
| InventarioPropiedades.ProyectarValidosConcat | inventario-service/src/main/java/com/linktic/inventario_service/service/InventarioService.java:168-172 | dropping unresolved records keeps page order |
| InventarioPropiedades.FiltrarStockBajoConcat | inventario-service/src/main/java/com/linktic/inventario_service/service/InventarioService.java:186-188 | the low-stock filter keeps page order |
| InventarioPropiedades.ListarStockBajoEnOrden | inventario-service/src/main/java/com/linktic/inventario_service/service/InventarioService.java:180-196 | the low-stock listing of a page is the listing of its first part followed by that of the rest, so results come in page order |
| InventarioPropiedades.BorrarPorIdQuitaSuClave | inventario-service/src/main/java/com/linktic/inventario_service/entity/Inventario.java:19-24 | with equality by id and unique ids, deleting a stored record removes exactly its own row |
| InventarioPropiedades.LimpiarEventos | inventario-service/src/main/java/com/linktic/inventario_service/service/InventarioService.java:205-225 | the sweep appends exactly the orphan events of the list, in list order, and counts one deletion per event |
| InventarioPropiedades.CuentaHuerfanos | inventario-service/src/main/java/com/linktic/inventario_service/service/InventarioService.java:205-225 | a list that names no product twice gives one orphan event per orphan product |
| InventarioPropiedades.LimpiarFilas | inventario-service/src/main/java/com/linktic/inventario_service/service/InventarioService.java:205-225 | over a list of stored rows the sweep deletes exactly the listed orphans, keeps every other row unchanged, and keeps the invariant |
| InventarioPropiedades.EventosHuerfanosMiembros | inventario-service/src/main/java/com/linktic/inventario_service/service/InventarioService.java:214-221 | every orphan event goes from an orphan record's quantity to 0 at the sweep's time; every orphan record of the list has one |
| InventarioPropiedades.IdsHuerfanosDeTodos | inventario-service/src/main/java/com/linktic/inventario_service/service/InventarioService.java:202-207 | over everything `findAll()` returns, the orphan products are exactly the stored products the catalogue lacks |
| InventarioPropiedades.LimpiarEliminaExactamenteHuerfanos | inventario-service/src/main/java/com/linktic/inventario_service/service/InventarioService.java:198-229 | afterwards exactly the records whose product resolves remain, each unchanged; the count is the number of orphans; one `ELIMINACION_HUERFANO` event to 0 per orphan, carrying its last quantity, is appended after the earlier events |
| InventarioPropiedades.SinSobreventa | inventario-service/src/main/java/com/linktic/inventario_service/service/InventarioService.java:90-103 | under any sequence of purchases of one product the quantity left is the initial one minus what was deducted, and the total deducted never exceeds the initial quantity |
| InventarioPropiedades.CrearDosVecesFalla | inventario-service/src/main/java/com/linktic/inventario_service/service/InventarioService.java:41-45 | once a record is created, a second create for the same product fails with the duplicate error and changes nothing |
| InventarioPropiedades.CrearLuegoConsultar | inventario-service/src/main/java/com/linktic/inventario_service/service/InventarioService.java:47-84 | a new record is read back with the request's quantity and its thresholds or 10 and 1000 |
| InventarioPropiedades.ActualizarLuegoConsultar | inventario-service/src/main/java/com/linktic/inventario_service/service/InventarioService.java:121-154 | an update is read back with the new quantity and each threshold as given or as it was |
| InventarioPropiedades.CompraLuegoConsultar | inventario-service/src/main/java/com/linktic/inventario_service/service/InventarioService.java:94-118 | a purchase is read back as the old quantity minus the request, flagged low-stock exactly when that is at or below the minimum |
| InventarioPropiedades.SinRegistroNoConsultaProducto | inventario-service/src/main/java/com/linktic/inventario_service/service/InventarioService.java:78-92 | without a record, get, purchase and update fail not-found, change nothing, and do not depend on the catalogue |
| InventarioPropiedades.CompraQuinceMenosSeis | inventario-service/src/main/java/com/linktic/inventario_service/service/InventarioService.java:94-118 | 15 in stock with minimum 10, buying 6 leaves 9, flagged low-stock, with a `COMPRA` event from 15 to 9 |
| InventarioPropiedades.CompraAlertaCritica | inventario-service/src/main/java/com/linktic/inventario_service/service/InventarioService.java:108-115 | the event of a successful purchase is critical exactly when fewer than 5 units are left |
| InventarioPropiedades.EliminarProductoLuegoLimpiar | inventario-service/src/main/java/com/linktic/inventario_service/service/InventarioService.java:198-229 | after a product is deleted from the catalogue, the next sweep deletes its record and keeps every record whose lookup still succeeds |
| InventarioServicio.InventarioService.Guardar | inventario-service/src/main/java/com/linktic/inventario_service/entity/Inventario.java:22-63 | JPA `save`: an insert is only under a product id not yet stored (the unique index); a new entity gets the next id, `createdAt` from `@PrePersist`, both timestamps and version 0; a loaded entity's row gets the new quantity and thresholds, the new update time and the next version, and keeps its `createdAt`; the entity then holds the stored row |
| InventarioServicio.InventarioService.Borrar | inventario-service/src/main/java/com/linktic/inventario_service/service/InventarioService.java:212 | `delete` removes the rows that are the same record by id, and nothing else |
| InventarioServicio.InventarioService.Publicar | inventario-service/src/main/java/com/linktic/inventario_service/service/InventarioService.java:69 | publishing appends the event and changes nothing else |
| InventarioServicio.InventarioService.CrearInventario | inventario-service/src/main/java/com/linktic/inventario_service/service/InventarioService.java:37-72 | the in-place create keeps the invariant and equals `InventarioModelo.CrearInventario` in effect and outcome |
| InventarioServicio.InventarioService.ConsultarInventario | inventario-service/src/main/java/com/linktic/inventario_service/service/InventarioService.java:74-84 | returns what `InventarioModelo.ConsultarInventario` gives on the current table |
| InventarioServicio.InventarioService.ProcesarCompra | inventario-service/src/main/java/com/linktic/inventario_service/service/InventarioService.java:86-119 | load, check, set, save, publish, look up: keeps the invariant and equals `InventarioModelo.ProcesarCompra` |
| InventarioServicio.InventarioService.ActualizarInventario | inventario-service/src/main/java/com/linktic/inventario_service/service/InventarioService.java:121-154 | load, set, save, publish, look up: keeps the invariant and equals `InventarioModelo.ActualizarInventario` |
| InventarioServicio.InventarioService.FindAll | inventario-service/src/main/java/com/linktic/inventario_service/service/InventarioService.java:202 | returns every stored row exactly once |
| InventarioServicio.InventarioService.LimpiarInventariosHuerfanos | inventario-service/src/main/java/com/linktic/inventario_service/service/InventarioService.java:198-229 | the loop over `findAll()` keeps the invariant and ends in the store and count `InventarioModelo.LimpiarInventariosHuerfanos` gives for that list |

## Left out

- HTTP controllers, the JSON:API envelopes, links and pagination metadata, security filters and exception-to-status mapping: these are marshalling around the services. Responses keep only the fields the services compute.
- `ProductoClient`'s HTTP call, API key and circuit breaker: a lookup is the catalogue snapshot passed in, and every transport fault or fallback is a product the snapshot lacks.
- Concurrency: the pessimistic row lock of the purchase path, the `@Version` optimistic check and the update-versus-purchase race. The model is sequential and every call is atomic. The version number is kept and advanced, but it is never compared.
- Transaction rollback: when the lookup after a purchase or update fails, the model returns `ProductoNoDisponible` and keeps the write and the event. That is the model's choice, and it differs from the framework's default: `ProductoServiceException` is a `RuntimeException`, so `@Transactional` would roll the write back. `SinSobreventa` counts such a kept write as deducted.
- Event delivery: publishing appends to the event log. The listener runs separately as `HandleInventarioCambiado`, and its log text is reduced to log levels.
- Clocks: `LocalDateTime.now()` is the `ahora` parameter, one value per call.
- Prices: a `BigDecimal` with `@DecimalMin("0.01")` is an integer number of cents, at least 1.
- Product timestamps: `createdAt` and `updatedAt` are not modelled. `model/Producto.java` is not part of this model.
- Pagination and sorting: a page is passed in as the sequence of rows the repository returned for it.
- ListarInventarios: the reported total is the number of records kept on the page. Spring's `PageImpl` reports the page offset plus that number on every later page that keeps a record, and pages are not modelled.
- ListarInventariosConStockBajo: the same simplification of the total as `ListarInventarios`.
- ProductoModelo.NombreValido: `@NotBlank` is approximated by four whitespace characters (space, tab, newline, carriage return). Java's full `Character.isWhitespace` set is not modelled.
- InventarioServicio.InventarioService.Guardar: a merge always advances `version` and `ultimaActualizacion`, even when nothing changed; Hibernate skips the update of an unchanged entity.
- Lombok `@Builder` ignores the entity's field initialisers (10 and 1000), so the builder constructor takes all four values and `crearInventario` passes the defaults itself.
- Integer width: quantities are unbounded integers, and the `Integer` bound appears only in the validity predicates. The model does not use a `Long` id width.
- `findAll()` order: the model enumerates rows in an arbitrary key order. The remaining rows and the count do not depend on it; the order of the `ELIMINACION_HUERFANO` events follows it.
