/** The `Inventario` entity: the stored stock row of one product, and the
    mutable JPA object the service loads it into, changes with setters and
    saves back. */
module InventarioEntidad {
  import opened Comun

  /** The values `crearInventario` uses when the request leaves the
      thresholds out (the entity's field initialisers hold the same). */
  const CANTIDAD_MINIMA_POR_DEFECTO: int := 10
  const CANTIDAD_MAXIMA_POR_DEFECTO: int := 1000

  /** A row of the `inventarios` table. */
  datatype Fila = Fila(
    id: int,
    productoId: int,
    cantidad: int,
    cantidadMinima: int,
    cantidadMaxima: int,
    createdAt: Timestamp,
    ultimaActualizacion: Timestamp,
    version: nat)

  /** The column constraints: `cantidad >= 0`, `cantidadMinima >= 0`,
      `cantidadMaxima >= 1`, all within `Integer`. Nothing relates the
      maximum to the quantity. */
  predicate FilaValida(f: Fila) {
    && 0 <= f.cantidad <= INT_MAX
    && 0 <= f.cantidadMinima <= INT_MAX
    && 1 <= f.cantidadMaxima <= INT_MAX
  }

  /** Two records are the same record when their ids are equal
      (`@EqualsAndHashCode(of = "id")`), whatever their other fields. */
  predicate MismoRegistro(a: Fila, b: Fila) {
    a.id == b.id
  }

  /** A managed `Inventario` object. Fields that the database fills in are
      absent until the entity has been persisted. */
  class Inventario {
    var id: Option<int>
    var productoId: int
    var cantidad: int
    var cantidadMinima: int
    var cantidadMaxima: int
    var createdAt: Option<Timestamp>
    var ultimaActualizacion: Option<Timestamp>
    var version: Option<nat>

    /** `Inventario.builder()...build()`: a new entity, not yet persisted. */
    constructor (productoId: int, cantidad: int, cantidadMinima: int, cantidadMaxima: int)
      ensures id == None && createdAt == None && ultimaActualizacion == None && version == None
      ensures this.productoId == productoId && this.cantidad == cantidad
      ensures this.cantidadMinima == cantidadMinima && this.cantidadMaxima == cantidadMaxima
    {
      id := None;
      this.productoId := productoId;
      this.cantidad := cantidad;
      this.cantidadMinima := cantidadMinima;
      this.cantidadMaxima := cantidadMaxima;
      createdAt := None;
      ultimaActualizacion := None;
      version := None;
    }

    /** The entity a repository finder returns for a stored row. */
    constructor Cargar(f: Fila)
      ensures Refleja(f)
    {
      id := Some(f.id);
      productoId := f.productoId;
      cantidad := f.cantidad;
      cantidadMinima := f.cantidadMinima;
      cantidadMaxima := f.cantidadMaxima;
      createdAt := Some(f.createdAt);
      ultimaActualizacion := Some(f.ultimaActualizacion);
      version := Some(f.version);
    }

    /** The object holds exactly the stored row `f`. */
    ghost predicate Refleja(f: Fila)
      reads this
    {
      && id == Some(f.id) && productoId == f.productoId && cantidad == f.cantidad
      && cantidadMinima == f.cantidadMinima && cantidadMaxima == f.cantidadMaxima
      && createdAt == Some(f.createdAt) && ultimaActualizacion == Some(f.ultimaActualizacion)
      && version == Some(f.version)
    }

    method SetCantidad(cantidad: int)
      modifies this`cantidad
      ensures this.cantidad == cantidad
    {
      this.cantidad := cantidad;
    }

    method SetCantidadMinima(cantidadMinima: int)
      modifies this`cantidadMinima
      ensures this.cantidadMinima == cantidadMinima
    {
      this.cantidadMinima := cantidadMinima;
    }

    method SetCantidadMaxima(cantidadMaxima: int)
      modifies this`cantidadMaxima
      ensures this.cantidadMaxima == cantidadMaxima
    {
      this.cantidadMaxima := cantidadMaxima;
    }

    /** `@PrePersist`: stamps the creation time, unless one is already set. */
    method OnPrePersist(ahora: Timestamp)
      modifies this`createdAt
      ensures old(createdAt).None? ==> createdAt == Some(ahora)
      ensures old(createdAt).Some? ==> createdAt == old(createdAt)
    {
      if createdAt.None? {
        createdAt := Some(ahora);
      }
    }
  }
}
