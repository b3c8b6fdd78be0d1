/**
 * `ProductMapper`: conversions between the stored `Producto` and the
 * transport objects `Product` and `ProductUpdateRequest`. The float/double
 * conversions of the price are passed in as `doubleValue` and `floatValue`.
 */
module Mapper {
  import opened Wrappers
  import opened Domain

  /** The transport form of a product (its id is a Java `Integer`, its price a `Float`). */
  datatype Product = Product(
    id: Option<Int32>,
    name: Option<string>,
    description: Option<string>,
    price: Option<FloatValue>,
    stock: Option<Int32>)

  /** A partial update: a `null` field means "leave as is". */
  datatype ProductUpdateRequest = ProductUpdateRequest(
    name: Option<string>,
    description: Option<string>,
    price: Option<FloatValue>,
    stock: Option<Int32>)

  /**
   * `toProducto(Product)`: a new entity from a transport object. The id is
   * widened when present and stays null otherwise; the entity is active and
   * stamped with `now`.
   */
  function ToProducto(dto: Product, now: Timestamp, doubleValue: FloatValue -> DoubleValue): (p: Producto)
    ensures p.id.Some? <==> dto.id.Some?
    ensures dto.id.Some? ==> p.id.value == dto.id.value
    ensures p.nombre == dto.name && p.descripcion == dto.description && p.stock == dto.stock
    ensures p.precio.Some? <==> dto.price.Some?
    ensures dto.price.Some? ==> p.precio.value == doubleValue(dto.price.value)
    ensures p.activo == Some(true) && p.fechaCreacion == Some(now)
  {
    Producto(
      if dto.id.Some? then Some(dto.id.value as Long) else None,
      dto.name,
      dto.description,
      if dto.price.Some? then Some(doubleValue(dto.price.value)) else None,
      dto.stock,
      Some(true),
      Some(now))
  }

  /**
   * `toDto`: the transport form of an entity. A present id is cut to its low
   * 32 bits (`intValue`); activo and fechaCreacion have no place in it.
   */
  function ToDto(p: Producto, floatValue: DoubleValue -> FloatValue): (dto: Product)
    ensures dto.id.Some? <==> p.id.Some?
    ensures p.id.Some? ==> dto.id.value == IntValue(p.id.value)
    ensures dto.name == p.nombre && dto.description == p.descripcion && dto.stock == p.stock
    ensures dto.price.Some? <==> p.precio.Some?
    ensures p.precio.Some? ==> dto.price.value == floatValue(p.precio.value)
  {
    Product(
      if p.id.Some? then Some(IntValue(p.id.value)) else None,
      p.nombre,
      p.descripcion,
      if p.precio.Some? then Some(floatValue(p.precio.value)) else None,
      p.stock)
  }

  /** Two entities that differ only in activo and fechaCreacion have the same transport form. */
  lemma ToDtoForgetsActivoAndFecha(p: Producto, activo: Option<bool>, fecha: Option<Timestamp>, floatValue: DoubleValue -> FloatValue)
    ensures ToDto(p.(activo := activo, fechaCreacion := fecha), floatValue) == ToDto(p, floatValue)
  {
  }

  /**
   * Entity to transport object and back keeps nombre, descripcion and stock,
   * and keeps the id exactly when it is null or fits in 32 bits.
   */
  lemma RoundTripThroughDto(p: Producto, now: Timestamp, doubleValue: FloatValue -> DoubleValue, floatValue: DoubleValue -> FloatValue)
    ensures var q := ToProducto(ToDto(p, floatValue), now, doubleValue);
      && q.nombre == p.nombre && q.descripcion == p.descripcion && q.stock == p.stock
      && (q.id == p.id <==> p.id.None? || InInt32Range(p.id.value))
  {
  }

  /**
   * `toProducto(ProductUpdateRequest, Producto)`: each of nombre, descripcion,
   * precio and stock takes the request's value when that is non-null and
   * keeps the entity's otherwise; id, activo and fechaCreacion never change.
   */
  function MergeUpdateRequest(req: ProductUpdateRequest, p: Producto, doubleValue: FloatValue -> DoubleValue): (r: Producto)
    ensures req.name.Some? ==> r.nombre == req.name
    ensures req.name.None? ==> r.nombre == p.nombre
    ensures req.description.Some? ==> r.descripcion == req.description
    ensures req.description.None? ==> r.descripcion == p.descripcion
    ensures req.price.Some? ==> r.precio == Some(doubleValue(req.price.value))
    ensures req.price.None? ==> r.precio == p.precio
    ensures req.stock.Some? ==> r.stock == req.stock
    ensures req.stock.None? ==> r.stock == p.stock
    ensures r.id == p.id && r.activo == p.activo && r.fechaCreacion == p.fechaCreacion
  {
    var withName := if req.name.Some? then p.(nombre := req.name) else p;
    var withDescription := if req.description.Some? then withName.(descripcion := req.description) else withName;
    var withPrice := if req.price.Some? then withDescription.(precio := Some(doubleValue(req.price.value))) else withDescription;
    if req.stock.Some? then withPrice.(stock := req.stock) else withPrice
  }

  /** A request with every field null leaves the entity as it is. */
  lemma MergeAllNullIsIdentity(p: Producto, doubleValue: FloatValue -> DoubleValue)
    ensures MergeUpdateRequest(ProductUpdateRequest(None, None, None, None), p, doubleValue) == p
  {
  }

  /** Merging the same request a second time changes nothing more. */
  lemma MergeIdempotent(req: ProductUpdateRequest, p: Producto, doubleValue: FloatValue -> DoubleValue)
    ensures var once := MergeUpdateRequest(req, p, doubleValue);
      MergeUpdateRequest(req, once, doubleValue) == once
  {
  }
}
