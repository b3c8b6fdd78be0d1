/**
 * The four domain events the command side publishes. Identifiers of the
 * update, stock and delete events are never null: their only producers pass
 * an id parsed from the request path.
 */
module Events {
  import opened Wrappers
  import opened Domain

  datatype ProductCreatedEvent = ProductCreatedEvent(
    id: Option<Long>,
    nombre: Option<string>,
    descripcion: Option<string>,
    precio: Option<DoubleValue>,
    stock: Option<Int32>)

  datatype ProductUpdatedEvent = ProductUpdatedEvent(
    id: Long,
    nombre: Option<string>,
    descripcion: Option<string>,
    precio: Option<DoubleValue>,
    stock: Option<Int32>)

  datatype ProductStockUpdatedEvent = ProductStockUpdatedEvent(id: Long, stock: Option<Int32>)

  datatype ProductDeletedEvent = ProductDeletedEvent(id: Long)

  /** What travels on the channel: any one of the four events. */
  datatype Event =
    | Created(created: ProductCreatedEvent)
    | Updated(updated: ProductUpdatedEvent)
    | StockUpdated(stockUpdated: ProductStockUpdatedEvent)
    | Deleted(deleted: ProductDeletedEvent)

  datatype Kind = CreatedKind | UpdatedKind | DeletedKind | StockUpdatedKind

  function KindOf(e: Event): Kind {
    match e
    case Created(_) => CreatedKind
    case Updated(_) => UpdatedKind
    case StockUpdated(_) => StockUpdatedKind
    case Deleted(_) => DeletedKind
  }
}
