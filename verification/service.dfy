/**
 * `ProductService`: commands turn the caller's intent into one published
 * event and answer at once, without writing the store; queries read the
 * store directly.
 */
module Service {
  import opened Wrappers
  import opened Domain
  import opened Events
  import opened Repository
  import opened Producer

  class ProductService {
    const repo: ProductRepository
    const producer: ProductProducer

    constructor (repo: ProductRepository, producer: ProductProducer)
      ensures this.repo == repo && this.producer == producer
    {
      this.repo := repo;
      this.producer := producer;
    }

    /** `findAll`: exactly the stored rows. */
    method FindAll() returns (all: set<Producto>)
      ensures forall p :: p in all <==> exists k :: k in repo.rows && repo.rows[k] == p
    {
      all := repo.FindAll();
    }

    /** `findById`: the stored row with that id, or nothing. */
    method FindById(id: Long) returns (r: Option<Producto>)
      ensures r.Some? <==> id in repo.rows
      ensures r.Some? ==> r.value == repo.rows[id]
    {
      r := repo.FindById(id);
    }

    /**
     * `save`: publishes one created event carrying the input's id, nombre,
     * descripcion, precio and stock, and answers with the input itself.
     */
    method Save(producto: Producto) returns (r: Producto)
      modifies producer
      ensures r == producto
      ensures producer.log == old(producer.log) + [Publish(Created(ProductCreatedEvent(
        producto.id, producto.nombre, producto.descripcion, producto.precio, producto.stock)))]
      ensures repo.rows == old(repo.rows)
    {
      var event := ProductCreatedEvent(producto.id, producto.nombre, producto.descripcion, producto.precio, producto.stock);
      producer.SendProductCreatedEvent(event);
      r := producto;
    }

    /**
     * `update`: publishes one updated event carrying the `id` argument (not
     * `updated`'s own id) and `updated`'s other four fields; answers with `updated`.
     */
    method Update(id: Long, updated: Producto) returns (r: Producto)
      modifies producer
      ensures r == updated
      ensures producer.log == old(producer.log) + [Publish(Updated(ProductUpdatedEvent(
        id, updated.nombre, updated.descripcion, updated.precio, updated.stock)))]
      ensures repo.rows == old(repo.rows)
    {
      var event := ProductUpdatedEvent(id, updated.nombre, updated.descripcion, updated.precio, updated.stock);
      producer.SendProductUpdatedEvent(event);
      r := updated;
    }

    /**
     * `updateStock`: publishes one stock-updated event, then answers with a
     * copy of the stored row whose stock is `newStock` (nothing when no row
     * has that id). The copy is never saved.
     */
    method UpdateStock(id: Long, newStock: Option<Int32>) returns (r: Option<Producto>)
      modifies producer
      ensures producer.log == old(producer.log) + [Publish(StockUpdated(ProductStockUpdatedEvent(id, newStock)))]
      ensures repo.rows == old(repo.rows)
      ensures r.Some? <==> id in repo.rows
      ensures r.Some? ==> r.value == repo.rows[id].(stock := newStock)
    {
      var event := ProductStockUpdatedEvent(id, newStock);
      producer.SendProductStockUpdatedEvent(event);
      r := repo.FindById(id);
      if r.Some? {
        var producto := r.value;
        producto := producto.(stock := newStock);
        r := Some(producto);
      }
    }

    /** `delete`: publishes one deleted event and answers empty, without consulting the store. */
    method Delete(id: Long)
      modifies producer
      ensures producer.log == old(producer.log) + [Publish(Deleted(ProductDeletedEvent(id)))]
      ensures repo.rows == old(repo.rows)
    {
      var event := ProductDeletedEvent(id);
      producer.SendProductDeletedEvent(event);
    }
  }
}
