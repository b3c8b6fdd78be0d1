/**
 * The reactive CRUD repository over the `productos` table, keyed by id. It is
 * the store the consumer writes and the service reads; its writes complete
 * synchronously here. `Save` is an upsert keyed by id.
 */
module Repository {
  import opened Wrappers
  import opened Domain

  /** Every stored row carries its own key as its id. */
  ghost predicate KeyedById(rows: map<Long, Producto>) {
    forall k :: k in rows ==> rows[k].id == Some(k)
  }

  function Lookup(rows: map<Long, Producto>, id: Long): (r: Option<Producto>)
    ensures r.Some? <==> id in rows
    ensures r.Some? ==> r.value == rows[id]
  {
    if id in rows then Some(rows[id]) else None
  }

  class ProductRepository {
    var rows: map<Long, Producto>

    ghost predicate Valid()
      reads this
    {
      KeyedById(rows)
    }

    constructor ()
      ensures Valid() && rows == map[]
    {
      rows := map[];
    }

    /** `findById`: the row stored under `id`, if any. */
    method FindById(id: Long) returns (r: Option<Producto>)
      ensures r == Lookup(rows, id)
    {
      r := Lookup(rows, id);
    }

    /** `findAll`: every stored row. */
    method FindAll() returns (all: set<Producto>)
      ensures forall p :: p in all <==> exists k :: k in rows && rows[k] == p
    {
      all := rows.Values;
    }

    /**
     * `save`: stores `p` under its id, replacing any row with that id. A row
     * without an id is stored under `generatedId`, the key the database
     * assigns; which key that is, is the database's choice.
     */
    method Save(p: Producto, generatedId: Long) returns (saved: Producto)
      requires Valid()
      modifies this
      ensures Valid()
      ensures saved == p.(id := Some(p.id.GetOr(generatedId)))
      ensures rows == old(rows)[p.id.GetOr(generatedId) := saved]
    {
      var key := p.id.GetOr(generatedId);
      saved := p.(id := Some(key));
      rows := rows[key := saved];
    }

    /** `deleteById`: removes the row with that id; an absent id is not an error. */
    method DeleteById(id: Long)
      requires Valid()
      modifies this
      ensures Valid()
      ensures rows == old(rows) - {id}
    {
      rows := rows - {id};
    }
  }
}
