/**
 * `ProductConsumer`: applies each delivered event to the product store. The
 * functions `ApplyCreated` .. `ApplyDeleted` say what one event does to the
 * store's contents; the class's handlers are proved to do exactly that.
 * Each handler's write completes before the handler returns.
 */
module Consumer {
  import opened Wrappers
  import opened Domain
  import opened Events
  import opened Repository

  /** The topics the four listeners subscribe to. */
  const CREATED_LISTEN_TOPIC: string := "product-created"
  const UPDATED_LISTEN_TOPIC: string := "product-updated"
  const DELETED_LISTEN_TOPIC: string := "product-deleted"
  const STOCK_UPDATED_LISTEN_TOPIC: string := "product-stock-updated"

  /** The kind of event whose listener is subscribed to `topic`, if any. */
  function ListenerKind(topic: string): Option<Kind> {
    if topic == CREATED_LISTEN_TOPIC then Some(CreatedKind)
    else if topic == UPDATED_LISTEN_TOPIC then Some(UpdatedKind)
    else if topic == DELETED_LISTEN_TOPIC then Some(DeletedKind)
    else if topic == STOCK_UPDATED_LISTEN_TOPIC then Some(StockUpdatedKind)
    else None
  }

  /**
   * What the outside world supplies when an event is applied: the clock
   * reading, and the id the database assigns to a row saved without one.
   */
  datatype Env = Env(now: Timestamp, generatedId: Long)

  /** The only key an event can touch. */
  function KeyOf(e: Event, env: Env): Long {
    match e
    case Created(c) => c.id.GetOr(env.generatedId)
    case Updated(u) => u.id
    case StockUpdated(s) => s.id
    case Deleted(d) => d.id
  }

  /** A created event upserts a fresh, active row stamped with the current time. */
  function ApplyCreated(rows: map<Long, Producto>, e: ProductCreatedEvent, env: Env): (r: map<Long, Producto>)
    ensures var key := e.id.GetOr(env.generatedId);
      && r.Keys == rows.Keys + {key}
      && r[key] == Producto(Some(key), e.nombre, e.descripcion, e.precio, e.stock, Some(true), Some(env.now))
      && (forall k :: k in rows && k != key ==> r[k] == rows[k])
  {
    var key := e.id.GetOr(env.generatedId);
    rows[key := Producto(Some(key), e.nombre, e.descripcion, e.precio, e.stock, Some(true), Some(env.now))]
  }

  /**
   * An updated event overwrites nombre, descripcion, precio and stock of an
   * existing row and keeps its id, activo and fechaCreacion; for an absent id
   * it does nothing (the update is lost).
   */
  function ApplyUpdated(rows: map<Long, Producto>, e: ProductUpdatedEvent): (r: map<Long, Producto>)
    ensures r.Keys == rows.Keys
    ensures e.id !in rows ==> r == rows
    ensures e.id in rows ==>
      && r[e.id].nombre == e.nombre && r[e.id].descripcion == e.descripcion
      && r[e.id].precio == e.precio && r[e.id].stock == e.stock
      && r[e.id].id == rows[e.id].id && r[e.id].activo == rows[e.id].activo
      && r[e.id].fechaCreacion == rows[e.id].fechaCreacion
    ensures forall k :: k in rows && k != e.id ==> r[k] == rows[k]
  {
    if e.id in rows then
      rows[e.id := rows[e.id].(nombre := e.nombre, descripcion := e.descripcion, precio := e.precio, stock := e.stock)]
    else
      rows
  }

  /** A stock-updated event replaces only the stock of an existing row; an absent id is a no-op. */
  function ApplyStockUpdated(rows: map<Long, Producto>, e: ProductStockUpdatedEvent): (r: map<Long, Producto>)
    ensures r.Keys == rows.Keys
    ensures e.id !in rows ==> r == rows
    ensures e.id in rows ==> r[e.id].stock == e.stock && r[e.id].(stock := rows[e.id].stock) == rows[e.id]
    ensures forall k :: k in rows && k != e.id ==> r[k] == rows[k]
  {
    if e.id in rows then rows[e.id := rows[e.id].(stock := e.stock)] else rows
  }

  /** A deleted event removes the id whether or not it was present. */
  function ApplyDeleted(rows: map<Long, Producto>, e: ProductDeletedEvent): (r: map<Long, Producto>)
    ensures e.id !in r
    ensures r.Keys == rows.Keys - {e.id}
    ensures forall k :: k in r ==> r[k] == rows[k]
  {
    rows - {e.id}
  }

  /** The effect of one event of any kind. */
  function Apply(rows: map<Long, Producto>, e: Event, env: Env): (r: map<Long, Producto>)
    ensures forall k :: k != KeyOf(e, env) ==> (k in r <==> k in rows)
    ensures forall k :: k in r && k != KeyOf(e, env) ==> r[k] == rows[k]
  {
    match e
    case Created(c) => ApplyCreated(rows, c, env)
    case Updated(u) => ApplyUpdated(rows, u)
    case StockUpdated(s) => ApplyStockUpdated(rows, s)
    case Deleted(d) => ApplyDeleted(rows, d)
  }

  /** Events applied one after the other, in order, the i-th with `envs[i]`. */
  function ApplyAll(rows: map<Long, Producto>, es: seq<Event>, envs: seq<Env>): map<Long, Producto>
    requires |envs| == |es|
    decreases |es|
  {
    if es == [] then rows else ApplyAll(Apply(rows, es[0], envs[0]), es[1..], envs[1..])
  }

  /** Every event keeps each row stored under its own id. */
  lemma ApplyKeepsKeyedById(rows: map<Long, Producto>, e: Event, env: Env)
    requires KeyedById(rows)
    ensures KeyedById(Apply(rows, e, env))
  {
  }

  lemma ApplyUpdatedIdempotent(rows: map<Long, Producto>, e: ProductUpdatedEvent)
    ensures ApplyUpdated(ApplyUpdated(rows, e), e) == ApplyUpdated(rows, e)
  {
  }

  lemma ApplyStockUpdatedIdempotent(rows: map<Long, Producto>, e: ProductStockUpdatedEvent)
    ensures ApplyStockUpdated(ApplyStockUpdated(rows, e), e) == ApplyStockUpdated(rows, e)
  {
  }

  lemma ApplyDeletedIdempotent(rows: map<Long, Producto>, e: ProductDeletedEvent)
    ensures ApplyDeleted(ApplyDeleted(rows, e), e) == ApplyDeleted(rows, e)
  {
  }

  /**
   * Redelivering a created event that carries an id, at the same clock
   * reading, changes nothing more. (For a null id the database assigns a new
   * key on each delivery; see `RedeliveredCreatedWithoutIdDuplicates`.)
   */
  lemma ApplyCreatedIdempotent(rows: map<Long, Producto>, e: ProductCreatedEvent, env: Env)
    ensures ApplyCreated(ApplyCreated(rows, e, env), e, env) == ApplyCreated(rows, e, env)
  {
  }

  /**
   * A created event without an id is not idempotent: each delivery is stored
   * under a newly generated id, so a redelivery leaves two rows.
   */
  lemma RedeliveredCreatedWithoutIdDuplicates(rows: map<Long, Producto>, e: ProductCreatedEvent, env1: Env, env2: Env)
    requires e.id.None? && env1.generatedId != env2.generatedId
    ensures var r := ApplyCreated(ApplyCreated(rows, e, env1), e, env2);
      env1.generatedId in r && env2.generatedId in r
      && r[env1.generatedId].nombre == r[env2.generatedId].nombre == e.nombre
  {
  }

  /** Events that all target other keys leave the row under `k` (or its absence) as it was. */
  lemma {:induction false} ApplyAllOtherKeysUntouched(rows: map<Long, Producto>, es: seq<Event>, envs: seq<Env>, k: Long)
    requires |envs| == |es|
    requires forall i :: 0 <= i < |es| ==> KeyOf(es[i], envs[i]) != k
    ensures var r := ApplyAll(rows, es, envs);
      (k in r <==> k in rows) && (k in r ==> r[k] == rows[k])
    decreases |es|
  {
    if es != [] {
      assert KeyOf(es[0], envs[0]) != k;
      var rows' := Apply(rows, es[0], envs[0]);
      forall i | 0 <= i < |es[1..]|
        ensures KeyOf(es[1..][i], envs[1..][i]) != k
      {
        assert es[1..][i] == es[i + 1] && envs[1..][i] == envs[i + 1];
      }
      ApplyAllOtherKeysUntouched(rows', es[1..], envs[1..], k);
    }
  }

  /** An updated or stock-updated event aimed at `k`. */
  predicate ChangesStockOf(e: Event, k: Long) {
    (e.Updated? && e.updated.id == k) || (e.StockUpdated? && e.stockUpdated.id == k)
  }

  /** The stock an updated or stock-updated event carries. */
  function StockCarried(e: Event): Option<Int32>
    requires e.Updated? || e.StockUpdated?
  {
    if e.Updated? then e.updated.stock else e.stockUpdated.stock
  }

  /**
   * Applied in publish order to an existing row, a run of updated and
   * stock-updated events for that row leaves it present, with the stock of
   * the last event and its id, activo and fechaCreacion unchanged; when the
   * last event is an updated event, the row holds exactly its four fields.
   */
  lemma {:induction false} LastStockWins(rows: map<Long, Producto>, es: seq<Event>, envs: seq<Env>, k: Long)
    requires |envs| == |es| && |es| > 0
    requires k in rows
    requires forall i :: 0 <= i < |es| ==> ChangesStockOf(es[i], k)
    ensures var r := ApplyAll(rows, es, envs);
      && k in r
      && ChangesStockOf(es[|es| - 1], k)
      && r[k].stock == StockCarried(es[|es| - 1])
      && r[k].id == rows[k].id && r[k].activo == rows[k].activo
      && r[k].fechaCreacion == rows[k].fechaCreacion
      && (es[|es| - 1].Updated? ==>
            var u := es[|es| - 1].updated;
            r[k] == rows[k].(nombre := u.nombre, descripcion := u.descripcion, precio := u.precio, stock := u.stock))
    decreases |es|
  {
    assert ChangesStockOf(es[0], k);
    var rows' := Apply(rows, es[0], envs[0]);
    if |es| == 1 {
      assert ApplyAll(rows', es[1..], envs[1..]) == rows';
    } else {
      forall i | 0 <= i < |es[1..]|
        ensures ChangesStockOf(es[1..][i], k)
      {
        assert es[1..][i] == es[i + 1];
      }
      LastStockWins(rows', es[1..], envs[1..], k);
      assert es[1..][|es[1..]| - 1] == es[|es| - 1];
    }
  }

  /**
   * created{id 1, "A", stock 5} then stock-updated{id 1, stock 2} leaves row 1
   * named "A", with stock 2, active, and everything else as it was.
   */
  lemma CreateThenRestockScenario(rows: map<Long, Producto>, price: Option<DoubleValue>, env1: Env, env2: Env)
    ensures var created := Created(ProductCreatedEvent(Some(1), Some("A"), None, price, Some(5)));
      var restocked := StockUpdated(ProductStockUpdatedEvent(1, Some(2)));
      var r := ApplyAll(rows, [created, restocked], [env1, env2]);
      && 1 in r
      && r[1] == Producto(Some(1), Some("A"), None, price, Some(2), Some(true), Some(env1.now))
      && forall k :: k != 1 ==> (k in r <==> k in rows) && (k in r ==> r[k] == rows[k])
  {
    var created := Created(ProductCreatedEvent(Some(1), Some("A"), None, price, Some(5)));
    var restocked := StockUpdated(ProductStockUpdatedEvent(1, Some(2)));
    var r1 := Apply(rows, created, env1);
    assert ApplyAll(rows, [created, restocked], [env1, env2]) == ApplyAll(r1, [restocked], [env2]);
    assert ApplyAll(r1, [restocked], [env2]) == Apply(r1, restocked, env2);
  }

  class ProductConsumer {
    const repo: ProductRepository

    constructor (repo: ProductRepository)
      ensures this.repo == repo
    {
      this.repo := repo;
    }

    /** Listens on "product-created". */
    method ConsumeProductCreatedEvent(e: ProductCreatedEvent, env: Env)
      requires repo.Valid()
      modifies repo
      ensures repo.Valid()
      ensures repo.rows == ApplyCreated(old(repo.rows), e, env)
    {
      var producto := Producto(e.id, e.nombre, e.descripcion, e.precio, e.stock, Some(true), Some(env.now));
      var _ := repo.Save(producto, env.generatedId);
    }

    /** Listens on "product-updated". */
    method ConsumeProductUpdatedEvent(e: ProductUpdatedEvent)
      requires repo.Valid()
      modifies repo
      ensures repo.Valid()
      ensures repo.rows == ApplyUpdated(old(repo.rows), e)
    {
      var found := repo.FindById(e.id);
      if found.Some? {
        var existing := found.value;
        existing := existing.(nombre := e.nombre);
        existing := existing.(descripcion := e.descripcion);
        existing := existing.(precio := e.precio);
        existing := existing.(stock := e.stock);
        var _ := repo.Save(existing, e.id);
      }
    }

    /** Listens on "product-deleted". */
    method ConsumeProductDeletedEvent(e: ProductDeletedEvent)
      requires repo.Valid()
      modifies repo
      ensures repo.Valid()
      ensures repo.rows == ApplyDeleted(old(repo.rows), e)
    {
      repo.DeleteById(e.id);
    }

    /** Listens on "product-stock-updated". */
    method ConsumeProductStockUpdatedEvent(e: ProductStockUpdatedEvent)
      requires repo.Valid()
      modifies repo
      ensures repo.Valid()
      ensures repo.rows == ApplyStockUpdated(old(repo.rows), e)
    {
      var found := repo.FindById(e.id);
      if found.Some? {
        var existing := found.value.(stock := e.stock);
        var _ := repo.Save(existing, e.id);
      }
    }
  }
}
