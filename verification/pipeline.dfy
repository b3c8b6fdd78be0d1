/**
 * The write path end to end: records the producer appends to the channel are
 * delivered, one at a time and in append order, to the listener subscribed
 * to their topic. Serial in-order delivery is an assumption of this model;
 * the channel itself promises no order across topics or keys.
 */
module Pipeline {
  import opened Wrappers
  import opened Domain
  import opened Events
  import opened Producer
  import opened Consumer
  import opened Mapper

  /**
   * The listener container: a record reaches the handler subscribed to its
   * topic if that handler takes the record's kind of event; otherwise no
   * handler runs.
   */
  function Deliver(rows: map<Long, Producto>, rec: Record, env: Env): map<Long, Producto> {
    if ListenerKind(rec.topic) == Some(KindOf(rec.value)) then Apply(rows, rec.value, env) else rows
  }

  function DeliverAll(rows: map<Long, Producto>, log: seq<Record>, envs: seq<Env>): map<Long, Producto>
    requires |envs| == |log|
    decreases |log|
  {
    if log == [] then rows else DeliverAll(Deliver(rows, log[0], envs[0]), log[1..], envs[1..])
  }

  /** The records a run of sends appends, in order. */
  function PublishAll(es: seq<Event>): (log: seq<Record>)
    ensures |log| == |es|
    ensures forall i :: 0 <= i < |es| ==> log[i] == Publish(es[i])
  {
    if es == [] then [] else [Publish(es[0])] + PublishAll(es[1..])
  }

  /** The producer sends every kind to the topic on which the consumer listens for that kind. */
  lemma ListenerMatchesProducer(k: Kind)
    ensures ListenerKind(TopicFor(k)) == Some(k)
  {
  }

  /** Every published record reaches its handler. */
  lemma DeliverPublished(rows: map<Long, Producto>, e: Event, env: Env)
    ensures Deliver(rows, Publish(e), env) == Apply(rows, e, env)
  {
  }

  /**
   * Producer to channel to consumer: delivering what a run of sends appended
   * has the same effect on the store as applying the events themselves.
   */
  lemma {:induction false} PublishThenDeliver(rows: map<Long, Producto>, es: seq<Event>, envs: seq<Env>)
    requires |envs| == |es|
    ensures DeliverAll(rows, PublishAll(es), envs) == ApplyAll(rows, es, envs)
    decreases |es|
  {
    if es != [] {
      var log := PublishAll(es);
      assert log[0] == Publish(es[0]);
      assert log[1..] == PublishAll(es[1..]);
      DeliverPublished(rows, es[0], envs[0]);
      PublishThenDeliver(Apply(rows, es[0], envs[0]), es[1..], envs[1..]);
    }
  }

  /**
   * The answer `save` gives and the row the created event eventually stores
   * differ only in the id a database assigns when there is none, in activo
   * and in fechaCreacion.
   */
  lemma SaveAnswerVersusStoredRow(rows: map<Long, Producto>, p: Producto, env: Env)
    ensures var e := ProductCreatedEvent(p.id, p.nombre, p.descripcion, p.precio, p.stock);
      var key := p.id.GetOr(env.generatedId);
      var r := Apply(rows, Created(e), env);
      && key in r
      && r[key] == p.(id := Some(key), activo := Some(true), fechaCreacion := Some(env.now))
  {
  }

  /**
   * Updating a stored row through the request merge and `update`: once the
   * updated event is applied, the stored row is exactly the merged value the
   * command answered with.
   */
  lemma UpdateAnswerIsEventualRow(rows: map<Long, Producto>, id: Long, req: ProductUpdateRequest,
                                  doubleValue: FloatValue -> DoubleValue)
    requires id in rows
    ensures var merged := MergeUpdateRequest(req, rows[id], doubleValue);
      var e := ProductUpdatedEvent(id, merged.nombre, merged.descripcion, merged.precio, merged.stock);
      ApplyUpdated(rows, e)[id] == merged
  {
  }
}
