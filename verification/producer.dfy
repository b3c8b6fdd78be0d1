/**
 * `ProductProducer`: publishes each event to the topic of its kind. The
 * message channel is an in-memory log of records; a send appends one record
 * and completes at once.
 */
module Producer {
  import opened Wrappers
  import opened Domain
  import opened Events

  const CREATED_TOPIC: string := "product-created"
  const UPDATED_TOPIC: string := "product-updated"
  const DELETED_TOPIC: string := "product-deleted"
  const STOCK_UPDATED_TOPIC: string := "product-stock-updated"

  /** A message on the channel: topic, partition key (`None`: unkeyed) and payload. */
  datatype Record = Record(topic: string, key: Option<Long>, value: Event)

  /** The fixed topic each kind of event is sent to. */
  function TopicFor(k: Kind): string {
    match k
    case CreatedKind => CREATED_TOPIC
    case UpdatedKind => UPDATED_TOPIC
    case DeletedKind => DELETED_TOPIC
    case StockUpdatedKind => STOCK_UPDATED_TOPIC
  }

  /** The record a send of `e` puts on the channel. */
  function Publish(e: Event): Record {
    Record(TopicFor(KindOf(e)), None, e)
  }

  /** Different kinds go to different topics, so a topic names one kind. */
  lemma TopicForInjective(k1: Kind, k2: Kind)
    ensures TopicFor(k1) == TopicFor(k2) <==> k1 == k2
  {
  }

  class ProductProducer {
    /** Everything sent so far, in send order. */
    var log: seq<Record>

    constructor ()
      ensures log == []
    {
      log := [];
    }

    method SendProductCreatedEvent(e: ProductCreatedEvent)
      modifies this
      ensures log == old(log) + [Record(CREATED_TOPIC, None, Created(e))]
    {
      log := log + [Record(CREATED_TOPIC, None, Created(e))];
    }

    method SendProductUpdatedEvent(e: ProductUpdatedEvent)
      modifies this
      ensures log == old(log) + [Record(UPDATED_TOPIC, None, Updated(e))]
    {
      log := log + [Record(UPDATED_TOPIC, None, Updated(e))];
    }

    method SendProductDeletedEvent(e: ProductDeletedEvent)
      modifies this
      ensures log == old(log) + [Record(DELETED_TOPIC, None, Deleted(e))]
    {
      log := log + [Record(DELETED_TOPIC, None, Deleted(e))];
    }

    method SendProductStockUpdatedEvent(e: ProductStockUpdatedEvent)
      modifies this
      ensures log == old(log) + [Record(STOCK_UPDATED_TOPIC, None, StockUpdated(e))]
    {
      log := log + [Record(STOCK_UPDATED_TOPIC, None, StockUpdated(e))];
    }
  }
}
