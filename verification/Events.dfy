/** What the catalogue says about itself on the event topic. */
module Events {
  import opened Domain

  const TOPIC := "catalog.products.v1"
  const SOURCE := "catalog-service"

  const PRODUCT_CREATED := "product.created"
  const PRODUCT_UPDATED := "product.updated"
  const STOCK_CHANGED := "stock.changed"

  /** The payload of an event. It carries no description. */
  datatype ProductEvent = ProductEvent(
    eventId: string,
    eventType: string,
    productId: string,
    sku: string,
    name: string,
    priceCents: Int64,
    currency: string,
    stock: Int32,
    active: bool,
    occurredAt: int)

  /** One record of the topic: key, value and the three headers. */
  datatype Message = Message(
    topic: string,
    key: string,
    value: ProductEvent,
    eventType: string,
    eventId: string,
    source: string)

  /** The part of a product that events carry. */
  datatype View = View(sku: string, name: string, priceCents: Int64, currency: string, stock: Int32, active: bool)

  function ViewOf(p: Product): View {
    View(p.sku, p.name, p.priceCents, p.currency, p.stock, p.active)
  }

  function EventView(e: ProductEvent): View {
    View(e.sku, e.name, e.priceCents, e.currency, e.stock, e.active)
  }

  function Describe(eventId: string, eventType: string, p: Product, occurredAt: int): ProductEvent {
    ProductEvent(eventId, eventType, p.id, p.sku, p.name, p.priceCents, p.currency, p.stock, p.active, occurredAt)
  }
}
