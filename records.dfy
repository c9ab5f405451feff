/**
 * The records of the application-state document, as they sit in storage.
 * A property that a stored object may lack is an `Option`; a string that a
 * stored object may lack is modelled as the empty string, which every
 * reader of it treats the same way.
 */
module Records {
  import opened Wrappers

  /** The two status values the editors offer. */
  const LISTO: string := "Listo"
  const PENDIENTE: string := "Pendiente"

  const DEFAULT_BUSINESS_NAME: string := "LadyCakes"
  const DEFAULT_URGENCY: int := 5

  datatype Profile = Profile(name: string, logo: string, description: string, contact: string)

  /** A supply need; `status` may be absent and `acquired` is the legacy boolean. */
  datatype Need = Need(
    name: string, description: string, price: int, urgency: int,
    status: Option<string>, acquired: Option<bool>)

  datatype Note = Note(title: string, body: string, created: int)

  /** A task; `done` mirrors the status when an editor writes it. */
  datatype Task = Task(title: string, notes: string, due: Option<int>, done: bool, status: Option<string>)

  datatype Recipe = Recipe(title: string, description: string, ingredients: seq<string>, steps: seq<string>)

  /** A product for sale; `stock` is `None` when the stored value is not a number. */
  datatype Product = Product(name: string, description: string, price: int, stock: Option<int>, image: string)

  datatype InventoryItem = InventoryItem(itemName: string, qty: int, unit: string)

  /** One line of an order: the product's name at the time it was added, and a quantity. */
  datatype LineItem = LineItem(name: string, qty: int)

  datatype Order = Order(customer: string, items: seq<LineItem>, created: int)

  /** A reminder; `fired` is false (or absent) until the scheduler announces it. */
  datatype Reminder = Reminder(title: string, notes: string, when: int, fired: bool)

  /** The whole application-state document. */
  datatype Document = Document(
    profile: Profile, needs: seq<Need>, notes: seq<Note>, tasks: seq<Task>,
    recipes: seq<Recipe>, products: seq<Product>, inventory: seq<InventoryItem>,
    orders: seq<Order>, reminders: seq<Reminder>)

  /** A parsed stored or imported object: each top-level key may be present or not. */
  datatype Patch = Patch(
    profile: Option<Profile>, needs: Option<seq<Need>>, notes: Option<seq<Note>>,
    tasks: Option<seq<Task>>, recipes: Option<seq<Recipe>>, products: Option<seq<Product>>,
    inventory: Option<seq<InventoryItem>>, orders: Option<seq<Order>>,
    reminders: Option<seq<Reminder>>)

  const DEFAULT_PROFILE: Profile := Profile(DEFAULT_BUSINESS_NAME, "", "", "")

  /** The document a first run starts from. */
  const DEFAULT_DOCUMENT: Document := Document(DEFAULT_PROFILE, [], [], [], [], [], [], [], [])

  /** A parsed object with none of the document's keys. */
  const EMPTY_PATCH: Patch := Patch(None, None, None, None, None, None, None, None, None)

  /**
   * `Object.assign(state, parsed)`: every top-level key present in `p`
   * replaces the document's value wholesale; absent keys keep theirs.
   */
  function Merge(d: Document, p: Patch): Document {
    Document(
      p.profile.GetOr(d.profile), p.needs.GetOr(d.needs), p.notes.GetOr(d.notes),
      p.tasks.GetOr(d.tasks), p.recipes.GetOr(d.recipes), p.products.GetOr(d.products),
      p.inventory.GetOr(d.inventory), p.orders.GetOr(d.orders), p.reminders.GetOr(d.reminders))
  }

  /** `JSON.stringify(state)` as the object it parses back to: every key present. */
  function Full(d: Document): (p: Patch)
    ensures forall e :: Merge(e, p) == d
  {
    Patch(Some(d.profile), Some(d.needs), Some(d.notes), Some(d.tasks), Some(d.recipes),
          Some(d.products), Some(d.inventory), Some(d.orders), Some(d.reminders))
  }

  /** Merging an object with none of the keys changes nothing. */
  lemma MergeEmpty(d: Document)
    ensures Merge(d, EMPTY_PATCH) == d
  {
  }

  /** Merging the same object twice is the same as merging it once. */
  lemma MergeIdempotent(d: Document, p: Patch)
    ensures Merge(Merge(d, p), p) == Merge(d, p)
  {
  }

  /** JavaScript truthiness of an optional string. */
  predicate Truthy(s: Option<string>) {
    s.Some? && s.value != ""
  }

  /** The status a need shows: `n.status || (n.acquired ? 'Listo' : 'Pendiente')`. */
  function NeedStatus(n: Need): (r: string)
    ensures r != ""
    ensures Truthy(n.status) ==> r == n.status.value
    ensures !Truthy(n.status) ==> (r == LISTO <==> n.acquired == Some(true))
    ensures !Truthy(n.status) ==> (r == LISTO || r == PENDIENTE)
  {
    if Truthy(n.status) then n.status.value
    else if n.acquired == Some(true) then LISTO
    else PENDIENTE
  }

  /** The status a task's editor starts from: `t.status || (t.done ? 'Listo' : 'Pendiente')`. */
  function TaskStatus(t: Task): (r: string)
    ensures r != ""
    ensures Truthy(t.status) ==> r == t.status.value
    ensures !Truthy(t.status) ==> (r == LISTO <==> t.done)
    ensures !Truthy(t.status) ==> (r == LISTO || r == PENDIENTE)
  {
    if Truthy(t.status) then t.status.value
    else if t.done then LISTO
    else PENDIENTE
  }
}
