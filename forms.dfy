/**
 * What each editor's save button builds from its form fields: the
 * validation (a blank trimmed name or title is refused), the trimming and
 * the defaults. Numeric fields arrive as the numbers the inputs parse to.
 */
module Forms {
  import opened Wrappers
  import opened Text
  import opened Records
  import Markup

  /** The value a status `<select>` submits: `value || 'Pendiente'`. */
  function StatusOf(selected: string): (r: string)
    ensures r != ""
    ensures selected != "" ==> r == selected
  {
    if selected == "" then PENDIENTE else selected
  }

  /** The option a status `<select>` opens on: the matching one, else the first ('Pendiente'). */
  function SelectedStatus(shown: string): (r: string)
    ensures r == LISTO || r == PENDIENTE
    ensures shown == LISTO || shown == PENDIENTE ==> r == shown
  {
    if shown == LISTO then LISTO else PENDIENTE
  }

  /** The option the urgency `<select>` (1 to 10) opens on: the matching one, else the first. */
  function SelectedUrgency(urgency: int): (r: int)
    ensures 1 <= r <= 10
    ensures 1 <= urgency <= 10 ==> r == urgency
  {
    if 1 <= urgency <= 10 then urgency else 1
  }

  /** A name or title the editors accept and store: non-blank, already trimmed. */
  predicate IsStoredName(s: string) {
    s != "" && IsTrimmed(s)
  }

  lemma TrimmedNameIsStored(raw: string)
    requires Trim(raw) != ""
    ensures IsStoredName(Trim(raw))
  {
  }

  // ----- needs (app.js:288-299) -----

  /** The shape the need editor writes. */
  predicate EditorNeed(n: Need) {
    && IsStoredName(n.name) && IsTrimmed(n.description)
    && 1 <= n.urgency <= 10
    && (n.status == Some(LISTO) || n.status == Some(PENDIENTE))
    && n.acquired.None?
  }

  function NeedFromForm(name: string, description: string, price: int, urgency: int, status: string): (r: Option<Need>)
    ensures r.None? <==> Trim(name) == ""
    ensures r.Some? ==> r.value.name == Trim(name) && r.value.description == Trim(description)
    ensures r.Some? ==> r.value.price == price && r.value.urgency == urgency
    ensures r.Some? ==> r.value.status == Some(StatusOf(status)) && r.value.acquired.None?
    ensures r.Some? ==> NeedStatus(r.value) == StatusOf(status)
  {
    if Trim(name) == "" then None
    else Some(Need(Trim(name), Trim(description), price, urgency, Some(StatusOf(status)), None))
  }

  /** A save with the options the form offers yields an editor-shaped need. */
  lemma NeedFormIsEditorShaped(name: string, description: string, price: int, urgency: int, status: string)
    requires Trim(name) != "" && 1 <= urgency <= 10 && (status == LISTO || status == PENDIENTE)
    ensures NeedFromForm(name, description, price, urgency, status).Some?
    ensures EditorNeed(NeedFromForm(name, description, price, urgency, status).value)
  {
    TrimIdempotent(description);
  }

  /**
   * Opening the editor on an editor-written need and saving it untouched
   * stores the same need again (the fields are pre-filled escaped, and the
   * browser decodes them back).
   */
  lemma NeedEditRoundTrip(n: Need)
    requires EditorNeed(n)
    ensures NeedFromForm(
      Markup.UnescapeHtml(Markup.EscapeHtml(n.name)),
      Markup.UnescapeHtml(Markup.EscapeHtml(n.description)),
      n.price, SelectedUrgency(n.urgency), SelectedStatus(NeedStatus(n))) == Some(n)
  {
    Markup.UnescapeEscape(n.name);
    Markup.UnescapeEscape(n.description);
    TrimOfTrimmed(n.name);
    TrimOfTrimmed(n.description);
  }

  /**
   * Re-saving any stored need keeps the status it shows (when that is one of
   * the two offered) and drops the legacy `acquired` flag.
   */
  lemma NeedEditNormalizesLegacy(n: Need)
    requires Trim(n.name) != ""
    requires NeedStatus(n) == LISTO || NeedStatus(n) == PENDIENTE
    ensures var r := NeedFromForm(n.name, n.description, n.price, n.urgency, SelectedStatus(NeedStatus(n)));
      r.Some? && r.value.acquired.None? && r.value.status == Some(NeedStatus(n)) && NeedStatus(r.value) == NeedStatus(n)
  {
  }

  // ----- notes (app.js:367-373) -----

  /** The note editor accepts any title and always stamps `created` with the save time. */
  function NoteFromForm(title: string, body: string, now: int): (r: Note)
    ensures r.title == Trim(title) && r.body == Trim(body) && r.created == now
    ensures IsTrimmed(r.title) && IsTrimmed(r.body)
  {
    Note(Trim(title), Trim(body), now)
  }

  // ----- tasks (app.js:459-469) -----

  /** The shape the task editor writes: `done` mirrors `status`, and a due time is a midnight UTC. */
  predicate EditorTask(t: Task) {
    && IsStoredName(t.title) && IsTrimmed(t.notes)
    && (t.status == Some(LISTO) || t.status == Some(PENDIENTE))
    && t.done == (t.status == Some(LISTO))
    && (t.due.Some? ==> t.due.value % DAY_MS == 0)
  }

  /** Milliseconds in a day: a date input's value parses to midnight UTC of that day. */
  const DAY_MS := 86400000

  function TaskFromForm(title: string, notes: string, due: Option<int>, status: string): (r: Option<Task>)
    ensures r.None? <==> Trim(title) == ""
    ensures r.Some? ==> r.value.title == Trim(title) && r.value.notes == Trim(notes) && r.value.due == due
    ensures r.Some? ==> r.value.status == Some(StatusOf(status))
    ensures r.Some? ==> (r.value.done <==> StatusOf(status) == LISTO)
    ensures r.Some? ==> (r.value.done <==> TaskStatus(r.value) == LISTO)
  {
    if Trim(title) == "" then None
    else
      var s := StatusOf(status);
      Some(Task(Trim(title), Trim(notes), due, s == LISTO, Some(s)))
  }

  /**
   * The due date the editor pre-fills, as the time its date input gives back:
   * none when absent or zero (a falsy timestamp), else midnight UTC of the day
   * `toISOString().substr(0,10)` names.
   */
  function PrefilledDue(due: Option<int>): (r: Option<int>)
    ensures r.None? <==> due.None? || due == Some(0)
    ensures r.Some? ==> r.value % DAY_MS == 0 && r.value <= due.value < r.value + DAY_MS
  {
    if due.Some? && due.value != 0 then Some(due.value - due.value % DAY_MS) else None
  }

  /** A stored due time comes back from the editor unchanged exactly when it is a non-zero midnight UTC. */
  lemma PrefilledDueKeeps(d: int)
    ensures PrefilledDue(Some(d)) == Some(d) <==> d != 0 && d % DAY_MS == 0
  {
  }

  /** Opening the editor on an editor-written task and saving it untouched stores it again. */
  lemma TaskEditRoundTrip(t: Task)
    requires EditorTask(t) && t.due != Some(0)
    ensures TaskFromForm(
      Markup.UnescapeHtml(Markup.EscapeHtml(t.title)),
      Markup.UnescapeHtml(Markup.EscapeHtml(t.notes)),
      PrefilledDue(t.due), SelectedStatus(TaskStatus(t))) == Some(t)
  {
    assert PrefilledDue(t.due) == t.due;
    Markup.UnescapeEscape(t.title);
    Markup.UnescapeEscape(t.notes);
    TrimOfTrimmed(t.title);
    TrimOfTrimmed(t.notes);
  }

  /**
   * The task checkbox (app.js:414) sets `done` alone, so a toggled task no
   * longer has the editor's shape, and opening the editor on it and saving
   * untouched puts `done` back to what its status says.
   */
  lemma CheckboxUndoneByEdit(t: Task, checked: bool)
    requires EditorTask(t) && t.due != Some(0)
    ensures checked != t.done ==> !EditorTask(t.(done := checked))
    ensures var toggled := t.(done := checked);
      TaskFromForm(
        Markup.UnescapeHtml(Markup.EscapeHtml(toggled.title)),
        Markup.UnescapeHtml(Markup.EscapeHtml(toggled.notes)),
        PrefilledDue(toggled.due), SelectedStatus(TaskStatus(toggled))) == Some(t)
  {
    TaskEditRoundTrip(t);
  }

  // ----- recipes (app.js:786-795) -----

  /** The shape the recipe editor writes: no ingredient or step is blank or padded. */
  predicate EditorRecipe(r: Recipe) {
    && IsStoredName(r.title) && IsTrimmed(r.description)
    && TrimmedEntries(r.ingredients) && LineFree(r.ingredients)
    && TrimmedEntries(r.steps) && LineFree(r.steps)
  }

  function RecipeFromForm(title: string, description: string, ingredients: string, steps: string): (r: Option<Recipe>)
    ensures r.None? <==> Trim(title) == ""
    ensures r.Some? ==> EditorRecipe(r.value)
    ensures r.Some? ==> r.value.title == Trim(title) && r.value.description == Trim(description)
    ensures r.Some? ==> r.value.ingredients == ParseLines(ingredients) && r.value.steps == ParseLines(steps)
  {
    if Trim(title) == "" then None
    else
      Some(Recipe(Trim(title), Trim(description), ParseLines(ingredients), ParseLines(steps)))
  }

  /** Opening the editor on a stored recipe (lists joined one per line) and saving it untouched stores it again. */
  lemma RecipeEditRoundTrip(r: Recipe)
    requires EditorRecipe(r)
    ensures RecipeFromForm(
      Markup.UnescapeHtml(Markup.EscapeHtml(r.title)),
      Markup.UnescapeHtml(Markup.EscapeHtml(r.description)),
      Markup.UnescapeHtml(Markup.EscapeHtml(JoinLines(r.ingredients))),
      Markup.UnescapeHtml(Markup.EscapeHtml(JoinLines(r.steps)))) == Some(r)
  {
    Markup.UnescapeEscape(r.title);
    Markup.UnescapeEscape(r.description);
    Markup.UnescapeEscape(JoinLines(r.ingredients));
    Markup.UnescapeEscape(JoinLines(r.steps));
    TrimOfTrimmed(r.title);
    TrimOfTrimmed(r.description);
    ParseJoinLines(r.ingredients);
    ParseJoinLines(r.steps);
  }

  // ----- products (app.js:564-573) -----

  /**
   * The product editor always stores a numeric stock (0 when the field is
   * empty) and keeps the previous image unless a new one was picked.
   */
  function ProductFromForm(name: string, description: string, price: int, stock: int, picked: string, previous: string): (r: Option<Product>)
    ensures r.None? <==> Trim(name) == ""
    ensures r.Some? ==> r.value.name == Trim(name) && r.value.description == Trim(description)
    ensures r.Some? ==> r.value.price == price && r.value.stock == Some(stock)
    ensures r.Some? ==> r.value.image == (if picked != "" then picked else previous)
  {
    if Trim(name) == "" then None
    else Some(Product(Trim(name), Trim(description), price, Some(stock), if picked != "" then picked else previous))
  }

  /** The stock the editor pre-fills: `item.stock || 0`, where a non-number reads as empty. */
  function PrefilledStock(stock: Option<int>): int {
    stock.GetOr(0)
  }

  /**
   * Re-saving a stored product without changes keeps it, except that a
   * non-numeric stock becomes 0: afterwards the product tracks its stock.
   */
  lemma ProductEditRoundTrip(p: Product)
    requires IsStoredName(p.name) && IsTrimmed(p.description)
    ensures var r := ProductFromForm(
      Markup.UnescapeHtml(Markup.EscapeHtml(p.name)),
      Markup.UnescapeHtml(Markup.EscapeHtml(p.description)),
      p.price, PrefilledStock(p.stock), "", p.image);
      r == Some(p.(stock := Some(p.stock.GetOr(0))))
  {
    Markup.UnescapeEscape(p.name);
    Markup.UnescapeEscape(p.description);
    TrimOfTrimmed(p.name);
    TrimOfTrimmed(p.description);
  }

  // ----- inventory (app.js:624-631) -----

  function InventoryFromForm(name: string, qty: int, unit: string): (r: Option<InventoryItem>)
    ensures r.None? <==> Trim(name) == ""
    ensures r.Some? ==> IsStoredName(r.value.itemName) && IsTrimmed(r.value.unit)
    ensures r.Some? ==> r.value.itemName == Trim(name) && r.value.qty == qty && r.value.unit == Trim(unit)
  {
    if Trim(name) == "" then None else Some(InventoryItem(Trim(name), qty, Trim(unit)))
  }

  // ----- reminders (app.js:876-883) -----

  /** A new reminder is due at the chosen time, or immediately when none was chosen, and has not fired. */
  function ReminderFromForm(title: string, notes: string, when: Option<int>, now: int): (r: Option<Reminder>)
    ensures r.None? <==> Trim(title) == ""
    ensures r.Some? ==> IsStoredName(r.value.title) && !r.value.fired
    ensures r.Some? ==> r.value.title == Trim(title) && r.value.notes == Trim(notes)
    ensures r.Some? ==> r.value.when == (if when.Some? then when.value else now)
  {
    if Trim(title) == "" then None else Some(Reminder(Trim(title), Trim(notes), when.GetOr(now), false))
  }

  // ----- profile (app.js:91-97) -----

  /** The profile editor: an empty business name falls back to 'LadyCakes'; the logo is kept. */
  function ProfileFromForm(current: Profile, name: string, description: string, contact: string): (r: Profile)
    ensures r.name != "" && r.logo == current.logo
    ensures r.name == (if name == "" then DEFAULT_BUSINESS_NAME else name)
    ensures r.description == description && r.contact == contact
  {
    Profile(if name == "" then DEFAULT_BUSINESS_NAME else name, current.logo, description, contact)
  }
}
