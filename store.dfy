/**
 * The application state object of app.js (app.js:25-41) and the event
 * handlers that change it in place. `save` is kept as a ghost counter and
 * the document it last wrote; the reminder scheduler as a flag and a ghost
 * log of the notifications it shows.
 */
module Store {
  import opened Wrappers
  import opened Text
  import opened Records
  import opened Seqs
  import Forms
  import Orders
  import Reminders
  import Bulk
  import Seed

  class AppState {
    var profile: Profile
    var needs: seq<Need>
    var notes: seq<Note>
    var tasks: seq<Task>
    var recipes: seq<Recipe>
    var products: seq<Product>
    var inventory: seq<InventoryItem>
    var orders: seq<Order>
    var reminders: seq<Reminder>
    /** `schedulerTimer != null`: the reminder interval is running. */
    var schedulerStarted: bool
    /** How many times `save()` ran. */
    ghost var saves: nat
    /** The document the last `save()` wrote, if any. */
    ghost var stored: Option<Document>
    /** Every notification shown so far, oldest first. */
    ghost var notified: seq<Reminders.Notice>

    /** The state as the document `save()` writes. */
    function Doc(): Document
      reads this
    {
      Document(profile, needs, notes, tasks, recipes, products, inventory, orders, reminders)
    }

    /** The handler ran one `save()`, and the document is now `d`. */
    twostate predicate Saved(d: Document)
      reads this
    {
      && Doc() == d && saves == old(saves) + 1 && stored == Some(d)
      && notified == old(notified) && schedulerStarted == old(schedulerStarted)
    }

    /** The handler changed nothing and did not save. */
    twostate predicate Untouched()
      reads this
    {
      && Doc() == old(Doc()) && saves == old(saves) && stored == old(stored)
      && notified == old(notified) && schedulerStarted == old(schedulerStarted)
    }

    /** The initial `state` literal (app.js:25-41); no timer yet. */
    constructor ()
      ensures Doc() == DEFAULT_DOCUMENT && !schedulerStarted
      ensures saves == 0 && stored.None? && notified == []
    {
      profile, needs, notes, tasks, recipes := DEFAULT_PROFILE, [], [], [], [];
      products, inventory, orders, reminders := [], [], [], [];
      schedulerStarted := false;
      saves, stored, notified := 0, None, [];
    }

    /** `save()` (app.js:55-57): the whole document is written. */
    method Save()
      modifies this
      ensures Saved(old(Doc()))
    {
      saves := saves + 1;
      stored := Some(Doc());
    }

    // ----- load, import, export -----

    /**
     * `load()` (app.js:45-53): the stored object, when there is one and it
     * parses, is merged over the state; a missing or unparsable one changes
     * nothing. Nothing is saved.
     */
    method Load(parsed: Option<Patch>)
      modifies this
      ensures parsed.None? ==> Untouched()
      ensures parsed.Some? ==> Doc() == Merge(old(Doc()), parsed.value)
      ensures saves == old(saves) && stored == old(stored)
      ensures notified == old(notified) && schedulerStarted == old(schedulerStarted)
    {
      if parsed.Some? {
        SetDoc(Merge(Doc(), parsed.value));
      }
    }

    /** The import handler (app.js:953-958): a parsed file is merged over the state and saved. */
    method Import(parsed: Option<Patch>)
      modifies this
      ensures parsed.None? ==> Untouched()
      ensures parsed.Some? ==> Saved(Merge(old(Doc()), parsed.value))
    {
      if parsed.Some? {
        SetDoc(Merge(Doc(), parsed.value));
        Save();
      }
    }

    /** The export handler (app.js:945-950): the whole state, every key present. */
    function Export(): (data: Patch)
      reads this
      ensures forall d :: Merge(d, data) == Doc()
    {
      Full(Doc())
    }

    /** Every top-level key of the state replaced by `d`'s. */
    method SetDoc(d: Document)
      modifies this
      ensures Doc() == d
      ensures saves == old(saves) && stored == old(stored)
      ensures notified == old(notified) && schedulerStarted == old(schedulerStarted)
    {
      profile, needs, notes, tasks, recipes := d.profile, d.needs, d.notes, d.tasks, d.recipes;
      products, inventory, orders, reminders := d.products, d.inventory, d.orders, d.reminders;
    }

    // ----- profile -----

    /** The profile save button (app.js:91-100). */
    method SaveProfile(name: string, description: string, contact: string)
      modifies this
      ensures Saved(old(Doc()).(profile := Forms.ProfileFromForm(old(profile), name, description, contact)))
    {
      profile := Forms.ProfileFromForm(profile, name, description, contact);
      Save();
    }

    /** A logo picked in the profile dialog (app.js:78-89) is set at once and written by the next `save()` of any handler. */
    method SetLogo(dataUrl: string)
      modifies this
      ensures Doc() == old(Doc()).(profile := old(profile).(logo := dataUrl))
      ensures saves == old(saves) && stored == old(stored)
      ensures notified == old(notified) && schedulerStarted == old(schedulerStarted)
    {
      profile := profile.(logo := dataUrl);
    }

    // ----- editor saves: a refused form changes nothing, else append or replace, then save -----

    /** The need editor's save (app.js:288-299). */
    method SaveNeed(idx: Option<nat>, name: string, description: string, price: int, urgency: int, status: string) returns (ok: bool)
      requires idx.Some? ==> idx.value < |needs|
      modifies this
      ensures ok <==> Trim(name) != ""
      ensures var n := Forms.NeedFromForm(name, description, price, urgency, status);
        if n.None? then Untouched() else Saved(old(Doc()).(needs := Upsert(old(needs), idx, n.value)))
    {
      var n := Forms.NeedFromForm(name, description, price, urgency, status);
      ok := n.Some?;
      if ok {
        needs := Upsert(needs, idx, n.value);
        Save();
      }
    }

    /** The note editor's save (app.js:367-373): any title is accepted and `created` is the save time. */
    method SaveNote(idx: Option<nat>, title: string, body: string, now: int)
      requires idx.Some? ==> idx.value < |notes|
      modifies this
      ensures Saved(old(Doc()).(notes := Upsert(old(notes), idx, Forms.NoteFromForm(title, body, now))))
    {
      notes := Upsert(notes, idx, Forms.NoteFromForm(title, body, now));
      Save();
    }

    /** The task editor's save (app.js:459-469). */
    method SaveTask(idx: Option<nat>, title: string, taskNotes: string, due: Option<int>, status: string) returns (ok: bool)
      requires idx.Some? ==> idx.value < |tasks|
      modifies this
      ensures ok <==> Trim(title) != ""
      ensures var t := Forms.TaskFromForm(title, taskNotes, due, status);
        if t.None? then Untouched() else Saved(old(Doc()).(tasks := Upsert(old(tasks), idx, t.value)))
    {
      var t := Forms.TaskFromForm(title, taskNotes, due, status);
      ok := t.Some?;
      if ok {
        tasks := Upsert(tasks, idx, t.value);
        Save();
      }
    }

    /** The recipe editor's save (app.js:786-795). */
    method SaveRecipe(idx: Option<nat>, title: string, description: string, ingredients: string, steps: string) returns (ok: bool)
      requires idx.Some? ==> idx.value < |recipes|
      modifies this
      ensures ok <==> Trim(title) != ""
      ensures var r := Forms.RecipeFromForm(title, description, ingredients, steps);
        if r.None? then Untouched() else Saved(old(Doc()).(recipes := Upsert(old(recipes), idx, r.value)))
    {
      var r := Forms.RecipeFromForm(title, description, ingredients, steps);
      ok := r.Some?;
      if ok {
        recipes := Upsert(recipes, idx, r.value);
        Save();
      }
    }

    /**
     * The product editor's save (app.js:564-573); `picked` is the image read
     * in the dialog ("" when none), else the edited product keeps its own.
     */
    method SaveProduct(idx: Option<nat>, name: string, description: string, price: int, stock: int, picked: string) returns (ok: bool)
      requires idx.Some? ==> idx.value < |products|
      modifies this
      ensures ok <==> Trim(name) != ""
      ensures var previous := if idx.Some? then old(products)[idx.value].image else "";
        var p := Forms.ProductFromForm(name, description, price, stock, picked, previous);
        if p.None? then Untouched() else Saved(old(Doc()).(products := Upsert(old(products), idx, p.value)))
    {
      var previous := if idx.Some? then products[idx.value].image else "";
      var p := Forms.ProductFromForm(name, description, price, stock, picked, previous);
      ok := p.Some?;
      if ok {
        products := Upsert(products, idx, p.value);
        Save();
      }
    }

    /** The inventory editor's save (app.js:624-631). */
    method SaveInventory(idx: Option<nat>, name: string, qty: int, unit: string) returns (ok: bool)
      requires idx.Some? ==> idx.value < |inventory|
      modifies this
      ensures ok <==> Trim(name) != ""
      ensures var it := Forms.InventoryFromForm(name, qty, unit);
        if it.None? then Untouched() else Saved(old(Doc()).(inventory := Upsert(old(inventory), idx, it.value)))
    {
      var it := Forms.InventoryFromForm(name, qty, unit);
      ok := it.Some?;
      if ok {
        inventory := Upsert(inventory, idx, it.value);
        Save();
      }
    }

    /** The reminder editor's save (app.js:876-884): the reminder is appended, saved, and the scheduler started. */
    method SaveReminder(title: string, remNotes: string, when: Option<int>, now: int) returns (ok: bool)
      modifies this
      ensures ok <==> Trim(title) != ""
      ensures var r := Forms.ReminderFromForm(title, remNotes, when, now);
        if r.None? then Untouched()
        else
          && Doc() == old(Doc()).(reminders := old(reminders) + [r.value])
          && saves == old(saves) + 1 && stored == Some(Doc())
          && notified == old(notified) && schedulerStarted
    {
      var r := Forms.ReminderFromForm(title, remNotes, when, now);
      ok := r.Some?;
      if ok {
        reminders := reminders + [r.value];
        Save();
        ScheduleCheck();
      }
    }

    // ----- deletes: `splice(idx, 1)` then save -----

    /** A need's delete button (app.js:233). */
    method DeleteNeed(idx: nat)
      modifies this
      ensures Saved(old(Doc()).(needs := Splice(old(needs), idx)))
    {
      needs := Splice(needs, idx);
      Save();
    }

    /** A note's delete button (app.js:344). */
    method DeleteNote(idx: nat)
      modifies this
      ensures Saved(old(Doc()).(notes := Splice(old(notes), idx)))
    {
      notes := Splice(notes, idx);
      Save();
    }

    /** A task's delete button (app.js:422). */
    method DeleteTask(idx: nat)
      modifies this
      ensures Saved(old(Doc()).(tasks := Splice(old(tasks), idx)))
    {
      tasks := Splice(tasks, idx);
      Save();
    }

    /** A product's delete button, after the confirmation dialog (app.js:530). */
    method DeleteProduct(idx: nat, confirmed: bool)
      modifies this
      ensures !confirmed ==> Untouched()
      ensures confirmed ==> Saved(old(Doc()).(products := Splice(old(products), idx)))
    {
      if confirmed {
        products := Splice(products, idx);
        Save();
      }
    }

    /** An inventory row's delete button, after the confirmation dialog (app.js:601). */
    method DeleteInventory(idx: nat, confirmed: bool)
      modifies this
      ensures !confirmed ==> Untouched()
      ensures confirmed ==> Saved(old(Doc()).(inventory := Splice(old(inventory), idx)))
    {
      if confirmed {
        inventory := Splice(inventory, idx);
        Save();
      }
    }

    /** An order's delete button, after the confirmation dialog (app.js:676). */
    method DeleteOrder(idx: nat, confirmed: bool)
      modifies this
      ensures !confirmed ==> Untouched()
      ensures confirmed ==> Saved(old(Doc()).(orders := Splice(old(orders), idx)))
    {
      if confirmed {
        orders := Splice(orders, idx);
        Save();
      }
    }

    /** A recipe's delete button (app.js:757). */
    method DeleteRecipe(idx: nat)
      modifies this
      ensures Saved(old(Doc()).(recipes := Splice(old(recipes), idx)))
    {
      recipes := Splice(recipes, idx);
      Save();
    }

    /** A reminder's delete button (app.js:850). */
    method DeleteReminder(idx: nat)
      modifies this
      ensures Saved(old(Doc()).(reminders := Splice(old(reminders), idx)))
    {
      reminders := Splice(reminders, idx);
      Save();
    }

    // ----- checkboxes -----

    /**
     * A need's checkbox (app.js:238-245): the status becomes 'Listo' or
     * 'Pendiente' and the legacy `acquired` key is removed; nothing else changes.
     */
    method SetNeedChecked(idx: nat, checked: bool)
      requires idx < |needs|
      modifies this
      ensures Saved(old(Doc()).(needs := old(needs)[idx := Checked(old(needs)[idx], checked)]))
      ensures NeedStatus(needs[idx]) == if checked then LISTO else PENDIENTE
    {
      needs := needs[idx := Checked(needs[idx], checked)];
      Save();
    }

    /** A task's checkbox (app.js:411-416): only `done` is set; `status` is left as it was. */
    method SetTaskDone(idx: nat, checked: bool)
      requires idx < |tasks|
      modifies this
      ensures Saved(old(Doc()).(tasks := old(tasks)[idx := old(tasks)[idx].(done := checked)]))
    {
      tasks := tasks[idx := tasks[idx].(done := checked)];
      Save();
    }

    // ----- orders -----

    /**
     * The order editor's save (app.js:717-726): refused with no line; else
     * every line deducts from the first product of its name, in order, the
     * order is appended and one save follows.
     */
    method PlaceOrder(customer: string, items: seq<LineItem>, now: int) returns (placed: bool)
      modifies this
      ensures placed <==> items != []
      ensures !placed ==> Untouched()
      ensures placed ==> Saved(old(Doc()).(
        products := Orders.DeductAll(old(products), items),
        orders := old(orders) + [Orders.OrderFor(customer, items, now).value]))
    {
      var order := Orders.OrderFor(customer, items, now);
      placed := order.Some?;
      if !placed {
        return;
      }
      var i := 0;
      while i < |items|
        invariant 0 <= i <= |items|
        invariant products == Orders.DeductAll(old(products), items[..i])
        invariant Doc() == old(Doc()).(products := products)
        invariant saves == old(saves) && stored == old(stored)
        invariant notified == old(notified) && schedulerStarted == old(schedulerStarted)
      {
        Orders.DeductAllSnoc(old(products), items, i);
        DeductLine(items[i]);
        i := i + 1;
      }
      assert items[..i] == items;
      orders := orders + [order.value];
      Save();
    }

    /**
     * The `forEach` callback of the order save (app.js:722-725): the first
     * product with the line's name loses the quantity, floored at 0, when its
     * stock is a number.
     */
    method DeductLine(it: LineItem)
      modifies this
      ensures products == Orders.DeductLine(old(products), it)
      ensures Doc() == old(Doc()).(products := products)
      ensures saves == old(saves) && stored == old(stored)
      ensures notified == old(notified) && schedulerStarted == old(schedulerStarted)
    {
      var found := Orders.FindByName(products, it.name);
      if found.Some? && products[found.value].stock.Some? {
        var k := found.value;
        products := products[k := products[k].(stock := Some(Orders.Floor0(products[k].stock.value - it.qty)))];
      }
    }

    // ----- reminders -----

    /** `scheduleCheck()` (app.js:889-890): starts the interval unless one is running. */
    method ScheduleCheck()
      modifies this
      ensures schedulerStarted
      ensures Doc() == old(Doc()) && saves == old(saves) && stored == old(stored) && notified == old(notified)
    {
      if !schedulerStarted {
        schedulerStarted := true;
      }
    }

    /**
     * One run of the interval body (app.js:891-899) at time `now`: due
     * reminders, in list order, are notified, marked fired and saved. Each
     * firing calls `refreshReminders()`, which throws unless the reminders
     * view is shown (`listShown`); the throw ends the run after its first
     * firing.
     */
    method Tick(now: int, listShown: bool)
      requires schedulerStarted
      modifies this
      ensures Doc() == old(Doc()).(reminders := Reminders.TickReminders(old(reminders), now, listShown))
      ensures notified == old(notified) + Reminders.TickNotices(old(reminders), now, listShown)
      ensures saves == old(saves) + |Reminders.TickNotices(old(reminders), now, listShown)|
      ensures stored == if Reminders.TickNotices(old(reminders), now, listShown) == [] then old(stored) else Some(Doc())
      ensures schedulerStarted
    {
      ghost var rs := reminders;
      var i := 0;
      var thrown := false;
      while i < |reminders| && !thrown
        invariant Reminders.FiredUpTo(rs, reminders, now, i)
        invariant Reminders.RunSoFar(rs, now, listShown, i, thrown)
        invariant Doc() == old(Doc()).(reminders := reminders)
        invariant notified == old(notified) + Reminders.NoticesFor(rs[..i], now)
        invariant saves == old(saves) + |Reminders.NoticesFor(rs[..i], now)|
        invariant stored == if Reminders.NoticesFor(rs[..i], now) == [] then old(stored) else Some(Doc())
        invariant schedulerStarted
      {
        Reminders.NoticesSnoc(rs, i, now);
        Reminders.RunStep(rs, reminders, now, listShown, i);
        var fired := FireIfDue(i, now);
        thrown := fired && !listShown;
        i := i + 1;
      }
      Reminders.TickStops(rs, reminders, now, listShown, i, thrown);
    }

    /**
     * The `forEach` callback of the tick (app.js:893-898) on reminder `i`:
     * when it is due it is notified, marked fired and saved, and `fired` says so.
     */
    method FireIfDue(i: nat, now: int) returns (fired: bool)
      requires i < |reminders|
      modifies this
      ensures fired == Reminders.Due(old(reminders)[i], now)
      ensures reminders == old(reminders)[i := Reminders.Fired(old(reminders)[i], now)]
      ensures Doc() == old(Doc()).(reminders := reminders)
      ensures var r := old(reminders)[i];
        if Reminders.Due(r, now) then
          notified == old(notified) + [Reminders.Notice(i, r.title, r.notes)] && saves == old(saves) + 1 && stored == Some(Doc())
        else
          reminders == old(reminders) && notified == old(notified) && saves == old(saves) && stored == old(stored)
      ensures schedulerStarted == old(schedulerStarted)
    {
      var r := reminders[i];
      fired := !r.fired && r.when <= now;
      if fired {
        notified := notified + [Reminders.Notice(i, r.title, r.notes)];
        reminders := reminders[i := r.(fired := true)];
        Save();
      }
    }

    // ----- needs at start-up -----

    /** `seedNeedsIfEmpty()` (app.js:968-1007): an empty list is replaced by the seed and saved. */
    method SeedNeedsIfEmpty()
      modifies this
      ensures old(needs) != [] ==> Untouched()
      ensures old(needs) == [] ==> Saved(old(Doc()).(needs := Seed.SEED))
      ensures needs == Seed.SeededNeeds(old(needs))
    {
      if needs == [] {
        needs := Seed.SEED;
        Save();
      }
    }

    /**
     * `addBulkNeeds(items)` (app.js:1012-1027): appends the entries of the
     * items whose trimmed, lower-cased name is new, and saves iff any was added.
     */
    method AddBulkNeeds(items: seq<Bulk.NeedInput>) returns (added: nat)
      modifies this
      ensures needs == old(needs) + Bulk.BulkEntries(Bulk.NeedKeys(old(needs)), items)
      ensures added == |Bulk.BulkEntries(Bulk.NeedKeys(old(needs)), items)|
      ensures added == 0 ==> Untouched()
      ensures added > 0 ==> Saved(old(Doc()).(needs := needs))
    {
      ghost var goal := old(needs) + Bulk.BulkEntries(Bulk.NeedKeys(needs), items);
      var existing := Bulk.NeedKeys(needs);
      added := 0;
      var i := 0;
      while i < |items|
        invariant 0 <= i <= |items|
        invariant goal == needs + Bulk.BulkEntries(existing, items[i..])
        invariant |needs| == |old(needs)| + added
        invariant Doc() == old(Doc()).(needs := needs)
        invariant saves == old(saves) && stored == old(stored)
        invariant notified == old(notified) && schedulerStarted == old(schedulerStarted)
      {
        Bulk.BulkEntriesAdvance(needs, existing, items, i);
        var took;
        existing, took := AddIfNew(items[i], existing);
        if took {
          added := added + 1;
        }
        i := i + 1;
      }
      assert needs == goal;
      if added > 0 {
        Save();
      }
    }

    /**
     * The `forEach` callback of `addBulkNeeds` (app.js:1014-1024): an item
     * with a non-blank name whose key is not yet in `existing` is appended
     * with the defaults, and its key is added.
     */
    method AddIfNew(it: Bulk.NeedInput, existing: set<string>) returns (existing': set<string>, took: bool)
      modifies this
      ensures took <==> Bulk.Accepts(existing, it)
      ensures needs == old(needs) + (if took then [Bulk.EntryFor(it)] else [])
      ensures existing' == if took then existing + {Key(Bulk.NameOf(it))} else existing
      ensures Doc() == old(Doc()).(needs := needs)
      ensures saves == old(saves) && stored == old(stored)
      ensures notified == old(notified) && schedulerStarted == old(schedulerStarted)
    {
      var name := Trim(Bulk.NameOf(it));
      took := name != "" && Lower(name) !in existing;
      existing' := existing;
      if took {
        needs := needs + [Bulk.EntryFor(it)];
        existing' := existing + {Lower(name)};
      }
    }

    /**
     * The start-up sequence (app.js:963-1073): load, seed if empty, bulk-add
     * the owner's list, start the scheduler.
     */
    method Startup(persisted: Option<Patch>)
      modifies this
      ensures var loaded := if persisted.Some? then Merge(old(Doc()), persisted.value) else old(Doc());
        Doc() == loaded.(needs := Seed.StartupNeeds(loaded.needs))
      ensures schedulerStarted && notified == old(notified)
    {
      Load(persisted);
      SeedNeedsIfEmpty();
      var _ := AddBulkNeeds(Seed.USER_NEEDS);
      ScheduleCheck();
    }
  }

  /** The need a checkbox writes: status from the box, no `acquired` key. */
  function Checked(n: Need, checked: bool): (r: Need)
    ensures r.name == n.name && r.description == n.description && r.price == n.price && r.urgency == n.urgency
    ensures r.acquired.None?
    ensures NeedStatus(r) == if checked then LISTO else PENDIENTE
  {
    n.(status := Some(if checked then LISTO else PENDIENTE), acquired := None)
  }
}
