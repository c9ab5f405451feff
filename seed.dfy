/**
 * The needs a first run starts from (`seedNeedsIfEmpty`, app.js:968-1007)
 * and the owner's list that every start bulk-adds (app.js:1030-1066).
 */
module Seed {
  import opened Wrappers
  import opened Text
  import opened Records
  import opened Bulk

  /** The status of seeded need `i`: the first two are done, the third and the last are pending, the rest have none. */
  function SeedStatus(i: nat): Option<string> {
    if i < 2 then Some(LISTO) else if i == 2 || i == 32 then Some(PENDIENTE) else None
  }

  /** `Need` with the seed's defaults. */
  function SeedNeed(name: string, status: Option<string>): Need {
    Need(name, "", 0, DEFAULT_URGENCY, status, None)
  }

  /** The 33 needs `seedNeedsIfEmpty` installs (app.js:970-1004). */
  const SEED: seq<Need> := [
    SeedNeed("Batidora", Some(LISTO)),
    SeedNeed("Espatulas de silicona", Some(LISTO)),
    SeedNeed("Mangas descartables", Some(PENDIENTE)),
    SeedNeed("Batidor de mano", None),
    SeedNeed("Picos", None),
    SeedNeed("Rayador", None),
    SeedNeed("Bowls", None),
    SeedNeed("Moldes de tortas", None),
    SeedNeed("Moldes de tartas", None),
    SeedNeed("Medidor", None),
    SeedNeed("Tamizador", None),
    SeedNeed("Mini procesadora", None),
    SeedNeed("Palo de amazar (grande)", None),
    SeedNeed("Lámina antiadherente de silicona", None),
    SeedNeed("Cortantes", None),
    SeedNeed("Pincel de silicona", None),
    SeedNeed("Espatulas de acero", None),
    SeedNeed("Alisador", None),
    SeedNeed("Balanza", None),
    SeedNeed("Base giratoria", None),
    SeedNeed("Soplete + Gas", None),
    SeedNeed("Molde de cupcakes", None),
    SeedNeed("Rejilla con patitas de fierro", None),
    SeedNeed("Termómetro", None),
    SeedNeed("Caja de colorantes", None),
    SeedNeed("Mueble para guardar", None),
    SeedNeed("Trapos", None),
    SeedNeed("Guantes de latex", None),
    SeedNeed("Moldes de acetato de chocolates", None),
    SeedNeed("Cucharas medidoras", None),
    SeedNeed("Exprimidor de limón", None),
    SeedNeed("Cuchillos de pasteleria", None),
    SeedNeed("Tuppers", Some(PENDIENTE))]

  /** An item of the owner's list: a name and, for the first two, a status. */
  function Named(name: string, status: Option<string>): NeedInput {
    NeedInput(Some(name), None, None, None, status, None)
  }

  /** The owner's list every start bulk-adds (app.js:1030-1064). */
  const USER_NEEDS: seq<NeedInput> := [
    Named("Batidora", Some(LISTO)),
    Named("Espatulas de silicona", Some(LISTO)),
    Named("Mangas descartables", None),
    Named("Batidor de mano", None),
    Named("Picos", None),
    Named("Rayador", None),
    Named("Bowls", None),
    Named("Moldes de tortas", None),
    Named("Moldes de tartas", None),
    Named("Medidor", None),
    Named("Tamizador", None),
    Named("Mini procesadora", None),
    Named("Palo de amazar (grande)", None),
    Named("Lámina antiadherente de silicona", None),
    Named("Cortantes", None),
    Named("Pincel de silicona", None),
    Named("Espatulas de acero", None),
    Named("Alisador", None),
    Named("Balanza", None),
    Named("Base giratoria", None),
    Named("Soplete + Gas", None),
    Named("Molde de cupcakes", None),
    Named("Rejilla con patitas de fierro", None),
    Named("Termómetro", None),
    Named("Caja de colorantes", None),
    Named("Mueble para guardar", None),
    Named("Trapos", None),
    Named("Guantes de latex", None),
    Named("Moldes de acetato de chocolates", None),
    Named("Cucharas medidoras", None),
    Named("Exprimidor de limón", None),
    Named("Cuchillos de pasteleria", None),
    Named("Tuppers", None)]

  /** The seed carries the statuses its literal lists. */
  lemma SeedStatuses()
    ensures |SEED| == 33
    ensures forall i :: 0 <= i < |SEED| ==> SEED[i] == SeedNeed(SEED[i].name, SeedStatus(i))
  {
  }

  /** The owner's list names the seeded needs, in the same order. */
  lemma UserNeedsNameTheSeed()
    ensures |USER_NEEDS| == |SEED|
    ensures forall j :: 0 <= j < |USER_NEEDS| ==> NameOf(USER_NEEDS[j]) == SEED[j].name
  {
  }

  /** `seedNeedsIfEmpty`: an empty list is replaced by the seed, any other list is kept. */
  function SeededNeeds(needs: seq<Need>): (r: seq<Need>)
    ensures needs == [] ==> r == SEED
    ensures needs != [] ==> r == needs
  {
    if needs == [] then SEED else needs
  }

  /** The needs list after a start: seeded if empty, then the owner's list bulk-added. */
  function StartupNeeds(needs: seq<Need>): (r: seq<Need>)
    ensures r != []
  {
    var seeded := SeededNeeds(needs);
    seeded + BulkEntries(NeedKeys(seeded), USER_NEEDS)
  }

  /** On a first run the bulk addition finds every one of the owner's items already seeded and adds nothing. */
  lemma FirstRunAddsNothing()
    ensures BulkEntries(NeedKeys(SEED), USER_NEEDS) == []
    ensures StartupNeeds([]) == SEED
  {
    UserNeedsNameTheSeed();
    assert Represented(USER_NEEDS, NeedKeys(SEED)) by {
      forall j | 0 <= j < |USER_NEEDS| && Trim(NameOf(USER_NEEDS[j])) != ""
        ensures Key(NameOf(USER_NEEDS[j])) in NeedKeys(SEED)
      {
        KeysOfAt(SEED, j);
      }
    }
    BulkNothingNew(NeedKeys(SEED), USER_NEEDS);
  }

  /** Starting again from the needs a start left changes nothing: the owner's list is never added twice. */
  lemma StartupIdempotent(needs: seq<Need>)
    ensures StartupNeeds(StartupNeeds(needs)) == StartupNeeds(needs)
  {
    var seeded := SeededNeeds(needs);
    var added := BulkEntries(NeedKeys(seeded), USER_NEEDS);
    var once := seeded + added;
    assert SeededNeeds(once) == once;
    NeedKeysAppend(seeded, added);
    BulkComplete(NeedKeys(seeded), USER_NEEDS);
    BulkNothingNew(NeedKeys(once), USER_NEEDS);
  }

  /**
   * After every start each item of the owner's list is present by trimmed,
   * lower-cased name: a default the owner deleted comes back at the next start.
   */
  lemma StartupRestoresOwnerList(needs: seq<Need>)
    ensures Represented(USER_NEEDS, NeedKeys(StartupNeeds(needs)))
  {
    var seeded := SeededNeeds(needs);
    var added := BulkEntries(NeedKeys(seeded), USER_NEEDS);
    NeedKeysAppend(seeded, added);
    BulkComplete(NeedKeys(seeded), USER_NEEDS);
  }
}
