/**
 * The bulk addition of needs without duplicates (`addBulkNeeds`,
 * app.js:1012-1027), as functions; the store's method performs it in place
 * against these.
 */
module Bulk {
  import opened Wrappers
  import opened Text
  import opened Records
  import Seqs

  /** One item handed to `addBulkNeeds`: any of its keys may be missing. */
  datatype NeedInput = NeedInput(
    name: Option<string>, description: Option<string>, price: Option<int>,
    urgency: Option<int>, status: Option<string>, acquired: Option<bool>)

  /** `String(it.name || '')`. */
  function NameOf(it: NeedInput): string {
    it.name.GetOr("")
  }

  /** `Object.assign({description: '', price: 0, urgency: 5, status: 'Pendiente'}, it)`. */
  function EntryFor(it: NeedInput): (n: Need)
    ensures n.name == NameOf(it) && n.acquired == it.acquired
    ensures it.description.None? ==> n.description == ""
    ensures it.price.None? ==> n.price == 0
    ensures it.urgency.None? ==> n.urgency == DEFAULT_URGENCY
    ensures it.status.None? ==> n.status == Some(PENDIENTE)
    ensures it.description.Some? ==> n.description == it.description.value
    ensures it.price.Some? ==> n.price == it.price.value
    ensures it.urgency.Some? ==> n.urgency == it.urgency.value
    ensures it.status.Some? ==> n.status == it.status
  {
    Need(NameOf(it), it.description.GetOr(""), it.price.GetOr(0), it.urgency.GetOr(DEFAULT_URGENCY),
      Some(it.status.GetOr(PENDIENTE)), it.acquired)
  }

  /** `needs.map(n => f(n.name))`. */
  function MapNames(f: string -> string, needs: seq<Need>): (r: seq<string>)
    ensures |r| == |needs|
  {
    if needs == [] then [] else [f(needs[0].name)] + MapNames(f, needs[1..])
  }

  lemma MapNamesCons(f: string -> string, n: Need, rest: seq<Need>)
    ensures MapNames(f, [n] + rest) == [f(n.name)] + MapNames(f, rest)
  {
    assert ([n] + rest)[1..] == rest;
  }

  lemma {:induction false} MapNamesAppend(f: string -> string, a: seq<Need>, b: seq<Need>)
    ensures MapNames(f, a + b) == MapNames(f, a) + MapNames(f, b)
  {
    if a == [] {
      assert a + b == b;
    } else {
      assert (a + b)[0] == a[0] && (a + b)[1..] == a[1..] + b;
      MapNamesAppend(f, a[1..], b);
    }
  }

  lemma {:induction false} MapNamesAt(f: string -> string, needs: seq<Need>, j: nat)
    requires j < |needs|
    ensures MapNames(f, needs)[j] == f(needs[j].name)
  {
    if j > 0 {
      MapNamesAt(f, needs[1..], j - 1);
    }
  }

  /** The de-duplication key of every need, position by position: `needs.map(n => String(n.name || '').trim().toLowerCase())`. */
  function KeysOf(needs: seq<Need>): (ks: seq<string>)
    ensures |ks| == |needs|
  {
    MapNames(Key, needs)
  }

  /** The set `addBulkNeeds` starts from: the keys of the needs already stored. */
  function NeedKeys(needs: seq<Need>): set<string> {
    set x | x in KeysOf(needs)
  }

  /** A key is taken exactly when some stored need has it. */
  lemma NeedKeysAre(needs: seq<Need>, x: string)
    ensures x in NeedKeys(needs) <==> exists j :: 0 <= j < |needs| && Key(needs[j].name) == x
  {
    if x in NeedKeys(needs) {
      var j :| 0 <= j < |needs| && KeysOf(needs)[j] == x;
      KeysOfAt(needs, j);
    }
    forall j | 0 <= j < |needs| && Key(needs[j].name) == x ensures x in NeedKeys(needs) {
      KeysOfAt(needs, j);
    }
  }

  lemma KeysOfCons(n: Need, rest: seq<Need>)
    ensures KeysOf([n] + rest) == [Key(n.name)] + KeysOf(rest)
  {
    MapNamesCons(Key, n, rest);
  }

  lemma KeysOfAppend(a: seq<Need>, b: seq<Need>)
    ensures KeysOf(a + b) == KeysOf(a) + KeysOf(b)
  {
    MapNamesAppend(Key, a, b);
  }

  /** The keys of two lists together are the keys of each. */
  lemma NeedKeysAppend(a: seq<Need>, b: seq<Need>)
    ensures NeedKeys(a + b) == NeedKeys(a) + NeedKeys(b)
  {
    KeysOfAppend(a, b);
  }

  /** Position `j` of the keys is the key of need `j`. */
  lemma KeysOfAt(needs: seq<Need>, j: nat)
    requires j < |needs|
    ensures KeysOf(needs)[j] == Key(needs[j].name)
  {
    MapNamesAt(Key, needs, j);
  }

  /** No key occurs twice. */
  predicate Distinct(ks: seq<string>) {
    forall k, l :: 0 <= k < l < |ks| ==> ks[k] != ks[l]
  }

  /** No key is among the taken ones. */
  predicate Avoids(ks: seq<string>, seen: set<string>) {
    forall k :: 0 <= k < |ks| ==> ks[k] !in seen
  }

  /** An item is taken when its trimmed name is not empty and its key has not been seen. */
  predicate Accepts(seen: set<string>, it: NeedInput) {
    Trim(NameOf(it)) != "" && Key(NameOf(it)) !in seen
  }

  /** The entries `addBulkNeeds` appends, in input order, when the keys in `seen` are already taken. */
  function BulkEntries(seen: set<string>, items: seq<NeedInput>): (r: seq<Need>)
    ensures |r| <= |items|
    decreases |items|
  {
    if items == [] then []
    else if Accepts(seen, items[0]) then
      [EntryFor(items[0])] + BulkEntries(seen + {Key(NameOf(items[0]))}, items[1..])
    else BulkEntries(seen, items[1..])
  }

  /** One step of the left-to-right pass over `items`, from position `i`. */
  lemma BulkEntriesStep(seen: set<string>, items: seq<NeedInput>, i: nat)
    requires i < |items|
    ensures BulkEntries(seen, items[i..]) ==
      if Accepts(seen, items[i]) then [EntryFor(items[i])] + BulkEntries(seen + {Key(NameOf(items[i]))}, items[i + 1..])
      else BulkEntries(seen, items[i + 1..])
  {
    assert items[i..][0] == items[i] && items[i..][1..] == items[i + 1..];
  }

  /** What is still to be appended after taking or skipping item `i` on top of `done`. */
  lemma BulkEntriesAdvance(done: seq<Need>, seen: set<string>, items: seq<NeedInput>, i: nat)
    requires i < |items|
    ensures done + BulkEntries(seen, items[i..]) ==
      (done + (if Accepts(seen, items[i]) then [EntryFor(items[i])] else []))
      + BulkEntries(if Accepts(seen, items[i]) then seen + {Key(NameOf(items[i]))} else seen, items[i + 1..])
  {
    BulkEntriesStep(seen, items, i);
    if Accepts(seen, items[i]) {
      Seqs.AppendOne(done, EntryFor(items[i]), BulkEntries(seen + {Key(NameOf(items[i]))}, items[i + 1..]));
    } else {
      assert done + [] == done;
    }
  }

  /** The entry of every input item, position by position. */
  function AllEntries(items: seq<NeedInput>): (r: seq<Need>)
    ensures |r| == |items| && forall j :: 0 <= j < |items| ==> r[j] == EntryFor(items[j])
  {
    seq(|items|, j requires 0 <= j < |items| => EntryFor(items[j]))
  }

  /** Each appended entry has a visible name whose key was not taken. */
  predicate FreshEntries(r: seq<Need>, seen: set<string>) {
    VisibleNames(r) && KeysAvoid(r, seen)
  }

  predicate VisibleNames(r: seq<Need>) {
    forall k :: 0 <= k < |r| ==> Trim(r[k].name) != ""
  }

  predicate KeysAvoid(r: seq<Need>, seen: set<string>) {
    Avoids(KeysOf(r), seen)
  }

  /** Each appended entry is the entry of one of the items. */
  predicate FromItems(r: seq<Need>, items: seq<NeedInput>) {
    forall k :: 0 <= k < |r| ==> r[k] in AllEntries(items)
  }

  /** No two appended entries share a key. */
  predicate DistinctKeys(r: seq<Need>) {
    Distinct(KeysOf(r))
  }

  lemma FromItemsWiden(r: seq<Need>, items: seq<NeedInput>)
    requires items != [] && FromItems(r, items[1..])
    ensures FromItems(r, items)
  {
    var all := AllEntries(items);
    var tail := AllEntries(items[1..]);
    forall k | 0 <= k < |r| ensures r[k] in all {
      var j :| 0 <= j < |tail| && tail[j] == r[k];
      assert all[j + 1] == tail[j];
    }
  }

  lemma FromItemsCons(rest: seq<Need>, items: seq<NeedInput>)
    requires items != [] && FromItems(rest, items)
    ensures FromItems([EntryFor(items[0])] + rest, items)
  {
    var r := [EntryFor(items[0])] + rest;
    assert AllEntries(items)[0] == EntryFor(items[0]);
    forall k | 0 <= k < |r| ensures r[k] in AllEntries(items) {
      if k > 0 {
        assert r[k] == rest[k - 1];
      }
    }
  }

  /** Every appended entry has a non-blank name whose trimmed, lower-cased form was not among the taken keys. */
  lemma {:induction false} BulkFresh(seen: set<string>, items: seq<NeedInput>)
    ensures FreshEntries(BulkEntries(seen, items), seen)
    decreases |items|
  {
    if items != [] {
      var it := items[0];
      if Accepts(seen, it) {
        var seen' := seen + {Key(NameOf(it))};
        var rest := BulkEntries(seen', items[1..]);
        BulkFresh(seen', items[1..]);
        FreshCons(EntryFor(it), rest, seen, seen');
      } else {
        BulkFresh(seen, items[1..]);
      }
    }
  }

  lemma FreshCons(n: Need, rest: seq<Need>, seen: set<string>, seen': set<string>)
    requires Trim(n.name) != "" && Key(n.name) !in seen && seen <= seen'
    requires FreshEntries(rest, seen')
    ensures FreshEntries([n] + rest, seen)
  {
    VisibleCons(n, rest);
    AvoidCons(n, rest, seen, seen');
  }

  lemma VisibleCons(n: Need, rest: seq<Need>)
    requires Trim(n.name) != "" && VisibleNames(rest)
    ensures VisibleNames([n] + rest)
  {
    var r := [n] + rest;
    forall k | 0 <= k < |r| ensures Trim(r[k].name) != "" {
      if k > 0 {
        assert r[k].name == rest[k - 1].name;
      }
    }
  }

  lemma AvoidCons(n: Need, rest: seq<Need>, seen: set<string>, seen': set<string>)
    requires Key(n.name) !in seen && seen <= seen' && KeysAvoid(rest, seen')
    ensures KeysAvoid([n] + rest, seen)
  {
    KeysOfCons(n, rest);
    AvoidsCons(Key(n.name), KeysOf(rest), seen, seen');
  }

  lemma AvoidsCons(x: string, ks: seq<string>, seen: set<string>, seen': set<string>)
    requires x !in seen && seen <= seen' && Avoids(ks, seen')
    ensures Avoids([x] + ks, seen)
  {
    var r := [x] + ks;
    forall k | 0 <= k < |r| ensures r[k] !in seen {
      if k > 0 {
        assert r[k] == ks[k - 1];
      }
    }
  }

  /** Every appended entry carries the defaults and the fields of one of the input items. */
  lemma {:induction false} BulkFromItems(seen: set<string>, items: seq<NeedInput>)
    ensures FromItems(BulkEntries(seen, items), items)
    decreases |items|
  {
    if items != [] {
      var it := items[0];
      if Accepts(seen, it) {
        var rest := BulkEntries(seen + {Key(NameOf(it))}, items[1..]);
        BulkFromItems(seen + {Key(NameOf(it))}, items[1..]);
        FromItemsWiden(rest, items);
        FromItemsCons(rest, items);
      } else {
        BulkFromItems(seen, items[1..]);
        FromItemsWiden(BulkEntries(seen, items[1..]), items);
      }
    }
  }

  /** The appended entries have pairwise different keys. */
  lemma {:induction false} BulkDistinct(seen: set<string>, items: seq<NeedInput>)
    ensures DistinctKeys(BulkEntries(seen, items))
    decreases |items|
  {
    if items != [] {
      var it := items[0];
      if Accepts(seen, it) {
        var seen' := seen + {Key(NameOf(it))};
        var rest := BulkEntries(seen', items[1..]);
        BulkDistinct(seen', items[1..]);
        BulkFresh(seen', items[1..]);
        assert KeysAvoid(rest, seen');
        DistinctCons(EntryFor(it), rest, seen');
      } else {
        BulkDistinct(seen, items[1..]);
      }
    }
  }

  lemma DistinctCons(n: Need, rest: seq<Need>, seen': set<string>)
    requires Key(n.name) in seen' && KeysAvoid(rest, seen') && DistinctKeys(rest)
    ensures DistinctKeys([n] + rest)
  {
    KeysOfCons(n, rest);
    DistinctStringsCons(Key(n.name), KeysOf(rest), seen');
  }

  lemma DistinctStringsCons(x: string, ks: seq<string>, seen': set<string>)
    requires x in seen' && Avoids(ks, seen') && Distinct(ks)
    ensures Distinct([x] + ks)
  {
    var r := [x] + ks;
    forall k, l | 0 <= k < l < |r| ensures r[k] != r[l] {
      assert r[l] == ks[l - 1];
      if k > 0 {
        assert r[k] == ks[k - 1];
      }
    }
  }

  /** Every item with a visible name has its key in `known`. */
  predicate Represented(items: seq<NeedInput>, known: set<string>) {
    forall j :: 0 <= j < |items| && Trim(NameOf(items[j])) != "" ==> Key(NameOf(items[j])) in known
  }

  /** Every item with a visible name ends up represented: its key was taken already or is among the appended keys. */
  lemma {:induction false} BulkComplete(seen: set<string>, items: seq<NeedInput>)
    ensures Represented(items, seen + NeedKeys(BulkEntries(seen, items)))
    decreases |items|
  {
    if items != [] {
      var it := items[0];
      if Accepts(seen, it) {
        var k := Key(NameOf(it));
        var rest := BulkEntries(seen + {k}, items[1..]);
        BulkComplete(seen + {k}, items[1..]);
        NeedKeysCons(EntryFor(it), rest);
        assert BulkEntries(seen, items) == [EntryFor(it)] + rest;
        assert (seen + {k}) + NeedKeys(rest) == seen + NeedKeys([EntryFor(it)] + rest);
        RepresentedCons(items, (seen + {k}) + NeedKeys(rest), seen + NeedKeys([EntryFor(it)] + rest));
      } else {
        var rest := BulkEntries(seen, items[1..]);
        BulkComplete(seen, items[1..]);
        assert BulkEntries(seen, items) == rest;
        RepresentedCons(items, seen + NeedKeys(rest), seen + NeedKeys(rest));
      }
    }
  }

  lemma NeedKeysCons(n: Need, rest: seq<Need>)
    ensures NeedKeys([n] + rest) == {Key(n.name)} + NeedKeys(rest)
  {
    KeysOfCons(n, rest);
  }

  lemma RepresentedCons(items: seq<NeedInput>, known: set<string>, known': set<string>)
    requires items != [] && Represented(items[1..], known) && known <= known'
    requires Trim(NameOf(items[0])) != "" ==> Key(NameOf(items[0])) in known'
    ensures Represented(items, known')
  {
    forall j | 0 <= j < |items| && Trim(NameOf(items[j])) != "" ensures Key(NameOf(items[j])) in known' {
      if j > 0 {
        assert items[1..][j - 1] == items[j];
      }
    }
  }

  /** When every item is blank or already known, nothing is appended. */
  lemma {:induction false} BulkNothingNew(seen: set<string>, items: seq<NeedInput>)
    requires Represented(items, seen)
    ensures BulkEntries(seen, items) == []
  {
    if items != [] {
      assert !Accepts(seen, items[0]);
      assert Represented(items[1..], seen) by {
        forall j | 0 <= j < |items[1..]| && Trim(NameOf(items[1..][j])) != ""
          ensures Key(NameOf(items[1..][j])) in seen
        {
          assert items[1..][j] == items[j + 1];
        }
      }
      BulkNothingNew(seen, items[1..]);
    }
  }

  /** Running the same bulk addition again appends nothing. */
  lemma BulkTwice(seen: set<string>, items: seq<NeedInput>)
    ensures BulkEntries(seen + NeedKeys(BulkEntries(seen, items)), items) == []
  {
    BulkComplete(seen, items);
    BulkNothingNew(seen + NeedKeys(BulkEntries(seen, items)), items);
  }

  // ----- which item wins, and in what order -----

  /** The keys claimed by the items with a visible name among `items`. */
  function ItemKeys(items: seq<NeedInput>): set<string>
    decreases |items|
  {
    if items == [] then {}
    else
      var last := items[|items| - 1];
      ItemKeys(items[..|items| - 1]) + (if Trim(NameOf(last)) != "" then {Key(NameOf(last))} else {})
  }

  /** Item `it` has a visible name with key `x`. */
  predicate Claims(it: NeedInput, x: string) {
    Trim(NameOf(it)) != "" && Key(NameOf(it)) == x
  }

  /** A key is claimed exactly when some item with a visible name carries it. */
  lemma {:induction false} ItemKeysAre(items: seq<NeedInput>, x: string)
    ensures x in ItemKeys(items) <==> exists i :: 0 <= i < |items| && Claims(items[i], x)
    decreases |items|
  {
    if items != [] {
      var prefix := items[..|items| - 1];
      var last := items[|items| - 1];
      ItemKeysAre(prefix, x);
      if x in ItemKeys(prefix) {
        var i :| 0 <= i < |prefix| && Claims(prefix[i], x);
        assert items[i] == prefix[i];
      } else if Claims(last, x) {
        assert items[|items| - 1] == last;
      } else {
        forall i | 0 <= i < |items| ensures !Claims(items[i], x) {
          if i < |prefix| {
            assert items[i] == prefix[i];
          }
        }
      }
    }
  }

  /** Item `j` is appended: its key is neither taken nor claimed by an earlier item. */
  predicate Wins(seen: set<string>, items: seq<NeedInput>, j: nat)
    requires j < |items|
  {
    Accepts(seen + ItemKeys(items[..j]), items[j])
  }

  /** The entries of the winning items from position `i` on, in input order. */
  function WinnersFrom(seen: set<string>, items: seq<NeedInput>, i: nat): seq<Need>
    requires i <= |items|
    decreases |items| - i
  {
    if i == |items| then []
    else (if Wins(seen, items, i) then [EntryFor(items[i])] else []) + WinnersFrom(seen, items, i + 1)
  }

  /**
   * An item wins exactly when its name is visible, its key was not taken, and
   * every earlier item with a visible name has a different key: the first
   * occurrence of a key is the one kept.
   */
  lemma WinsIsFirst(seen: set<string>, items: seq<NeedInput>, j: nat)
    requires j < |items|
    ensures Wins(seen, items, j) <==>
      Trim(NameOf(items[j])) != "" && Key(NameOf(items[j])) !in seen
      && forall i :: 0 <= i < j && Trim(NameOf(items[i])) != "" ==> Key(NameOf(items[i])) != Key(NameOf(items[j]))
  {
    var prefix := items[..j];
    ItemKeysAre(prefix, Key(NameOf(items[j])));
    assert forall i :: 0 <= i < j ==> prefix[i] == items[i];
  }

  /** The keys claimed by one more item. */
  lemma ItemKeysSnoc(items: seq<NeedInput>, i: nat)
    requires i < |items|
    ensures ItemKeys(items[..i + 1]) ==
      ItemKeys(items[..i]) + (if Trim(NameOf(items[i])) != "" then {Key(NameOf(items[i]))} else {})
  {
    assert items[..i + 1][..i] == items[..i];
  }

  /** The pass from position `i` on, with the keys of the earlier items taken, appends the winners from `i` on. */
  lemma {:induction false} BulkEntriesFrom(seen: set<string>, items: seq<NeedInput>, i: nat)
    requires i <= |items|
    ensures BulkEntries(seen + ItemKeys(items[..i]), items[i..]) == WinnersFrom(seen, items, i)
    decreases |items| - i
  {
    if i < |items| {
      var taken := seen + ItemKeys(items[..i]);
      BulkEntriesStep(taken, items, i);
      ItemKeysSnoc(items, i);
      var next := if Accepts(taken, items[i]) then taken + {Key(NameOf(items[i]))} else taken;
      assert next == seen + ItemKeys(items[..i + 1]);
      BulkEntriesFrom(seen, items, i + 1);
    }
  }

  /**
   * `addBulkNeeds` appends, in input order, the entries of exactly the items
   * that win: for each new key, the first item carrying it.
   */
  lemma BulkIsWinners(seen: set<string>, items: seq<NeedInput>)
    ensures BulkEntries(seen, items) == WinnersFrom(seen, items, 0)
  {
    assert items[..0] == [] && items[0..] == items;
    assert seen + ItemKeys([]) == seen;
    BulkEntriesFrom(seen, items, 0);
  }
}
