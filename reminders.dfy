/**
 * The reminder tick: the body of the interval `scheduleCheck` starts
 * (app.js:891-900), as functions of the reminder list and the current time.
 * The store's `Tick` method performs it in place and is proved equal to
 * these functions.
 *
 * Each firing ends with `refreshReminders()`, which writes into the
 * `remList` element (app.js:832-833). That element exists only while the
 * reminders view is shown (app.js:824); on any other view the write throws
 * and ends the `forEach` after the first firing. So a tick has two forms:
 * with the list shown every due reminder fires (`FireDue`, `NoticesFor`),
 * otherwise only the first due one does (`FireFirstDue`, `FirstNotice`).
 */
module Reminders {
  import opened Wrappers
  import opened Records

  /** A reminder fires when it has not fired yet and its time has come (`!r.fired && r.when <= now`). */
  predicate Due(r: Reminder, now: int) {
    !r.fired && r.when <= now
  }

  /** What one notification carries: the position of the reminder it is about, its title and its notes. */
  datatype Notice = Notice(index: nat, title: string, notes: string)

  /** A reminder after a tick at `now`: marked fired if it was due. */
  function Fired(r: Reminder, now: int): Reminder {
    if Due(r, now) then r.(fired := true) else r
  }

  /** The reminder list after a tick at `now`: every due reminder has `fired` set. */
  function FireDue(rs: seq<Reminder>, now: int): (r: seq<Reminder>)
    ensures |r| == |rs|
    ensures forall i :: 0 <= i < |rs| ==> r[i] == rs[i].(fired := r[i].fired)
    ensures forall i :: 0 <= i < |rs| ==> (r[i].fired <==> rs[i].fired || rs[i].when <= now)
    ensures forall i :: 0 <= i < |rs| && !Due(rs[i], now) ==> r[i] == rs[i]
  {
    seq(|rs|, i requires 0 <= i < |rs| => Fired(rs[i], now))
  }

  /** The notifications a tick at `now` shows, in list order. */
  function NoticesFor(rs: seq<Reminder>, now: int): (ns: seq<Notice>)
    ensures |ns| <= |rs|
    ensures forall k :: 0 <= k < |ns| ==> ns[k].index < |rs|
  {
    if rs == [] then []
    else
      var last := rs[|rs| - 1];
      NoticesFor(rs[..|rs| - 1], now) + (if Due(last, now) then [Notice(|rs| - 1, last.title, last.notes)] else [])
  }

  /** The notifications of one more reminder: those of the shorter list, then one when it is due. */
  lemma NoticesSnoc(rs: seq<Reminder>, i: nat, now: int)
    requires i < |rs|
    ensures NoticesFor(rs[..i + 1], now)
      == NoticesFor(rs[..i], now) + (if Due(rs[i], now) then [Notice(i, rs[i].title, rs[i].notes)] else [])
  {
    assert rs[..i + 1][..i] == rs[..i];
  }

  /** The positions the notifications are about. */
  function NoticedIndices(ns: seq<Notice>): set<nat> {
    set k | 0 <= k < |ns| :: ns[k].index
  }

  /** The positions of the reminders due at `now`. */
  function DueIndices(rs: seq<Reminder>, now: int): set<nat> {
    set i: nat | i < |rs| && Due(rs[i], now)
  }

  /** Each notification names a reminder that was due, with that reminder's title and notes. */
  predicate SoundNotices(ns: seq<Notice>, rs: seq<Reminder>, now: int) {
    forall k :: 0 <= k < |ns| ==>
      ns[k].index < |rs| && Due(rs[ns[k].index], now)
      && ns[k].title == rs[ns[k].index].title && ns[k].notes == rs[ns[k].index].notes
  }

  /** Strictly increasing positions: no reminder is notified twice. */
  predicate StrictlyIncreasing(ns: seq<Notice>) {
    forall k, l :: 0 <= k < l < |ns| ==> ns[k].index < ns[l].index
  }

  /** Every notification of a tick is about a due reminder and carries its title and notes. */
  lemma {:induction false} NoticesSound(rs: seq<Reminder>, now: int)
    ensures SoundNotices(NoticesFor(rs, now), rs, now)
  {
    if rs != [] {
      var prefix := rs[..|rs| - 1];
      NoticesSound(prefix, now);
      var ns := NoticesFor(rs, now);
      var ps := NoticesFor(prefix, now);
      forall k | 0 <= k < |ns|
        ensures ns[k].index < |rs| && Due(rs[ns[k].index], now)
        ensures ns[k].title == rs[ns[k].index].title && ns[k].notes == rs[ns[k].index].notes
      {
        if k < |ps| {
          assert ns[k] == ps[k];
          assert rs[ps[k].index] == prefix[ps[k].index];
        }
      }
    }
  }

  /** The notifications of a tick come in list order, so no reminder is notified twice. */
  lemma {:induction false} NoticesOnce(rs: seq<Reminder>, now: int)
    ensures StrictlyIncreasing(NoticesFor(rs, now))
  {
    if rs != [] {
      var prefix := rs[..|rs| - 1];
      NoticesOnce(prefix, now);
      var ns := NoticesFor(rs, now);
      var ps := NoticesFor(prefix, now);
      forall k, l | 0 <= k < l < |ns| ensures ns[k].index < ns[l].index {
        if l >= |ps| {
          assert ns[k] == ps[k];
        } else {
          assert ns[k] == ps[k] && ns[l] == ps[l];
        }
      }
    }
  }

  /** Exactly the due reminders are notified. */
  lemma {:induction false} NoticesComplete(rs: seq<Reminder>, now: int)
    ensures NoticedIndices(NoticesFor(rs, now)) == DueIndices(rs, now)
  {
    if rs != [] {
      var prefix := rs[..|rs| - 1];
      var last := rs[|rs| - 1];
      NoticesComplete(prefix, now);
      var ps := NoticesFor(prefix, now);
      var extra: seq<Notice> := if Due(last, now) then [Notice(|rs| - 1, last.title, last.notes)] else [];
      assert NoticesFor(rs, now) == ps + extra;
      IndicesOfAppend(ps, extra);
      assert NoticedIndices(extra) == if Due(last, now) then {|rs| - 1} else {} by {
        if Due(last, now) {
          assert extra[0].index == |rs| - 1;
        }
      }
      DueIndicesSnoc(rs, now);
    }
  }

  lemma IndicesOfAppend(ps: seq<Notice>, extra: seq<Notice>)
    ensures NoticedIndices(ps + extra) == NoticedIndices(ps) + NoticedIndices(extra)
  {
    var both := ps + extra;
    forall x | x in NoticedIndices(both) ensures x in NoticedIndices(ps) + NoticedIndices(extra) {
      var k :| 0 <= k < |both| && both[k].index == x;
      if k < |ps| {
        assert ps[k] == both[k];
      } else {
        assert extra[k - |ps|] == both[k];
      }
    }
    forall x | x in NoticedIndices(ps) + NoticedIndices(extra) ensures x in NoticedIndices(both) {
      if x in NoticedIndices(ps) {
        var k :| 0 <= k < |ps| && ps[k].index == x;
        assert both[k] == ps[k];
      } else {
        var k :| 0 <= k < |extra| && extra[k].index == x;
        assert both[|ps| + k] == extra[k];
      }
    }
  }

  lemma DueIndicesSnoc(rs: seq<Reminder>, now: int)
    requires rs != []
    ensures DueIndices(rs, now)
      == DueIndices(rs[..|rs| - 1], now) + (if Due(rs[|rs| - 1], now) then {|rs| - 1} else {})
  {
    var prefix := rs[..|rs| - 1];
    forall i: nat | i < |prefix| ensures rs[i] == prefix[i] {
    }
  }

  /** After a tick nothing is due any more at the same time. */
  lemma NothingDueAfterTick(rs: seq<Reminder>, now: int)
    ensures DueIndices(FireDue(rs, now), now) == {}
  {
    var fired := FireDue(rs, now);
    forall i: nat | i < |fired| ensures !Due(fired[i], now) {
      assert fired[i].when == rs[i].when;
    }
  }

  /** A list with nothing due produces no notification. */
  lemma {:induction false} NoneDueNoNotices(rs: seq<Reminder>, now: int)
    requires DueIndices(rs, now) == {}
    ensures NoticesFor(rs, now) == []
  {
    if rs != [] {
      DueIndicesSnoc(rs, now);
      NoneDueNoNotices(rs[..|rs| - 1], now);
    }
  }

  /** A second tick at the same time notifies nothing. */
  lemma SecondTickSilent(rs: seq<Reminder>, now: int)
    ensures NoticesFor(FireDue(rs, now), now) == []
  {
    NothingDueAfterTick(rs, now);
    NoneDueNoNotices(FireDue(rs, now), now);
  }

  /** A second tick at the same time changes nothing. */
  lemma FireDueIdempotent(rs: seq<Reminder>, now: int)
    ensures FireDue(FireDue(rs, now), now) == FireDue(rs, now)
  {
    var once := FireDue(rs, now);
    var twice := FireDue(once, now);
    forall i | 0 <= i < |rs| ensures twice[i] == once[i] {
      assert once[i].when == rs[i].when;
    }
  }

  // ----- a tick while the reminders list is not shown -----

  /** The first position at or after `i` whose reminder is due at `now`. */
  function FirstDueFrom(rs: seq<Reminder>, now: int, i: nat): (k: Option<nat>)
    requires i <= |rs|
    decreases |rs| - i
    ensures k.None? ==> forall j :: i <= j < |rs| ==> !Due(rs[j], now)
    ensures k.Some? ==>
      i <= k.value < |rs| && Due(rs[k.value], now) && forall j :: i <= j < k.value ==> !Due(rs[j], now)
  {
    if i == |rs| then None
    else if Due(rs[i], now) then Some(i)
    else FirstDueFrom(rs, now, i + 1)
  }

  /** The position of the first due reminder, if any. */
  function FirstDue(rs: seq<Reminder>, now: int): Option<nat> {
    FirstDueFrom(rs, now, 0)
  }

  /** The reminder list after a tick that stops after its first firing. */
  function FireFirstDue(rs: seq<Reminder>, now: int): seq<Reminder> {
    match FirstDue(rs, now)
    case None => rs
    case Some(k) => rs[k := rs[k].(fired := true)]
  }

  /** The one notification, if any, of a tick that stops after its first firing. */
  function FirstNotice(rs: seq<Reminder>, now: int): seq<Notice> {
    match FirstDue(rs, now)
    case None => []
    case Some(k) => [Notice(k, rs[k].title, rs[k].notes)]
  }

  /** The reminder list after a tick, with or without the reminders list shown. */
  function TickReminders(rs: seq<Reminder>, now: int, listShown: bool): seq<Reminder> {
    if listShown then FireDue(rs, now) else FireFirstDue(rs, now)
  }

  /** The notifications of a tick, with or without the reminders list shown. */
  function TickNotices(rs: seq<Reminder>, now: int, listShown: bool): seq<Notice> {
    if listShown then NoticesFor(rs, now) else FirstNotice(rs, now)
  }

  /** The first due position is the least element of the due positions. */
  lemma FirstDueIsLeast(rs: seq<Reminder>, now: int)
    ensures FirstDue(rs, now).None? <==> DueIndices(rs, now) == {}
    ensures FirstDue(rs, now).Some? ==>
      FirstDue(rs, now).value in DueIndices(rs, now) && forall j :: j in DueIndices(rs, now) ==> FirstDue(rs, now).value <= j
  {
    var k := FirstDue(rs, now);
    if k.Some? {
      assert k.value in DueIndices(rs, now);
    }
  }

  /** A reminder that is due, with none due before it, is the first due one. */
  lemma FirstDueAt(rs: seq<Reminder>, now: int, k: nat)
    requires k < |rs| && Due(rs[k], now)
    requires forall j :: 0 <= j < k ==> !Due(rs[j], now)
    ensures FirstDue(rs, now) == Some(k)
    ensures NoticesFor(rs[..k + 1], now) == FirstNotice(rs, now)
  {
    var prefix := rs[..k];
    forall i: nat | i < |prefix| ensures !Due(prefix[i], now) {
      assert prefix[i] == rs[i];
    }
    assert DueIndices(prefix, now) == {};
    NoneDueNoNotices(prefix, now);
    NoticesSnoc(rs, k, now);
  }

  /** A list with nothing due has no first due reminder and no notification. */
  lemma NoneDueAt(rs: seq<Reminder>, now: int)
    requires forall j :: 0 <= j < |rs| ==> !Due(rs[j], now)
    ensures FirstDue(rs, now) == None
    ensures NoticesFor(rs, now) == FirstNotice(rs, now) == []
  {
    assert DueIndices(rs, now) == {};
    NoneDueNoNotices(rs, now);
  }

  /**
   * The tick without the list shows exactly the first notification of the tick
   * with the list shown, and nothing when nothing is due.
   */
  lemma FirstNoticeLeads(rs: seq<Reminder>, now: int)
    ensures NoticesFor(rs, now) == [] ==> FirstNotice(rs, now) == []
    ensures NoticesFor(rs, now) != [] ==> FirstNotice(rs, now) == [NoticesFor(rs, now)[0]]
  {
    var ns := NoticesFor(rs, now);
    NoticesComplete(rs, now);
    FirstDueIsLeast(rs, now);
    if ns == [] {
      assert NoticedIndices(ns) == {};
    } else {
      NoticesSound(rs, now);
      NoticesOnce(rs, now);
      var k := FirstDue(rs, now).value;
      assert ns[0].index in NoticedIndices(ns);
      assert k in NoticedIndices(ns);
      var l :| 0 <= l < |ns| && ns[l].index == k;
      assert ns[0].index <= k;
    }
  }

  /**
   * The tick without the list fires one reminder, the first due one: afterwards
   * exactly the others are still due.
   */
  lemma FireFirstDueOne(rs: seq<Reminder>, now: int)
    ensures |FireFirstDue(rs, now)| == |rs|
    ensures |FirstNotice(rs, now)| <= 1
    ensures SoundNotices(FirstNotice(rs, now), rs, now)
    ensures FirstNotice(rs, now) == [] <==> DueIndices(rs, now) == {}
    ensures DueIndices(FireFirstDue(rs, now), now)
      == DueIndices(rs, now) - NoticedIndices(FirstNotice(rs, now))
  {
    FirstDueIsLeast(rs, now);
    var after := FireFirstDue(rs, now);
    var ns := FirstNotice(rs, now);
    if ns != [] {
      assert NoticedIndices(ns) == {ns[0].index};
    }
    forall i: nat | i < |rs| ensures Due(after[i], now) <==> i in DueIndices(rs, now) - NoticedIndices(ns) {
    }
  }

  /** Firing the first due reminder and then all of them is the same as firing all of them. */
  lemma FireDueAbsorbsFirst(rs: seq<Reminder>, now: int)
    ensures FireDue(FireFirstDue(rs, now), now) == FireDue(rs, now)
  {
    var after := FireFirstDue(rs, now);
    forall i | 0 <= i < |rs| ensures FireDue(after, now)[i] == FireDue(rs, now)[i] {
    }
  }

  /** `n` ticks at the same time without the list shown. */
  function RepeatFireFirst(rs: seq<Reminder>, now: int, n: nat): seq<Reminder>
    decreases n
  {
    if n == 0 then rs else RepeatFireFirst(FireFirstDue(rs, now), now, n - 1)
  }

  /** A list with nothing due is left as it is by a full tick. */
  lemma FireDueNoneDue(rs: seq<Reminder>, now: int)
    requires DueIndices(rs, now) == {}
    ensures FireDue(rs, now) == rs
  {
    forall i | 0 <= i < |rs| ensures FireDue(rs, now)[i] == rs[i] {
      assert i !in DueIndices(rs, now);
    }
  }

  /**
   * Catching up: as many ticks without the list as there are due reminders, at
   * the same time, fire every one of them, as one tick with the list shown does.
   */
  lemma {:induction false} RepeatFireFirstCatchesUp(rs: seq<Reminder>, now: int)
    ensures RepeatFireFirst(rs, now, |DueIndices(rs, now)|) == FireDue(rs, now)
    decreases |DueIndices(rs, now)|
  {
    var n := |DueIndices(rs, now)|;
    if n == 0 {
      FireDueNoneDue(rs, now);
    } else {
      var after := FireFirstDue(rs, now);
      FireFirstDueOne(rs, now);
      FirstDueIsLeast(rs, now);
      var ns := FirstNotice(rs, now);
      assert NoticedIndices(ns) == {ns[0].index} && ns[0].index in DueIndices(rs, now);
      assert |DueIndices(after, now)| == n - 1;
      RepeatFireFirstCatchesUp(after, now);
      FireDueAbsorbsFirst(rs, now);
    }
  }

  /** The first `i` reminders of `rs` have had their turn in `xs`; the others are as they were. */
  predicate FiredUpTo(rs: seq<Reminder>, xs: seq<Reminder>, now: int, i: nat) {
    && |xs| == |rs| && i <= |rs|
    && (forall j :: 0 <= j < i ==> xs[j] == Fired(rs[j], now))
    && (forall j :: i <= j < |rs| ==> xs[j] == rs[j])
  }

  /**
   * What a run has met after `i` turns: without the list shown, either no due
   * reminder yet, or (`thrown`) one at `i - 1`, the first due one.
   */
  predicate RunSoFar(rs: seq<Reminder>, now: int, listShown: bool, i: nat, thrown: bool) {
    && (!listShown && !thrown ==> forall j :: 0 <= j < i && j < |rs| ==> !Due(rs[j], now))
    && (thrown ==> !listShown && 1 <= i <= |rs| && Due(rs[i - 1], now))
    && (thrown ==> forall j :: 0 <= j < i - 1 && j < |rs| ==> !Due(rs[j], now))
  }

  /** One more turn of a run: reminder `i` fires if due, and a firing off the reminders view throws. */
  lemma RunStep(rs: seq<Reminder>, xs: seq<Reminder>, now: int, listShown: bool, i: nat)
    requires FiredUpTo(rs, xs, now, i) && i < |rs|
    requires RunSoFar(rs, now, listShown, i, false)
    ensures FiredUpTo(rs, xs[i := Fired(xs[i], now)], now, i + 1)
    ensures RunSoFar(rs, now, listShown, i + 1, Due(rs[i], now) && !listShown)
  {
  }

  /**
   * Where a tick run stops: after the list, or after the first firing when the
   * list is not shown. `xs` is the list where the first `i` reminders had their
   * turn; it is then the tick's list, and the notifications of those `i` are
   * the tick's notifications.
   */
  lemma TickStops(rs: seq<Reminder>, xs: seq<Reminder>, now: int, listShown: bool, i: nat, thrown: bool)
    requires FiredUpTo(rs, xs, now, i) && (i == |rs| || thrown)
    requires RunSoFar(rs, now, listShown, i, thrown)
    ensures xs == TickReminders(rs, now, listShown)
    ensures NoticesFor(rs[..i], now) == TickNotices(rs, now, listShown)
  {
    if listShown {
      assert rs[..i] == rs;
      FiredPrefixFull(rs, xs, now);
    } else if thrown {
      FirstDueAt(rs, now, i - 1);
      FiredPrefixFirst(rs, xs, now, i - 1);
    } else {
      assert rs[..i] == rs;
      NoneDueAt(rs, now);
      FiredPrefixNone(rs, xs, now);
    }
  }

  lemma FiredPrefixFull(rs: seq<Reminder>, xs: seq<Reminder>, now: int)
    requires |xs| == |rs|
    requires forall j :: 0 <= j < |rs| ==> xs[j] == Fired(rs[j], now)
    ensures xs == FireDue(rs, now)
  {
  }

  lemma FiredPrefixFirst(rs: seq<Reminder>, xs: seq<Reminder>, now: int, k: nat)
    requires |xs| == |rs| && k < |rs| && FirstDue(rs, now) == Some(k)
    requires forall j :: 0 <= j <= k ==> xs[j] == Fired(rs[j], now)
    requires forall j :: k < j < |rs| ==> xs[j] == rs[j]
    ensures xs == FireFirstDue(rs, now)
  {
    var ys := FireFirstDue(rs, now);
    forall j | 0 <= j < |rs| ensures xs[j] == ys[j] {
      if j < k {
        assert !Due(rs[j], now);
      }
    }
  }

  lemma FiredPrefixNone(rs: seq<Reminder>, xs: seq<Reminder>, now: int)
    requires |xs| == |rs| && FirstDue(rs, now) == None
    requires forall j :: 0 <= j < |rs| ==> xs[j] == Fired(rs[j], now)
    ensures xs == FireFirstDue(rs, now)
  {
    forall j | 0 <= j < |rs| ensures xs[j] == rs[j] {
      assert !Due(rs[j], now);
    }
  }
}
