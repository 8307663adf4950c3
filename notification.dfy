/**
  Wake-up reminders for unfinished games and the `/notification` switch.
*/
module Notification {
  import opened Wrappers
  import opened Text
  import opened Store

  // ---------------------------------------------------------------- the reminder sweep

  /** A user the sweep reminds: reminders on (the default), a game in progress, not yet reminded. */
  predicate Due(u: User) {
    u.notifyOnWakeup.GetOr(true) && u.game.Some? && u.notified != Some(true)
  }

  /** The record of a reminded user. */
  function Reminded(u: User): User {
    u.(notified := Some(true))
  }

  /**
    The sweep after the users `vs`: the records, whether the store was written, and
    whether the sweep was cut short. A due user whose reminder is delivered is marked
    reminded; a due user whose reminder fails either cuts the sweep short
    (`stopOnFailure`) or is skipped.
  */
  datatype Sweep = Sweep(users: map<UserId, User>, saved: bool, aborted: bool)

  function SweepOver(st: Store, vs: seq<UserId>, delivered: set<UserId>, stopOnFailure: bool): (s: Sweep)
    requires forall v :: v in vs ==> v in st.users
    ensures s.users.Keys == st.users.Keys
  {
    if vs == [] then Sweep(st.users, false, false)
    else
      var s := SweepOver(st, vs[..|vs| - 1], delivered, stopOnFailure);
      var v := vs[|vs| - 1];
      if s.aborted || !Due(st.users[v]) then s
      else if v !in delivered then (if stopOnFailure then s.(aborted := true) else s)
      else Sweep(s.users[v := Reminded(st.users[v])], true, false)
  }

  /** The records with the due users of `vs` whose reminder is delivered marked reminded. */
  function Marked(st: Store, vs: seq<UserId>, delivered: set<UserId>): map<UserId, User> {
    map v | v in st.users :: if v in vs && Due(st.users[v]) && v in delivered then Reminded(st.users[v]) else st.users[v]
  }

  /** Some due user of `vs` has a reminder delivered. */
  ghost predicate AnyDelivered(st: Store, vs: seq<UserId>, delivered: set<UserId>)
    requires forall v :: v in vs ==> v in st.users
  {
    exists v :: v in vs && Due(st.users[v]) && v in delivered
  }

  /** Marking after one more user, who was not among the earlier ones. */
  lemma MarkedStep(st: Store, init: seq<UserId>, x: UserId, delivered: set<UserId>)
    requires x in st.users && x !in init
    ensures Marked(st, init + [x], delivered) ==
      if Due(st.users[x]) && x in delivered then Marked(st, init, delivered)[x := Reminded(st.users[x])]
      else Marked(st, init, delivered)
  {
    var a := Marked(st, init + [x], delivered);
    var b := if Due(st.users[x]) && x in delivered then Marked(st, init, delivered)[x := Reminded(st.users[x])]
      else Marked(st, init, delivered);
    assert a.Keys == b.Keys;
    forall v | v in a ensures a[v] == b[v] {
      assert v in init + [x] <==> v in init || v == x;
    }
  }

  /**
    Skipping failures, the sweep over distinct users marks exactly the due users among
    them whose reminder is delivered, writes the store exactly when there is one, and is
    never cut short.
  */
  lemma {:induction false} SweepSkipping(st: Store, vs: seq<UserId>, delivered: set<UserId>)
    requires NoDuplicates(vs) && forall v :: v in vs ==> v in st.users
    ensures var s := SweepOver(st, vs, delivered, false);
      !s.aborted && s.users == Marked(st, vs, delivered) && (s.saved <==> AnyDelivered(st, vs, delivered))
  {
    if vs != [] {
      var init := vs[..|vs| - 1];
      var x := vs[|vs| - 1];
      assert vs == init + [x];
      assert NoDuplicates(init);
      SweepSkipping(st, init, delivered);
      assert x !in init;
      MarkedStep(st, init, x, delivered);
      assert forall v :: v in vs <==> v in init || v == x;
    } else {
      assert Marked(st, vs, delivered) == st.users;
    }
  }

  /** Stopping at failures, the sweep is cut short exactly when some due user's reminder fails. */
  lemma {:induction false} SweepStops(st: Store, vs: seq<UserId>, delivered: set<UserId>)
    requires forall v :: v in vs ==> v in st.users
    ensures SweepOver(st, vs, delivered, true).aborted <==> exists v :: v in vs && Due(st.users[v]) && v !in delivered
    ensures !SweepOver(st, vs, delivered, true).aborted ==> SweepOver(st, vs, delivered, true) == SweepOver(st, vs, delivered, false)
  {
    if vs != [] {
      var init := vs[..|vs| - 1];
      SweepStops(st, init, delivered);
      assert forall v :: v in vs <==> v in init || v == vs[|vs| - 1];
    }
  }

  /** Once cut short, the sweep ignores the remaining users. */
  lemma {:induction false} SweepStaysAborted(st: Store, vs: seq<UserId>, k: nat, delivered: set<UserId>)
    requires k <= |vs| && forall v :: v in vs ==> v in st.users
    requires SweepOver(st, vs[..k], delivered, true).aborted
    ensures SweepOver(st, vs, delivered, true) == SweepOver(st, vs[..k], delivered, true)
    decreases |vs| - k
  {
    if k < |vs| {
      assert vs[..k + 1][..k] == vs[..k];
      SweepStaysAborted(st, vs, k + 1, delivered);
    } else {
      assert vs[..k] == vs;
    }
  }

  /** Every record the sweep changes belongs to a due user whose reminder went out, and only gains the mark. */
  lemma {:induction false} SweepChangesOnlyDue(st: Store, vs: seq<UserId>, delivered: set<UserId>, stopOnFailure: bool)
    requires forall v :: v in vs ==> v in st.users
    ensures var s := SweepOver(st, vs, delivered, stopOnFailure);
      s.users.Keys == st.users.Keys &&
      forall v :: v in st.users ==>
        s.users[v] == st.users[v] || (Due(st.users[v]) && v in delivered && s.users[v] == Reminded(st.users[v]))
  {
    if vs != [] {
      SweepChangesOnlyDue(st, vs[..|vs| - 1], delivered, stopOnFailure);
    }
  }

  /**
    `send_unfinished_games` as written: the users are visited in store order and every
    delivered reminder is saved at once. A failed reminder is meant to be skipped, but its
    handler logs through a `logger` the module never defines, so the failure ends the whole
    sweep (`aborted`) with the reminders before it saved and none after it sent.
  */
  method SendUnfinishedGames(st: Store, delivered: set<UserId>) returns (st': Store, saved: bool, aborted: bool)
    requires Valid(st)
    ensures Valid(st') && st'.order == st.order && st'.global == st.global
    ensures Sweep(st'.users, saved, aborted) == SweepOver(st, st.order, delivered, true)
  {
    var users := st.users;
    saved, aborted := false, false;
    for i := 0 to |st.order|
      invariant Sweep(users, saved, aborted) == SweepOver(st, st.order[..i], delivered, true)
      invariant !aborted
    {
      var v := st.order[i];
      SweepNext(st, i, delivered, true);
      var u := users[v];
      if !u.notifyOnWakeup.GetOr(true) {
        continue;
      }
      if u.game.None? {
        continue;
      }
      if u.notified == Some(true) {
        continue;
      }
      if v !in delivered {
        aborted := true;
        SweepStaysAborted(st, st.order, i + 1, delivered);
        st' := Store(st.order, users, st.global);
        SweepChangesOnlyDue(st, st.order, delivered, true);
        return;
      }
      users := users[v := u.(notified := Some(true))];
      saved := true;
    }
    assert st.order[..|st.order|] == st.order;
    SweepChangesOnlyDue(st, st.order, delivered, true);
    st' := Store(st.order, users, st.global);
  }

  /**
    The sweep reaches the user at position `i` of the order with that user's record as
    stored, and takes one step there.
  */
  lemma SweepNext(st: Store, i: nat, delivered: set<UserId>, stopOnFailure: bool)
    requires Valid(st) && i < |st.order|
    ensures forall x :: x in st.order[..i + 1] ==> x in st.users
    ensures var v, s := st.order[i], SweepOver(st, st.order[..i], delivered, stopOnFailure);
      v in st.users && v in s.users && s.users[v] == st.users[v] &&
      SweepOver(st, st.order[..i + 1], delivered, stopOnFailure) ==
        if s.aborted || !Due(st.users[v]) then s
        else if v !in delivered then (if stopOnFailure then s.(aborted := true) else s)
        else Sweep(s.users[v := Reminded(st.users[v])], true, false)
  {
    var v := st.order[i];
    OrderStep(st, i);
    SweepUntouched(st, st.order[..i], v, delivered, stopOnFailure);
    SweepSnoc(st, st.order[..i], v, delivered, stopOnFailure);
  }

  /** The sweep over one more user is one step past the sweep before it. */
  lemma SweepSnoc(st: Store, vs: seq<UserId>, v: UserId, delivered: set<UserId>, stopOnFailure: bool)
    requires (forall x :: x in vs ==> x in st.users) && v in st.users
    ensures forall x :: x in vs + [v] ==> x in st.users
    ensures var s := SweepOver(st, vs, delivered, stopOnFailure);
      SweepOver(st, vs + [v], delivered, stopOnFailure) ==
        if s.aborted || !Due(st.users[v]) then s
        else if v !in delivered then (if stopOnFailure then s.(aborted := true) else s)
        else Sweep(s.users[v := Reminded(st.users[v])], true, false)
  {
    assert (vs + [v])[..|vs|] == vs;
  }

  /** A user the sweep has not reached yet keeps their record. */
  lemma {:induction false} SweepUntouched(st: Store, vs: seq<UserId>, v: UserId, delivered: set<UserId>, stopOnFailure: bool)
    requires (forall x :: x in vs ==> x in st.users) && v in st.users && v !in vs
    ensures SweepOver(st, vs, delivered, stopOnFailure).users[v] == st.users[v]
  {
    if vs != [] {
      SweepChangesOnlyDue(st, vs[..|vs| - 1], delivered, stopOnFailure);
      assert forall x :: x in vs[..|vs| - 1] ==> x in vs;
      SweepUntouched(st, vs[..|vs| - 1], v, delivered, stopOnFailure);
    }
  }

  /**
    The sweep as evidently intended: a failed reminder is skipped, so every due user
    whose reminder is delivered is marked reminded and every other record is unchanged.
  */
  method SendUnfinishedGamesSkipping(st: Store, delivered: set<UserId>) returns (st': Store, saved: bool)
    requires Valid(st)
    ensures Valid(st') && st'.order == st.order && st'.global == st.global
    ensures st'.users ==
      map v | v in st.users :: if Due(st.users[v]) && v in delivered then Reminded(st.users[v]) else st.users[v]
    ensures saved <==> exists v :: v in st.users && Due(st.users[v]) && v in delivered
  {
    var users := st.users;
    saved := false;
    for i := 0 to |st.order|
      invariant Sweep(users, saved, false) == SweepOver(st, st.order[..i], delivered, false)
    {
      var v := st.order[i];
      SweepNext(st, i, delivered, false);
      var u := users[v];
      if !u.notifyOnWakeup.GetOr(true) || u.game.None? || u.notified == Some(true) {
        continue;
      }
      if v !in delivered {
        continue;
      }
      users := users[v := u.(notified := Some(true))];
      saved := true;
    }
    assert st.order[..|st.order|] == st.order;
    SweepSkippingAll(st, delivered);
    st' := Store(st.order, users, st.global);
  }

  /** Skipping failures, the sweep over the whole store marks exactly the due users whose reminder is delivered. */
  lemma SweepSkippingAll(st: Store, delivered: set<UserId>)
    requires Valid(st)
    ensures var s := SweepOver(st, st.order, delivered, false);
      s.users == (map v | v in st.users :: if Due(st.users[v]) && v in delivered then Reminded(st.users[v]) else st.users[v]) &&
      (s.saved <==> exists v :: v in st.users && Due(st.users[v]) && v in delivered)
  {
    SweepSkipping(st, st.order, delivered);
    MarkedAll(st, delivered);
    DeliveredAll(st, delivered);
  }

  /** Over the whole order, marking reaches every user of the store. */
  lemma MarkedAll(st: Store, delivered: set<UserId>)
    requires Valid(st)
    ensures Marked(st, st.order, delivered) ==
      map v | v in st.users :: if Due(st.users[v]) && v in delivered then Reminded(st.users[v]) else st.users[v]
  {
    var a := Marked(st, st.order, delivered);
    var b := map v | v in st.users :: if Due(st.users[v]) && v in delivered then Reminded(st.users[v]) else st.users[v];
    assert a.Keys == b.Keys;
    forall v | v in a ensures a[v] == b[v] {
      assert v in Elems(st.order);
    }
  }

  /** Over the whole order, some due user has a reminder delivered iff some user of the store does. */
  lemma DeliveredAll(st: Store, delivered: set<UserId>)
    requires Valid(st)
    ensures AnyDelivered(st, st.order, delivered) <==> exists v :: v in st.users && Due(st.users[v]) && v in delivered
  {
    if exists v :: v in st.users && Due(st.users[v]) && v in delivered {
      var v :| v in st.users && Due(st.users[v]) && v in delivered;
      assert v in Elems(st.order);
    }
  }

  /**
    Two users "1" and "2", both with a game in progress and reminders on, where only the
    reminder to "2" can be delivered: as written the failure at "1" ends the sweep and
    "2" is never reminded; skipping the failure, "2" is.
  */
  method SweepStopsAtFailure() returns (asWritten: Store, skipping: Store)
    ensures "2" in asWritten.users && asWritten.users["2"].notified != Some(true)
    ensures "2" in skipping.users && skipping.users["2"].notified == Some(true)
  {
    var u := EmptyUser.(game := Some(Game("слово", 0, [], false)));
    var st := Store(["1", "2"], map["1" := u, "2" := u], ZeroGlobal);
    assert Due(u);
    var saved1, aborted;
    asWritten, saved1, aborted := SendUnfinishedGames(st, {"2"});
    assert st.order[..1] == ["1"];
    assert SweepOver(st, ["1"], {"2"}, true).aborted;
    SweepStaysAborted(st, st.order, 1, {"2"});
    var saved2;
    skipping, saved2 := SendUnfinishedGamesSkipping(st, {"2"});
  }

  // ---------------------------------------------------------------- the switch

  /** The record with the reminder setting flipped; a record without one counts as on. */
  function Toggled(u: User): (r: User)
    ensures r.notifyOnWakeup == Some(!u.notifyOnWakeup.GetOr(true))
  {
    u.(notifyOnWakeup := Some(!u.notifyOnWakeup.GetOr(true)))
  }

  /** Flipping twice restores the setting in effect. */
  lemma ToggleTwice(u: User)
    ensures Toggled(Toggled(u)).notifyOnWakeup.GetOr(true) == u.notifyOnWakeup.GetOr(true)
    ensures Toggled(Toggled(u)) == u.(notifyOnWakeup := Some(u.notifyOnWakeup.GetOr(true)))
  {
  }

  /**
    `notification_toggle` as written. The record of an unknown user is created as
    `{"stats": {...}}`, whose set value cannot be written as JSON, so for that user
    nothing is saved and no answer comes (`reply == None`). For a known user the flag is
    cleared in a freshly loaded copy, but the setting is flipped in the copy loaded
    before it, and saving that copy brings the old `notified` value back. The answer is
    the new setting.
  */
  method NotificationToggle(st: Store, uid: UserId) returns (reply: Option<bool>, st': Store, saved: bool)
    requires Valid(st)
    ensures Valid(st') && st'.global == st.global && st'.order == st.order
    ensures uid !in st.users ==> reply.None? && !saved && st' == st
    ensures uid in st.users ==>
      saved && st'.users == st.users[uid := Toggled(st.users[uid])] &&
      reply == Some(!st.users[uid].notifyOnWakeup.GetOr(true))
  {
    if uid !in st.users {
      var cleared, flagSaved := ClearNotificationFlag(st, uid);
      return None, st, false;
    }
    var user := st.users[uid];
    var cleared, flagSaved := ClearNotificationFlag(st, uid);
    var current := user.notifyOnWakeup.GetOr(true);
    user := user.(notifyOnWakeup := Some(!current));
    st' := Put(st, uid, user);
    saved := true;
    reply := Some(!current);
  }

  /** The record the switch evidently meant to create for an unknown user: zero statistics. */
  const ToggleRecord := EmptyUser.(stats := Some(ZeroStats))

  /**
    The switch as evidently intended: the setting is flipped on the store whose flag was
    just cleared, so the user counts as not reminded afterwards, and an unknown user gets
    a record with zero statistics.
  */
  method NotificationToggleFixed(st: Store, uid: UserId) returns (reply: bool, st': Store, saved: bool)
    requires Valid(st)
    ensures Valid(st') && st'.global == st.global && st'.users.Keys == st.users.Keys + {uid}
    ensures saved
    ensures var u := if uid in st.users then st.users[uid] else ToggleRecord;
      st'.users == st.users[uid := Toggled(u).(notified := if u.notified == Some(true) then Some(false) else u.notified)] &&
      reply == !u.notifyOnWakeup.GetOr(true)
    ensures st'.users[uid].notified != Some(true)
    ensures AllHaveStats(st) ==> AllHaveStats(st')
  {
    var cleared, flagSaved := ClearNotificationFlag(st, uid);
    var user := if uid in cleared.users then cleared.users[uid] else ToggleRecord;
    var current := user.notifyOnWakeup.GetOr(true);
    user := user.(notifyOnWakeup := Some(!current));
    st' := Put(cleared, uid, user);
    saved := true;
    reply := !current;
  }

  /**
    User "5" was reminded about a game and switches reminders off: as written the saved
    record still says reminded, so the sweep skips them until another command clears the
    mark; with the fix the mark is cleared.
  */
  method ToggleUndoesClear() returns (asWritten: Store, fixed: Store)
    ensures "5" in asWritten.users && asWritten.users["5"].notified == Some(true)
    ensures "5" in fixed.users && fixed.users["5"].notified == Some(false)
  {
    var u := EmptyUser.(game := Some(Game("слово", 1, ["плита"], false)), notified := Some(true));
    var st := Store(["5"], map["5" := u], ZeroGlobal);
    var r1, saved1, r2, saved2;
    r1, asWritten, saved1 := NotificationToggle(st, "5");
    r2, fixed, saved2 := NotificationToggleFixed(st, "5");
  }

  /**
    User "9", unknown to the empty store, switches reminders: as written nothing is saved;
    with the fix the switch is saved with the setting off.
  */
  method ToggleUnknownUserLost() returns (asWritten: bool, fixed: Store)
    ensures !asWritten
    ensures "9" in fixed.users && fixed.users["9"].notifyOnWakeup == Some(false)
  {
    var r1, st1, r2, saved2;
    r1, st1, asWritten := NotificationToggle(Template, "9");
    r2, fixed, saved2 := NotificationToggleFixed(Template, "9");
  }
}
