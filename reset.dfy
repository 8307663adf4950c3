/** `/reset`: abandoning the game in progress without recording a result. */
module Reset {
  import opened Wrappers
  import opened Store
  import opened Conversation

  /**
    `reset`: records the activity, deletes the game in progress (saving only when there
    was one), forgets the chat data and ends the conversation. Statistics and global
    counters are untouched: an abandoned game counts neither as a win nor as a loss.
  */
  method Reset(st: Store, uid: UserId, p: Profile, chat: ChatData)
    returns (next: ConvState, st': Store, saved: bool, chat': ChatData)
    requires Valid(st)
    ensures Valid(st') && st'.global == st.global && st'.users.Keys == st.users.Keys + {uid}
    ensures next == End && chat' == map[]
    ensures saved <==> HasGame(st, uid)
    ensures st'.users == st.users[uid := Touched(st, uid, p).(game := None)]
    ensures !HasGame(st', uid)
    ensures forall v :: v in st.users ==> st'.users[v].stats == st.users[v].stats
    ensures AllHaveStats(st) ==> AllHaveStats(st')
  {
    var s1 := UpdateUserActivity(st, uid, p);
    st' := s1;
    saved := false;
    if uid in s1.users && s1.users[uid].game.Some? {
      st' := Put(s1, uid, s1.users[uid].(game := None));
      saved := true;
    }
    chat' := map[];
    next := End;
  }

  /**
    `reset_global`, the reset command outside a game: records the activity and clears the
    wake-up notification flag; the game, if any, stays.
  */
  method ResetGlobal(st: Store, uid: UserId, p: Profile) returns (st': Store)
    requires Valid(st)
    ensures Valid(st') && st'.global == st.global && st'.users.Keys == st.users.Keys + {uid}
    ensures st'.users[uid] == Touched(st, uid, p).(notified := st'.users[uid].notified)
    ensures st'.users[uid].notified != Some(true)
    ensures forall v :: v in st.users && v != uid ==> st'.users[v] == st.users[v]
    ensures GameOf(st', uid) == GameOf(st, uid)
    ensures AllHaveStats(st) ==> AllHaveStats(st')
  {
    var s1 := UpdateUserActivity(st, uid, p);
    var cleared;
    st', cleared := ClearNotificationFlag(s1, uid);
  }
}
