/**
  The administrator's record transitions: banning and unbanning a user by id, and the
  per-length word counts of the dictionary report.
*/
module Admin {
  import opened Wrappers
  import opened Text
  import opened Logic
  import opened Store
  import opened Conversation

  /** How a ban or unban command is answered; `Ignored` is the silent return for anyone but the administrator. */
  datatype AdminReply = Ignored | NoId | BadId | Done | AlreadyBanned | NotFound | NotBanned

  /** The record a ban creates for an id the store does not know. */
  function BannedRecord(id: UserId): User {
    EmptyUser.(firstName := Some("Заблокированный пользователь (" + id + ")"), suggested := Some([]),
               stats := Some(ZeroStats), banned := Some(true), notification := Some(false))
  }

  /**
    The store after banning `id`: the user is banned and their `notification` key is set
    to false (a key no reminder code reads; the reminder setting is kept), and an unknown
    id gets a fresh record with zero statistics. An already banned user is left
    as they are; any other user loses the game in progress and keeps everything else.
  */
  function AfterBan(st: Store, id: UserId): (r: Store)
    requires Valid(st)
    ensures Valid(r) && r.global == st.global && r.users.Keys == st.users.Keys + {id}
    ensures IsBanned(r, id)
    ensures !IsBanned(st, id) ==> r.users[id].notification == Some(false) && !HasGame(r, id)
    ensures forall v :: v in st.users && v != id ==> r.users[v] == st.users[v]
    ensures id !in st.users ==>
      r.order == st.order + [id] && r.users[id] == BannedRecord(id) &&
      r.users[id].stats == Some(ZeroStats) && r.users[id].suggested == Some([])
    ensures IsBanned(st, id) ==> r == st
    ensures id in st.users && !IsBanned(st, id) ==>
      r.order == st.order &&
      r.users == st.users[id := st.users[id].(banned := Some(true), notification := Some(false), game := None)]
  {
    if id !in st.users then Put(st, id, BannedRecord(id))
    else if st.users[id].banned == Some(true) then st
    else Put(st, id, st.users[id].(banned := Some(true), notification := Some(false), game := None))
  }

  /**
    The store after unbanning `id`, or `None` when the id is unknown or not banned: the
    user is no longer banned, the unused `notification` key is deleted, the game
    in progress is dropped, and the record remembers the ban.
  */
  function AfterUnban(st: Store, id: UserId): (r: Option<Store>)
    requires Valid(st)
    ensures r.Some? <==> IsBanned(st, id)
    ensures r.Some? ==>
      Valid(r.value) && r.value.global == st.global && r.value.users.Keys == st.users.Keys &&
      !IsBanned(r.value, id) && !HasGame(r.value, id) &&
      r.value.order == st.order &&
      r.value.users == st.users[id := st.users[id].(banned := Some(false), notification := None, game := None, wasBanned := Some(true))] &&
      forall v :: v in st.users && v != id ==> r.value.users[v] == st.users[v]
  {
    if id in st.users && st.users[id].banned.GetOr(false) then
      Some(Put(st, id, st.users[id].(banned := Some(false), notification := None, game := None, wasBanned := Some(true))))
    else None
  }

  /** Banning twice is banning once. */
  lemma BanIdempotent(st: Store, id: UserId)
    requires Valid(st)
    ensures AfterBan(AfterBan(st, id), id) == AfterBan(st, id)
  {
  }

  /**
    Banning a user who was not banned and unbanning them again gives back their record
    without the game in progress, without a `notification` key and with the ban
    remembered; their statistics and proposals are as before.
  */
  lemma UnbanAfterBan(st: Store, id: UserId)
    requires Valid(st) && id in st.users && !IsBanned(st, id)
    ensures AfterUnban(AfterBan(st, id), id).Some?
    ensures var r := AfterUnban(AfterBan(st, id), id).value;
      r.order == st.order &&
      r.users == st.users[id := st.users[id].(banned := Some(false), notification := None, game := None, wasBanned := Some(true))]
  {
    var u := st.users[id];
    var b := AfterBan(st, id);
    assert b.users[id] == u.(banned := Some(true), notification := Some(false), game := None);
    var x := u.(banned := Some(false), notification := None, game := None, wasBanned := Some(true));
    assert b.users[id].(banned := Some(false), notification := None, game := None, wasBanned := Some(true)) == x;
    assert b.users[id := x] == st.users[id := x];
  }

  /** The id argument of `/ban` and `/unban`: the first argument, stripped; `None` without arguments. */
  function IdArgument(args: seq<string>): Option<string> {
    if args == [] then None else Some(Strip(args[0]))
  }

  /**
    `ban_user`: for the administrator, with a digits-only id, the store becomes
    `AfterBan` and is saved, also when the user was already banned. A ban of a known user
    who was not banned clears the administrator's own chat data when the message to the
    banned user (`sent`) goes out. Without an id or with a malformed one nothing changes.
  */
  method Ban(isAdmin: bool, args: seq<string>, st: Store, sent: bool, chat: ChatData)
    returns (reply: AdminReply, st': Store, saved: bool, chat': ChatData)
    requires Valid(st)
    ensures Valid(st')
    ensures !isAdmin ==> reply == Ignored && st' == st && !saved && chat' == chat
    ensures isAdmin && IdArgument(args).None? ==> reply == NoId && st' == st && !saved && chat' == chat
    ensures isAdmin && IdArgument(args).Some? && !IsDigits(IdArgument(args).value) ==>
      reply == BadId && st' == st && !saved && chat' == chat
    ensures isAdmin && IdArgument(args).Some? && IsDigits(IdArgument(args).value) ==>
      var id := IdArgument(args).value;
      saved && st' == AfterBan(st, id) &&
      (reply == AlreadyBanned <==> IsBanned(st, id)) && (reply != AlreadyBanned ==> reply == Done) &&
      chat' == (if id in st.users && !IsBanned(st, id) && sent then map[] else chat)
  {
    st', saved, chat' := st, false, chat;
    if !isAdmin {
      return Ignored, st', saved, chat';
    }
    if args == [] {
      return NoId, st', saved, chat';
    }
    var id := Strip(args[0]);
    if !IsDigits(id) {
      return BadId, st', saved, chat';
    }
    if id !in st.users {
      st' := Put(st, id, BannedRecord(id));
      assert st' == AfterBan(st, id);
      reply := Done;
    } else {
      var u := st.users[id];
      if u.banned.GetOr(false) {
        assert st' == AfterBan(st, id);
        reply := AlreadyBanned;
      } else {
        u := u.(banned := Some(true));
        u := u.(notification := Some(false));
        if u.game.Some? {
          u := u.(game := None);
        }
        assert u == st.users[id].(banned := Some(true), notification := Some(false), game := None);
        st' := Put(st, id, u);
        assert st' == AfterBan(st, id);
        reply := Done;
        if sent {
          chat' := map[];
        }
      }
    }
    saved := true;
  }

  /**
    `unban_user`: for the administrator, with a digits-only id of a banned user, the store
    becomes `AfterUnban` and is saved, and the administrator's chat data is marked
    `was_banned` when the message to the user (`sent`) goes out. An unknown id or a user
    who is not banned is reported and nothing is saved.
  */
  method Unban(isAdmin: bool, args: seq<string>, st: Store, sent: bool, chat: ChatData)
    returns (reply: AdminReply, st': Store, saved: bool, chat': ChatData)
    requires Valid(st)
    ensures Valid(st')
    ensures !isAdmin ==> reply == Ignored && st' == st && !saved && chat' == chat
    ensures isAdmin && IdArgument(args).None? ==> reply == NoId && st' == st && !saved && chat' == chat
    ensures isAdmin && IdArgument(args).Some? && !IsDigits(IdArgument(args).value) ==>
      reply == BadId && st' == st && !saved && chat' == chat
    ensures isAdmin && IdArgument(args).Some? && IsDigits(IdArgument(args).value) ==>
      var id := IdArgument(args).value;
      (reply == NotFound <==> id !in st.users) &&
      (reply == NotBanned <==> id in st.users && !IsBanned(st, id)) &&
      (saved <==> IsBanned(st, id)) &&
      (saved ==> reply == Done && Some(st') == AfterUnban(st, id) &&
                 chat' == (if sent then chat[WasBannedKey := VBool(true)] else chat)) &&
      (!saved ==> st' == st && chat' == chat)
  {
    st', saved, chat' := st, false, chat;
    if !isAdmin {
      return Ignored, st', saved, chat';
    }
    if args == [] {
      return NoId, st', saved, chat';
    }
    var id := Strip(args[0]);
    if !IsDigits(id) {
      return BadId, st', saved, chat';
    }
    if id !in st.users {
      return NotFound, st', saved, chat';
    }
    var u := st.users[id];
    if !u.banned.GetOr(false) {
      return NotBanned, st', saved, chat';
    }
    u := u.(banned := Some(false));
    if u.notification.Some? {
      u := u.(notification := None);
    }
    if u.game.Some? {
      u := u.(game := None);
    }
    u := u.(wasBanned := Some(true));
    st' := Put(st, id, u);
    saved := true;
    reply := Done;
    if sent {
      chat' := chat[WasBannedKey := VBool(true)];
    }
  }

  // ---------------------------------------------------------------- dictionary report

  /** `Counter(len(w) for w in words)[n]`: how many words have `n` letters. */
  function CountLength(words: seq<string>, n: nat): (r: nat)
    ensures r <= |words|
  {
    if words == [] then 0 else (if |words[0]| == n then 1 else 0) + CountLength(words[1..], n)
  }

  /** One line of the report: the length, then the main, additional and combined counts. */
  datatype LengthLine = LengthLine(length: nat, main: nat, additional: nat, total: nat)

  /** The counts of the lengths `lo` to `hi - 1` summed. */
  function CountRange(words: seq<string>, lo: nat, hi: nat): nat
    decreases hi - lo
  {
    if lo >= hi then 0 else CountLength(words, lo) + CountRange(words, lo + 1, hi)
  }

  lemma {:induction false} CountRangeStep(words: seq<string>, lo: nat, hi: nat)
    requires words != []
    ensures CountRange(words, lo, hi) == CountRange(words[1..], lo, hi) + (if lo <= |words[0]| < hi then 1 else 0)
    decreases hi - lo
  {
    if lo < hi {
      CountRangeStep(words, lo + 1, hi);
    }
  }

  /** When every word has 4 to 11 letters, the counts of the eight lengths add up to the number of words. */
  lemma {:induction false} CountsCoverAll(words: seq<string>)
    requires forall w :: w in words ==> 4 <= |w| <= 11
    ensures CountRange(words, 4, 12) == |words|
  {
    if words != [] {
      CountRangeStep(words, 4, 12);
      assert words[0] in words;
      assert forall w :: w in words[1..] ==> w in words;
      CountsCoverAll(words[1..]);
    }
  }

  /** The sum of the combined counts of the report lines. */
  function LinesTotal(lines: seq<LengthLine>): nat {
    if lines == [] then 0 else lines[0].total + LinesTotal(lines[1..])
  }

  /**
    `dict_file`'s report: the total and the two list sizes, and for each length from 4
    to 11 the number of main and additional words of that length and their sum.
  */
  method DictReport(base: BaseWords) returns (total: nat, totalMain: nat, totalAdditional: nat, lines: seq<LengthLine>)
    ensures totalMain == |base.main| && totalAdditional == |base.additional| && total == totalMain + totalAdditional
    ensures |lines| == 8
    ensures forall i :: 0 <= i < 8 ==>
      lines[i] == LengthLine(i + 4, CountLength(base.main, i + 4), CountLength(base.additional, i + 4),
                             CountLength(base.main, i + 4) + CountLength(base.additional, i + 4))
    ensures LinesTotal(lines) == CountRange(base.main, 4, 12) + CountRange(base.additional, 4, 12)
    ensures (forall w :: w in base.main ==> 4 <= |w| <= 11) && (forall w :: w in base.additional ==> 4 <= |w| <= 11) ==>
      LinesTotal(lines) == total
  {
    totalMain := |base.main|;
    totalAdditional := |base.additional|;
    total := totalMain + totalAdditional;
    lines := [];
    for length := 4 to 12
      invariant |lines| == length - 4
      invariant forall i :: 0 <= i < |lines| ==>
        lines[i] == LengthLine(i + 4, CountLength(base.main, i + 4), CountLength(base.additional, i + 4),
                               CountLength(base.main, i + 4) + CountLength(base.additional, i + 4))
      invariant LinesTotal(lines) + CountRange(base.main, length, 12) + CountRange(base.additional, length, 12) ==
        CountRange(base.main, 4, 12) + CountRange(base.additional, 4, 12)
    {
      var mainCount := CountLength(base.main, length);
      var additionalCount := CountLength(base.additional, length);
      LinesTotalAppend(lines, LengthLine(length, mainCount, additionalCount, mainCount + additionalCount));
      lines := lines + [LengthLine(length, mainCount, additionalCount, mainCount + additionalCount)];
    }
    if (forall w :: w in base.main ==> 4 <= |w| <= 11) && (forall w :: w in base.additional ==> 4 <= |w| <= 11) {
      CountsCoverAll(base.main);
      CountsCoverAll(base.additional);
    }
  }

  lemma {:induction false} LinesTotalAppend(lines: seq<LengthLine>, l: LengthLine)
    ensures LinesTotal(lines + [l]) == LinesTotal(lines) + l.total
  {
    if lines == [] {
      assert lines + [l] == [l];
    } else {
      assert (lines + [l])[1..] == lines[1..] + [l];
      LinesTotalAppend(lines[1..], l);
    }
  }
}
