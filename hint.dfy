/** `/hint`: one word per game that shares a fixed number of letters with the secret. */
module Hint {
  import opened Wrappers
  import opened Store
  import opened Conversation

  /**
    The number of shared letters a hint must have: the table `{4:1, 5:2, 6:2, 7:3, 8:3,
    9:4, 10:4, 11:5}` with 1 for any other length. On the playable lengths it is
    `(length - 1) / 2`.
  */
  function RequiredOverlap(length: int): (r: nat)
    ensures 4 <= length <= 11 ==> r == (length - 1) / 2
    ensures !(4 <= length <= 11) ==> r == 1
  {
    if length == 4 then 1
    else if length == 5 then 2
    else if length == 6 then 2
    else if length == 7 then 3
    else if length == 8 then 3
    else if length == 9 then 4
    else if length == 10 then 4
    else if length == 11 then 5
    else 1
  }

  /**
    The letters two words share, counted with multiplicity: the sum over the letters of
    `w` of the smaller of the two counts, which is the size of the multiset intersection.
  */
  function Overlap(secret: string, w: string): nat {
    |multiset(secret) * multiset(w)|
  }

  /** A word the hint may show: same length, not the secret, exactly the required overlap. */
  predicate Qualifies(secret: string, w: string) {
    |w| == |secret| && w != secret && Overlap(secret, w) == RequiredOverlap(|secret|)
  }

  /** The candidate loop: the words of the list that qualify, in list order. */
  method Candidates(secret: string, wordlist: seq<string>) returns (cs: seq<string>)
    ensures forall w :: w in cs <==> w in wordlist && Qualifies(secret, w)
    ensures |cs| <= |wordlist|
  {
    cs := [];
    for i := 0 to |wordlist|
      invariant forall w :: w in cs <==> w in wordlist[..i] && Qualifies(secret, w)
      invariant |cs| <= i
    {
      var w := wordlist[i];
      assert wordlist[..i + 1] == wordlist[..i] + [w];
      if |w| != |secret| || w == secret {
        continue;
      }
      var common := Overlap(secret, w);
      if common == RequiredOverlap(|secret|) {
        cs := cs + [w];
      }
    }
    assert wordlist[..|wordlist|] == wordlist;
  }

  /** The secret itself never has the required overlap, so the explicit `w == secret` test is redundant. */
  lemma SecretNeverQualifies(secret: string)
    requires |secret| != 1
    ensures Overlap(secret, secret) != RequiredOverlap(|secret|)
  {
    assert multiset(secret) * multiset(secret) == multiset(secret);
  }

  /** On the playable lengths a hint shows fewer than half of the secret's letters, and at least one. */
  lemma HintRevealsLessThanHalf(secret: string, w: string)
    requires 4 <= |secret| <= 11 && Qualifies(secret, w)
    ensures 1 <= Overlap(secret, w) && 2 * Overlap(secret, w) < |secret|
  {
  }

  /** A hint always shares at least one letter with the secret. */
  lemma HintSharesLetter(secret: string, w: string)
    requires Qualifies(secret, w)
    ensures exists c :: c in secret && c in w
  {
    var m := multiset(secret) * multiset(w);
    assert |m| >= 1;
    assert m != multiset{};
    var c :| c in m;
    assert c in multiset(secret) && c in multiset(w);
    assert c in secret && c in w;
  }

  datatype HintReply = OnlyDuringGame | AlreadyUsed | NoSuitableHint | HintWord(word: string)

  /**
    `hint`: without a game in progress it ends the conversation; with the hint already
    taken it refuses. Otherwise it offers a qualifying word from the list, marks the hint
    as used and saves, or, when no word qualifies, says so and leaves the store as it was.
  */
  method Hint(st: Store, uid: UserId, wordlist: seq<string>)
    returns (reply: HintReply, next: ConvState, st': Store, saved: bool)
    requires Valid(st)
    ensures Valid(st')
    ensures !HasGame(st, uid) ==> reply == OnlyDuringGame && next == End && !saved && st' == st
    ensures HasGame(st, uid) && GameOf(st, uid).value.hintUsed ==>
      reply == AlreadyUsed && next == Guessing && !saved && st' == st
    ensures HasGame(st, uid) && !GameOf(st, uid).value.hintUsed ==>
      var g := GameOf(st, uid).value;
      next == Guessing &&
      (reply == NoSuitableHint <==> forall w :: w in wordlist ==> !Qualifies(g.secret, w)) &&
      (reply == NoSuitableHint ==> !saved && st' == st) &&
      (reply != NoSuitableHint ==>
        reply.HintWord? && reply.word in wordlist && Qualifies(g.secret, reply.word) &&
        saved && st' == Put(st, uid, st.users[uid].(game := Some(g.(hintUsed := true)))))
    ensures AllHaveStats(st) ==> AllHaveStats(st')
  {
    st' := st;
    saved := false;
    if !(uid in st.users && st.users[uid].game.Some?) {
      return OnlyDuringGame, End, st', saved;
    }
    var u := st.users[uid];
    var cg := u.game.value;
    if cg.hintUsed {
      return AlreadyUsed, Guessing, st', saved;
    }
    var candidates := Candidates(cg.secret, wordlist);
    if candidates == [] {
      return NoSuitableHint, Guessing, st', saved;
    }
    assert candidates[0] in candidates;
    var hintWord :| hintWord in candidates;
    st' := Put(st, uid, u.(game := Some(cg.(hintUsed := true))));
    saved := true;
    reply := HintWord(hintWord);
    next := Guessing;
  }

  /** `hint_not_allowed`: clears the wake-up notification flag and stays in the current state. */
  method HintNotAllowed(st: Store, uid: UserId, chat: ChatData) returns (next: ConvState, st': Store)
    requires Valid(st)
    ensures Valid(st') && st'.order == st.order && st'.global == st.global
    ensures StateKey in chat && chat[StateKey].VState? ==> next == chat[StateKey].state
    ensures !(StateKey in chat && chat[StateKey].VState?) ==> next == ConvState.AskLength
    ensures GameOf(st', uid) == GameOf(st, uid)
    ensures forall v :: v in st.users && v != uid ==> st'.users[v] == st.users[v]
    ensures st'.users.Keys == st.users.Keys
    ensures uid in st.users ==>
      st'.users[uid] == st.users[uid].(notified := st'.users[uid].notified) && st'.users[uid].notified != Some(true)
  {
    var cleared;
    st', cleared := ClearNotificationFlag(st, uid);
    next := if StateKey in chat && chat[StateKey].VState? then chat[StateKey].state else ConvState.AskLength;
  }
}
