/**
  `/play`: resuming a game in progress or asking for a word length, then starting a game
  with a secret of that length.
*/
module Play {
  import opened Wrappers
  import opened Text
  import opened Store
  import opened Conversation

  /** A reply to the length question that the handler accepts: digits naming 4 to 11. */
  predicate LengthText(t: string) {
    IsDigits(t) && 4 <= ParseNat(t) <= 11
  }

  /** `[w for w in WORDLIST if len(w) == length]`. */
  function WordsOfLength(wordlist: seq<string>, length: nat): (r: seq<string>)
    ensures forall w :: w in r <==> w in wordlist && |w| == length
  {
    if wordlist == [] then []
    else
      var rest := WordsOfLength(wordlist[1..], length);
      if |wordlist[0]| == length then [wordlist[0]] + rest else rest
  }

  /**
    `ask_length`: records the activity, clears the wake-up notification flag and marks the
    chat as being in a game. A game in progress is resumed (its secret, length, attempts
    and guesses copied into the chat data) and the conversation moves to guessing;
    otherwise it asks for the length. No game is created or changed.
  */
  method AskLength(st: Store, uid: UserId, p: Profile, chat: ChatData)
    returns (next: ConvState, st': Store, chat': ChatData)
    requires Valid(st)
    ensures Valid(st') && st'.global == st.global && st'.users.Keys == st.users.Keys + {uid}
    ensures st'.users[uid] == Touched(st, uid, p).(notified := st'.users[uid].notified)
    ensures st'.users[uid].notified != Some(true)
    ensures forall v :: v in st.users && v != uid ==> st'.users[v] == st.users[v]
    ensures GameOf(st', uid) == GameOf(st, uid)
    ensures Flag(chat', GameActive)
    ensures HasGame(st, uid) ==>
      var g := GameOf(st, uid).value;
      next == Guessing &&
      chat' == chat[StateKey := VState(ConvState.AskLength)][GameActive := VBool(true)]
                   [SecretKey := VStr(g.secret)][LengthKey := VNat(|g.secret|)]
                   [AttemptsKey := VNat(g.attempts)][GuessesKey := VStrs(g.guesses)]
    ensures !HasGame(st, uid) ==>
      next == ConvState.AskLength &&
      chat' == chat[StateKey := VState(ConvState.AskLength)][GameActive := VBool(true)]
    ensures AllHaveStats(st) ==> AllHaveStats(st')
  {
    chat' := chat[StateKey := VState(ConvState.AskLength)];
    var s1 := UpdateUserActivity(st, uid, p);
    var s2, _ := ClearNotificationFlag(s1, uid);
    chat' := chat'[GameActive := VBool(true)];
    st' := s2;
    var u := if uid in s2.users then s2.users[uid] else EmptyUser;
    if u.game.Some? {
      var cg := u.game.value;
      chat' := chat'[SecretKey := VStr(cg.secret)][LengthKey := VNat(|cg.secret|)]
                    [AttemptsKey := VNat(cg.attempts)][GuessesKey := VStrs(cg.guesses)];
      next := Guessing;
    } else {
      next := ConvState.AskLength;
    }
  }

  /**
    `receive_length`: records the activity and reads the stripped reply. A reply that is
    not a number from 4 to 11, or a length with no word in the list, keeps asking and
    creates no game. Otherwise a secret of that length is drawn from the word list, a new
    game with no attempts, no guesses and no hint replaces any game in progress, and the
    chat data is set up for guessing.
  */
  method ReceiveLength(st: Store, uid: UserId, p: Profile, text: string, wordlist: seq<string>, chat: ChatData)
    returns (next: ConvState, st': Store, chat': ChatData)
    requires Valid(st)
    ensures Valid(st') && st'.global == st.global && st'.users.Keys == st.users.Keys + {uid}
    ensures forall v :: v in st.users && v != uid ==> st'.users[v] == st.users[v]
    ensures next == Guessing || next == ConvState.AskLength
    ensures next == ConvState.AskLength <==>
      !LengthText(Strip(text)) || forall w :: w in wordlist ==> |w| != ParseNat(Strip(text))
    ensures next == ConvState.AskLength ==>
      st'.users == st.users[uid := Touched(st, uid, p)] && chat' == chat
    ensures next == Guessing ==>
      var length := ParseNat(Strip(text));
      HasGame(st', uid) &&
      var g := GameOf(st', uid).value;
      g.secret in wordlist && |g.secret| == length &&
      g == Game(g.secret, 0, [], false) &&
      st'.users[uid] == Touched(st, uid, p).(game := Some(g)) &&
      chat' == chat[SecretKey := VStr(g.secret)][LengthKey := VNat(length)]
                   [AttemptsKey := VNat(0)][GuessesKey := VStrs([])][StateKey := VState(Guessing)]
    ensures AllHaveStats(st) ==> AllHaveStats(st')
  {
    var s1 := UpdateUserActivity(st, uid, p);
    var parsed := ReadLength(text);
    if parsed.None? {
      return ConvState.AskLength, s1, chat;
    }
    var length := parsed.value;
    var candidates := WordsOfLength(wordlist, length);
    if candidates == [] {
      return ConvState.AskLength, s1, chat;
    }
    assert candidates[0] in candidates;
    var secret :| secret in candidates;
    st', chat' := StartGame(s1, uid, secret, length, chat);
    next := Guessing;
  }

  /** The stripped reply read as a length: a number from 4 to 11, or nothing. */
  method ReadLength(text: string) returns (length: Option<nat>)
    ensures length.Some? <==> LengthText(Strip(text))
    ensures length.Some? ==> length.value == ParseNat(Strip(text))
  {
    var t := Strip(text);
    if !(IsDigits(t) && 4 <= ParseNat(t) <= 11) {
      return None;
    }
    return Some(ParseNat(t));
  }

  /**
    The end of `receive_length`: the user's record gets a fresh game with `secret`, and
    the chat data is set up for guessing it.
  */
  method StartGame(s1: Store, uid: UserId, secret: string, length: nat, chat: ChatData)
    returns (st': Store, chat': ChatData)
    requires Valid(s1) && uid in s1.users
    ensures Valid(st') && st'.order == s1.order && st'.global == s1.global && st'.users.Keys == s1.users.Keys
    ensures st'.users == s1.users[uid := s1.users[uid].(game := Some(Game(secret, 0, [], false)))]
    ensures forall v :: v in s1.users && v != uid ==> st'.users[v] == s1.users[v]
    ensures AllHaveStats(s1) ==> AllHaveStats(st')
    ensures chat' == chat[SecretKey := VStr(secret)][LengthKey := VNat(length)]
                         [AttemptsKey := VNat(0)][GuessesKey := VStrs([])][StateKey := VState(Guessing)]
  {
    var u := if uid in s1.users then s1.users[uid] else SetDefaultUser;
    u := u.(game := Some(Game(secret, 0, [], false)));
    st' := Put(s1, uid, u);
    chat' := chat[SecretKey := VStr(secret)][LengthKey := VNat(length)]
                 [AttemptsKey := VNat(0)][GuessesKey := VStrs([])][StateKey := VState(Guessing)];
  }
}
