/**
  Guessing: validating a guess, recording it, settling a won or lost game in the
  statistics, and the button that proposes an unknown guess for the dictionary.
*/
module Guess {
  import opened Wrappers
  import opened Text
  import opened Logic
  import opened Store
  import opened Conversation

  /** A game ends at the latest with the sixth accepted guess. */
  const MaxAttempts := 6

  // ---------------------------------------------------------------- the top player

  function Wins(st: Store, v: UserId): nat
    requires v in st.users && st.users[v].stats.Some?
  {
    st.users[v].stats.value.wins
  }

  /** The wins of the user at position `j` of the insertion order. */
  function WinsAt(st: Store, j: nat): nat
    requires Valid(st) && AllHaveStats(st) && j < |st.order|
  {
    assert st.order[j] in Elems(st.order);
    Wins(st, st.order[j])
  }

  /**
    Python's `max` over `users.items()` keyed by wins, from position `i` on, with the best
    so far at position `k`: it moves only on strictly more wins, so of several users with
    the most wins the first in insertion order is chosen.
  */
  function TopIndexFrom(st: Store, i: nat, k: nat): (m: nat)
    requires Valid(st) && AllHaveStats(st) && k < i <= |st.order|
    requires forall j :: 0 <= j < i ==> WinsAt(st, j) <= WinsAt(st, k)
    requires forall j :: 0 <= j < k ==> WinsAt(st, j) < WinsAt(st, k)
    ensures m < |st.order|
    ensures forall j :: 0 <= j < |st.order| ==> WinsAt(st, j) <= WinsAt(st, m)
    ensures forall j :: 0 <= j < m ==> WinsAt(st, j) < WinsAt(st, m)
    decreases |st.order| - i
  {
    if i == |st.order| then k
    else if WinsAt(st, i) > WinsAt(st, k) then TopIndexFrom(st, i + 1, i)
    else TopIndexFrom(st, i + 1, k)
  }

  /** `top_data.get("username") or top_data.get("first_name", "")`. */
  function DisplayName(u: User): string {
    if u.username.Some? && u.username.value != "" then u.username.value else u.firstName.GetOr("")
  }

  /**
    The `top_player` record written after a win. `None` stands for the `KeyError` raised
    when some record has no `stats`. Otherwise the holder is a user with the most wins,
    and no user before it in insertion order has as many.
  */
  function TopPlayerOf(st: Store): (t: Option<TopPlayer>)
    requires Valid(st) && st.users != map[]
    ensures t.Some? <==> AllHaveStats(st)
    ensures t.Some? ==>
      var top := t.value;
      top.userId in st.users && top.userId in st.order &&
      top.wins == Wins(st, top.userId) && top.name == DisplayName(st.users[top.userId]) &&
      (forall v :: v in st.users ==> Wins(st, v) <= top.wins) &&
      (forall j :: 0 <= j < IndexOf(st.order, top.userId) ==> WinsAt(st, j) < top.wins)
  {
    if !AllHaveStats(st) then None
    else
      assert st.order != [] by {
        var v :| v in st.users;
        assert v in Elems(st.order);
      }
      assert st.order[0] in Elems(st.order);
      var m := TopIndexFrom(st, 1, 0);
      var top := st.order[m];
      assert top in Elems(st.order);
      IndexOfDistinct(st.order, m);
      assert forall v :: v in st.users ==> Wins(st, v) <= Wins(st, top) by {
        forall v | v in st.users ensures Wins(st, v) <= Wins(st, top) {
          assert v in Elems(st.order);
          var j :| 0 <= j < |st.order| && st.order[j] == v;
          assert WinsAt(st, j) <= WinsAt(st, m);
        }
      }
      Some(TopPlayer(top, DisplayName(st.users[top]), Wins(st, top)))
  }

  // ---------------------------------------------------------------- settling a game

  /** The user's statistics after a win: one more game and one more win, rate recomputed. */
  function WinStats(s: Stats): (r: Stats)
    ensures r.gamesPlayed == s.gamesPlayed + 1 && r.wins == s.wins + 1 && r.losses == s.losses
    ensures r.winRate.Some? && r.winRate.value * (r.gamesPlayed as real) == r.wins as real
  {
    Stats(s.gamesPlayed + 1, s.wins + 1, s.losses, Some((s.wins + 1) as real / (s.gamesPlayed + 1) as real))
  }

  /** The user's statistics after a loss: one more game and one more loss, rate recomputed. */
  function LossStats(s: Stats): (r: Stats)
    ensures r.gamesPlayed == s.gamesPlayed + 1 && r.wins == s.wins && r.losses == s.losses + 1
    ensures r.winRate.Some? && r.winRate.value * (r.gamesPlayed as real) == r.wins as real
  {
    Stats(s.gamesPlayed + 1, s.wins, s.losses + 1, Some(s.wins as real / (s.gamesPlayed + 1) as real))
  }

  /** The global counters after a win. */
  function WinGlobal(g: Global): (r: Global)
    ensures r.totalGames == g.totalGames + 1 && r.totalWins == g.totalWins + 1 && r.totalLosses == g.totalLosses
    ensures r.winRate * (r.totalGames as real) == r.totalWins as real && r.topPlayer == g.topPlayer
  {
    g.(totalGames := g.totalGames + 1, totalWins := g.totalWins + 1,
       winRate := (g.totalWins + 1) as real / (g.totalGames + 1) as real)
  }

  /** The global counters after a loss. */
  function LossGlobal(g: Global): (r: Global)
    ensures r.totalGames == g.totalGames + 1 && r.totalWins == g.totalWins && r.totalLosses == g.totalLosses + 1
    ensures r.winRate * (r.totalGames as real) == r.totalWins as real && r.topPlayer == g.topPlayer
  {
    g.(totalGames := g.totalGames + 1, totalLosses := g.totalLosses + 1,
       winRate := g.totalWins as real / (g.totalGames + 1) as real)
  }

  /** The game once a guess is accepted: the guess appended, one more attempt. */
  function Played(g: Game, guess: string): Game {
    g.(guesses := g.guesses + [guess], attempts := g.attempts + 1)
  }

  /**
    A game as the handlers keep it: one attempt per guess, fewer than six of them, each
    of the secret's length and none equal to it.
  */
  predicate Consistent(g: Game) {
    g.attempts == |g.guesses| && g.attempts < MaxAttempts &&
    forall j :: 0 <= j < |g.guesses| ==> |g.guesses[j]| == |g.secret| && g.guesses[j] != g.secret
  }

  /**
    How a guess is answered. `NoGame` and `StatsMissing` are the two `KeyError`s the
    handler can raise: with no game in progress, and with a record lacking `stats` when a
    game is settled (after the move itself has been saved).
  */
  datatype GuessOutcome =
    | NoGame
    | HasSpace
    | WrongLength(length: nat)
    | PendingSuggestion
    | NotInDictionary(word: string)
    | Continue(attempts: nat)
    | Won(attempts: nat)
    | Lost(secret: string)
    | StatsMissing

  /** The first check a guess fails, in the handler's order, or `None` when it is accepted. */
  function Rejection(secret: string, guess: string, suggested: seq<string>, wordlist: seq<string>, base: BaseWords): (r: Option<GuessOutcome>)
    ensures r.None? <==>
      ' ' !in guess && |guess| == |secret| && !(guess in suggested && guess !in wordlist) &&
      (guess in base.main || guess in base.additional)
  {
    if ' ' in guess then Some(HasSpace)
    else if |guess| != |secret| then Some(WrongLength(|secret|))
    else if guess in suggested && guess !in wordlist then Some(PendingSuggestion)
    else if guess !in base.main && guess !in base.additional then Some(NotInDictionary(guess))
    else None
  }

  /** An accepted guess is settled: a win, a loss at the sixth attempt, or play goes on. */
  predicate Settles(g: Game, guess: string) {
    guess == g.secret || g.attempts + 1 >= MaxAttempts
  }

  /** The store with an accepted guess recorded in the user's game: what the handler saves first. */
  function Moved(st: Store, uid: UserId, guess: string): (r: Store)
    requires Valid(st) && HasGame(st, uid)
    ensures Valid(r) && r.order == st.order && r.global == st.global
    ensures r.users == st.users[uid := st.users[uid].(game := Some(Played(st.users[uid].game.value, guess)))]
    ensures HasGame(r, uid) && r.users.Keys == st.users.Keys && r.users[uid].stats == st.users[uid].stats
    ensures AllHaveStats(st) ==> AllHaveStats(r)
  {
    Put(st, uid, st.users[uid].(game := Some(Played(st.users[uid].game.value, guess))))
  }

  /** The store once a win is counted, before the top player is chosen and the game removed. */
  function WinCounted(st: Store, uid: UserId): (r: Store)
    requires Valid(st) && uid in st.users && st.users[uid].stats.Some?
    ensures Valid(r) && r.users.Keys == st.users.Keys && r.users != map[]
    ensures AllHaveStats(r) <==> AllHaveStats(st)
  {
    Store(st.order, st.users[uid := st.users[uid].(stats := Some(WinStats(st.users[uid].stats.value)))], WinGlobal(st.global))
  }

  /**
    The top player written when the user's win is counted, or `None` for the `KeyError`
    raised when the user's own record or any other lacks `stats`.
  */
  function WinTop(st: Store, uid: UserId): (t: Option<TopPlayer>)
    requires Valid(st) && uid in st.users
    ensures t.Some? <==> AllHaveStats(st)
    ensures t.Some? ==> st.users[uid].stats.Some? && t == TopPlayerOf(WinCounted(st, uid))
  {
    if st.users[uid].stats.None? then None else TopPlayerOf(WinCounted(st, uid))
  }

  /**
    How a won game is answered, on the store `ms` in which the move is already saved:
    either the handler raises and `ms` stays as it is, or the user's games and wins, the
    global games and wins, both rates and the top player are updated and the game is
    removed.
  */
  ghost predicate WinAnswer(ms: Store, uid: UserId, chat: ChatData,
                            out: GuessOutcome, next: Option<ConvState>, st': Store, chat': ChatData)
    requires Valid(ms) && HasGame(ms, uid)
  {
    var u := ms.users[uid];
    var top := WinTop(ms, uid);
    (top.None? ==> out == StatsMissing && next == None && st' == ms && chat' == chat) &&
    (top.Some? ==>
      out == Won(u.game.value.attempts) && next == Some(End) && chat' == Finish(chat, GameActive) &&
      st' == Store(ms.order, ms.users[uid := u.(stats := Some(WinStats(u.stats.value)), game := None)],
                   WinGlobal(ms.global).(topPlayer := top)))
  }

  /**
    How a lost game is answered, on the store `ms` in which the move is already saved:
    either the handler raises on a missing `stats` and `ms` stays as it is, or the
    user's games and losses, the global games and losses and both rates are updated and
    the game is removed.
  */
  ghost predicate LossAnswer(ms: Store, uid: UserId, chat: ChatData,
                             out: GuessOutcome, next: Option<ConvState>, st': Store, chat': ChatData)
    requires Valid(ms) && HasGame(ms, uid)
  {
    var u := ms.users[uid];
    (u.stats.None? ==> out == StatsMissing && next == None && st' == ms && chat' == chat) &&
    (u.stats.Some? ==>
      out == Lost(u.game.value.secret) && next == Some(End) && chat' == Finish(chat, GameActive) &&
      st' == Store(ms.order, ms.users[uid := u.(stats := Some(LossStats(u.stats.value)), game := None)],
                   LossGlobal(ms.global)))
  }

  /**
    How an accepted guess is answered: the move is saved (`Moved`), and the game is won
    on the secret, lost on the sixth attempt, or goes on.
  */
  ghost predicate Answer(st: Store, uid: UserId, guess: string, chat: ChatData,
                         out: GuessOutcome, next: Option<ConvState>, st': Store, chat': ChatData)
    requires Valid(st) && HasGame(st, uid)
  {
    var g := st.users[uid].game.value;
    var ms := Moved(st, uid, guess);
    if guess == g.secret then WinAnswer(ms, uid, chat, out, next, st', chat')
    else if g.attempts + 1 >= MaxAttempts then LossAnswer(ms, uid, chat, out, next, st', chat')
    else out == Continue(g.attempts + 1) && next == Some(Guessing) && st' == ms && chat' == chat
  }

  /** After a win every record has statistics and none has more wins than the top player. */
  predicate TopHolds(st: Store) {
    st.global.topPlayer.Some? &&
    forall v :: v in st.users ==> st.users[v].stats.Some? && st.users[v].stats.value.wins <= st.global.topPlayer.value.wins
  }

  /** Removing the game after a counted win keeps every record's statistics, so the top player's bound carries over. */
  lemma WinSettledTop(st: Store, uid: UserId, top: TopPlayer)
    requires Valid(st) && uid in st.users && st.users[uid].stats.Some?
    requires TopPlayerOf(WinCounted(st, uid)) == Some(top)
    ensures
      var u := st.users[uid];
      TopHolds(Store(st.order, st.users[uid := u.(stats := Some(WinStats(u.stats.value)), game := None)],
                     WinGlobal(st.global).(topPlayer := Some(top))))
  {
    var u := st.users[uid];
    var won := WinCounted(st, uid);
    var st' := Store(st.order, st.users[uid := u.(stats := Some(WinStats(u.stats.value)), game := None)],
                     WinGlobal(st.global).(topPlayer := Some(top)));
    forall v | v in st'.users
      ensures st'.users[v].stats.Some? && st'.users[v].stats.value.wins <= top.wins
    {
      assert st'.users[v].stats == won.users[v].stats;
    }
  }

  /** `handle_guess`'s win branch, on the store in which the move is already recorded. */
  method SettleWin(st: Store, uid: UserId, chat: ChatData)
    returns (out: GuessOutcome, next: Option<ConvState>, st': Store, chat': ChatData)
    requires Valid(st) && HasGame(st, uid)
    ensures Valid(st') && st'.order == st.order
    ensures WinAnswer(st, uid, chat, out, next, st', chat')
    ensures AllHaveStats(st) ==> out != StatsMissing && AllHaveStats(st')
    ensures out.Won? ==> TopHolds(st')
  {
    var user := st.users[uid];
    var top := WinTop(st, uid);
    if top.None? {
      return StatsMissing, None, st, chat;
    }
    WinSettledTop(st, uid, top.value);
    Replaced(st, uid, user.(stats := Some(WinStats(user.stats.value)), game := None), WinGlobal(st.global).(topPlayer := top));
    st' := Store(st.order, st.users[uid := user.(stats := Some(WinStats(user.stats.value)), game := None)],
                 WinGlobal(st.global).(topPlayer := top));
    chat' := Finish(chat, GameActive);
    return Won(user.game.value.attempts), Some(End), st', chat';
  }

  /** `handle_guess`'s loss branch, on the store in which the move is already recorded. */
  method SettleLoss(st: Store, uid: UserId, chat: ChatData)
    returns (out: GuessOutcome, next: Option<ConvState>, st': Store, chat': ChatData)
    requires Valid(st) && HasGame(st, uid)
    ensures Valid(st') && st'.order == st.order
    ensures LossAnswer(st, uid, chat, out, next, st', chat')
    ensures AllHaveStats(st) ==> out != StatsMissing && AllHaveStats(st')
  {
    st', chat' := st, chat;
    var user := st.users[uid];
    if user.stats.None? {
      return StatsMissing, None, st', chat';
    }
    var secret := user.game.value.secret;
    user := user.(stats := Some(LossStats(user.stats.value)), game := None);
    Replaced(st, uid, user, LossGlobal(st.global));
    st' := Store(st.order, st.users[uid := user], LossGlobal(st.global));
    chat' := Finish(chat, GameActive);
    return Lost(secret), Some(End), st', chat';
  }

  /** An accepted guess, answered as `Answer` states. A consistent game stays consistent unless the handler raises. */
  method Accept(st: Store, uid: UserId, guess: string, chat: ChatData)
    returns (out: GuessOutcome, next: Option<ConvState>, st': Store, chat': ChatData)
    requires Valid(st) && HasGame(st, uid)
    ensures Valid(st') && st'.order == st.order
    ensures Answer(st, uid, guess, chat, out, next, st', chat')
    ensures AllHaveStats(st) ==> out != StatsMissing && AllHaveStats(st')
    ensures |guess| == |GameOf(st, uid).value.secret| && Consistent(GameOf(st, uid).value) && out != StatsMissing ==>
      GameOf(st', uid).None? || Consistent(GameOf(st', uid).value)
    ensures out.Won? ==> TopHolds(st')
  {
    var moved := Moved(st, uid, guess);
    var cg := Played(st.users[uid].game.value, guess);
    st', chat' := moved, chat;
    if guess == cg.secret {
      out, next, st', chat' := SettleWin(moved, uid, chat);
    } else if cg.attempts >= MaxAttempts {
      out, next, st', chat' := SettleLoss(moved, uid, chat);
    } else {
      out, next := Continue(cg.attempts), Some(Guessing);
    }
  }

  /**
    `handle_guess`. The guess is the normalised message. It is refused, with nothing
    saved, when it contains a space, has the wrong length, was proposed by this user and
    is still outside the word list, or is in neither dictionary list. Otherwise it is
    saved and answered as `Answer` states. A consistent game stays consistent unless the
    handler raises.
  */
  method HandleGuess(st: Store, uid: UserId, text: string, wordlist: seq<string>, base: BaseWords, chat: ChatData)
    returns (out: GuessOutcome, next: Option<ConvState>, st': Store, saved: bool, chat': ChatData)
    requires Valid(st)
    ensures Valid(st') && st'.order == st.order
    ensures !HasGame(st, uid) ==> out == NoGame && next == None && !saved && st' == st && chat' == chat
    ensures HasGame(st, uid) ==>
      var u := st.users[uid];
      var guess := Normalize(text);
      var rejected := Rejection(u.game.value.secret, guess, u.suggested.GetOr([]), wordlist, base);
      (rejected.Some? ==> out == rejected.value && next == Some(Guessing) && !saved && st' == st && chat' == chat) &&
      (rejected.None? ==> saved && Answer(st, uid, guess, chat, out, next, st', chat'))
    ensures AllHaveStats(st) ==> out != StatsMissing && AllHaveStats(st')
    ensures HasGame(st, uid) && Consistent(GameOf(st, uid).value) && out != StatsMissing ==>
      GameOf(st', uid).None? || Consistent(GameOf(st', uid).value)
    ensures out.Won? ==> TopHolds(st')
  {
    st' := st;
    saved := false;
    chat' := chat;
    if !(uid in st.users && st.users[uid].game.Some?) {
      return NoGame, None, st', saved, chat';
    }
    var user := st.users[uid];
    var cg := user.game.value;
    var guess := Normalize(text);
    var secret := cg.secret;
    // The handler normalises the guess a second time, which gives the same word.
    var normalizedGuess := Normalize(guess);
    NormalizeIdempotent(text);
    if ' ' in guess {
      return HasSpace, Some(Guessing), st', saved, chat';
    }
    if |guess| != |secret| {
      return WrongLength(|secret|), Some(Guessing), st', saved, chat';
    }
    var suggestedWords := user.suggested.GetOr([]);
    if normalizedGuess in suggestedWords && normalizedGuess !in wordlist {
      return PendingSuggestion, Some(Guessing), st', saved, chat';
    }
    if normalizedGuess !in base.main && normalizedGuess !in base.additional {
      return NotInDictionary(normalizedGuess), Some(Guessing), st', saved, chat';
    }
    saved := true;
    out, next, st', chat' := Accept(st, uid, guess, chat);
  }

  // ---------------------------------------------------------------- proposing a guess

  /** `set(json.load(f))` for the dictionary file, which is an object: the set of its keys. */
  const BaseFileKeys: set<string> := {"main", "additional"}

  /**
    `suggest_white_callback` as written. `payload` is the button data after its first
    colon. The word joins the white list unless it is there already or is one of the
    dictionary file's keys. It is then appended to the user's proposals when missing;
    for a user without a record the proposal goes into a detached `{}` and the store is
    saved unchanged.
  */
  method SuggestWhite(sugg: Suggestions, st: Store, uid: UserId, payload: string)
    returns (sugg': Suggestions, suggSaved: bool, next: ConvState, st': Store, saved: bool)
    requires Valid(st)
    ensures Valid(st') && next == Guessing
    ensures var word := Normalize(payload);
      (suggSaved <==> word !in sugg.white && word !in BaseFileKeys) &&
      sugg' == (if suggSaved then sugg.(white := sugg.white + {word}) else sugg) &&
      (uid !in st.users ==> saved && st' == st) &&
      (uid in st.users ==>
        (saved <==> WithSuggestion(st.users[uid], word).Some?) &&
        (saved ==> st' == Put(st, uid, WithSuggestion(st.users[uid], word).value)) &&
        (!saved ==> st' == st))
  {
    var word := Normalize(payload);
    sugg' := sugg;
    suggSaved := false;
    if word !in sugg.white && word !in BaseFileKeys {
      sugg' := sugg'.(white := sugg'.white + {word});
      suggSaved := true;
    }
    var user := if uid in st.users then st.users[uid] else EmptyUser;
    if user.suggested.None? {
      user := user.(suggested := Some([]));
    }
    st' := st;
    saved := false;
    if word !in user.suggested.value {
      user := user.(suggested := Some(user.suggested.value + [word]));
      if uid in st.users {
        st' := Put(st, uid, user);
      }
      saved := true;
    }
    next := Guessing;
  }

  /**
    The proposal with the dictionary test the callback evidently means: the word joins the
    white list only when neither dictionary list holds it. Everything else is as written.
  */
  method SuggestWhiteChecked(sugg: Suggestions, base: BaseWords, st: Store, uid: UserId, payload: string)
    returns (sugg': Suggestions, suggSaved: bool, next: ConvState, st': Store, saved: bool)
    requires Valid(st)
    ensures Valid(st') && next == Guessing
    ensures var word := Normalize(payload);
      (suggSaved <==> word !in sugg.white && word !in base.main && word !in base.additional) &&
      sugg' == (if suggSaved then sugg.(white := sugg.white + {word}) else sugg) &&
      (uid !in st.users ==> saved && st' == st) &&
      (uid in st.users ==>
        (saved <==> WithSuggestion(st.users[uid], word).Some?) &&
        (saved ==> st' == Put(st, uid, WithSuggestion(st.users[uid], word).value)) &&
        (!saved ==> st' == st))
    ensures forall w :: w in sugg'.white && w !in sugg.white ==> w !in base.main && w !in base.additional
  {
    var word := Normalize(payload);
    sugg' := sugg;
    suggSaved := false;
    if word !in sugg.white && word !in base.main && word !in base.additional {
      sugg' := sugg'.(white := sugg'.white + {word});
      suggSaved := true;
    }
    var user := if uid in st.users then st.users[uid] else EmptyUser;
    if user.suggested.None? {
      user := user.(suggested := Some([]));
    }
    st' := st;
    saved := false;
    if word !in user.suggested.value {
      user := user.(suggested := Some(user.suggested.value + [word]));
      if uid in st.users {
        st' := Put(st, uid, user);
      }
      saved := true;
    }
    next := Guessing;
  }

  /**
    The callback as written puts a dictionary word on the white list: "лимон" in the
    main list, proposed by a user with no record. The checked version leaves the
    suggestions alone.
  */
  method SuggestWhiteDictionaryWord() returns (asWritten: Suggestions, checked: Suggestions, word: string)
    ensures word == "лимон"
    ensures word in asWritten.white && word !in checked.white
  {
    word := "лимон";
    var base := BaseWords([word], []);
    assert Trimmed(word);
    StripTrimmed(word);
    assert LowerStr(word) == word;
    assert ReplaceYo(word) == word;
    assert Normalize(word) == word;
    var s1, s2, _, _, _ := SuggestWhite(NoSuggestions, Template, "1", word);
    var t1, t2, _, _, _ := SuggestWhiteChecked(NoSuggestions, base, Template, "1", word);
    asWritten, checked := s1, t1;
  }
}
