/**
  The persistent state: the user-activity store (`user_activity.json`) and the word
  suggestions (`suggestions.json`), with the loaders that repair damaged files and the
  small store updates every handler shares.

  A store is a value. A handler receives the store it loaded and hands back the content
  it wrote; the JSON text itself is abstracted to the `RawStore` and `RawSuggestions`
  shapes below, which keep exactly the distinctions the loaders make.
*/
module Store {
  import opened Wrappers
  import opened Text

  /** `str(user.id)`. */
  type UserId = string

  /** A user's `stats`; the record made by `setdefault` in the length handler has no `win_rate`. */
  datatype Stats = Stats(gamesPlayed: nat, wins: nat, losses: nat, winRate: Option<real>)

  /** `{"games_played": 0, "wins": 0, "losses": 0, "win_rate": 0.0}`. */
  const ZeroStats := Stats(0, 0, 0, Some(0.0))

  /** A game in progress (`current_game`); a missing `hint_used` reads as false. */
  datatype Game = Game(secret: string, attempts: nat, guesses: seq<string>, hintUsed: bool)

  /** A user record: every key is optional, since different handlers create different records. */
  datatype User = User(
    firstName: Option<string>,
    username: Option<string>,
    stats: Option<Stats>,
    banned: Option<bool>,
    suggested: Option<seq<string>>,
    game: Option<Game>,
    notification: Option<bool>,
    notifyOnWakeup: Option<bool>,
    notified: Option<bool>,
    wasBanned: Option<bool>)

  /** The empty record `{}`. */
  const EmptyUser := User(None, None, None, None, None, None, None, None, None, None)

  /** The record `setdefault` inserts in the length and hint handlers: only counters, no `win_rate`. */
  const SetDefaultUser := EmptyUser.(stats := Some(Stats(0, 0, 0, None)))

  /** `global["top_player"]`. */
  datatype TopPlayer = TopPlayer(userId: UserId, name: string, wins: nat)

  datatype Global = Global(totalGames: nat, totalWins: nat, totalLosses: nat, winRate: real, topPlayer: Option<TopPlayer>)

  /** The template's `global` section. */
  const ZeroGlobal := Global(0, 0, 0, 0.0, None)

  /**
    The whole store. `order` is the insertion order of the `users` dictionary, which
    decides ties when the top player is chosen.
  */
  datatype Store = Store(order: seq<UserId>, users: map<UserId, User>, global: Global)

  /** `order` lists each user exactly once. */
  ghost predicate Valid(st: Store) {
    NoDuplicates(st.order) && Elems(st.order) == st.users.Keys
  }

  /** `{"users": {}, "global": {...zeros...}}`. */
  const Template := Store([], map[], ZeroGlobal)

  /** `users[uid] = u`: replaces a record in place or appends a new key at the end. */
  function Put(st: Store, uid: UserId, u: User): (r: Store)
    requires Valid(st)
    ensures Valid(r)
    ensures r.users == st.users[uid := u] && r.global == st.global
    ensures uid in st.users ==> r.order == st.order
    ensures uid !in st.users ==> r.order == st.order + [uid]
    ensures r.users.Keys == st.users.Keys + {uid}
    ensures forall v :: v in st.users && v != uid ==> r.users[v] == st.users[v]
    ensures AllHaveStats(st) && u.stats.Some? ==> AllHaveStats(r)
  {
    if uid in st.users then Store(st.order, st.users[uid := u], st.global)
    else Store(st.order + [uid], st.users[uid := u], st.global)
  }

  /** Replacing an existing record, whatever the global section becomes, keeps the order valid. */
  lemma Replaced(st: Store, uid: UserId, u: User, g: Global)
    requires Valid(st) && uid in st.users
    ensures Valid(Store(st.order, st.users[uid := u], g))
  {
    assert st.users[uid := u].Keys == st.users.Keys;
  }

  /** The user at position `i` of the order is stored and does not occur before `i`. */
  lemma OrderStep(st: Store, i: nat)
    requires Valid(st) && i < |st.order|
    ensures st.order[..i + 1] == st.order[..i] + [st.order[i]]
    ensures st.order[i] in st.users && st.order[i] !in st.order[..i]
    ensures forall x :: x in st.order[..i + 1] ==> x in st.users
  {
    assert st.order[i] in Elems(st.order);
    forall x | x in st.order[..i + 1] ensures x in st.users {
      assert x in Elems(st.order);
    }
  }

  /** The game the user has in progress. */
  function GameOf(st: Store, uid: UserId): Option<Game> {
    if uid in st.users then st.users[uid].game else None
  }

  predicate HasGame(st: Store, uid: UserId) {
    GameOf(st, uid).Some?
  }

  /** Every record carries `stats`, which is what the statistics code reads without a default. */
  predicate AllHaveStats(st: Store) {
    forall v :: v in st.users ==> st.users[v].stats.Some?
  }

  // ---------------------------------------------------------------- loading the store

  /** The `global` object as found in the file; each key may be missing. */
  datatype RawGlobal = RawGlobal(
    totalGames: Option<nat>, totalWins: Option<nat>, totalLosses: Option<nat>,
    winRate: Option<real>, topPlayer: Option<TopPlayer>)

  /** The `users` object as found in the file, with its key order. */
  datatype RawUsers = RawUsers(order: seq<UserId>, users: map<UserId, User>)

  /**
    What `load_store` can find: no file, a file of only whitespace, text that is not JSON,
    JSON that is not an object, or an object whose `users` and `global` may be missing or
    of the wrong type (`None` here).
  */
  datatype RawStore =
    | NoFile
    | Blank
    | Undecodable
    | NotAnObject
    | Object(users: Option<RawUsers>, global: Option<RawGlobal>)

  ghost predicate WellFormedRaw(raw: RawStore) {
    raw.Object? && raw.users.Some? ==>
      NoDuplicates(raw.users.value.order) && Elems(raw.users.value.order) == raw.users.value.users.Keys
  }

  /** The keys of the template's `global`, in the order `setdefault` visits them. */
  datatype GlobalKey = TotalGamesKey | TotalWinsKey | TotalLossesKey | WinRateKey

  const GlobalKeys := [TotalGamesKey, TotalWinsKey, TotalLossesKey, WinRateKey]

  /** `global.setdefault(key, template_value)`. */
  function SetDefault(g: RawGlobal, key: GlobalKey): RawGlobal {
    match key
    case TotalGamesKey => g.(totalGames := Some(g.totalGames.GetOr(0)))
    case TotalWinsKey => g.(totalWins := Some(g.totalWins.GetOr(0)))
    case TotalLossesKey => g.(totalLosses := Some(g.totalLosses.GetOr(0)))
    case WinRateKey => g.(winRate := Some(g.winRate.GetOr(0.0)))
  }

  /**
    The store `load_store` returns: the template for a missing, blank, undecodable or
    non-object file; otherwise the file's users (none if that section is damaged) and its
    `global` with every missing counter set to zero (the template's `global` if damaged).
  */
  function Repaired(raw: RawStore): (st: Store)
    requires WellFormedRaw(raw)
    ensures Valid(st)
    ensures !raw.Object? ==> st == Template
    ensures raw.Object? && raw.users.None? ==> st.users == map[]
    ensures raw.Object? && raw.global.None? ==> st.global == ZeroGlobal
    ensures raw.Object? && raw.users.Some? ==> st.order == raw.users.value.order && st.users == raw.users.value.users
    ensures raw.Object? && raw.global.Some? ==>
      var g := raw.global.value;
      (g.totalGames.Some? ==> st.global.totalGames == g.totalGames.value) &&
      (g.totalWins.Some? ==> st.global.totalWins == g.totalWins.value) &&
      (g.totalLosses.Some? ==> st.global.totalLosses == g.totalLosses.value) &&
      (g.winRate.Some? ==> st.global.winRate == g.winRate.value) &&
      (g.totalGames.None? ==> st.global.totalGames == 0) && (g.totalWins.None? ==> st.global.totalWins == 0) &&
      (g.totalLosses.None? ==> st.global.totalLosses == 0) && (g.winRate.None? ==> st.global.winRate == 0.0) &&
      st.global.topPlayer == g.topPlayer
  {
    if !raw.Object? then Template
    else
      var us := raw.users.GetOr(RawUsers([], map[]));
      match raw.global
      case None => Store(us.order, us.users, ZeroGlobal)
      case Some(g) =>
        Store(us.order, us.users,
              Global(g.totalGames.GetOr(0), g.totalWins.GetOr(0), g.totalLosses.GetOr(0),
                     g.winRate.GetOr(0.0), g.topPlayer))
  }

  /** `load_store`, with its `setdefault` loop over the template keys. */
  method LoadStore(raw: RawStore) returns (st: Store)
    requires WellFormedRaw(raw)
    ensures st == Repaired(raw)
  {
    if !raw.Object? {
      return Template;
    }
    var us := if raw.users.Some? then raw.users.value else RawUsers([], map[]);
    var g0 := if raw.global.Some? then raw.global.value else RawGlobal(Some(0), Some(0), Some(0), Some(0.0), None);
    var g := g0;
    for i := 0 to |GlobalKeys|
      invariant g.totalGames == if i > 0 then Some(g0.totalGames.GetOr(0)) else g0.totalGames
      invariant g.totalWins == if i > 1 then Some(g0.totalWins.GetOr(0)) else g0.totalWins
      invariant g.totalLosses == if i > 2 then Some(g0.totalLosses.GetOr(0)) else g0.totalLosses
      invariant g.winRate == if i > 3 then Some(g0.winRate.GetOr(0.0)) else g0.winRate
      invariant g.topPlayer == g0.topPlayer
    {
      g := SetDefault(g, GlobalKeys[i]);
    }
    st := Store(us.order, us.users, Global(g.totalGames.value, g.totalWins.value, g.totalLosses.value, g.winRate.value, g.topPlayer));
  }

  /** What `save_store` writes, read back as a `RawStore`: both sections present, every counter set. */
  function Saved(st: Store): RawStore {
    Object(Some(RawUsers(st.order, st.users)),
           Some(RawGlobal(Some(st.global.totalGames), Some(st.global.totalWins), Some(st.global.totalLosses),
                          Some(st.global.winRate), st.global.topPlayer)))
  }

  /** Loading what was saved gives back the same store. */
  lemma LoadSaved(st: Store)
    requires Valid(st)
    ensures WellFormedRaw(Saved(st)) && Repaired(Saved(st)) == st
  {
  }

  /** Repairing is idempotent: a loaded store saved and loaded again is unchanged. */
  lemma RepairIdempotent(raw: RawStore)
    requires WellFormedRaw(raw)
    ensures Repaired(Saved(Repaired(raw))) == Repaired(raw)
  {
    LoadSaved(Repaired(raw));
  }

  // ---------------------------------------------------------------- profile updates

  /** The profile fields of a Telegram user that the model keeps. */
  datatype Profile = Profile(firstName: Option<string>, username: Option<string>)

  /** The record `update_user_activity` creates for a newcomer. */
  function NewUser(p: Profile): User {
    EmptyUser.(firstName := p.firstName, suggested := Some([]), stats := Some(ZeroStats), banned := Some(false))
  }

  /** The user's record once `update_user_activity` has run. */
  function Touched(st: Store, uid: UserId, p: Profile): User {
    (if uid in st.users then st.users[uid] else NewUser(p)).(firstName := p.firstName, username := p.username)
  }

  /**
    `update_user_activity`: creates the record of a newcomer (empty suggestion list, zero
    statistics, not banned), then overwrites the profile fields. Nothing else about the
    user, and nothing about anybody else, changes. The store is always saved.
  */
  method UpdateUserActivity(st: Store, uid: UserId, p: Profile) returns (st': Store)
    requires Valid(st)
    ensures Valid(st') && st'.global == st.global
    ensures st'.users == st.users[uid := Touched(st, uid, p)]
    ensures st'.users[uid].firstName == p.firstName && st'.users[uid].username == p.username
    ensures uid !in st.users ==>
      st'.order == st.order + [uid] &&
      st'.users[uid].stats == Some(ZeroStats) && st'.users[uid].suggested == Some([]) &&
      st'.users[uid].banned == Some(false) && st'.users[uid].game == None
    ensures uid in st.users ==>
      st'.order == st.order &&
      st'.users[uid] == st.users[uid].(firstName := p.firstName, username := p.username)
    ensures forall v :: v in st.users && v != uid ==> v in st'.users && st'.users[v] == st.users[v]
    ensures st'.users.Keys == st.users.Keys + {uid}
    ensures AllHaveStats(st) ==> AllHaveStats(st')
  {
    var u := if uid in st.users then st.users[uid] else NewUser(p);
    u := u.(firstName := p.firstName, username := p.username);
    st' := Put(st, uid, u);
  }

  /**
    `clear_notification_flag`: when the user exists and has been notified about an
    unfinished game, the flag becomes false and the store is saved; otherwise nothing
    happens.
  */
  method ClearNotificationFlag(st: Store, uid: UserId) returns (st': Store, saved: bool)
    requires Valid(st)
    ensures Valid(st') && st'.global == st.global && st'.order == st.order
    ensures saved <==> uid in st.users && st.users[uid].notified == Some(true)
    ensures saved ==> st'.users == st.users[uid := st.users[uid].(notified := Some(false))]
    ensures !saved ==> st' == st
    ensures AllHaveStats(st) ==> AllHaveStats(st')
    ensures st'.users.Keys == st.users.Keys
    ensures forall v :: v in st.users && v != uid ==> st'.users[v] == st.users[v]
    ensures uid in st.users ==>
      st'.users[uid] == st.users[uid].(notified := st'.users[uid].notified) && st'.users[uid].notified != Some(true)
  {
    if uid in st.users && st.users[uid].notified == Some(true) {
      st' := Put(st, uid, st.users[uid].(notified := Some(false)));
      saved := true;
    } else {
      st' := st;
      saved := false;
    }
  }

  /** `is_banned`: the stored flag, false for an unknown user or a record without one. */
  function IsBanned(st: Store, uid: UserId): (b: bool)
    ensures b <==> uid in st.users && st.users[uid].banned == Some(true)
  {
    if uid in st.users then st.users[uid].banned.GetOr(false) else false
  }

  /** The user's proposals with `word` appended when missing; `None` when nothing changes. */
  function WithSuggestion(u: User, word: string): Option<User> {
    if word in u.suggested.GetOr([]) then None
    else Some(u.(suggested := Some(u.suggested.GetOr([]) + [word])))
  }

  // ---------------------------------------------------------------- suggestions

  /** The three suggestion sets: words to remove, words to add, words approved for adding. */
  datatype Suggestions = Suggestions(black: set<string>, white: set<string>, add: set<string>)

  const NoSuggestions := Suggestions({}, {}, {})

  /** What `load_suggestions` can find; a missing key inside the object reads as an empty list. */
  datatype RawSuggestions =
    | NoSuggestionsFile
    | BlankSuggestions
    | UndecodableSuggestions
    | SuggestionsObject(black: Option<seq<string>>, white: Option<seq<string>>, add: Option<seq<string>>)

  /** `load_suggestions`: the lists of the file as sets, all empty for a missing, blank or undecodable file. */
  function LoadSuggestions(raw: RawSuggestions): (s: Suggestions)
    ensures !raw.SuggestionsObject? ==> s == NoSuggestions
    ensures raw.SuggestionsObject? ==>
      (forall w :: w in s.black <==> raw.black.Some? && w in raw.black.value) &&
      (forall w :: w in s.white <==> raw.white.Some? && w in raw.white.value) &&
      (forall w :: w in s.add <==> raw.add.Some? && w in raw.add.value)
  {
    match raw
    case SuggestionsObject(b, w, a) => Suggestions(Elems(b.GetOr([])), Elems(w.GetOr([])), Elems(a.GetOr([])))
    case _ => NoSuggestions
  }

  /** `sorted(xs)` for a set: its elements in some iteration order, then sorted. */
  method SortedList(xs: set<string>) returns (r: seq<string>)
    ensures StrictlySorted(r) && Elems(r) == xs
  {
    var l := ListOf(xs);
    SortDistinct(l);
    r := Sort(l);
  }

  /** Iterating over a set: each element once, in an order the model leaves open. */
  method ListOf(xs: set<string>) returns (l: seq<string>)
    ensures NoDuplicates(l) && Elems(l) == xs
  {
    l := [];
    var rest := xs;
    while rest != {}
      invariant NoDuplicates(l)
      invariant Elems(l) !! rest && Elems(l) + rest == xs
      decreases |rest|
    {
      var x :| x in rest;
      l := l + [x];
      rest := rest - {x};
    }
  }

  /**
    `save_suggestions`: every set written as a strictly sorted list; loading the file
    gives back the same three sets.
  */
  method SaveSuggestions(s: Suggestions) returns (raw: RawSuggestions)
    ensures raw.SuggestionsObject? && raw.black.Some? && raw.white.Some? && raw.add.Some?
    ensures StrictlySorted(raw.black.value) && StrictlySorted(raw.white.value) && StrictlySorted(raw.add.value)
    ensures LoadSuggestions(raw) == s
  {
    var b := SortedList(s.black);
    var w := SortedList(s.white);
    var a := SortedList(s.add);
    raw := SuggestionsObject(Some(b), Some(w), Some(a));
  }
}
