/**
  The administrator's suggestion commands: moving proposals into the approved-for-adding
  set, removing proposals listed in a message, and approving everything into the
  dictionary. Each command also cleans the users' own proposal lists.
*/
module SuggestionCommands {
  import opened Wrappers
  import opened Text
  import opened Logic
  import opened Store
  import opened Conversation

  // ---------------------------------------------------------------- parsing

  /** `w` is the stripped, lower-cased form of some non-blank piece. */
  ghost predicate FromPiece(pieces: seq<string>, w: string) {
    exists p :: p in pieces && Strip(p) != [] && w == LowerStr(Strip(p))
  }

  /**
    The words of a comma-separated list: each piece stripped and lower-cased, empty pieces
    dropped. `WordsConcat` states that the pieces' order is kept.
  */
  function Words(pieces: seq<string>): (r: seq<string>)
    ensures |r| <= |pieces|
    ensures forall i :: 0 <= i < |r| ==> r[i] != []
    ensures forall p :: p in pieces && Strip(p) != [] ==> LowerStr(Strip(p)) in r
    ensures forall w :: w in r ==> FromPiece(pieces, w)
  {
    if pieces == [] then []
    else
      var head := if Strip(pieces[0]) != [] then [LowerStr(Strip(pieces[0]))] else [];
      var rest := Words(pieces[1..]);
      WordsCons(pieces, head, rest);
      NonEmptyConcat(head, rest);
      WordsFrom(pieces, head, rest);
      head + rest
  }

  /** One step of `Words`: the head and every word of the tail come from a non-blank piece. */
  lemma WordsFrom(pieces: seq<string>, head: seq<string>, rest: seq<string>)
    requires pieces != [] && head == (if Strip(pieces[0]) != [] then [LowerStr(Strip(pieces[0]))] else [])
    requires forall w :: w in rest ==> FromPiece(pieces[1..], w)
    ensures forall w :: w in head + rest ==> FromPiece(pieces, w)
  {
    forall w | w in head + rest ensures FromPiece(pieces, w) {
      if w in head {
        FromHead(pieces);
      } else {
        FromTail(pieces, w);
      }
    }
  }

  /** The head piece, when not blank, gives a word. */
  lemma FromHead(pieces: seq<string>)
    requires pieces != [] && Strip(pieces[0]) != []
    ensures FromPiece(pieces, LowerStr(Strip(pieces[0])))
  {
    assert pieces[0] in pieces;
  }

  /** A word from a piece of the tail is a word from a piece. */
  lemma FromTail(pieces: seq<string>, w: string)
    requires pieces != [] && FromPiece(pieces[1..], w)
    ensures FromPiece(pieces, w)
  {
    var p :| p in pieces[1..] && Strip(p) != [] && w == LowerStr(Strip(p));
    assert p in pieces;
  }

  /** The words of two runs of pieces are the words of the first followed by those of the second. */
  lemma {:induction false} WordsConcat(a: seq<string>, b: seq<string>)
    ensures Words(a + b) == Words(a) + Words(b)
  {
    if a == [] {
      assert a + b == b;
    } else {
      WordsConcat(a[1..], b);
      WordsConcatStep(a, b);
    }
  }

  /** The inductive step of `WordsConcat`: the head piece is taken off both sides. */
  lemma WordsConcatStep(a: seq<string>, b: seq<string>)
    requires a != [] && Words(a[1..] + b) == Words(a[1..]) + Words(b)
    ensures Words(a + b) == Words(a) + Words(b)
  {
    var h := if Strip(a[0]) != [] then [LowerStr(Strip(a[0]))] else [];
    ConcatCons(a, b);
    WordsUnfold(a, a[0], a[1..]);
    WordsUnfold(a + b, a[0], a[1..] + b);
    Regroup(Words(a + b), h, Words(a[1..] + b), Words(a[1..]), Words(b), Words(a));
  }

  /** `Words` of a run of pieces is the head piece's word, if any, before the words of the rest. */
  lemma WordsUnfold(a: seq<string>, p: string, rest: seq<string>)
    requires a == [p] + rest
    ensures Words(a) == (if Strip(p) != [] then [LowerStr(Strip(p))] else []) + Words(rest)
  {
    assert a[0] == p && a[1..] == rest;
  }

  /** A single piece gives its stripped, lower-cased form, or nothing when it is blank. */
  lemma WordsOne(p: string)
    ensures Words([p]) == (if Strip(p) != [] then [LowerStr(Strip(p))] else [])
  {
    assert [p][1..] == [];
  }

  /** One step of `Words`: every non-blank piece is the head or a piece of the tail. */
  lemma WordsCons(pieces: seq<string>, head: seq<string>, rest: seq<string>)
    requires pieces != [] && head == (if Strip(pieces[0]) != [] then [LowerStr(Strip(pieces[0]))] else [])
    requires forall p :: p in pieces[1..] && Strip(p) != [] ==> LowerStr(Strip(p)) in rest
    ensures forall p :: p in pieces && Strip(p) != [] ==> LowerStr(Strip(p)) in head + rest
  {
    forall p | p in pieces && Strip(p) != [] ensures LowerStr(Strip(p)) in head + rest {
      if p != pieces[0] {
        var k :| 0 <= k < |pieces| && pieces[k] == p;
        assert pieces[1..][k - 1] == p;
      }
    }
  }

  /** Two lists of non-empty words join into one. */
  lemma NonEmptyConcat(head: seq<string>, rest: seq<string>)
    requires forall i :: 0 <= i < |head| ==> head[i] != []
    requires forall i :: 0 <= i < |rest| ==> rest[i] != []
    ensures forall i :: 0 <= i < |head + rest| ==> (head + rest)[i] != []
  {
    forall i | 0 <= i < |head + rest| ensures (head + rest)[i] != [] {
      if i >= |head| {
        assert (head + rest)[i] == rest[i - |head|];
      }
    }
  }

  /** `[w.strip().lower() for w in text.split(",") if w.strip()]`. */
  function CommaWords(text: string): seq<string> {
    Words(Split(text, {','}))
  }

  /** The characters at which `str.splitlines` breaks a line. */
  const LineBreaks: set<char> :=
    {'\n', '\r', '\U{0B}', '\U{0C}', '\U{1C}', '\U{1D}', '\U{1E}', '\U{85}', '\U{2028}', '\U{2029}'}

  /** The three suggestion sets a removal line can name. */
  datatype ListKey = BlackKey | WhiteKey | AddKey

  /** The set named by a stripped, lower-cased key. */
  function KeyOf(k: string): (r: Option<ListKey>)
    ensures r.Some? <==> k == "black" || k == "white" || k == "add"
  {
    if k == "black" then Some(BlackKey)
    else if k == "white" then Some(WhiteKey)
    else if k == "add" then Some(AddKey)
    else None
  }

  /** A removal line that names a set, with the words listed after its first colon. */
  datatype ParsedLine = ParsedLine(key: ListKey, words: seq<string>)

  /** The part of a line before its first colon, stripped and lower-cased. */
  function KeyPart(line: string): string
    requires ':' in line
  {
    LowerStr(Strip(line[..IndexOf(line, ':')]))
  }

  /**
    A line of the removal message: without a colon it is skipped; otherwise it is cut at
    the first colon, and the part before it, stripped and lower-cased, must name a set.
  */
  function ParseLine(line: string): (r: Option<ParsedLine>)
    ensures ':' !in line ==> r.None?
    ensures ':' in line ==> (r.Some? <==> KeyOf(KeyPart(line)).Some?)
    ensures r.Some? ==>
      KeyOf(KeyPart(line)) == Some(r.value.key) && r.value.words == CommaWords(line[IndexOf(line, ':') + 1..])
  {
    if ':' !in line then None
    else
      match KeyOf(KeyPart(line))
      case None => None
      case Some(key) => Some(ParsedLine(key, CommaWords(line[IndexOf(line, ':') + 1..])))
  }

  // ---------------------------------------------------------------- the sets by key

  function Get(s: Suggestions, k: ListKey): set<string> {
    match k
    case BlackKey => s.black
    case WhiteKey => s.white
    case AddKey => s.add
  }

  function With(s: Suggestions, k: ListKey, v: set<string>): (r: Suggestions)
    ensures Get(r, k) == v && forall k' :: k' != k ==> Get(r, k') == Get(s, k')
  {
    match k
    case BlackKey => s.(black := v)
    case WhiteKey => s.(white := v)
    case AddKey => s.(add := v)
  }

  /** The words reported for each set, in the order they were taken out. */
  datatype Lists = Lists(black: seq<string>, white: seq<string>, add: seq<string>)

  const NoLists := Lists([], [], [])

  function GetList(l: Lists, k: ListKey): seq<string> {
    match k
    case BlackKey => l.black
    case WhiteKey => l.white
    case AddKey => l.add
  }

  function Append(l: Lists, k: ListKey, w: string): (r: Lists)
    ensures GetList(r, k) == GetList(l, k) + [w] && forall k' :: k' != k ==> GetList(r, k') == GetList(l, k')
  {
    match k
    case BlackKey => l.(black := l.black + [w])
    case WhiteKey => l.(white := l.white + [w])
    case AddKey => l.(add := l.add + [w])
  }

  // ---------------------------------------------------------------- users' proposal lists

  /** A proposal list without the words of `ws`, the others kept in order. */
  function Purge(l: seq<string>, ws: set<string>): (r: seq<string>)
    ensures forall w :: w in r <==> w in l && w !in ws
    ensures |r| <= |l|
  {
    if l == [] then []
    else
      assert forall w :: w in l <==> w == l[0] || w in l[1..];
      (if l[0] in ws then [] else [l[0]]) + Purge(l[1..], ws)
  }

  /** Purging distributes over concatenation: the words kept stay in their order. */
  lemma {:induction false} PurgeConcat(a: seq<string>, b: seq<string>, ws: set<string>)
    ensures Purge(a + b, ws) == Purge(a, ws) + Purge(b, ws)
  {
    if a == [] {
      assert a + b == b;
    } else {
      assert (a + b)[1..] == a[1..] + b;
      PurgeConcat(a[1..], b, ws);
    }
  }

  /** A purge removes nothing exactly when no word of the list is to be purged, and then changes nothing. */
  lemma {:induction false} PurgeSameLength(l: seq<string>, ws: set<string>)
    ensures |Purge(l, ws)| == |l| <==> forall w :: w in l ==> w !in ws
    ensures |Purge(l, ws)| == |l| ==> Purge(l, ws) == l
  {
    if l != [] {
      PurgeSameLength(l[1..], ws);
      assert forall w :: w in l <==> w == l[0] || w in l[1..];
    }
  }

  /** The profile with its proposal list purged; a profile without a list is left alone. */
  function PurgedUser(u: User, ws: set<string>): User {
    if u.suggested.Some? then u.(suggested := Some(Purge(u.suggested.value, ws))) else u
  }

  /** How many words the purge takes from the profile. */
  function Loss(u: User, ws: set<string>): nat {
    if u.suggested.Some? then |u.suggested.value| - |Purge(u.suggested.value, ws)| else 0
  }

  /** The store with every profile purged. */
  function PurgedStore(st: Store, ws: set<string>): (r: Store)
    requires Valid(st)
    ensures Valid(r) && r.order == st.order && r.global == st.global && r.users.Keys == st.users.Keys
  {
    Store(st.order, map v | v in st.users :: PurgedUser(st.users[v], ws), st.global)
  }

  /** The words the purge takes from the profiles of `vs`. */
  function LossOver(st: Store, vs: seq<UserId>, ws: set<string>): nat
    requires forall v :: v in vs ==> v in st.users
  {
    if vs == [] then 0 else LossOver(st, vs[..|vs| - 1], ws) + Loss(st.users[vs[|vs| - 1]], ws)
  }

  /** Some profile of `vs` loses a word exactly when some listed word of one of them is purged. */
  lemma {:induction false} LossOverPositive(st: Store, vs: seq<UserId>, ws: set<string>)
    requires forall v :: v in vs ==> v in st.users
    ensures LossOver(st, vs, ws) > 0 <==> exists v :: v in vs && Loss(st.users[v], ws) > 0
  {
    if vs != [] {
      var init := vs[..|vs| - 1];
      LossOverPositive(st, init, ws);
      assert forall v :: v in vs <==> v in init || v == vs[|vs| - 1];
    }
  }

  /**
    The purge removes words from some profile exactly when some profile lists a purged
    word, and when it removes none the store is unchanged, so not saving it loses nothing.
  */
  lemma PurgeCount(st: Store, ws: set<string>)
    requires Valid(st)
    ensures LossOver(st, st.order, ws) > 0 <==>
      exists v, w :: v in st.users && st.users[v].suggested.Some? && w in st.users[v].suggested.value && w in ws
    ensures LossOver(st, st.order, ws) == 0 ==> PurgedStore(st, ws) == st
  {
    LossOverPositive(st, st.order, ws);
    forall v | v in st.users
      ensures Loss(st.users[v], ws) > 0 <==>
        st.users[v].suggested.Some? && exists w :: w in st.users[v].suggested.value && w in ws
      ensures Loss(st.users[v], ws) == 0 ==> PurgedUser(st.users[v], ws) == st.users[v]
    {
      if st.users[v].suggested.Some? {
        PurgeSameLength(st.users[v].suggested.value, ws);
      }
    }
    if LossOver(st, st.order, ws) == 0 {
      assert PurgedStore(st, ws).users == st.users;
    }
  }

  /** The users' records with the profiles of `vs` purged. */
  function PurgedPrefix(st: Store, vs: seq<UserId>, ws: set<string>): map<UserId, User> {
    map v | v in st.users :: if v in vs then PurgedUser(st.users[v], ws) else st.users[v]
  }

  /** Purging the profile at position `i` of the order, which the first `i` have not reached. */
  lemma PurgeStep(st: Store, i: nat, ws: set<string>)
    requires Valid(st) && i < |st.order|
    ensures st.order[i] in st.users
    ensures PurgedPrefix(st, st.order[..i], ws)[st.order[i]] == st.users[st.order[i]]
    ensures PurgedPrefix(st, st.order[..i], ws)[st.order[i] := PurgedUser(st.users[st.order[i]], ws)] ==
      PurgedPrefix(st, st.order[..i + 1], ws)
    ensures LossOver(st, st.order[..i + 1], ws) == LossOver(st, st.order[..i], ws) + Loss(st.users[st.order[i]], ws)
  {
    var v := st.order[i];
    var vs := st.order[..i];
    assert st.order[..i + 1] == vs + [v];
    assert st.order[i] in Elems(st.order);
    assert v !in vs;
    assert forall x :: x in vs + [v] <==> x in vs || x == v;
    assert (vs + [v])[..i] == vs;
  }

  /** Once every profile of the order is purged, the records are those of the purged store. */
  lemma PurgeAll(st: Store, ws: set<string>)
    requires Valid(st)
    ensures PurgedPrefix(st, st.order[..|st.order|], ws) == PurgedStore(st, ws).users
  {
    assert st.order[..|st.order|] == st.order;
    assert forall v :: v in st.users <==> v in Elems(st.order);
  }

  /**
    The per-user loop of the remove and approve commands: every proposal list loses the
    words of `ws`, and `count` is the number of words removed.
  */
  method PurgeProfiles(st: Store, ws: set<string>) returns (st': Store, count: nat)
    requires Valid(st)
    ensures st' == PurgedStore(st, ws)
    ensures count == LossOver(st, st.order, ws)
  {
    var users := st.users;
    count := 0;
    assert users == PurgedPrefix(st, [], ws);
    for i := 0 to |st.order|
      invariant users == PurgedPrefix(st, st.order[..i], ws)
      invariant count == LossOver(st, st.order[..i], ws)
    {
      var v := st.order[i];
      PurgeStep(st, i, ws);
      var u := users[v];
      if u.suggested.Some? {
        var before := |u.suggested.value|;
        var kept := Purge(u.suggested.value, ws);
        users := users[v := u.(suggested := Some(kept))];
        count := count + (before - |kept|);
      } else {
        assert users == users[v := u];
      }
    }
    PurgeAll(st, ws);
    assert st.order[..|st.order|] == st.order;
    st' := Store(st.order, users, st.global);
  }

  // ---------------------------------------------------------------- the command guard

  /**
    `suggestions_move_start` and `suggestions_remove_start`, which are identical: nothing
    for anyone but the administrator; refused with the conversation ended while the
    administrator has a game in progress or the chat is marked as in a game; otherwise
    the conversation waits for the list of words.
  */
  method EditStart(isAdmin: bool, st: Store, uid: UserId, chat: ChatData) returns (next: Option<ConvState>)
    ensures !isAdmin ==> next == None
    ensures isAdmin ==> (next == Some(End) <==> HasGame(st, uid) || Flag(chat, GameActive))
    ensures isAdmin && next != Some(End) ==> next == Some(RemoveInput)
  {
    if !isAdmin {
      return None;
    }
    var u := if uid in st.users then st.users[uid] else EmptyUser;
    if u.game.Some? || (GameActive in chat && chat[GameActive] == VBool(true)) {
      return Some(End);
    }
    return Some(RemoveInput);
  }

  // ---------------------------------------------------------------- moving into `add`

  /** The suggestion sets during a move, with the words taken from black and from white. */
  datatype Moves = Moves(sugg: Suggestions, fromBlack: seq<string>, fromWhite: seq<string>)

  /** One word of a move: out of black if it is there, else out of white if it is there, into add. */
  function MoveWord(m: Moves, w: string): Moves {
    if w in m.sugg.black then
      Moves(m.sugg.(black := m.sugg.black - {w}, add := m.sugg.add + {w}), m.fromBlack + [w], m.fromWhite)
    else if w in m.sugg.white then
      Moves(m.sugg.(white := m.sugg.white - {w}, add := m.sugg.add + {w}), m.fromBlack, m.fromWhite + [w])
    else m
  }

  /** The words of a move message, taken one after the other. */
  function MoveAll(s: Suggestions, ws: seq<string>): Moves {
    if ws == [] then Moves(s, [], [])
    else MoveWord(MoveAll(s, ws[..|ws| - 1]), ws[|ws| - 1])
  }

  /**
    What a move does to the sets: every listed word leaves black; a listed word joins add
    exactly when it was in black or white; white only shrinks, losing every listed word
    that was in white and not in black; the reports name exactly the words that left
    black and white; and no word is lost from the three sets together.
  */
  lemma {:induction false} MoveAllSets(s: Suggestions, ws: seq<string>)
    ensures var m := MoveAll(s, ws);
      m.sugg.black == s.black - Elems(ws) &&
      m.sugg.add == s.add + Elems(ws) * (s.black + s.white) &&
      s.white - Elems(ws) <= m.sugg.white <= s.white &&
      (forall w :: w in ws && w in s.white && w !in s.black ==> w !in m.sugg.white) &&
      Elems(m.fromBlack) == Elems(ws) * s.black &&
      Elems(m.fromWhite) == s.white - m.sugg.white &&
      m.sugg.black + m.sugg.white + m.sugg.add == s.black + s.white + s.add
  {
    if ws != [] {
      var init := ws[..|ws| - 1];
      var x := ws[|ws| - 1];
      MoveAllSets(s, init);
      var m0 := MoveAll(s, init);
      assert Elems(ws) == Elems(init) + {x} by {
        assert forall w :: w in ws <==> w in init || w == x;
      }
      assert forall w :: w in ws <==> w in init || w == x;
      if x in m0.sugg.black {
        assert Elems(m0.fromBlack + [x]) == Elems(m0.fromBlack) + {x};
      } else if x in m0.sugg.white {
        assert x in s.black ==> x in Elems(init);
        assert Elems(m0.fromWhite + [x]) == Elems(m0.fromWhite) + {x};
      } else {
        assert x in s.black ==> x in Elems(init);
      }
    }
  }

  /**
    Black is checked first: a word in both black and white that the message lists once
    moves out of black into add and stays in white.
  */
  lemma {:induction false} MoveBlackFirst(s: Suggestions, ws: seq<string>, w: string)
    requires w in s.black && w in s.white && multiset(ws)[w] == 1
    ensures w in MoveAll(s, ws).sugg.white && w !in MoveAll(s, ws).sugg.black && w in MoveAll(s, ws).sugg.add
  {
    var init := ws[..|ws| - 1];
    var x := ws[|ws| - 1];
    assert ws == init + [x];
    assert multiset(ws) == multiset(init) + multiset{x};
    MoveAllSets(s, init);
    if x == w {
      assert multiset(init)[w] == 0;
      assert w !in init;
      assert w in MoveAll(s, init).sugg.black;
    } else {
      MoveBlackFirst(s, init, w);
    }
  }

  /**
    `suggestions_move_process`: for the administrator, each word of the stripped message
    is moved as `MoveAll` says, the suggestions are saved in every case, and the
    conversation ends with the words moved from each set reported. Anyone else is turned
    away with nothing changed.
  */
  method MoveProcess(isAdmin: bool, text: string, sugg: Suggestions, chat: ChatData)
    returns (next: ConvState, sugg': Suggestions, suggSaved: bool, fromBlack: seq<string>, fromWhite: seq<string>,
             chat': ChatData)
    ensures next == End
    ensures !isAdmin ==> sugg' == sugg && !suggSaved && fromBlack == [] && fromWhite == [] && chat' == chat
    ensures isAdmin ==>
      Moves(sugg', fromBlack, fromWhite) == MoveAll(sugg, CommaWords(Strip(text))) &&
      suggSaved && chat' == Finish(chat, InRemove)
  {
    next := End;
    sugg', suggSaved, fromBlack, fromWhite, chat' := sugg, false, [], [], chat;
    if !isAdmin {
      return;
    }
    var words := CommaWords(Strip(text));
    sugg', fromBlack, fromWhite := MoveWords(sugg, words);
    suggSaved := true;
    chat' := Finish(chat, InRemove);
  }

  /** The loop of `suggestions_move_process` over the listed words. */
  method MoveWords(sugg: Suggestions, words: seq<string>)
    returns (sugg': Suggestions, fromBlack: seq<string>, fromWhite: seq<string>)
    ensures Moves(sugg', fromBlack, fromWhite) == MoveAll(sugg, words)
  {
    sugg', fromBlack, fromWhite := sugg, [], [];
    for i := 0 to |words|
      invariant Moves(sugg', fromBlack, fromWhite) == MoveAll(sugg, words[..i])
    {
      var w := words[i];
      assert words[..i + 1][..i] == words[..i];
      if w in sugg'.black {
        sugg' := sugg'.(black := sugg'.black - {w}, add := sugg'.add + {w});
        fromBlack := fromBlack + [w];
      } else if w in sugg'.white {
        sugg' := sugg'.(white := sugg'.white - {w}, add := sugg'.add + {w});
        fromWhite := fromWhite + [w];
      }
    }
    assert words[..|words|] == words;
  }

  // ---------------------------------------------------------------- removing listed words

  /** The suggestion sets during a removal, with the words taken out of each. */
  datatype Removal = Removal(sugg: Suggestions, removed: Lists)

  /** One listed word: taken out of the keyed set if it is there. */
  function RemoveWord(r: Removal, k: ListKey, w: string): Removal {
    if w in Get(r.sugg, k) then Removal(With(r.sugg, k, Get(r.sugg, k) - {w}), Append(r.removed, k, w)) else r
  }

  /** The words of one line, taken one after the other. */
  function RemoveWords(r: Removal, k: ListKey, ws: seq<string>): Removal {
    if ws == [] then r else RemoveWord(RemoveWords(r, k, ws[..|ws| - 1]), k, ws[|ws| - 1])
  }

  /** A parsed line's words taken out of its set; a line that names no set changes nothing. */
  function RemoveParsed(r: Removal, pl: Option<ParsedLine>): Removal {
    match pl
    case None => r
    case Some(p) => RemoveWords(r, p.key, p.words)
  }

  /** One line of the removal message. */
  function RemoveLine(r: Removal, line: string): Removal {
    RemoveParsed(r, ParseLine(line))
  }

  /** The lines of the removal message, taken one after the other. */
  function RemoveLines(r: Removal, lines: seq<string>): Removal {
    if lines == [] then r else RemoveLine(RemoveLines(r, lines[..|lines| - 1]), lines[|lines| - 1])
  }

  /** The words a parsed line lists under set `k`. */
  function ParsedUnder(pl: Option<ParsedLine>, k: ListKey): set<string> {
    match pl
    case Some(p) => if p.key == k then Elems(p.words) else {}
    case None => {}
  }

  /** The words one line lists under set `k`. */
  function LineUnder(line: string, k: ListKey): set<string> {
    ParsedUnder(ParseLine(line), k)
  }

  /** The words the lines list under set `k`. */
  function ListedUnder(lines: seq<string>, k: ListKey): set<string> {
    if lines == [] then {} else ListedUnder(lines[..|lines| - 1], k) + LineUnder(lines[|lines| - 1], k)
  }

  /**
    One line's words leave the keyed set and are reported under it; the other two sets
    and their reports are untouched.
  */
  lemma {:induction false} RemoveWordsSets(r: Removal, k: ListKey, ws: seq<string>)
    ensures var r' := RemoveWords(r, k, ws);
      Get(r'.sugg, k) == Get(r.sugg, k) - Elems(ws) &&
      Elems(GetList(r'.removed, k)) == Elems(GetList(r.removed, k)) + Get(r.sugg, k) * Elems(ws) &&
      forall k' :: k' != k ==> Get(r'.sugg, k') == Get(r.sugg, k') && GetList(r'.removed, k') == GetList(r.removed, k')
  {
    if ws != [] {
      var init := ws[..|ws| - 1];
      var x := ws[|ws| - 1];
      RemoveWordsSets(r, k, init);
      var r0 := RemoveWords(r, k, init);
      assert Elems(ws) == Elems(init) + {x} by {
        assert forall w :: w in ws <==> w in init || w == x;
      }
      if x in Get(r0.sugg, k) {
        assert Elems(GetList(r0.removed, k) + [x]) == Elems(GetList(r0.removed, k)) + {x};
      }
    }
  }

  /** One parsed line: its set loses the words it lists, which are reported. */
  lemma RemoveParsedSets(r: Removal, pl: Option<ParsedLine>)
    ensures var r' := RemoveParsed(r, pl);
      forall k :: Get(r'.sugg, k) == Get(r.sugg, k) - ParsedUnder(pl, k) &&
        Elems(GetList(r'.removed, k)) == Elems(GetList(r.removed, k)) + Get(r.sugg, k) * ParsedUnder(pl, k)
  {
    if pl.Some? {
      RemoveWordsSets(r, pl.value.key, pl.value.words);
    }
  }

  /** Two removals in a row take out the union of what each lists. */
  lemma TwoRemovals(g: set<string>, e: set<string>, a: set<string>, b: set<string>)
    ensures (g - a) - b == g - (a + b)
    ensures e + g * a + (g - a) * b == e + g * (a + b)
  {
  }

  /**
    What a removal does: each set loses exactly the words the message lists under its
    name, and each report names exactly the words its set lost.
  */
  lemma {:induction false} RemoveLinesSets(r: Removal, lines: seq<string>)
    ensures var r' := RemoveLines(r, lines);
      forall k :: Get(r'.sugg, k) == Get(r.sugg, k) - ListedUnder(lines, k) &&
        Elems(GetList(r'.removed, k)) == Elems(GetList(r.removed, k)) + Get(r.sugg, k) * ListedUnder(lines, k)
  {
    if lines != [] {
      var init, last := lines[..|lines| - 1], lines[|lines| - 1];
      RemoveLinesSets(r, init);
      var r0 := RemoveLines(r, init);
      RemoveParsedSets(r0, ParseLine(last));
      forall k
        ensures Get(RemoveLines(r, lines).sugg, k) == Get(r.sugg, k) - ListedUnder(lines, k)
        ensures Elems(GetList(RemoveLines(r, lines).removed, k)) ==
          Elems(GetList(r.removed, k)) + Get(r.sugg, k) * ListedUnder(lines, k)
      {
        TwoRemovals(Get(r.sugg, k), Elems(GetList(r.removed, k)), ListedUnder(init, k), LineUnder(last, k));
      }
    }
  }

  /** The inner loop of `suggestions_remove_process`: one line's words out of the keyed set. */
  method TakeOut(sugg: Suggestions, removed: Lists, key: ListKey, words: seq<string>)
    returns (sugg': Suggestions, removed': Lists)
    ensures Removal(sugg', removed') == RemoveWords(Removal(sugg, removed), key, words)
  {
    sugg', removed' := sugg, removed;
    for j := 0 to |words|
      invariant Removal(sugg', removed') == RemoveWords(Removal(sugg, removed), key, words[..j])
    {
      var w := words[j];
      assert words[..j + 1][..j] == words[..j];
      if w in Get(sugg', key) {
        sugg' := With(sugg', key, Get(sugg', key) - {w});
        removed' := Append(removed', key, w);
      }
    }
    assert words[..|words|] == words;
  }

  /** The words a removal takes out of the three sets. */
  function Gone(removed: Lists): set<string> {
    Elems(removed.black) + Elems(removed.white) + Elems(removed.add)
  }

  /** The loop of `suggestions_remove_process` over the lines of the message. */
  method RemoveListed(sugg: Suggestions, lines: seq<string>) returns (sugg': Suggestions, removed: Lists)
    ensures Removal(sugg', removed) == RemoveLines(Removal(sugg, NoLists), lines)
  {
    sugg', removed := sugg, NoLists;
    for i := 0 to |lines|
      invariant Removal(sugg', removed) == RemoveLines(Removal(sugg, NoLists), lines[..i])
    {
      var line := lines[i];
      ghost var before := Removal(sugg', removed);
      assert lines[..i + 1][..i] == lines[..i];
      assert RemoveLines(Removal(sugg, NoLists), lines[..i + 1]) == RemoveLine(before, line);
      if ':' !in line {
        continue;
      }
      var k := IndexOf(line, ':');
      var key := KeyOf(KeyPart(line));
      if key.None? {
        continue;
      }
      var words := CommaWords(line[k + 1..]);
      assert ParseLine(line) == Some(ParsedLine(key.value, words));
      sugg', removed := TakeOut(sugg', removed, key.value, words);
    }
    assert lines[..|lines|] == lines;
  }

  /**
    `suggestions_remove_process`: for the administrator, every line of the stripped
    message is applied as `RemoveLines` says and the suggestions are saved; then every
    removed word is purged from every user's proposal list, and the store is saved only
    when a profile lost a word. Anyone else is turned away with nothing changed.
  */
  method RemoveProcess(isAdmin: bool, text: string, sugg: Suggestions, st: Store, chat: ChatData)
    returns (next: ConvState, sugg': Suggestions, suggSaved: bool, removed: Lists,
             st': Store, saved: bool, count: nat, chat': ChatData)
    requires Valid(st)
    ensures next == End && Valid(st')
    ensures !isAdmin ==>
      sugg' == sugg && !suggSaved && removed == NoLists && st' == st && !saved && count == 0 && chat' == chat
    ensures isAdmin ==>
      Removal(sugg', removed) == RemoveLines(Removal(sugg, NoLists), Split(Strip(text), LineBreaks)) &&
      suggSaved && chat' == Finish(chat, InRemove) &&
      st' == PurgedStore(st, Gone(removed)) && count == LossOver(st, st.order, Gone(removed)) &&
      (saved <==> count > 0) && (!saved ==> st' == st)
  {
    next := End;
    sugg', suggSaved, removed, st', saved, count, chat' := sugg, false, NoLists, st, false, 0, chat;
    if !isAdmin {
      return;
    }
    sugg', removed := RemoveListed(sugg, Split(Strip(text), LineBreaks));
    suggSaved := true;

    st', count := PurgeProfiles(st, Gone(removed));
    PurgeCount(st, Gone(removed));
    saved := count > 0;
    chat' := Finish(chat, InRemove);
  }

  // ---------------------------------------------------------------- approving

  /** The approved main list's words: `(main − black) ∪ white`, letters only, 4 to 11 long. */
  function ApprovedMain(base: BaseWords, s: Suggestions): set<string> {
    set w | w in (Elems(base.main) - s.black) + s.white && Admissible(w)
  }

  /** The approved additional list's words: `additional ∪ add`, letters only, 4 to 11 long. */
  function ApprovedAdditional(base: BaseWords, s: Suggestions): set<string> {
    set w | w in Elems(base.additional) + s.add && Admissible(w)
  }

  /**
    `suggestions_approve`: for the administrator, the dictionary file is rewritten with
    both lists rebuilt from the suggestions and sorted; every suggested word is purged
    from every user's proposal list, the store being saved only when a profile lost a
    word; and the suggestions are reset to three empty sets. Anyone else changes nothing.
  */
  method Approve(isAdmin: bool, sugg: Suggestions, base: BaseWords, st: Store)
    returns (newBase: BaseWords, st': Store, saved: bool, count: nat, sugg': Suggestions, suggSaved: bool)
    requires Valid(st)
    ensures Valid(st')
    ensures !isAdmin ==> newBase == base && st' == st && !saved && count == 0 && sugg' == sugg && !suggSaved
    ensures isAdmin ==>
      StrictlySorted(newBase.main) && Elems(newBase.main) == ApprovedMain(base, sugg) &&
      StrictlySorted(newBase.additional) && Elems(newBase.additional) == ApprovedAdditional(base, sugg) &&
      st' == PurgedStore(st, sugg.white + sugg.add + sugg.black) &&
      count == LossOver(st, st.order, sugg.white + sugg.add + sugg.black) &&
      (saved <==> count > 0) && (!saved ==> st' == st) &&
      sugg' == NoSuggestions && suggSaved
  {
    newBase, st', saved, count, sugg', suggSaved := base, st, false, 0, sugg, false;
    if !isAdmin {
      return;
    }
    var mainWords := Elems(base.main);
    var additionalWords := Elems(base.additional);
    mainWords := mainWords - sugg.black;
    mainWords := mainWords + sugg.white;
    additionalWords := additionalWords + sugg.add;

    var filteredMain := SortedList(set w | w in mainWords && Admissible(w));
    var filteredAdditional := SortedList(set w | w in additionalWords && Admissible(w));
    newBase := BaseWords(filteredMain, filteredAdditional);

    var approved := sugg.white + sugg.add;
    var blacklisted := sugg.black;
    st', count := PurgeProfiles(st, approved + blacklisted);
    PurgeCount(st, approved + blacklisted);
    saved := count > 0;

    sugg' := NoSuggestions;
    suggSaved := true;
  }
}
