/**
  `/feedback`: a player proposes a dictionary word for removal (the black list) or a
  missing word for addition (the white list), outside of a game.
*/
module Feedback {
  import opened Wrappers
  import opened Text
  import opened Logic
  import opened Store
  import opened Conversation

  /** The suggestions file is refused from this size on, in bytes. */
  const MaxSuggestionsFileSize := 1_000_000

  /**
    `feedback_start`: clears the wake-up notification flag; refuses during a game (a game
    in the store or the chat's game flag) and otherwise asks which list.
  */
  method FeedbackStart(st: Store, uid: UserId, chat: ChatData) returns (next: ConvState, st': Store, chat': ChatData)
    requires Valid(st)
    ensures Valid(st') && st'.order == st.order && st'.global == st.global
    ensures GameOf(st', uid) == GameOf(st, uid)
    ensures forall v :: v in st.users && v != uid ==> st'.users[v] == st.users[v]
    ensures st'.users.Keys == st.users.Keys
    ensures uid in st.users ==>
      st'.users[uid] == st.users[uid].(notified := st'.users[uid].notified) && st'.users[uid].notified != Some(true)
    ensures HasGame(st, uid) || Flag(chat, GameActive) ==> next == End && chat' == chat
    ensures !(HasGame(st, uid) || Flag(chat, GameActive)) ==>
      next == ConvState.FeedbackChoose &&
      chat' == chat[FeedbackStateKey := VState(ConvState.FeedbackChoose)][InFeedback := VBool(true)]
  {
    var cleared;
    st', cleared := ClearNotificationFlag(st, uid);
    if HasGame(st, uid) || Flag(chat, GameActive) {
      return End, st', chat;
    }
    chat' := chat[FeedbackStateKey := VState(ConvState.FeedbackChoose)][InFeedback := VBool(true)];
    next := ConvState.FeedbackChoose;
  }

  /** The stripped reply to the list question: one of the three buttons, or anything else. */
  datatype Choice = CancelButton | BlackButton | WhiteButton | OtherText

  /**
    `feedback_choose`: cancelling leaves the feedback; a list button records the target
    list and asks for the word; any other text asks again.
  */
  method FeedbackChoose(chat: ChatData, choice: Choice) returns (next: ConvState, chat': ChatData)
    ensures choice == CancelButton ==> next == End && chat' == Finish(chat, InFeedback)
    ensures choice == OtherText ==> next == ConvState.FeedbackChoose && chat' == chat
    ensures choice == BlackButton || choice == WhiteButton ==>
      next == ConvState.FeedbackWord &&
      chat' == chat[FbTarget := VStr(if choice == BlackButton then "black" else "white")]
                   [FeedbackStateKey := VState(ConvState.FeedbackWord)]
  {
    if choice == CancelButton {
      return End, Finish(chat, InFeedback);
    }
    if choice == OtherText {
      return ConvState.FeedbackChoose, chat;
    }
    chat' := chat[FbTarget := VStr(if choice == BlackButton then "black" else "white")];
    chat' := chat'[FeedbackStateKey := VState(ConvState.FeedbackWord)];
    next := ConvState.FeedbackWord;
  }

  /** `block_during_feedback`: any other input keeps the feedback state, the list question by default. */
  function BlockDuringFeedback(chat: ChatData): (next: ConvState)
    ensures FeedbackStateKey in chat && chat[FeedbackStateKey].VState? ==> next == chat[FeedbackStateKey].state
    ensures !(FeedbackStateKey in chat && chat[FeedbackStateKey].VState?) ==> next == ConvState.FeedbackChoose
  {
    if FeedbackStateKey in chat && chat[FeedbackStateKey].VState? then chat[FeedbackStateKey].state
    else ConvState.FeedbackChoose
  }

  /**
    The proposal recorded in the user's profile: a user without a record gets the record
    `newRecord`, a missing list becomes empty, and the word is appended when it is not listed;
    the store is saved only then.
  */
  method RecordSuggestion(st: Store, uid: UserId, word: string, newRecord: User) returns (st': Store, saved: bool)
    requires Valid(st)
    ensures Valid(st') && st'.global == st.global
    ensures var u := if uid in st.users then st.users[uid] else newRecord;
      (saved <==> WithSuggestion(u, word).Some?) &&
      (saved ==> st' == Put(st, uid, WithSuggestion(u, word).value)) &&
      (!saved ==> st' == st)
    ensures uid in st'.users ==> word in st'.users[uid].suggested.GetOr([])
    ensures var u := if uid in st.users then st.users[uid] else newRecord;
      NoDuplicates(u.suggested.GetOr([])) && uid in st'.users ==> NoDuplicates(st'.users[uid].suggested.GetOr([]))
    ensures uid !in st.users && word !in newRecord.suggested.GetOr([]) ==>
      saved && uid in st'.users && st'.users[uid].stats == newRecord.stats
    ensures AllHaveStats(st) && (uid in st.users || newRecord.stats.Some?) ==> AllHaveStats(st')
  {
    st' := st;
    var user := newRecord;
    if uid in st.users {
      user := st.users[uid];
    }
    if user.suggested.None? {
      user := user.(suggested := Some([]));
    }
    saved := false;
    if word !in user.suggested.value {
      user := user.(suggested := Some(user.suggested.value + [word]));
      st' := Put(st, uid, user);
      saved := true;
    }
  }

  /** How a proposed word is answered. `MissingTarget` is the `KeyError` raised without a chosen list. */
  datatype FeedbackReply =
    | FileTooBig
    | SpaceInWord
    | MissingTarget
    | AddedToBlack
    | NotInWordList
    | AddedToWhite
    | AlreadyInWordList
    | BadLength

  /** The length test the white list applies, the same as the dictionary's. */
  predicate WhiteLength(word: string) {
    4 <= |word| <= 11
  }

  /**
    `feedback_word` once the message is normalised to `word`, with the record created for
    an unknown user as a parameter. A suggestions file of a million bytes or more ends the
    feedback; a word with a space asks again. A black-list proposal is taken exactly when
    the word is in the word list, a white-list proposal exactly when it is not and has 4
    to 11 letters; a refused white proposal is told it is known before it is told its
    length is wrong. A taken proposal is added to its set, saved, and recorded in the
    user's profile. Every answer but the space ends the feedback.
  */
  method ProposeWord(
    st: Store, sugg: Suggestions, uid: UserId, word: string, wordlist: seq<string>,
    fileSize: Option<nat>, chat: ChatData, newRecord: User)
    returns (reply: FeedbackReply, next: Option<ConvState>, sugg': Suggestions, suggSaved: bool,
             st': Store, saved: bool, chat': ChatData)
    requires Valid(st)
    ensures Valid(st') && st'.global == st.global
    ensures FbTarget !in chat ==>
      reply == MissingTarget && next == None && sugg' == sugg && !suggSaved && st' == st && !saved && chat' == chat
    ensures FbTarget in chat && fileSize.Some? && fileSize.value >= MaxSuggestionsFileSize ==>
      reply == FileTooBig && next == Some(End) && sugg' == sugg && !suggSaved && st' == st && !saved &&
      chat' == Finish(chat, InFeedback)
    ensures FbTarget in chat && !(fileSize.Some? && fileSize.value >= MaxSuggestionsFileSize) && ' ' in word ==>
      reply == SpaceInWord && next == Some(ConvState.FeedbackWord) && sugg' == sugg && !suggSaved &&
      st' == st && !saved && chat' == chat
    ensures FbTarget in chat && !(fileSize.Some? && fileSize.value >= MaxSuggestionsFileSize) && ' ' !in word ==>
      next == Some(End) && chat' == Finish(chat, InFeedback) &&
      (chat[FbTarget] == VStr("black") ==>
        (reply == AddedToBlack <==> word in wordlist) &&
        (reply != AddedToBlack ==> reply == NotInWordList) &&
        sugg' == (if word in wordlist then sugg.(black := sugg.black + {word}) else sugg)) &&
      (chat[FbTarget] != VStr("black") ==>
        (reply == AddedToWhite <==> WhiteLength(word) && word !in wordlist) &&
        (reply != AddedToWhite ==> reply == (if word in wordlist then AlreadyInWordList else BadLength)) &&
        sugg' == (if reply == AddedToWhite then sugg.(white := sugg.white + {word}) else sugg))
    ensures suggSaved <==> reply == AddedToBlack || reply == AddedToWhite
    ensures var u := if uid in st.users then st.users[uid] else newRecord;
      (saved <==> suggSaved && WithSuggestion(u, word).Some?) &&
      (saved ==> st' == Put(st, uid, WithSuggestion(u, word).value)) &&
      (!saved ==> st' == st)
    ensures sugg'.black - sugg.black <= set w | w in wordlist
    ensures forall w :: w in sugg'.white - sugg.white ==> w !in wordlist && WhiteLength(w)
    ensures suggSaved && uid !in st.users && word !in newRecord.suggested.GetOr([]) ==>
      saved && uid in st'.users && st'.users[uid].stats == newRecord.stats
    ensures AllHaveStats(st) && (uid in st.users || newRecord.stats.Some?) ==> AllHaveStats(st')
  {
    sugg', suggSaved, st', saved, chat' := sugg, false, st, false, chat;
    if FbTarget !in chat {
      return MissingTarget, None, sugg', suggSaved, st', saved, chat';
    }
    var target := chat[FbTarget];

    if fileSize.Some? && fileSize.value >= MaxSuggestionsFileSize {
      return FileTooBig, Some(End), sugg', suggSaved, st', saved, Finish(chat, InFeedback);
    }

    if ' ' in word {
      return SpaceInWord, Some(ConvState.FeedbackWord), sugg', suggSaved, st', saved, chat';
    }

    if target == VStr("black") {
      if word in wordlist {
        sugg' := sugg'.(black := sugg'.black + {word});
        suggSaved := true;
        st', saved := RecordSuggestion(st, uid, word, newRecord);
        reply := AddedToBlack;
      } else {
        reply := NotInWordList;
      }
    } else {
      if 4 <= |word| <= 11 && word !in wordlist {
        sugg' := sugg'.(white := sugg'.white + {word});
        suggSaved := true;
        st', saved := RecordSuggestion(st, uid, word, newRecord);
        reply := AddedToWhite;
      } else {
        if word in wordlist {
          reply := AlreadyInWordList;
        } else {
          reply := BadLength;
        }
      }
    }
    chat' := Finish(chat, InFeedback);
    next := Some(End);
  }

  /** A white-list proposal that `ProposeWord` takes. */
  predicate TakenForWhite(chat: ChatData, word: string, wordlist: seq<string>, fileSize: Option<nat>) {
    FbTarget in chat && chat[FbTarget] != VStr("black") && !(fileSize.Some? && fileSize.value >= MaxSuggestionsFileSize) &&
    ' ' !in word && WhiteLength(word) && word !in wordlist
  }

  /**
    `feedback_word` as written: the message normalised, and the empty record `{}` for an
    unknown user. A proposal taken from a user without a record therefore leaves a record
    without `stats`.
  */
  method FeedbackWord(
    st: Store, sugg: Suggestions, uid: UserId, text: string, wordlist: seq<string>,
    fileSize: Option<nat>, chat: ChatData)
    returns (reply: FeedbackReply, next: Option<ConvState>, sugg': Suggestions, suggSaved: bool,
             st': Store, saved: bool, chat': ChatData)
    requires Valid(st)
    ensures Valid(st') && st'.global == st.global
    ensures TakenForWhite(chat, Normalize(text), wordlist, fileSize) ==> reply == AddedToWhite
    ensures suggSaved <==> reply == AddedToBlack || reply == AddedToWhite
    ensures uid !in st.users && suggSaved ==>
      saved && uid in st'.users && st'.users[uid].stats.None? && !AllHaveStats(st')
    ensures AllHaveStats(st) && uid in st.users ==> AllHaveStats(st')
  {
    var word := Normalize(text);
    reply, next, sugg', suggSaved, st', saved, chat' :=
      ProposeWord(st, sugg, uid, word, wordlist, fileSize, chat, EmptyUser);
    assert EmptyUser.suggested.GetOr([]) == [];
  }

  /** The record an unknown user evidently should get: zero statistics and an empty proposal list. */
  const FreshRecord := EmptyUser.(suggested := Some([]), stats := Some(ZeroStats), banned := Some(false))

  /**
    `feedback_word` with the unknown user's record carrying statistics, so that every
    record keeps `stats` and settling a later win cannot fail on it.
  */
  method FeedbackWordWithStats(
    st: Store, sugg: Suggestions, uid: UserId, text: string, wordlist: seq<string>,
    fileSize: Option<nat>, chat: ChatData)
    returns (reply: FeedbackReply, next: Option<ConvState>, sugg': Suggestions, suggSaved: bool,
             st': Store, saved: bool, chat': ChatData)
    requires Valid(st)
    ensures Valid(st') && st'.global == st.global
    ensures TakenForWhite(chat, Normalize(text), wordlist, fileSize) ==> reply == AddedToWhite
    ensures suggSaved <==> reply == AddedToBlack || reply == AddedToWhite
    ensures uid !in st.users && suggSaved ==>
      saved && uid in st'.users && st'.users[uid].stats == Some(ZeroStats)
    ensures AllHaveStats(st) ==> AllHaveStats(st')
  {
    var word := Normalize(text);
    reply, next, sugg', suggSaved, st', saved, chat' :=
      ProposeWord(st, sugg, uid, word, wordlist, fileSize, chat, FreshRecord);
    assert FreshRecord.suggested.GetOr([]) == [];
  }

  /** "кварк" is its own normal form. */
  lemma KvarkIsNormal()
    ensures Normalize("кварк") == "кварк"
  {
    var w := "кварк";
    assert forall i :: 0 <= i < |w| ==> !IsSpace(w[i]);
    StripNoSpace(w);
    var l := LowerStr(w);
    assert forall i :: 0 <= i < |w| ==> l[i] == Lower(w[i]) == w[i];
    assert l == w;
    var r := ReplaceYo(l);
    assert forall i :: 0 <= i < |w| ==> r[i] == w[i];
    assert r == w;
  }

  /**
    As written, a white-list proposal of "кварк", a word outside the (here empty) word
    list, by user "7" into an empty store leaves a record without `stats`; with
    statistics in the new record every record still has them.
  */
  method FeedbackLosesStats() returns (asWritten: Store, withStats: Store)
    ensures !AllHaveStats(asWritten) && AllHaveStats(withStats)
  {
    var word := "кварк";
    KvarkIsNormal();
    var chat := map[FbTarget := VStr("white")];
    assert TakenForWhite(chat, word, [], None);
    var r1, n1, s1, ss1, saved1, c1;
    r1, n1, s1, ss1, asWritten, saved1, c1 := FeedbackWord(Template, NoSuggestions, "7", word, [], None, chat);
    var r2, n2, s2, ss2, saved2, c2;
    r2, n2, s2, ss2, withStats, saved2, c2 := FeedbackWordWithStats(Template, NoSuggestions, "7", word, [], None, chat);
  }
}
