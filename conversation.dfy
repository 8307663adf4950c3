/**
  The conversation states the handlers return and the per-chat scratch data
  (`context.user_data`) some of them read and write.
*/
module Conversation {

  /** The handler return values: ASK_LENGTH, GUESSING, FEEDBACK_CHOOSE, FEEDBACK_WORD,
      REMOVE_INPUT and ConversationHandler.END. */
  datatype ConvState = AskLength | Guessing | FeedbackChoose | FeedbackWord | RemoveInput | End

  /** The keys of `context.user_data` used by the modelled handlers. */
  datatype ChatKey =
    | StateKey | GameActive | SecretKey | LengthKey | AttemptsKey | GuessesKey
    | JustDone | InFeedback | FeedbackStateKey | FbTarget | InRemove | WasBannedKey

  datatype ChatValue = VBool(b: bool) | VNat(n: nat) | VStr(s: string) | VStrs(ss: seq<string>) | VState(state: ConvState)

  type ChatData = map<ChatKey, ChatValue>

  /** `context.user_data.get(key)` is truthy (only booleans are stored under flag keys). */
  predicate Flag(chat: ChatData, key: ChatKey) {
    key in chat && chat[key] == VBool(true)
  }

  /** `user_data.pop(key, None)` followed by `user_data["just_done"] = True`. */
  function Finish(chat: ChatData, key: ChatKey): (r: ChatData)
    ensures key != JustDone ==> key !in r
    ensures Flag(r, JustDone)
    ensures forall k :: k in chat && k != key && k != JustDone ==> k in r && r[k] == chat[k]
  {
    (chat - {key})[JustDone := VBool(true)]
  }
}
