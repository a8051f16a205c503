/** The per-user history map `user_histories` (main.py:31) and the text-message
    handler that reads and extends it (`handle_text`, main.py:65-82). */
module Histories {
  import opened Turns
  import opened Prompt
  import opened Completion
  import opened Wrappers

  /** The history stored for `user`, or the empty list a first message creates. */
  function HistoryOf(m: map<int, seq<Turn>>, user: int): (h: seq<Turn>)
    ensures user !in m ==> h == []
    ensures user in m ==> h == m[user]
  {
    if user in m then m[user] else []
  }

  /** The map after `user`'s exchange is recorded: that user's history is the
      old one (or the new empty one) followed by the two turns; every other
      entry is kept as it was. Nothing is ever evicted. */
  function Record(m: map<int, seq<Turn>>, user: int, userText: string, aiResponse: string)
    : (m': map<int, seq<Turn>>)
    ensures m'.Keys == m.Keys + {user}
    ensures forall k :: k in m && k != user ==> m'[k] == m[k]
    ensures |m'[user]| == |HistoryOf(m, user)| + 2
    ensures m'[user][..|HistoryOf(m, user)|] == HistoryOf(m, user)
    ensures m'[user][|m'[user]| - 2] == Turn(User, userText)
    ensures m'[user][|m'[user]| - 1] == Turn(Assistant, aiResponse)
  {
    var h := HistoryOf(m, user) + Exchange(userText, aiResponse);
    assert h[..|HistoryOf(m, user)|] == HistoryOf(m, user);
    m[user := h]
  }

  /** Every stored history is a run of whole user/assistant exchanges. */
  ghost predicate AllAlternating(m: map<int, seq<Turn>>) {
    forall k :: k in m ==> Alternating(m[k])
  }

  lemma RecordKeepsAlternating(m: map<int, seq<Turn>>, user: int, userText: string, aiResponse: string)
    requires AllAlternating(m)
    ensures AllAlternating(Record(m, user, userText, aiResponse))
  {
    AlternatingAppend(HistoryOf(m, user), userText, aiResponse);
    assert Record(m, user, userText, aiResponse)[user] == HistoryOf(m, user) + Exchange(userText, aiResponse);
  }

  /** One incoming text message: the sender, its text, whether the typing
      indicator sent before anything else raised, and what the completion call
      made for it returned. */
  datatype Message = Message(user: int, text: string, typingFailed: bool, outcome: HttpOutcome)

  /** What a handled message produced: the request sent and the reply text. */
  datatype Handled = Handled(prompt: seq<Turn>, reply: string)

  /** The map after `handle_text` has handled `msgs` in order, from an empty
      map (a `/start` command is routed elsewhere and is never among them). */
  function Replay(msgs: seq<Message>): map<int, seq<Turn>>
    decreases |msgs|
  {
    if msgs == [] then map[]
    else
      var last := msgs[|msgs| - 1];
      if last.typingFailed then Replay(msgs[..|msgs| - 1])
      else Record(Replay(msgs[..|msgs| - 1]), last.user, last.text, AiResponse(last.outcome))
  }

  /** Reference definition of one user's history: the exchanges of that user's
      own messages that got past the typing indicator, oldest first. */
  function Transcript(msgs: seq<Message>, user: int): seq<Turn>
    decreases |msgs|
  {
    if msgs == [] then []
    else
      var last := msgs[|msgs| - 1];
      Transcript(msgs[..|msgs| - 1], user)
        + (if last.user == user && !last.typingFailed then Exchange(last.text, AiResponse(last.outcome)) else [])
  }

  /** Number of messages in `msgs` sent by `user` and handled to the end. */
  function CountHandled(msgs: seq<Message>, user: int): nat
    decreases |msgs|
  {
    if msgs == [] then 0
    else
      var last := msgs[|msgs| - 1];
      CountHandled(msgs[..|msgs| - 1], user) + (if last.user == user && !last.typingFailed then 1 else 0)
  }

  /** After any sequence of messages, a user's history is exactly their own
      exchanges in order: other users' messages never touch it, and an entry
      exists exactly for the users who wrote. */
  lemma {:induction false} ReplayIsTranscript(msgs: seq<Message>, user: int)
    ensures HistoryOf(Replay(msgs), user) == Transcript(msgs, user)
    ensures user in Replay(msgs) <==> CountHandled(msgs, user) > 0
  {
    if msgs != [] {
      ReplayIsTranscript(msgs[..|msgs| - 1], user);
    }
  }

  /** No storage cap: a user's history holds two turns per message they sent,
      however many that is. */
  lemma {:induction false} TranscriptLength(msgs: seq<Message>, user: int)
    ensures |Transcript(msgs, user)| == 2 * CountHandled(msgs, user)
  {
    if msgs != [] {
      TranscriptLength(msgs[..|msgs| - 1], user);
    }
  }

  /** Replaying any messages leaves every history made of whole exchanges. */
  lemma {:induction false} ReplayAlternating(msgs: seq<Message>)
    ensures AllAlternating(Replay(msgs))
  {
    if msgs != [] {
      ReplayAlternating(msgs[..|msgs| - 1]);
      var last := msgs[|msgs| - 1];
      if !last.typingFailed {
        RecordKeepsAlternating(Replay(msgs[..|msgs| - 1]), last.user, last.text, AiResponse(last.outcome));
      }
    }
  }

  /** The module-level dict, as an object whose one field the handler updates
      in place. */
  class HistoryStore {
    var histories: map<int, seq<Turn>>

    ghost predicate Valid()
      reads this
    {
      AllAlternating(histories)
    }

    constructor ()
      ensures Valid() && histories == map[]
    {
      histories := map[];
    }

    /** Handles one text message from `user`. If the typing indicator raises,
        the handler stops there: nothing is requested, recorded or replied.
        Otherwise `outcome` is what the completion call returned for the
        request it sent, and the result holds that request and the reply. */
    method HandleText(user: int, userText: string, typingFailed: bool, outcome: HttpOutcome)
      returns (r: Option<Handled>)
      requires Valid()
      modifies this
      ensures Valid()
      ensures r.None? <==> typingFailed
      ensures typingFailed ==> histories == old(histories)
      ensures r.Some? ==> r.value.prompt == BuildMessages(userText, HistoryOf(old(histories), user))
      ensures r.Some? ==> AlternatesAfterSystem(r.value.prompt)
      ensures r.Some? ==> r.value.reply == AiResponse(outcome)
      ensures r.Some? ==> histories == Record(old(histories), user, userText, r.value.reply)
      ensures r.Some? ==> histories[user][|histories[user]| - 1].content == r.value.reply
    {
      if typingFailed {
        return None;
      }
      if user !in histories {
        histories := histories[user := []];
      }
      var history := histories[user];
      var prompt := BuildMessages(userText, history);
      BuildMessagesAlternates(userText, history);
      var reply := AiResponse(outcome);
      history := history + [Turn(User, userText)];
      history := history + [Turn(Assistant, reply)];
      assert history == HistoryOf(old(histories), user) + Exchange(userText, reply);
      histories := histories[user := history];
      RecordKeepsAlternating(old(histories), user, userText, reply);
      assert histories == Record(old(histories), user, userText, reply);
      r := Some(Handled(prompt, reply));
    }
  }
}
