/** Assembly of the message list sent to the completion endpoint
    (`get_deepseek_response`, main.py:39-43). */
module Prompt {
  import opened Turns

  /** How many of the most recent history turns a request carries. */
  const ContextWindow: nat := 10

  /** Python's `s[start:]`: a negative start counts from the end, and a start
      outside the sequence is clamped to it. */
  function SliceFrom<T>(s: seq<T>, start: int): (r: seq<T>)
    ensures |r| <= |s| && r == s[|s| - |r|..]
    ensures start < 0 ==> |r| == Min(-start, |s|)
    ensures 0 <= start ==> |r| == (if start <= |s| then |s| - start else 0)
  {
    var i := if start < 0 then (if |s| + start < 0 then 0 else |s| + start)
             else (if start <= |s| then start else |s|);
    s[i..]
  }

  /** The request's `messages`: the persona, then `history[-10:]` when the
      history is non-empty, then the new user text. */
  function BuildMessages(userText: string, history: seq<Turn>): (r: seq<Turn>)
    ensures |r| == 2 + Min(ContextWindow, |history|)
    ensures r[0] == Turn(System, SystemPrompt)
    ensures r[|r| - 1] == Turn(User, userText)
    ensures r[1..|r| - 1] == history[|history| - Min(ContextWindow, |history|)..]
    ensures history == [] ==> r == [Turn(System, SystemPrompt), Turn(User, userText)]
  {
    var context := if |history| > 0 then SliceFrom(history, -(ContextWindow as int)) else [];
    [Turn(System, SystemPrompt)] + context + [Turn(User, userText)]
  }

  /** Reference definition of the context: drop the oldest turn while more than
      `n` remain. */
  function Recent(h: seq<Turn>, n: nat): (r: seq<Turn>)
    decreases |h|
  {
    if |h| <= n then h else Recent(h[1..], n)
  }

  lemma {:induction false} RecentIsSuffix(h: seq<Turn>, n: nat)
    ensures Recent(h, n) == h[|h| - Min(n, |h|)..]
  {
    if |h| > n {
      RecentIsSuffix(h[1..], n);
      assert h[1..][|h| - 1 - n..] == h[|h| - n..];
    }
  }

  /** The request is the persona, the oldest-first-evicted window of the
      history, and the user turn, with nothing reordered. */
  lemma BuildMessagesIsWindow(userText: string, history: seq<Turn>)
    ensures BuildMessages(userText, history)
         == [Turn(System, SystemPrompt)] + Recent(history, ContextWindow) + [Turn(User, userText)]
  {
    var r := BuildMessages(userText, history);
    RecentIsSuffix(history, ContextWindow);
    assert r == [r[0]] + r[1..|r| - 1] + [r[|r| - 1]];
  }

  /** Each of the last ten history turns (turn `i`, 0 = oldest) sits unchanged
      in the request, at its position shifted past the system turn. */
  lemma BuildMessagesPosition(userText: string, history: seq<Turn>, i: nat)
    requires i < |history|
    requires i >= |history| - Min(ContextWindow, |history|)
    ensures var r := BuildMessages(userText, history);
            var k := Min(ContextWindow, |history|);
            1 <= i - (|history| - k) + 1 < |r| - 1 &&
            r[i - (|history| - k) + 1] == history[i]
  {
    var r := BuildMessages(userText, history);
    var k := Min(ContextWindow, |history|);
    assert r[i - (|history| - k) + 1] == r[1..|r| - 1][i - (|history| - k)];
  }

  /** When the history holds whole user/assistant exchanges, the request
      strictly alternates after the system turn: user, assistant, ..., user. */
  lemma BuildMessagesAlternates(userText: string, history: seq<Turn>)
    requires Alternating(history)
    ensures AlternatesAfterSystem(BuildMessages(userText, history))
  {
    var r := BuildMessages(userText, history);
    var k := Min(ContextWindow, |history|);
    assert k % 2 == 0;
    assert |r| == 2 + k;
    forall j | 1 <= j < |r|
      ensures r[j].role == (if j % 2 == 1 then User else Assistant)
    {
      RoleAt(userText, history, j);
    }
  }

  /** A request of even length: the system turn, then user and assistant turns
      in strict alternation, ending with a user turn. */
  ghost predicate AlternatesAfterSystem(r: seq<Turn>) {
    |r| > 0 && |r| % 2 == 0 && r[0].role == System &&
    forall j :: 1 <= j < |r| ==> r[j].role == (if j % 2 == 1 then User else Assistant)
  }

  lemma RoleAt(userText: string, history: seq<Turn>, j: int)
    requires Alternating(history)
    requires 1 <= j < |BuildMessages(userText, history)|
    ensures BuildMessages(userText, history)[j].role == (if j % 2 == 1 then User else Assistant)
  {
    var r := BuildMessages(userText, history);
    var start := |history| - Min(ContextWindow, |history|);
    assert start % 2 == 0;
    ShiftedParity(start, j);
    if j < |r| - 1 {
      var i := start + j - 1;
      BuildMessagesPosition(userText, history, i);
      assert history[i].role == (if i % 2 == 0 then User else Assistant);
    }
  }

  lemma ShiftedParity(a: int, j: int)
    requires a % 2 == 0
    ensures (a + j - 1) % 2 == 0 <==> j % 2 == 1
  {
  }
}
