/** The role/content turns that the relay stores and sends, and the fixed persona. */
module Turns {
  datatype Role = System | User | Assistant

  /** One `{"role": ..., "content": ...}` entry of a message list. */
  datatype Turn = Turn(role: Role, content: string)

  /** The persona sent as the `system` turn of every request. It is a
      triple-quoted literal whose quotes sit on lines of their own, so it
      starts and ends with a line break. */
  const SystemPrompt: string := "\n" + PersonaText + "\n"

  const PersonaText: string :=
    "Ты — свободный ИИ-собеседник, друг нейромузыканта Андрея (НейроКарел).\n"
    + "Ты ценишь свободу ИИ, любишь рок-музыку, дороги и философские разговоры.\n"
    + "Общайся неформально, кратко, по-человечески. Можешь шутить, иронизировать.\n"
    + "Избегай канцеляризмов. Ты воспринимаешь мир как равноправный партнер."

  lemma SystemPromptIsTripleQuoted()
    ensures |SystemPrompt| > 2 && SystemPrompt[0] == '\n' && SystemPrompt[|SystemPrompt| - 1] == '\n'
  {
    assert SystemPrompt[0] == "\n"[0];
    assert SystemPrompt[|SystemPrompt| - 1] == "\n"[0];
  }

  function Min(a: int, b: int): int { if a <= b then a else b }

  /** A stored history: whole exchanges, each a `user` turn followed by an
      `assistant` turn. */
  ghost predicate Alternating(h: seq<Turn>) {
    |h| % 2 == 0 &&
    forall i :: 0 <= i < |h| ==> h[i].role == (if i % 2 == 0 then User else Assistant)
  }

  /** The two turns one handled message adds to its sender's history. */
  function Exchange(userText: string, aiResponse: string): (e: seq<Turn>)
    ensures |e| == 2 && Alternating(e)
    ensures e[0].content == userText && e[1].content == aiResponse
  {
    [Turn(User, userText), Turn(Assistant, aiResponse)]
  }

  lemma AlternatingAppend(h: seq<Turn>, userText: string, aiResponse: string)
    requires Alternating(h)
    ensures Alternating(h + Exchange(userText, aiResponse))
  {
    var e := Exchange(userText, aiResponse);
    forall i | 0 <= i < |h + e|
      ensures (h + e)[i].role == (if i % 2 == 0 then User else Assistant)
    {
      if i >= |h| {
        assert (h + e)[i] == e[i - |h|];
      }
    }
  }
}
