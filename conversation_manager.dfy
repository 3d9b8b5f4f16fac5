/**
 * Per-session conversation history (utils/conversation_manager.py, in-memory
 * branch): exchanges are appended and the list trimmed to the newest
 * `max_history`; the translation context is the last three exchanges
 * rendered as `Previous: <text> -> <translation>` and joined by ` | `.
 */
module Conversation {
  import opened Text

  /** One stored exchange: the user's text, its translation and the time it was recorded. */
  datatype Exchange = Exchange(userText: string, translation: string, timestamp: int)

  /** Python's `xs[-n:]` for `n >= 0`: the last `n` items, except that `xs[-0:]` is all of `xs`. */
  function LastN<T>(xs: seq<T>, n: nat): (r: seq<T>)
    ensures |r| == if n == 0 || n >= |xs| then |xs| else n
    ensures r == xs[|xs| - |r|..]
  {
    if n == 0 || n >= |xs| then xs else xs[|xs| - n..]
  }

  /**
   * A session's history after `add_exchange`: the new exchange comes last,
   * the retained entries are the newest ones in their original order, and
   * there are at most `maxHistory` of them, except that a `maxHistory` of 0
   * keeps everything.
   */
  function Appended(history: seq<Exchange>, e: Exchange, maxHistory: nat): (h: seq<Exchange>)
    ensures |h| == if maxHistory == 0 || |history| < maxHistory then |history| + 1 else maxHistory
    ensures h == (history + [e])[|history| + 1 - |h|..]
    ensures h[|h| - 1] == e
  {
    var grown := history + [e];
    if |grown| > maxHistory then LastN(grown, maxHistory) else grown
  }

  /** `memory_store.get(session_id, [])`. */
  function HistoryOf(store: map<string, seq<Exchange>>, sessionId: string): seq<Exchange> {
    if sessionId in store then store[sessionId] else []
  }

  /** `Previous: {user_text} -> {translation}`. */
  function Describe(e: Exchange): string {
    "Previous: " + e.userText + " -> " + e.translation
  }

  /** How many of the latest exchanges make up the context. */
  const ContextTurns: nat := 3

  /** The rendered latest (at most three) exchanges, oldest first. */
  function ContextParts(history: seq<Exchange>): seq<string> {
    var recent := LastN(history, ContextTurns);
    seq(|recent|, i requires 0 <= i < |recent| => Describe(recent[i]))
  }

  /** The context string `get_context` builds from a history. */
  function Render(history: seq<Exchange>): (r: string)
    ensures history == [] ==> r == ""
  {
    if history == [] then "" else Join(ContextParts(history), " | ")
  }

  /** Every stored history is non-empty and, when `maxHistory >= 1`, holds at most `maxHistory` exchanges. */
  ghost predicate Bounded(store: map<string, seq<Exchange>>, maxHistory: nat) {
    forall s :: s in store ==> store[s] != [] && (maxHistory >= 1 ==> |store[s]| <= maxHistory)
  }

  /** Storing a history the bound allows keeps the whole store within the bound. */
  lemma BoundedUpdate(store: map<string, seq<Exchange>>, maxHistory: nat, sessionId: string, h: seq<Exchange>)
    requires Bounded(store, maxHistory)
    requires h != [] && (maxHistory >= 1 ==> |h| <= maxHistory)
    ensures Bounded(store[sessionId := h], maxHistory)
  {
  }

  class ConversationManager {
    const maxHistory: nat
    var memoryStore: map<string, seq<Exchange>>

    ghost predicate Valid()
      reads this
    {
      Bounded(memoryStore, maxHistory)
    }

    /** `ConversationManager(max_history=10)` without a Redis client. */
    constructor (maxHistory: nat := 10)
      ensures Valid()
      ensures this.maxHistory == maxHistory && memoryStore == map[]
    {
      this.maxHistory := maxHistory;
      memoryStore := map[];
    }

    /**
     * `add_exchange`; `fails` stands for an exception inside the call, which
     * is swallowed and leaves every history as it was. Other sessions are
     * never touched.
     */
    method AddExchange(sessionId: string, userText: string, translation: string, timestamp: int, fails: bool)
      requires Valid()
      modifies this
      ensures Valid()
      ensures fails ==> memoryStore == old(memoryStore)
      ensures !fails ==> memoryStore == old(memoryStore)[sessionId :=
        Appended(HistoryOf(old(memoryStore), sessionId), Exchange(userText, translation, timestamp), maxHistory)]
    {
      if fails {
        return;
      }
      var exchange := Exchange(userText, translation, timestamp);
      var history := HistoryOf(memoryStore, sessionId) + [exchange];
      if |history| > maxHistory {
        history := LastN(history, maxHistory);
      }
      assert history == Appended(HistoryOf(old(memoryStore), sessionId), exchange, maxHistory);
      BoundedUpdate(memoryStore, maxHistory, sessionId, history);
      memoryStore := memoryStore[sessionId := history];
    }

    /** `_get_history`: the session's list, or `[]` for an unknown session or when the lookup fails. */
    function GetHistory(sessionId: string, fails: bool): (h: seq<Exchange>)
      reads this
      ensures fails || sessionId !in memoryStore ==> h == []
      ensures !fails && sessionId in memoryStore ==> h == memoryStore[sessionId]
    {
      if fails then [] else HistoryOf(memoryStore, sessionId)
    }

    /**
     * `get_context`: `""` for an empty or failed history; otherwise a string
     * that ends with the latest exchange, rendered.
     */
    function GetContext(sessionId: string, fails: bool): (r: string)
      reads this
      ensures GetHistory(sessionId, fails) == [] ==> r == ""
      ensures GetHistory(sessionId, fails) != [] ==>
        EndsWith(r, Describe(GetHistory(sessionId, fails)[|GetHistory(sessionId, fails)| - 1]))
    {
      var h := GetHistory(sessionId, fails);
      if h == [] then "" else
        RenderEndsWithLatest(h);
        Render(h)
    }
  }

  // ---------------------------------------------------------------------------
  // Lemmas
  // ---------------------------------------------------------------------------

  /** The context parts are the latest (at most three) exchanges rendered, oldest first. */
  lemma ContextPartsSpec(history: seq<Exchange>)
    ensures var parts := ContextParts(history);
      && |parts| == (if |history| < ContextTurns then |history| else ContextTurns)
      && forall i :: 0 <= i < |parts| ==> parts[i] == Describe(history[|history| - |parts| + i])
  {
  }

  /** A rendered non-empty history ends with its latest exchange. */
  lemma RenderEndsWithLatest(h: seq<Exchange>)
    requires h != []
    ensures EndsWith(Render(h), Describe(h[|h| - 1]))
  {
    var parts := ContextParts(h);
    ContextPartsSpec(h);
    assert parts[|parts| - 1] == Describe(h[|h| - 1]);
    JoinEndsWithLast(parts, " | ");
  }

  /** The context depends only on the last three exchanges. */
  lemma RenderRecentOnly(h: seq<Exchange>)
    ensures Render(h) == Render(LastN(h, ContextTurns))
  {
    var r := LastN(h, ContextTurns);
    ContextPartsSpec(h);
    ContextPartsSpec(r);
    assert ContextParts(h) == ContextParts(r);
  }

  /**
   * After one more exchange the context is the context of the two exchanges
   * before it, then ` | ` and the new exchange rendered.
   */
  lemma RenderAfterAppend(h: seq<Exchange>, e: Exchange)
    ensures h == [] ==> Render(h + [e]) == Describe(e)
    ensures h != [] ==> Render(h + [e]) == Render(LastN(h, 2)) + " | " + Describe(e)
  {
    var g := h + [e];
    ContextPartsSpec(g);
    if h == [] {
      assert ContextParts(g) == [Describe(e)];
    } else {
      var prev := ContextParts(LastN(h, 2));
      ContextPartsSpec(LastN(h, 2));
      assert ContextParts(g) == prev + [Describe(e)];
      JoinSnoc(prev, Describe(e), " | ");
    }
  }
}
