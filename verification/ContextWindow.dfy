/** The agent's rolling context window per conversation. */
module ContextWindow {
  import opened Common
  import opened ByteStrings

  datatype Turn = Turn(fromUser: bool, content: string, sentAt: int)

  datatype Limits = Limits(maxMessages: nat, maxTokens: int)

  function Chars(w: seq<Turn>): nat
  {
    if w == [] then 0 else |w[0].content| + Chars(w[1..])
  }

  function Tokens(w: seq<Turn>): nat
  {
    (Chars(w) + 3) / 4
  }

  /** Within the message limit, and within the token limit unless a single turn is left. */
  predicate Fits(w: seq<Turn>, lim: Limits)
  {
    |w| <= lim.maxMessages && (|w| <= 1 || Tokens(w) <= lim.maxTokens)
  }

  /** `w` is the longest suffix of `h` that fits. */
  predicate LongestSuffix(w: seq<Turn>, h: seq<Turn>, lim: Limits)
  {
    && |w| <= |h| && w == h[|h| - |w|..]
    && Fits(w, lim)
    && (|w| == |h| || !Fits(h[|h| - |w| - 1..], lim))
  }

  lemma {:induction false} CharsAppend(a: seq<Turn>, b: seq<Turn>)
    ensures Chars(a + b) == Chars(a) + Chars(b)
  {
    if a == [] {
      assert a + b == b;
    } else {
      CharsAppend(a[1..], b);
      assert (a + b)[1..] == a[1..] + b;
    }
  }

  /** Four characters to a token, rounded up; no characters, no tokens. */
  lemma TokensRoundUp(w: seq<Turn>)
    ensures 4 * (Tokens(w) - 1) < Chars(w) <= 4 * Tokens(w) || Chars(w) == Tokens(w) == 0
  {
  }

  /**
   * What a window is: the newest turns, at most `maxMessages` of them, together at most four
   * characters per allowed token unless a single turn is left; one turn more would break a limit.
   */
  lemma WindowMeans(w: seq<Turn>, h: seq<Turn>, lim: Limits)
    requires LongestSuffix(w, h, lim)
    ensures |w| <= lim.maxMessages && (|w| > 1 ==> Chars(w) <= 4 * lim.maxTokens)
    ensures |w| < |h| ==> |w| == lim.maxMessages || (|w| > 0 && Chars(h[|h| - |w| - 1..]) > 4 * lim.maxTokens)
    ensures h != [] && lim.maxMessages > 0 ==> w != [] && w[|w| - 1] == h[|h| - 1]
  {
  }

  /** Fitting is inherited by every part of a window. */
  lemma FitsParts(a: seq<Turn>, w: seq<Turn>, b: seq<Turn>, lim: Limits)
    requires Fits(a + w + b, lim)
    ensures Fits(w, lim)
  {
    CharsAppend(a + w, b);
    CharsAppend(a, w);
  }

  /** Every longer suffix than the longest one fails to fit, so there is only one. */
  lemma LongestSuffixIsLongest(w: seq<Turn>, h: seq<Turn>, lim: Limits, n: nat)
    requires LongestSuffix(w, h, lim) && |w| < n <= |h|
    ensures !Fits(h[|h| - n..], lim)
  {
    var longer, next := h[|h| - n..], h[|h| - |w| - 1..];
    if Fits(longer, lim) {
      assert longer == longer[..n - |w| - 1] + next + [];
      FitsParts(longer[..n - |w| - 1], next, [], lim);
    }
  }

  /**
   * The incremental step: the longest fitting suffix of the window with the new turn is the
   * longest fitting suffix of the whole history with the new turn.
   */
  lemma TrimmedIsWhole(w: seq<Turn>, h: seq<Turn>, m: Turn, v: seq<Turn>, lim: Limits)
    requires LongestSuffix(w, h, lim) && LongestSuffix(v, w + [m], lim)
    ensures LongestSuffix(v, h + [m], lim)
  {
    var wm, hm := w + [m], h + [m];
    assert hm[|hm| - |wm|..] == wm;
    assert wm[|wm| - |v|..] == hm[|hm| - |v|..];
    if |v| < |hm| && Fits(hm[|hm| - |v| - 1..], lim) {
      if |v| < |wm| {
        assert wm[|wm| - |v| - 1..] == hm[|hm| - |v| - 1..];
      } else {
        var longer := h[|h| - |w| - 1..];
        assert hm[|hm| - |v| - 1..] == [] + longer + [m];
        FitsParts([], longer, [m], lim);
      }
    }
  }

  /** `estimateTokens`. */
  method EstimateTokens(w: seq<Turn>) returns (tokens: nat)
    ensures tokens == Tokens(w)
  {
    var chars := 0;
    for i := 0 to |w|
      invariant chars == Chars(w[..i])
    {
      assert w[..i + 1] == w[..i] + [w[i]];
      CharsAppend(w[..i], [w[i]]);
      chars := chars + |w[i].content|;
    }
    assert w[..|w|] == w;
    return (chars + 3) / 4;
  }

  /** What is appended to or purged from the store. */
  datatype Event = Append(id: Str, turn: Turn) | Purge(id: Str)

  /** The turns of a conversation since its last purge. */
  function History(events: seq<Event>, id: Str): seq<Turn>
  {
    if events == [] then []
    else
      var before, e := History(events[..|events| - 1], id), events[|events| - 1];
      if e.id != id then before else if e.Purge? then [] else before + [e.turn]
  }

  lemma HistorySnoc(events: seq<Event>, e: Event, id: Str)
    ensures History(events + [e], id) ==
            if e.id != id then History(events, id) else if e.Purge? then [] else History(events, id) + [e.turn]
  {
    assert (events + [e])[..|events|] == events;
  }

  lemma EmptyWindow(lim: Limits)
    ensures LongestSuffix([], [], lim)
  {
  }

  class AgentStore {
    var contexts: map<Str, seq<Turn>>
    /** Everything done so far, all with the limits `lim`. */
    ghost var events: seq<Event>
    ghost const lim: Limits

    function Load(id: Str): seq<Turn>
      reads this
    {
      if id in contexts then contexts[id] else []
    }

    /** Every window is the longest fitting suffix of its conversation's whole history. */
    ghost predicate Valid()
      reads this
    {
      forall id :: LongestSuffix(Load(id), History(events, id), lim)
    }

    constructor (ghost lim: Limits)
      ensures Valid() && this.lim == lim && events == [] && contexts == map[]
    {
      contexts := map[];
      this.lim := lim;
      events := [];
      new;
      EmptyWindow(lim);
      hide LongestSuffix;
    }

    /** `appendContext`: push, then shift to the message limit, then shift to the token limit. */
    method AppendContext(id: Str, turn: Turn, limits: Limits) returns (window: seq<Turn>)
      requires Valid() && limits == lim
      modifies this
      ensures Valid() && events == old(events) + [Append(id, turn)]
      ensures LongestSuffix(window, History(events, id), lim)
      ensures contexts == old(contexts)[id := window]
    {
      hide LongestSuffix, History;
      window := Trim(Load(id) + [turn], limits);
      TrimmedIsWhole(Load(id), History(events, id), turn, window, limits);
      forall other
        ensures History(events + [Append(id, turn)], other) ==
                if other == id then History(events, id) + [turn] else History(events, other)
      {
        HistorySnoc(events, Append(id, turn), other);
      }
      contexts := contexts[id := window];
      events := events + [Append(id, turn)];
    }

    method PurgeContext(id: Str)
      requires Valid()
      modifies this
      ensures Valid() && events == old(events) + [Purge(id)]
      ensures contexts == old(contexts) - {id}
    {
      forall other
        ensures History(events + [Purge(id)], other) == if other == id then [] else History(events, other)
      {
        HistorySnoc(events, Purge(id), other);
      }
      contexts := contexts - {id};
      events := events + [Purge(id)];
    }
  }

  /** The two loops of `appendContext`. */
  method Trim(grown: seq<Turn>, limits: Limits) returns (window: seq<Turn>)
    ensures LongestSuffix(window, grown, limits)
  {
    window := grown;
    while |window| > limits.maxMessages
      invariant |window| <= |grown| && window == grown[|grown| - |window|..]
      invariant |window| == |grown| || |window| >= limits.maxMessages
    {
      window := window[1..];
    }
    window := TrimTokens(window, grown, limits);
  }

  /** The second of them. */
  method TrimTokens(start: seq<Turn>, ghost grown: seq<Turn>, limits: Limits) returns (window: seq<Turn>)
    requires |start| <= |grown| && start == grown[|grown| - |start|..]
    requires |start| <= limits.maxMessages && (|start| == |grown| || |start| == limits.maxMessages)
    ensures LongestSuffix(window, grown, limits)
  {
    window := start;
    var tokens := EstimateTokens(window);
    while |window| > 1 && tokens > limits.maxTokens
      invariant |window| <= |start| && window == grown[|grown| - |window|..]
      invariant tokens == Tokens(window)
      invariant |window| == |grown| || !Fits(grown[|grown| - |window| - 1..], limits)
    {
      window := window[1..];
      tokens := EstimateTokens(window);
    }
  }
}
