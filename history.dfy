/** The transcript of the current chat and the saved-history store of the
    chat front end: the record a save builds, the preview and search filter
    of the history panel, and the operations that change either sequence. */
module History {
  import opened Text
  import opened Seqs

  /** One entry of `currentConversation`. */
  datatype Message = Message(role: string, content: string, thinking: string, timestamp: string)

  /** One saved conversation of `historyData`. */
  datatype Conversation = Conversation(
    id: string, title: string, timestamp: string, dateStr: string,
    messages: seq<Message>, messageCount: nat)

  predicate IsUser(m: Message) {
    m.role == "user"
  }

  predicate IsAssistant(m: Message) {
    m.role == "assistant"
  }

  /** `i` is the index of the first user message of `t`. */
  predicate FirstUser(t: seq<Message>, i: int) {
    0 <= i < |t| && IsUser(t[i]) && forall j :: 0 <= j < i ==> !IsUser(t[j])
  }

  const Untitled := "Untitled Conversation"

  /** The title of a saved conversation: the first user message cut to 50
      characters, with `...` only when something was cut. */
  function Title(t: seq<Message>): (r: string)
    ensures (forall i :: 0 <= i < |t| ==> !IsUser(t[i])) ==> r == Untitled
    ensures forall i :: FirstUser(t, i) && |t[i].content| <= 50 ==> r == t[i].content
    ensures forall i :: FirstUser(t, i) && |t[i].content| > 50 ==> r == t[i].content[..50] + "..."
  {
    match Find(t, IsUser)
    case None => Untitled
    case Some(m) => Take(m.content, 50) + (if |m.content| > 50 then "..." else "")
  }

  /** A title is never longer than 53 characters. */
  lemma TitleBound(t: seq<Message>)
    ensures |Title(t)| <= 53
  {
    if Find(t, IsUser).Some? {
      var m := Find(t, IsUser).value;
      assert |Take(m.content, 50)| <= 50;
    }
  }

  /** The record `saveCurrentConversation` builds for transcript `t`. */
  function Record(id: string, t: seq<Message>, timestamp: string, dateStr: string): (c: Conversation)
    ensures c.messages == t && c.messageCount == |t| && c.title == Title(t)
    ensures c.id == id && c.timestamp == timestamp && c.dateStr == dateStr
  {
    Conversation(id, Title(t), timestamp, dateStr, t, |t|)
  }

  /** `getConversationPreview`. */
  function Preview(c: Conversation): (r: string)
    ensures Find(c.messages, IsUser).None? ==> r == "Empty conversation"
    ensures Find(c.messages, IsUser).Some? ==> "You: " <= r
  {
    var u := Find(c.messages, IsUser);
    var a := Find(c.messages, IsAssistant);
    if u.Some? && a.Some? then
      "You: " + Take(u.value.content, 50) + "... AI: " + Take(a.value.content, 50) + "..."
    else if u.Some? then
      "You: " + Take(u.value.content, 100) + "..."
    else
      "Empty conversation"
  }

  /** The preview quotes the opening of the first user message, and of the
      first assistant reply when there is one; a conversation with replies
      but no user message still previews as empty. */
  lemma PreviewMeaning(c: Conversation, i: int)
    requires FirstUser(c.messages, i)
    ensures var u := c.messages[i].content;
      var a := Find(c.messages, IsAssistant);
      && (a.None? ==> Preview(c) == "You: " + Take(u, 100) + "...")
      && (a.Some? ==> Preview(c) == "You: " + Take(u, 50) + "... AI: " + Take(a.value.content, 50) + "...")
  {
    var k := FindIndex(c.messages, IsUser);
    assert k == i;
  }

  // ---------------------------------------------------------------------
  // Search
  // ---------------------------------------------------------------------

  /** The filter predicate of `renderHistoryList` for a lower-cased term. */
  predicate Matches(c: Conversation, term: string) {
    || Contains(ToLower(c.title), term)
    || exists i :: 0 <= i < |c.messages| && Contains(ToLower(c.messages[i].content), term)
  }

  function MatchesTerm(term: string): Conversation -> bool {
    (c: Conversation) => Matches(c, term)
  }

  /** The conversations `renderHistoryList(term)` lists. */
  function Filtered(history: seq<Conversation>, term: string): (r: seq<Conversation>)
    ensures term == "" ==> r == history
    ensures term != "" ==> r == Filter(history, MatchesTerm(term))
  {
    if term == "" then history else Filter(history, MatchesTerm(term))
  }

  /** A non-empty term lists exactly the matching conversations, each as
      often as it is saved, in their saved order. */
  lemma FilteredMeaning(history: seq<Conversation>, term: string, c: Conversation)
    requires term != ""
    ensures IsSubsequence(Filtered(history, term), history)
    ensures c in Filtered(history, term) <==> c in history && Matches(c, term)
    ensures multiset(Filtered(history, term))[c] == if Matches(c, term) then multiset(history)[c] else 0
  {
    FilterIsSubsequence(history, MatchesTerm(term));
    FilterCount(history, MatchesTerm(term), c);
  }

  /** The messages of `ms` with each content lower-cased. */
  function LowerContents(ms: seq<Message>): (r: seq<Message>)
    ensures |r| == |ms|
    ensures forall i :: 0 <= i < |ms| ==> r[i] == ms[i].(content := ToLower(ms[i].content))
  {
    seq(|ms|, i requires 0 <= i < |ms| => ms[i].(content := ToLower(ms[i].content)))
  }

  /** Matching ignores the ASCII case of the title and of every message's
      content, since both are lower-cased before the comparison. */
  lemma MatchesIgnoresCase(c: Conversation, term: string)
    ensures Matches(c.(title := ToLower(c.title), messages := LowerContents(c.messages)), term) == Matches(c, term)
  {
    ToLowerIdempotent(c.title);
    var d := c.(title := ToLower(c.title), messages := LowerContents(c.messages));
    forall i | 0 <= i < |c.messages|
      ensures ToLower(d.messages[i].content) == ToLower(c.messages[i].content)
    {
      ToLowerIdempotent(c.messages[i].content);
    }
  }

  /** `filterHistory`: the search box's text is lower-cased, then the list
      is filtered with it. */
  function FilterHistory(history: seq<Conversation>, input: string): (r: seq<Conversation>)
    ensures forall c :: c in r <==> c in history && (ToLower(input) == "" || Matches(c, ToLower(input)))
  {
    Filtered(history, ToLower(input))
  }

  /** The search does not depend on the case of what was typed. */
  lemma FilterHistoryIgnoresCase(history: seq<Conversation>, a: string, b: string)
    ensures FilterHistory(history, a) == FilterHistory(history, ToLower(a))
    ensures ToLower(a) == ToLower(b) ==> FilterHistory(history, a) == FilterHistory(history, b)
  {
    ToLowerIdempotent(a);
  }

  // ---------------------------------------------------------------------
  // Transcript and store operations on values
  // ---------------------------------------------------------------------

  /** The transcript after `updateMessage(text, thinking)`: the last entry
      takes the new text and thinking when it is an assistant message. */
  function UpdatedLast(t: seq<Message>, text: string, thinking: string): (r: seq<Message>)
    ensures |r| == |t|
    ensures forall i :: 0 <= i < |t| - 1 ==> r[i] == t[i]
    ensures t != [] && IsAssistant(t[|t| - 1]) ==>
      r[|t| - 1] == t[|t| - 1].(content := text, thinking := thinking)
    ensures t == [] || !IsAssistant(t[|t| - 1]) ==> r == t
  {
    if t != [] && IsAssistant(t[|t| - 1]) then
      t[..|t| - 1] + [t[|t| - 1].(content := text, thinking := thinking)]
    else t
  }

  /** Updating twice is updating with the second text. */
  lemma UpdatedLastTwice(t: seq<Message>, a: string, b: string, x: string, y: string)
    ensures UpdatedLast(UpdatedLast(t, a, x), b, y) == UpdatedLast(t, b, y)
  {
  }

  function OtherId(id: string): Conversation -> bool {
    (c: Conversation) => c.id != id
  }

  function HasId(id: string): Conversation -> bool {
    (c: Conversation) => c.id == id
  }

  /** `historyData.filter(conv => conv.id !== id)`. */
  function WithoutId(history: seq<Conversation>, id: string): (r: seq<Conversation>)
    ensures forall i :: 0 <= i < |r| ==> r[i].id != id
  {
    Filter(history, OtherId(id))
  }

  /** Deleting keeps every other record, as often as it occurs, in order,
      and keeps none with the deleted id. */
  lemma WithoutIdMeaning(history: seq<Conversation>, id: string, c: Conversation)
    ensures IsSubsequence(WithoutId(history, id), history)
    ensures multiset(WithoutId(history, id))[c] == if c.id != id then multiset(history)[c] else 0
  {
    FilterIsSubsequence(history, OtherId(id));
    FilterCount(history, OtherId(id), c);
  }

  /** Deleting an id that no record has changes nothing. */
  lemma WithoutAbsentId(history: seq<Conversation>, id: string)
    requires forall i :: 0 <= i < |history| ==> history[i].id != id
    ensures WithoutId(history, id) == history
  {
    FilterKeepsAll(history, OtherId(id));
  }

  /** The transcript `loadConversation` installs, if `id` is saved. */
  function Loaded(history: seq<Conversation>, id: string): (r: Option<seq<Message>>)
    ensures r.None? <==> forall i :: 0 <= i < |history| ==> history[i].id != id
    ensures r.Some? ==> exists i :: && 0 <= i < |history| && history[i].id == id
                                    && r.value == history[i].messages
                                    && forall j :: 0 <= j < i ==> history[j].id != id
  {
    match Find(history, HasId(id))
    case None => None
    case Some(c) => Some(c.messages)
  }

  /** Saving and then loading the new record gives the transcript back. */
  lemma SaveThenLoad(history: seq<Conversation>, id: string, t: seq<Message>, timestamp: string, dateStr: string)
    ensures Loaded([Record(id, t, timestamp, dateStr)] + history, id) == Some(t)
  {
    var h := [Record(id, t, timestamp, dateStr)] + history;
    assert h[0].id == id;
    assert FindIndex(h, HasId(id)) == 0;
  }

  /** The transcript entries `window.addMessage` pushes again while
      `loadConversation` renders `ms`, each stamped with the time of the push. */
  function Restamped(ms: seq<Message>, now: string): (r: seq<Message>)
    ensures |r| == |ms|
    ensures forall i :: 0 <= i < |ms| ==> r[i] == ms[i].(timestamp := now)
  {
    seq(|ms|, i requires 0 <= i < |ms| => ms[i].(timestamp := now))
  }

  /** The transcript `loadConversation` leaves as written: the saved messages,
      then the same messages pushed again by `window.addMessage`. */
  function LoadedAsWritten(history: seq<Conversation>, id: string, now: string): (r: Option<seq<Message>>)
    ensures r.None? <==> Loaded(history, id).None?
  {
    match Loaded(history, id)
    case None => None
    case Some(ms) => Some(ms + Restamped(ms, now))
  }

  /** As written, loading a saved conversation doubles it: the transcript
      holds twice as many entries as were saved, so saving and loading a
      non-empty transcript never gives it back. */
  lemma LoadAsWrittenDoubles(history: seq<Conversation>, id: string, t: seq<Message>,
                             timestamp: string, dateStr: string, now: string)
    requires t != []
    ensures var r := LoadedAsWritten([Record(id, t, timestamp, dateStr)] + history, id, now);
      r.Some? && |r.value| == 2 * |t| && r.value != t
  {
    SaveThenLoad(history, id, t, timestamp, dateStr);
  }

  // ---------------------------------------------------------------------
  // The page state
  // ---------------------------------------------------------------------

  /** The module-level variables of the chat page that the transcript and
      history operations update, and the tagged lines the page has written
      to the console bridge. */
  class ChatSession {
    var conversation: seq<Message>
    var history: seq<Conversation>
    var historyVisible: bool
    var bridge: seq<string>

    constructor ()
      ensures conversation == [] && history == [] && !historyVisible && bridge == []
    {
      conversation := [];
      history := [];
      historyVisible := false;
      bridge := [];
    }

    /** The transcript part of `window.addMessage`; `now` is the ISO time
        of the call. */
    method AddMessage(role: string, text: string, thinking: string, now: string)
      modifies this
      ensures conversation == old(conversation) + [Message(role, text, thinking, now)]
      ensures history == old(history) && historyVisible == old(historyVisible) && bridge == old(bridge)
    {
      conversation := conversation + [Message(role, text, thinking, now)];
    }

    /** The transcript part of `window.updateMessage`; `shown` says whether
        the page shows an assistant message with a content element, without
        which the transcript is left alone. */
    method UpdateMessage(text: string, thinking: string, shown: bool)
      modifies this
      ensures conversation == if shown then UpdatedLast(old(conversation), text, thinking) else old(conversation)
      ensures history == old(history) && historyVisible == old(historyVisible) && bridge == old(bridge)
    {
      if shown && |conversation| > 0 {
        var last := conversation[|conversation| - 1];
        if last.role == "assistant" {
          conversation := conversation[..|conversation| - 1] + [last.(content := text, thinking := thinking)];
        }
      }
    }

    /** `saveCurrentConversation`: `stamp` is `Date.now()` in decimal, and
        `timestamp` and `dateStr` the ISO and locale forms of the time;
        `serialize` stands for `JSON.stringify`. */
    method SaveCurrentConversation(stamp: string, timestamp: string, dateStr: string,
                                   serialize: Conversation -> string)
      modifies this
      ensures old(conversation) == [] ==>
        history == old(history) && bridge == old(bridge)
      ensures old(conversation) != [] ==>
        var rec := Record("conv_" + stamp, old(conversation), timestamp, dateStr);
        history == [rec] + old(history) && bridge == old(bridge) + ["SAVE_HISTORY:" + serialize(rec)]
      ensures conversation == old(conversation) && historyVisible == old(historyVisible)
    {
      if |conversation| == 0 {
        return;
      }
      var rec := Record("conv_" + stamp, conversation, timestamp, dateStr);
      bridge := bridge + ["SAVE_HISTORY:" + serialize(rec)];
      history := [rec] + history;
    }

    /** `clearAllHistory`; `confirmed` is the answer to the confirmation. */
    method ClearAllHistory(confirmed: bool)
      modifies this
      ensures confirmed ==> history == [] && bridge == old(bridge) + ["CLEAR_HISTORY:"]
      ensures !confirmed ==> history == old(history) && bridge == old(bridge)
      ensures conversation == old(conversation) && historyVisible == old(historyVisible)
    {
      if confirmed {
        history := [];
        bridge := bridge + ["CLEAR_HISTORY:"];
      }
    }

    /** `deleteConversation(id)`; `confirmed` is the answer to the confirmation. */
    method DeleteConversation(id: string, confirmed: bool)
      modifies this
      ensures confirmed ==> history == WithoutId(old(history), id) && bridge == old(bridge) + ["DELETE_HISTORY:" + id]
      ensures !confirmed ==> history == old(history) && bridge == old(bridge)
      ensures conversation == old(conversation) && historyVisible == old(historyVisible)
    {
      if confirmed {
        history := WithoutId(history, id);
        bridge := bridge + ["DELETE_HISTORY:" + id];
      }
    }

    /** `toggleHistory`: opening the panel asks the host for the history. */
    method ToggleHistory()
      modifies this
      ensures historyVisible == !old(historyVisible)
      ensures historyVisible ==> bridge == old(bridge) + ["LOAD_HISTORY:"]
      ensures !historyVisible ==> bridge == old(bridge)
      ensures conversation == old(conversation) && history == old(history)
    {
      historyVisible := !historyVisible;
      if historyVisible {
        bridge := bridge + ["LOAD_HISTORY:"];
      } else {
        CloseHistory();
      }
    }

    /** `closeHistory`. */
    method CloseHistory()
      modifies this
      ensures !historyVisible
      ensures conversation == old(conversation) && history == old(history) && bridge == old(bridge)
    {
      historyVisible := false;
    }

    /** `loadConversation(id)` as written: the transcript is set to the saved
        messages, and rendering each of them through `window.addMessage`
        pushes it a second time; `now` is the time of those pushes. */
    method LoadConversationAsWritten(id: string, now: string)
      modifies this
      ensures LoadedAsWritten(old(history), id, now).None? ==>
        conversation == old(conversation) && historyVisible == old(historyVisible)
      ensures LoadedAsWritten(old(history), id, now).Some? ==>
        conversation == LoadedAsWritten(old(history), id, now).value && !historyVisible
      ensures history == old(history) && bridge == old(bridge)
    {
      var found := Find(history, HasId(id));
      if found.None? {
        return;
      }
      var ms := found.value.messages;
      conversation := ms;
      for i := 0 to |ms|
        invariant conversation == ms + Restamped(ms[..i], now)
        invariant history == old(history) && bridge == old(bridge)
      {
        var m := ms[i];
        AddMessage(m.role, m.content, m.thinking, now);
        assert Restamped(ms[..i + 1], now) == Restamped(ms[..i], now) + [m.(timestamp := now)];
      }
      assert ms[..|ms|] == ms;
      CloseHistory();
    }

    /** `loadConversation(id)` with the saved messages rendered without
        being pushed again: the transcript becomes exactly the saved one. */
    method LoadConversation(id: string)
      modifies this
      ensures Loaded(old(history), id).None? ==>
        conversation == old(conversation) && historyVisible == old(historyVisible)
      ensures Loaded(old(history), id).Some? ==>
        conversation == Loaded(old(history), id).value && !historyVisible
      ensures history == old(history) && bridge == old(bridge)
    {
      var found := Find(history, HasId(id));
      if found.None? {
        return;
      }
      conversation := found.value.messages;
      CloseHistory();
    }

    /** `window.setHistoryData`: `parsed` is what `JSON.parse` made of the
        host's data, `None` when it threw. */
    method SetHistoryData(parsed: Option<seq<Conversation>>)
      modifies this
      ensures history == if parsed.Some? then parsed.value else []
      ensures conversation == old(conversation) && historyVisible == old(historyVisible) && bridge == old(bridge)
    {
      match parsed
      case Some(h) => history := h;
      case None => history := [];
    }

    /** `window.clearCurrentConversation`. */
    method ClearCurrentConversation()
      modifies this
      ensures conversation == []
      ensures history == old(history) && historyVisible == old(historyVisible) && bridge == old(bridge)
    {
      conversation := [];
    }
  }
}
