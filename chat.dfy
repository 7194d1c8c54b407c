/** The scripted chat widget of client/src/components/AIChatWidget.tsx: a
    transcript that starts with one assistant greeting; submitting
    non-blank input appends it as a user message, clears the input and
    shows the typing indicator; a timer later appends one of six fixed
    replies and hides the indicator. */
module Chat {
  import opened Common

  datatype Sender = User | Assistant

  /** A transcript entry (its `Date.now()` timestamp is not modelled). */
  datatype Message = Message(sender: Sender, text: string)

  const Greeting := Message(Assistant, "Hello! How can I assist you today?")

  /** The fixed replies one of which the timer picks. */
  const Responses: seq<string> := [
    "I'm currently working on several AI projects. Would you like to know more about any specific one?",
    "My expertise includes machine learning, computer vision, and full-stack development.",
    "The best way to contact me is through the form on this website or via email.",
    "I've worked with Python, C++, JavaScript, and several other programming languages.",
    "I'm always open to discussing new project opportunities and collaborations.",
    "Thanks for your interest! Let me know if you have any other questions."
  ]

  /** The characters `String.prototype.trim` removes: the WhiteSpace and
      LineTerminator code points of ECMA-262 (sections 12.2 and 12.3). */
  predicate IsWhitespace(c: char)
  {
    c == '\t' || c == '\n' || c == '\U{000B}' || c == '\U{000C}' || c == '\r' || c == ' ' ||
    c == '\U{00A0}' || c == '\U{1680}' || ('\U{2000}' <= c <= '\U{200A}') ||
    c == '\U{2028}' || c == '\U{2029}' || c == '\U{202F}' || c == '\U{205F}' ||
    c == '\U{3000}' || c == '\U{FEFF}'
  }

  /** `s` with its leading whitespace removed. */
  function TrimStart(s: string): (r: string)
    ensures |r| <= |s| && r == s[|s| - |r|..]
    ensures forall i :: 0 <= i < |s| - |r| ==> IsWhitespace(s[i])
    ensures r == [] || !IsWhitespace(r[0])
  {
    if s != [] && IsWhitespace(s[0]) then TrimStart(s[1..]) else s
  }

  /** `s` with its trailing whitespace removed. */
  function TrimEnd(s: string): (r: string)
    ensures |r| <= |s| && r == s[..|r|]
    ensures forall i :: |r| <= i < |s| ==> IsWhitespace(s[i])
    ensures r == [] || !IsWhitespace(r[|r| - 1])
  {
    if s != [] && IsWhitespace(s[|s| - 1]) then TrimEnd(s[..|s| - 1]) else s
  }

  /** `String.prototype.trim`: no longer than `s`, and no whitespace is
      left at either end. */
  function Trim(s: string): (r: string)
    ensures |r| <= |s|
    ensures r == [] || (!IsWhitespace(r[0]) && !IsWhitespace(r[|r| - 1]))
  {
    TrimEnd(TrimStart(s))
  }

  /** Input counts as blank (the submit guard) exactly when every one of
      its characters is whitespace. */
  lemma TrimEmptyIffBlank(s: string)
    ensures Trim(s) == [] <==> forall i :: 0 <= i < |s| ==> IsWhitespace(s[i])
  {
    var t := TrimStart(s);
    if Trim(s) == [] {
      assert t == [];
    } else if forall i :: 0 <= i < |s| ==> IsWhitespace(s[i]) {
      if t != [] {
        assert t[0] == s[|s| - |t|];
      }
    }
  }

  /** The widget's state: transcript, input field, typing indicator, and
      the number of reply timers scheduled and not yet fired. */
  datatype Widget = Widget(messages: seq<Message>, input: string, isTyping: bool, pendingReplies: nat)

  const Initial := Widget([Greeting], "", false, 0)

  /** The input field's `onChange`. */
  function Typed(w: Widget, v: string): Widget
  {
    w.(input := v)
  }

  /** `handleSubmit`: the old transcript stays a prefix, and messages
      plus pending replies grow by two on non-blank input, by none on blank. */
  function Submitted(w: Widget): (r: Widget)
    ensures w.messages <= r.messages
    ensures |r.messages| + r.pendingReplies ==
            |w.messages| + w.pendingReplies + (if Trim(w.input) == [] then 0 else 2)
  {
    if Trim(w.input) == [] then w
    else Widget(w.messages + [Message(User, w.input)], "", true, w.pendingReplies + 1)
  }

  /** A reply timer fires and picks reply `i`. */
  function Replied(w: Widget, i: nat): (r: Widget)
    requires i < |Responses| && w.pendingReplies > 0
    ensures w.messages <= r.messages && r.input == w.input
    ensures |r.messages| + r.pendingReplies == |w.messages| + w.pendingReplies
  {
    Widget(w.messages + [Message(Assistant, Responses[i])], w.input, false, w.pendingReplies - 1)
  }

  /** What one submit does: on blank input nothing at all; otherwise it
      appends exactly one user message holding the untrimmed input, clears
      the input, shows the indicator and schedules one reply. */
  lemma SubmitEffect(w: Widget)
    ensures Trim(w.input) == [] ==> Submitted(w) == w
    ensures Trim(w.input) != [] ==>
      Submitted(w).messages == w.messages + [Message(User, w.input)] &&
      Submitted(w).input == "" && Submitted(w).isTyping &&
      Submitted(w).pendingReplies == w.pendingReplies + 1
  {
  }

  /** What one reply does: it appends exactly one assistant message whose
      text is one of the fixed replies, and hides the indicator. */
  lemma ReplyEffect(w: Widget, i: nat)
    requires i < |Responses| && w.pendingReplies > 0
    ensures |Replied(w, i).messages| == |w.messages| + 1
    ensures w.messages <= Replied(w, i).messages
    ensures var m := Replied(w, i).messages[|w.messages|];
            m.sender == Assistant && m.text in Responses
    ensures !Replied(w, i).isTyping
  {
  }

  /** How many messages of `msgs` come from `who`. */
  function CountFrom(msgs: seq<Message>, who: Sender): nat
  {
    if msgs == [] then 0
    else CountFrom(msgs[..|msgs| - 1], who) + (if msgs[|msgs| - 1].sender == who then 1 else 0)
  }

  lemma CountAppend(msgs: seq<Message>, m: Message, who: Sender)
    ensures CountFrom(msgs + [m], who) == CountFrom(msgs, who) + (if m.sender == who then 1 else 0)
  {
    assert (msgs + [m])[..|msgs|] == msgs;
  }

  /** Every message is either the user's or the assistant's. */
  lemma {:induction false} CountSplit(msgs: seq<Message>)
    ensures |msgs| == CountFrom(msgs, User) + CountFrom(msgs, Assistant)
  {
    if msgs != [] {
      CountSplit(msgs[..|msgs| - 1]);
    }
  }

  /** The greeting comes first, and every user message has been answered
      or still has its reply pending: the assistant's messages and the
      pending replies together are one more than the user's messages. */
  predicate Balanced(w: Widget)
  {
    w.messages != [] && w.messages[0] == Greeting &&
    CountFrom(w.messages, Assistant) + w.pendingReplies == 1 + CountFrom(w.messages, User)
  }

  /** Appending one message keeps the greeting first and adds one to its
      sender's count. */
  lemma AppendBalance(w: Widget, m: Message)
    requires Balanced(w)
    ensures var ms := w.messages + [m];
            ms != [] && ms[0] == Greeting &&
            CountFrom(ms, User) == CountFrom(w.messages, User) + (if m.sender == User then 1 else 0) &&
            CountFrom(ms, Assistant) == CountFrom(w.messages, Assistant) + (if m.sender == Assistant then 1 else 0)
  {
    CountAppend(w.messages, m, User);
    CountAppend(w.messages, m, Assistant);
  }

  lemma SubmitBalanced(w: Widget)
    requires Balanced(w)
    ensures Balanced(Submitted(w))
  {
    AppendBalance(w, Message(User, w.input));
  }

  lemma ReplyBalanced(w: Widget, i: nat)
    requires Balanced(w) && i < |Responses| && w.pendingReplies > 0
    ensures Balanced(Replied(w, i))
  {
    AppendBalance(w, Message(Assistant, Responses[i]));
  }

  /** The widget starts balanced and every event keeps it balanced, in
      whatever order submits and reply timers interleave. */
  lemma BalanceKept(w: Widget, v: string, i: nat)
    requires Balanced(w)
    ensures Balanced(Initial)
    ensures Balanced(Typed(w, v))
    ensures Balanced(Submitted(w))
    ensures i < |Responses| && w.pendingReplies > 0 ==> Balanced(Replied(w, i))
  {
    assert Initial.messages == [] + [Greeting];
    CountAppend([], Greeting, User);
    CountAppend([], Greeting, Assistant);
    SubmitBalanced(w);
    if i < |Responses| && w.pendingReplies > 0 {
      ReplyBalanced(w, i);
    }
  }

  /** Once no reply is pending, a balanced transcript holds the greeting
      and one reply for each of its user messages. */
  lemma SettledTranscript(w: Widget)
    requires Balanced(w)
    ensures |w.messages| + w.pendingReplies == 1 + 2 * CountFrom(w.messages, User)
    ensures w.pendingReplies == 0 ==> |w.messages| == 1 + 2 * CountFrom(w.messages, User)
  {
    CountSplit(w.messages);
  }

  /** An event the widget reacts to: a change of the input field, a
      submit, or a reply timer firing with its pick of reply. */
  datatype Event = Changed(value: string) | Submit | Reply(pick: nat)

  /** The widget after the events in order, or `None` if a reply timer
      would fire with none scheduled (or pick outside the six replies). */
  function Play(w: Widget, events: seq<Event>): Option<Widget>
    decreases |events|
  {
    if events == [] then Some(w)
    else
      match events[0]
      case Changed(v) => Play(Typed(w, v), events[1..])
      case Submit => Play(Submitted(w), events[1..])
      case Reply(i) =>
        if i < |Responses| && w.pendingReplies > 0 then Play(Replied(w, i), events[1..]) else None
  }

  /** Any sequence of events keeps the widget balanced. */
  lemma {:induction false} PlayKeepsBalance(w: Widget, events: seq<Event>)
    requires Balanced(w)
    ensures Play(w, events).Some? ==> Balanced(Play(w, events).value)
    decreases |events|
  {
    if events != [] {
      match events[0]
      case Changed(v) =>
        BalanceKept(w, v, 0);
        PlayKeepsBalance(Typed(w, v), events[1..]);
      case Submit =>
        BalanceKept(w, "", 0);
        PlayKeepsBalance(Submitted(w), events[1..]);
      case Reply(i) =>
        if i < |Responses| && w.pendingReplies > 0 {
          BalanceKept(w, "", i);
          PlayKeepsBalance(Replied(w, i), events[1..]);
        }
    }
  }

  /** From mount, after any interleaving of edits, submits and replies,
      the greeting is first, and once every reply has fired there are
      `1 + 2n` messages for `n` user messages. */
  lemma PlayFromInitial(events: seq<Event>)
    ensures var r := Play(Initial, events);
            r.Some? ==> r.value.messages != [] && r.value.messages[0] == Greeting &&
                        |r.value.messages| + r.value.pendingReplies == 1 + 2 * CountFrom(r.value.messages, User)
  {
    BalanceKept(Initial, "", 0);
    PlayKeepsBalance(Initial, events);
    var r := Play(Initial, events);
    if r.Some? {
      SettledTranscript(r.value);
    }
  }

  /** One exchange: the user types non-blank text, submits, and the reply
      with index `reply` arrives before the next exchange. */
  datatype Turn = Turn(text: string, reply: nat)

  predicate ValidTurn(t: Turn)
  {
    Trim(t.text) != [] && t.reply < |Responses|
  }

  /** The two messages one exchange contributes. */
  function TurnMessages(t: Turn): seq<Message>
    requires t.reply < |Responses|
  {
    [Message(User, t.text), Message(Assistant, Responses[t.reply])]
  }

  /** One exchange appends the user message and the reply, and leaves the
      number of pending replies as it was. */
  function Exchange(w: Widget, t: Turn): (r: Widget)
    requires ValidTurn(t)
    ensures r.messages == w.messages + TurnMessages(t)
    ensures r.pendingReplies == w.pendingReplies && r.input == "" && !r.isTyping
  {
    var typed := Typed(w, t.text);
    assert typed.input == t.text;
    Replied(Submitted(typed), t.reply)
  }

  /** The widget after the exchanges, in order. */
  function Converse(w: Widget, turns: seq<Turn>): Widget
    requires forall k :: 0 <= k < |turns| ==> ValidTurn(turns[k])
    decreases |turns|
  {
    if turns == [] then w
    else Converse(Exchange(w, turns[0]), turns[1..])
  }

  /** The messages the exchanges contribute: each turn's text as a user
      message followed by its reply. */
  function Transcript(turns: seq<Turn>): seq<Message>
    requires forall k :: 0 <= k < |turns| ==> turns[k].reply < |Responses|
  {
    if turns == [] then []
    else TurnMessages(turns[0]) + Transcript(turns[1..])
  }

  /** Message 2k of the exchanges is the k-th user text and message 2k+1
      its reply. */
  lemma {:induction false} TranscriptAt(turns: seq<Turn>, k: nat)
    requires forall j :: 0 <= j < |turns| ==> turns[j].reply < |Responses|
    requires k < |turns|
    ensures |Transcript(turns)| == 2 * |turns|
    ensures Transcript(turns)[2 * k] == Message(User, turns[k].text)
    ensures Transcript(turns)[2 * k + 1] == Message(Assistant, Responses[turns[k].reply])
  {
    if k == 0 {
      TranscriptLength(turns[1..]);
    } else {
      TranscriptAt(turns[1..], k - 1);
      assert turns[1..][k - 1] == turns[k];
    }
  }

  lemma {:induction false} TranscriptLength(turns: seq<Turn>)
    requires forall j :: 0 <= j < |turns| ==> turns[j].reply < |Responses|
    ensures |Transcript(turns)| == 2 * |turns|
  {
    if turns != [] {
      TranscriptLength(turns[1..]);
    }
  }

  /** One unfolding of `Converse` and `Transcript`. */
  lemma ConverseUnfold(w: Widget, turns: seq<Turn>)
    requires turns != [] && forall k :: 0 <= k < |turns| ==> ValidTurn(turns[k])
    ensures forall k :: 0 <= k < |turns| - 1 ==> ValidTurn(turns[1..][k])
    ensures Converse(w, turns) == Converse(Exchange(w, turns[0]), turns[1..])
    ensures Transcript(turns) == TurnMessages(turns[0]) + Transcript(turns[1..])
    ensures Exchange(w, turns[0]).messages == w.messages + TurnMessages(turns[0])
    ensures Exchange(w, turns[0]).pendingReplies == w.pendingReplies
  {
    forall k | 0 <= k < |turns| - 1 ensures ValidTurn(turns[1..][k]) {
      assert turns[1..][k] == turns[k + 1];
    }
  }

  lemma AppendAssociative<T>(a: seq<T>, b: seq<T>, c: seq<T>)
    ensures a + (b + c) == (a + b) + c
  {
  }

  /** The transcript is append-only: after the exchanges it is the old
      transcript followed by the exchanges' messages, and no reply is left
      pending beyond those pending before. */
  lemma {:induction false} ConverseTranscript(w: Widget, turns: seq<Turn>)
    requires forall k :: 0 <= k < |turns| ==> ValidTurn(turns[k])
    ensures Converse(w, turns).messages == w.messages + Transcript(turns)
    ensures Converse(w, turns).pendingReplies == w.pendingReplies
    decreases |turns|
  {
    if turns != [] {
      ConverseUnfold(w, turns);
      ConverseTranscript(Exchange(w, turns[0]), turns[1..]);
      AppendAssociative(w.messages, TurnMessages(turns[0]), Transcript(turns[1..]));
    }
  }

  /** From the initial greeting, `n` exchanges in which each reply arrives
      before the next submit leave 1 + 2n messages, the greeting first
      (`PlayFromInitial` covers submits that overtake pending replies). */
  lemma InitialConversation(turns: seq<Turn>)
    requires forall k :: 0 <= k < |turns| ==> ValidTurn(turns[k])
    ensures |Converse(Initial, turns).messages| == 1 + 2 * |turns|
    ensures Converse(Initial, turns).messages[0] == Greeting
  {
    ConverseTranscript(Initial, turns);
    TranscriptLength(turns);
  }

  class ChatWidget {
    var messages: seq<Message>
    var input: string
    var isTyping: bool
    var pendingReplies: nat

    function State(): Widget
      reads this
    {
      Widget(messages, input, isTyping, pendingReplies)
    }

    predicate Valid()
      reads this
    {
      Balanced(State())
    }

    constructor ()
      ensures Valid() && State() == Initial
    {
      messages, input, isTyping, pendingReplies := [Greeting], "", false, 0;
    }

    /** The input field's `onChange` with the field's new value. */
    method SetInput(v: string)
      requires Valid()
      modifies this
      ensures Valid() && State() == Typed(old(State()), v)
    {
      input := v;
    }

    /** `handleSubmit`. */
    method Submit()
      requires Valid()
      modifies this
      ensures Valid() && State() == Submitted(old(State()))
      ensures old(messages) <= messages
    {
      SubmitBalanced(State());
      if Trim(input) == [] {
        return;
      }
      messages := messages + [Message(User, input)];
      input := "";
      isTyping := true;
      pendingReplies := pendingReplies + 1;
    }

    /** A reply timer fires; `i` stands for `Math.floor(Math.random() * 6)`. */
    method ReplyFires(i: nat)
      requires Valid() && i < |Responses| && pendingReplies > 0
      modifies this
      ensures Valid() && State() == Replied(old(State()), i)
      ensures old(messages) <= messages
    {
      ReplyBalanced(State(), i);
      messages := messages + [Message(Assistant, Responses[i])];
      isTyping := false;
      pendingReplies := pendingReplies - 1;
    }
  }
}
