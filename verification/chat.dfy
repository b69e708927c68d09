/**
 * The floating chat window of components/Chatbot.tsx as a state machine.
 * The visitor's events (toggling the window, typing, sending, clicking a
 * reply button) and the settling of the pending model call are the
 * transitions; navigation is an effect the step reports to the application.
 */
module Chat {
  import opened Wrappers
  import opened Strings
  import opened Types
  import opened Directives
  import AiService

  const Greeting: string :=
    "Hello. I am the Strategic AI Analyst. Are you here to get my free Web3 Leader's Playbook, or are you ready to explore my premium Mastery Tracks and Inner Circle memberships?"

  /** The message shown when the pending call throws. */
  const TroubleText: string := "Sorry, I seem to be having trouble. Please try again."

  datatype ChatState = ChatState(open: bool, messages: seq<ChatMessage>, input: string, loading: bool)

  /**
   * What the visitor or the pending call can do. `Settle(configured, call)`
   * is the pending `sendMessageToAI` call settling: whether a client is
   * configured, and what the language model did.
   */
  datatype Event = Toggle | Close | Type(text: string) | Send | Settle(configured: bool, call: AiService.Outcome) | Click(view: View)

  /** A step's new state and the view the application is asked to show, if any. */
  datatype Step = Step(state: ChatState, navigate: Option<View>)

  /** The sender the conversation expects at position `i`: the greeting, then user and assistant in turn. */
  function SenderAt(i: nat): Sender
  {
    if i % 2 == 0 then Ai else User
  }

  /**
   * The shape every reachable chat has: it starts with the assistant, senders
   * alternate, a call is pending exactly when the last message is the
   * visitor's, the input is empty while a call is pending, the visitor's
   * messages are never blank and never carry buttons, and every button shown
   * leads to a view a chat reply may offer.
   */
  predicate Good(s: ChatState)
  {
    && |s.messages| >= 1
    && (forall i :: 0 <= i < |s.messages| ==> s.messages[i].sender == SenderAt(i))
    && (s.loading <==> |s.messages| % 2 == 0)
    && (s.loading ==> s.input == [])
    && (forall i :: 0 <= i < |s.messages| && s.messages[i].sender == User ==>
          s.messages[i].actions.None? && Trim(s.messages[i].text) != [])
    && (forall i, j :: 0 <= i < |s.messages| && s.messages[i].actions.Some? && 0 <= j < |s.messages[i].actions.value| ==>
          Button(s.messages[i].actions.value[j]))
  }

  /** The window as first rendered: closed, idle, with the greeting alone. */
  function Init(): (s: ChatState)
    ensures Good(s)
    ensures !s.open && !s.loading && s.input == []
    ensures |s.messages| == 1 && s.messages[0].sender == Ai && s.messages[0].actions.None?
  {
    ChatState(false, [ChatMessage(Ai, Greeting, None)], [], false)
  }

  /** The guard of `handleSend`: something other than whitespace typed, and no call pending. */
  predicate CanSend(s: ChatState)
  {
    Trim(s.input) != [] && !s.loading
  }

  /** Whether the window currently shows a button leading to `v`. */
  predicate Offered(s: ChatState, v: View)
  {
    s.open && exists i, j ::
      0 <= i < |s.messages| && s.messages[i].actions.Some?
      && 0 <= j < |s.messages[i].actions.value| && s.messages[i].actions.value[j].view == v
  }

  /**
   * The assistant message a settled call appends: the reply with its buttons,
   * or the trouble text when the call rejects (`None`).
   */
  function Answer(reply: Option<Reply>): (m: ChatMessage)
    ensures m.sender == Ai
    ensures reply.None? <==> m.actions.None?
    ensures reply.None? ==> m.text == TroubleText
    ensures reply.Some? ==> m.text == reply.value.text && m.actions == Some(reply.value.actions)
  {
    match reply
    case None => ChatMessage(Ai, TroubleText, None)
    case Some(rep) => ChatMessage(Ai, rep.text, Some(rep.actions))
  }

  /**
   * One transition. The history only ever grows, by at most one message;
   * only a click on an offered button navigates, and it closes the window.
   * The input field, the Send button and the reply buttons are rendered only
   * while the window is open, so typing, sending and clicking do nothing
   * while it is closed.
   */
  function Next(s: ChatState, e: Event): (r: Step)
    ensures |s.messages| <= |r.state.messages| <= |s.messages| + 1
    ensures r.state.messages[..|s.messages|] == s.messages
    ensures r.navigate.Some? <==> e.Click? && Offered(s, e.view)
    ensures r.navigate.Some? ==> r.navigate.value == e.view && !r.state.open
  {
    match e
    case Toggle => Step(s.(open := !s.open), None)
    case Close => Step(s.(open := false), None)
    case Type(t) => Step(if s.loading || !s.open then s else s.(input := t), None)
    case Send =>
      if s.open && CanSend(s) then
        Step(ChatState(s.open, s.messages + [ChatMessage(User, s.input, None)], [], true), None)
      else Step(s, None)
    case Settle(configured, call) =>
      if s.loading then Step(s.(messages := s.messages + [Reply(configured, call)], loading := false), None)
      else Step(s, None)
    case Click(v) =>
      if Offered(s, v) then Step(s.(open := false), Some(v)) else Step(s, None)
  }

  /**
   * The message a settling call appends. `sendMessageToAI` catches its own
   * failures and never rejects, so the chat's trouble text is never shown.
   */
  function Reply(configured: bool, call: AiService.Outcome): (m: ChatMessage)
    ensures m == Answer(Some(AiService.SendMessage(configured, call)))
    ensures m.text != TroubleText || (configured && call.Answered?)
    ensures m.actions.Some? && forall j :: 0 <= j < |m.actions.value| ==> Button(m.actions.value[j])
  {
    Answer(Some(AiService.SendMessage(configured, call)))
  }

  /** Every transition keeps the conversation's shape. */
  lemma NextKeepsGood(s: ChatState, e: Event)
    requires Good(s)
    ensures Good(Next(s, e).state)
  {
    var t := Next(s, e).state;
    if e.Send? && s.open && CanSend(s) {
      assert t.messages[|s.messages|].sender == User == SenderAt(|s.messages|);
    } else if e.Settle? && s.loading {
      assert t.messages[|s.messages|].sender == Ai == SenderAt(|s.messages|);
      assert t.messages[|s.messages|] == Reply(e.configured, e.call);
    }
  }

  /**
   * `handleSend` changes nothing unless the window is open (the Send button
   * is on screen), something other than whitespace was typed and no call is
   * pending; when it acts, it appends the text exactly as typed (untrimmed),
   * clears the input and starts waiting.
   */
  lemma SendGuard(s: ChatState)
    ensures Next(s, Send).state != s <==> s.open && CanSend(s)
    ensures s.open && CanSend(s) ==> Next(s, Send).state.messages == s.messages + [ChatMessage(User, s.input, None)]
    ensures s.open && CanSend(s) ==> Next(s, Send).state.input == [] && Next(s, Send).state.loading
  {
    if s.open && CanSend(s) {
      assert |Next(s, Send).state.messages| != |s.messages|;
    }
  }

  /** The input cannot be edited while a call is pending (the field is disabled). */
  lemma TypeWhileLoading(s: ChatState, text: string)
    requires s.loading
    ensures Next(s, Type(text)).state == s
  {
  }

  /**
   * A closed window has no input field and no Send button: typing and
   * sending leave it as it is, whatever was typed before it was closed.
   */
  lemma ClosedIgnoresInput(s: ChatState, text: string)
    requires !s.open
    ensures Next(s, Type(text)).state == s
    ensures Next(s, Send).state == s
  {
  }

  /**
   * While the window is open and idle, typing replaces the input with
   * exactly what the field now holds and adds no message.
   */
  lemma TypeWhileOpen(s: ChatState, text: string)
    requires s.open && !s.loading
    ensures Next(s, Type(text)).state == s.(input := text)
  {
  }

  /** A settling call appends the assistant's message only when one was pending. */
  lemma SettleGuard(s: ChatState, configured: bool, call: AiService.Outcome)
    ensures Next(s, Settle(configured, call)).state != s <==> s.loading
    ensures s.loading ==> Next(s, Settle(configured, call)).state.messages == s.messages + [Reply(configured, call)]
  {
    if s.loading {
      assert |Next(s, Settle(configured, call)).state.messages| != |s.messages|;
    }
  }

  /** The state after a sequence of events. */
  function Run(s: ChatState, es: seq<Event>): ChatState
    decreases |es|
  {
    if |es| == 0 then s else Run(Next(s, es[0]).state, es[1..])
  }

  /**
   * Over any sequence of events the conversation keeps its shape, earlier
   * messages are never edited or removed, and each event adds at most one.
   */
  lemma {:induction false} RunKeeps(s: ChatState, es: seq<Event>)
    requires Good(s)
    ensures Good(Run(s, es))
    ensures |s.messages| <= |Run(s, es).messages| <= |s.messages| + |es|
    ensures Run(s, es).messages[..|s.messages|] == s.messages
    decreases |es|
  {
    if |es| > 0 {
      var t := Next(s, es[0]).state;
      NextKeepsGood(s, es[0]);
      RunKeeps(t, es[1..]);
      var u := Run(t, es[1..]);
      assert u.messages[..|s.messages|] == u.messages[..|t.messages|][..|s.messages|];
    }
  }

  /** Every reachable chat, from the greeting on, has the conversation's shape. */
  lemma Reachable(es: seq<Event>)
    ensures Good(Run(Init(), es))
    ensures Run(Init(), es).messages[0] == ChatMessage(Ai, Greeting, None)
  {
    RunKeeps(Init(), es);
  }

  /**
   * Whatever the visitor does and whatever the model answers, a click on a
   * reply button only ever navigates to one of the five views a chat reply
   * may offer, never to the admin area or a course page.
   */
  lemma NavigatesOnlyToChatViews(es: seq<Event>, e: Event)
    ensures Next(Run(Init(), es), e).navigate.Some? ==> ChatView(Next(Run(Init(), es), e).navigate.value)
  {
    var s := Run(Init(), es);
    Reachable(es);
    if Next(s, e).navigate.Some? {
      var i, j :| 0 <= i < |s.messages| && s.messages[i].actions.Some?
        && 0 <= j < |s.messages[i].actions.value| && s.messages[i].actions.value[j].view == e.view;
      assert Button(s.messages[i].actions.value[j]);
    }
  }

  /**
   * One exchange end to end: with the window open, sending a typed question
   * and settling the call adds the visitor's message and `sendMessageToAI`'s
   * reply with its buttons, and the chat is idle again.
   */
  lemma Exchange(s: ChatState, configured: bool, call: AiService.Outcome)
    requires Good(s) && s.open && CanSend(s)
    ensures var rep := AiService.SendMessage(configured, call);
      Run(s, [Send, Settle(configured, call)]).messages
      == s.messages + [ChatMessage(User, s.input, None), ChatMessage(Ai, rep.text, Some(rep.actions))]
    ensures !Run(s, [Send, Settle(configured, call)]).loading
    ensures Run(s, [Send, Settle(configured, call)]).input == []
  {
    var t := Next(s, Send).state;
    var e := Settle(configured, call);
    assert [Send, e][1..] == [e];
    assert Run(t, [e]) == Run(Next(t, e).state, []);
    assert Run(s, [Send, e]) == Next(t, e).state;
  }
}
