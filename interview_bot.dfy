/**
 * The `InterviewBot` page controller of interview.js as an object whose
 * fields change in place: the speech queue drained one text at a time,
 * the chat transcript, and the interview session driven by the chat,
 * the buttons and the countdown. Every answer from the interview server
 * and from the speech endpoint is a parameter of the step that awaits it.
 */
module InterviewSession {
  import opened Wrappers
  import opened Text
  import opened InterviewText
  import opened SpeechQueue

  /** What `/answer_question` returns, as `handleInterviewResponse` and `askAgain` read it. */
  datatype AnswerReply =
    | Done(message: string)
    | NextQuestion(question: string)
    | AnswerFailed  // network error, unreadable body or a non-ok status

  /** What `/start_interview` returns to `fetchFirstQuestion`. */
  datatype StartReply =
    | Started(interviewId: string, question: string)
    | StartFailed

  /** The handler `processUserMessage` hands a message to. */
  datatype Route = Prepare | Answer | General

  /** The handler for a message, by whether an interview is running. */
  function RouteFor(active: bool, message: string): Route {
    if !active && IsInterviewStartCommand(message) then Prepare
    else if active then Answer
    else General
  }

  /**
   * Exactly one handler: during an interview every message is an answer,
   * even a start command; outside one, start commands prepare an
   * interview and everything else gets the general reply.
   */
  lemma RouteForSpec(active: bool, message: string)
    ensures RouteFor(active, message) == Answer <==> active
    ensures RouteFor(active, message) == Prepare <==> !active && IsInterviewStartCommand(message)
    ensures RouteFor(active, message) == General <==> !active && !IsInterviewStartCommand(message)
  {
  }

  /** The body of a request to the interview server. */
  datatype ApiCall =
    | StartCall(topic: InterviewTopic)
    | AnswerCall(interviewId: Option<string>, question: Option<string>, answer: string)

  /** Which timer `startTimer` left running; the count-down keeps its `remainingTime`. */
  datatype Timer = NoTimer | CountingUp | CountingDown(remaining: int)

  /** Whether each control is usable: `!disabled` for the buttons, `display` for the report button. */
  datatype Controls = Controls(start: bool, stop: bool, askAgain: bool, report: bool)

  /** `if (this.lastQuestion)`: a question is present and not the empty string. */
  predicate Truthy(q: Option<string>) {
    q.Some? && q.value != ""
  }

  /** Bot entries of the transcript for the given contents. */
  function BotEntries(msgs: seq<string>): (es: seq<ChatEntry>)
    ensures |es| == |msgs|
  {
    if msgs == [] then [] else [ChatEntry(Bot, msgs[0])] + BotEntries(msgs[1..])
  }

  /** Each message shows as one bot entry, in order. */
  lemma {:induction false} BotEntriesAt(msgs: seq<string>)
    ensures forall i :: 0 <= i < |msgs| ==> BotEntries(msgs)[i] == ChatEntry(Bot, msgs[i])
  {
    if msgs != [] {
      BotEntriesAt(msgs[1..]);
      forall i | 0 < i < |msgs| ensures BotEntries(msgs)[i] == BotEntries(msgs[1..])[i - 1] && msgs[i] == msgs[1..][i - 1] { }
    }
  }

  /** Posting `a` and then `b` shows `a + b`. */
  lemma {:induction false} EntriesInSequence(a: seq<string>, b: seq<string>)
    ensures BotEntries(a + b) == BotEntries(a) + BotEntries(b)
  {
    if a == [] {
      assert a + b == b;
    } else {
      assert (a + b)[1..] == a[1..] + b;
      EntriesInSequence(a[1..], b);
    }
  }

  /** Posting `a` and then `b` posts both, in that order. */
  lemma PostedTwice(a: string, b: string)
    ensures BotEntries([a]) + BotEntries([b]) == BotEntries([a, b])
    ensures [a] + [b] == [a, b]
  {
    EntriesInSequence([a], [b]);
  }

  /** What the chat has shown and said: the bubbles, the bot's messages and the speech queue. */
  datatype Shown = Shown(transcript: seq<ChatEntry>, said: seq<string>, speech: Speech)

  /**
   * From `before` to `after` the entries `lead` were shown without being
   * spoken, then the bot posted `msgs`, each queued for speech by exactly
   * the `enqueueTTS` step for its stripped text.
   */
  predicate Says(before: Shown, after: Shown, lead: seq<ChatEntry>, msgs: seq<string>) {
    && after.transcript == before.transcript + lead + BotEntries(msgs)
    && after.said == before.said + msgs
    && after.speech == Say(before.speech, msgs)
  }

  /**
   * What each handler posts before its first await: preparing describes the
   * interview asked for, an answer posts nothing, and anything else gets the
   * general reply.
   */
  function RouteMessages(route: Route, message: string, p: Phrases, hasResume: bool): (msgs: seq<string>)
    ensures |msgs| == (if route == Answer then 0 else 1)
  {
    match route
    case Prepare => [PrepareMessage(ExtractRole(message), ExtractCompany(message), hasResume)]
    case Answer => []
    case General => [GeneralReply(p, message)]
  }

  /** Only preparing changes the controls: it enables Start. */
  function RouteControls(route: Route, c: Controls): (r: Controls)
    ensures route != Prepare ==> r == c
    ensures r.(start := c.start) == c
  {
    if route == Prepare then c.(start := true) else c
  }

  /** Only an answer calls the back end: `/answer_question` with the interview id and the last question. */
  function RouteCalls(route: Route, id: Option<string>, lastQ: Option<string>, message: string,
                      calls: seq<ApiCall>): (r: seq<ApiCall>)
    ensures calls <= r
    ensures |r| == |calls| + (if route == Answer then 1 else 0)
  {
    if route == Answer then calls + [AnswerCall(id, lastQ, message)] else calls
  }

  /**
   * What each handler does up to its first await, seen from `s0`, `c0`
   * and `a0` with the entries `lead` shown first. The id, the last
   * question and whether a resume was uploaded are those the handler found.
   */
  predicate Routed(route: Route, message: string, p: Phrases, hasResume: bool, id: Option<string>,
                   lastQ: Option<string>, lead: seq<ChatEntry>, s0: Shown, s1: Shown,
                   c0: Controls, c1: Controls, a0: seq<ApiCall>, a1: seq<ApiCall>)
  {
    && Says(s0, s1, lead, RouteMessages(route, message, p, hasResume))
    && c1 == RouteControls(route, c0)
    && a1 == RouteCalls(route, id, lastQ, message, a0)
  }

  /**
   * A handler run after the user's bubble was shown has, seen from before
   * that bubble, shown the bubble first and then done what it does.
   */
  lemma ShownFirst(route: Route, message: string, p: Phrases, hasResume: bool, id: Option<string>,
                   lastQ: Option<string>, lead: seq<ChatEntry>, s0: Shown, s1: Shown, s2: Shown,
                   c0: Controls, c2: Controls, a0: seq<ApiCall>, a2: seq<ApiCall>)
    requires s1 == Shown(s0.transcript + lead, s0.said, s0.speech)
    requires Routed(route, message, p, hasResume, id, lastQ, [], s1, s2, c0, c2, a0, a2)
    ensures Routed(route, message, p, hasResume, id, lastQ, lead, s0, s2, c0, c2, a0, a2)
  {
    var msgs := RouteMessages(route, message, p, hasResume);
    assert s2.transcript == s1.transcript + [] + BotEntries(msgs);
    assert s0.transcript + lead + [] + BotEntries(msgs) == s0.transcript + lead + BotEntries(msgs);
  }

  class InterviewBot {
    // The speech queue: `ttsQueue`, `isSpeaking`, the text in flight with
    // its segments not yet finished, the texts posted to `/speak`, and as
    // history every text enqueued and every text taken off the queue.
    var ttsQueue: seq<string>
    var isSpeaking: bool
    var current: string
    var segments: seq<string>
    var speechRequests: seq<string>
    ghost var enqueued: seq<string>
    ghost var started: seq<string>
    /** Every message the bot has posted, in order. */
    ghost var said: seq<string>

    /** The chat bubbles shown, in order. */
    var transcript: seq<ChatEntry>
    /** `chatHistory`: only the user's messages are pushed onto it. */
    var chatHistory: seq<ChatEntry>
    /** The requests made to `/start_interview` and `/answer_question`, in order. */
    var apiCalls: seq<ApiCall>

    var isInterviewActive: bool
    var lastQuestion: Option<string>
    var currentInterviewId: Option<string>
    /** The name of the accepted resume file. */
    var uploadedResume: Option<string>
    var controls: Controls
    var selectedTimeLimit: nat
    var timer: Timer
    var timerDisplay: string
    /** The fixed texts the bot posts; set from the constructor's `texts`. */
    const phrases: Phrases

    /** The speech fields as one value. */
    ghost function SpeechState(): Speech
      reads this`ttsQueue, this`isSpeaking, this`current, this`segments,
        this`speechRequests, this`enqueued, this`started
    {
      Speech(ttsQueue, isSpeaking, current, segments, speechRequests, enqueued, started)
    }

    /**
     * The speech queue is a FIFO with at most one text in flight, and what
     * it has been handed is every message the bot posted, markup stripped,
     * in the order posted.
     */
    ghost predicate QueueValid()
      reads this`ttsQueue, this`isSpeaking, this`current, this`segments,
        this`speechRequests, this`enqueued, this`started, this`said
    {
      Valid(SpeechState()) && enqueued == Spoken(said)
    }

    /** The countdown always has time left while it runs; stopping the interview clears it. */
    ghost predicate TimerValid()
      reads this`timer
    {
      timer.CountingDown? ==> timer.remaining >= 1
    }

    /** The chat's bubbles, the bot's messages and the speech queue as one value. */
    ghost function ShownView(): Shown
      reads this`transcript, this`said, this`ttsQueue, this`isSpeaking, this`current, this`segments,
        this`speechRequests, this`enqueued, this`started
    {
      Shown(transcript, said, SpeechState())
    }

    /**
     * Since the previous state the bot has posted `msgs`, and the speech
     * queue has taken exactly the `enqueueTTS` steps for their stripped texts.
     */
    twostate predicate Said(new msgs: seq<string>)
      reads this`transcript, this`said, this`ttsQueue, this`isSpeaking, this`current, this`segments,
        this`speechRequests, this`enqueued, this`started
    {
      && transcript == old(transcript) + BotEntries(msgs)
      && said == old(said) + msgs
      && SpeechState() == Say(old(SpeechState()), msgs)
    }

    /**
     * `constructor` up to `addWelcomeMessage`: nothing said, nothing queued,
     * no interview. The page gives the texts the bot writes (interview.js
     * writes `Phrasebook`), the controls' initial state and the timer
     * element's initial text.
     */
    constructor (texts: Phrases, initialControls: Controls, initialDisplay: string)
      ensures QueueValid() && TimerValid()
      ensures ttsQueue == [] && !isSpeaking && speechRequests == [] && enqueued == [] && started == []
      ensures phrases == texts && timerDisplay == initialDisplay
      ensures transcript == [] && said == [] && chatHistory == [] && apiCalls == []
      ensures !isInterviewActive && lastQuestion == None && currentInterviewId == None && uploadedResume == None
      ensures controls == initialControls && selectedTimeLimit == 0 && timer == NoTimer
    {
      phrases := texts;
      ttsQueue, isSpeaking, current, segments, speechRequests := [], false, "", [], [];
      enqueued, started, said := [], [], [];
      transcript, chatHistory, apiCalls := [], [], [];
      isInterviewActive, lastQuestion, currentInterviewId, uploadedResume := false, None, None, None;
      controls, selectedTimeLimit, timer, timerDisplay := initialControls, 0, NoTimer, initialDisplay;
      new;
      SilentValid();
    }

    /** `addWelcomeMessage`, the constructor's last step: the greeting is posted. */
    method AddWelcomeMessage()
      requires QueueValid()
      modifies this`transcript, this`ttsQueue, this`isSpeaking, this`current, this`segments,
        this`speechRequests, this`enqueued, this`started, this`said
      ensures QueueValid()
      ensures Said([phrases.welcome])
    {
      Post(phrases.welcome);
    }

    // -------------------------------------------------------------------
    // Speech queue
    // -------------------------------------------------------------------

    /** `playNextInQueue` up to its first await: idle when the queue is empty, else start its head. */
    method PlayNextInQueue()
      modifies this`ttsQueue, this`isSpeaking, this`current, this`segments,
        this`speechRequests, this`started
      ensures SpeechState() == PlayNext(old(SpeechState()))
    {
      if ttsQueue == [] {
        isSpeaking := false;
        segments := [];
        return;
      }
      isSpeaking := true;
      current := ttsQueue[0];
      ttsQueue := ttsQueue[1..];
      started := started + [current];
      segments := SpeechSegments(current);
      speechRequests := speechRequests + [segments[0]];
    }

    /** `enqueueTTS`: append at the tail, and start playing when nothing is in flight. */
    method EnqueueTTS(text: string)
      modifies this`ttsQueue, this`isSpeaking, this`current, this`segments,
        this`speechRequests, this`enqueued, this`started
      ensures SpeechState() == Enqueue(old(SpeechState()), text)
    {
      ttsQueue := ttsQueue + [text];
      enqueued := enqueued + [text];
      if !isSpeaking {
        PlayNextInQueue();
      }
    }

    /** The awaited segment settles: go on with the text, or with the next one once it is done. */
    method SegmentFinished(outcome: SegmentOutcome)
      modifies this`ttsQueue, this`isSpeaking, this`current, this`segments,
        this`speechRequests, this`started
      ensures SpeechState() == Settle(old(SpeechState()), outcome)
    {
      if outcome != AudioError && |segments| > 1 {
        segments := segments[1..];
        speechRequests := speechRequests + [segments[0]];
      } else {
        PlayNextInQueue();
      }
    }

    /** `addMessage`: show the bubble; a bot message is also queued for speech, its markup stripped. */
    method AddMessage(sender: Sender, content: string)
      requires QueueValid()
      modifies this`transcript, this`ttsQueue, this`isSpeaking, this`current, this`segments,
        this`speechRequests, this`enqueued, this`started, this`said
      ensures QueueValid()
      ensures transcript == old(transcript) + [ChatEntry(sender, content)]
      ensures sender == Bot ==> said == old(said) + [content]
      ensures sender == Bot ==> SpeechState() == Enqueue(old(SpeechState()), StripTags(content))
      ensures sender == User ==> said == old(said) && SpeechState() == old(SpeechState())
    {
      transcript := transcript + [ChatEntry(sender, content)];
      if sender == Bot {
        EnqueueValid(SpeechState(), StripTags(content));
        EnqueueTTS(StripTags(content));
        said := said + [content];
        SpokenAppend(old(said), content);
      }
    }

    /** `addMessage(content, 'bot')` as the handlers use it: shown, and queued for speech. */
    method Post(content: string)
      requires QueueValid()
      modifies this`transcript, this`ttsQueue, this`isSpeaking, this`current, this`segments,
        this`speechRequests, this`enqueued, this`started, this`said
      ensures QueueValid()
      ensures Said([content])
    {
      AddMessage(Bot, content);
      SayOne(old(SpeechState()), content);
    }

    /** `stopInterview()` followed by one more bot message, as the answer handler and the count-down do. */
    method StopThenPost(elapsed: nat, content: string)
      requires QueueValid()
      modifies this`transcript, this`ttsQueue, this`isSpeaking, this`current, this`segments,
        this`speechRequests, this`enqueued, this`started, this`said,
        this`isInterviewActive, this`controls, this`timer
      ensures QueueValid() && TimerValid()
      ensures Said([StopMessage(elapsed), content])
      ensures !isInterviewActive && timer == NoTimer && controls == Controls(true, false, false, true)
    {
      StopInterview(elapsed);
      Post(content);
      PostedTwice(StopMessage(elapsed), content);
      SayInSequence(old(SpeechState()), [StopMessage(elapsed)], [content]);
    }

    // -------------------------------------------------------------------
    // Chat routing
    // -------------------------------------------------------------------

    /**
     * `handleChatSubmit`: a message that is empty once trimmed is ignored;
     * otherwise it is shown as the user's, then routed, the handler's effect
     * following that bubble.
     */
    method HandleChatSubmit(input: string) returns (route: Option<Route>)
      requires QueueValid()
      modifies this`transcript, this`ttsQueue, this`isSpeaking, this`current, this`segments,
        this`speechRequests, this`enqueued, this`started, this`said,
        this`chatHistory, this`apiCalls, this`controls
      ensures QueueValid()
      ensures route == None <==> Trim(input) == []
      ensures route == None ==>
        ShownView() == old(ShownView())
        && chatHistory == old(chatHistory) && apiCalls == old(apiCalls) && controls == old(controls)
      ensures route.Some? ==>
        chatHistory == old(chatHistory) + [ChatEntry(User, Trim(input))]
        && route.value == RouteFor(isInterviewActive, Trim(input))
        && Routed(route.value, Trim(input), phrases, uploadedResume.Some?, currentInterviewId,
                  lastQuestion, [ChatEntry(User, Trim(input))], old(ShownView()), ShownView(),
                  old(controls), controls, old(apiCalls), apiCalls)
    {
      var message := Trim(input);
      if message == [] {
        route := None;
      } else {
        AddMessage(User, message);
        var r := ProcessUserMessage(message, old(ShownView()), [ChatEntry(User, message)]);
        route := Some(r);
      }
    }

    /**
     * `processUserMessage`: record the message in `chatHistory`, then hand
     * it to exactly one handler: a start command outside an interview
     * prepares one, any message during an interview is sent as an answer,
     * and anything else gets the general reply. Its effect is stated from
     * `before`, the chat as it was before the bubbles `lead` were shown.
     */
    method ProcessUserMessage(message: string, ghost before: Shown, ghost lead: seq<ChatEntry>)
      returns (route: Route)
      requires QueueValid()
      requires ShownView() == Shown(before.transcript + lead, before.said, before.speech)
      modifies this`transcript, this`ttsQueue, this`isSpeaking, this`current, this`segments,
        this`speechRequests, this`enqueued, this`started, this`said,
        this`chatHistory, this`apiCalls, this`controls
      ensures QueueValid()
      ensures chatHistory == old(chatHistory) + [ChatEntry(User, message)]
      ensures route == RouteFor(isInterviewActive, message)
      ensures Routed(route, message, phrases, uploadedResume.Some?, currentInterviewId,
                     lastQuestion, lead, before, ShownView(), old(controls), controls, old(apiCalls), apiCalls)
      ensures old(transcript) <= transcript
    {
      chatHistory := chatHistory + [ChatEntry(User, message)];
      if !isInterviewActive && IsInterviewStartCommand(message) {
        PrepareInterview(message);
        route := Prepare;
      } else if isInterviewActive {
        SendAnswer(message);
        route := Answer;
      } else {
        HandleGeneralResponse(message);
        route := General;
      }
      ShownFirst(route, message, phrases, uploadedResume.Some?, currentInterviewId, lastQuestion,
        lead, before, old(ShownView()), ShownView(), old(controls), controls, old(apiCalls), apiCalls);
    }

    /** `Routed` for the state before and after a handler, nothing shown ahead of it. */
    twostate predicate Handled(route: Route, message: string)
      reads this`transcript, this`said, this`controls, this`apiCalls, this`ttsQueue, this`isSpeaking,
        this`current, this`segments, this`speechRequests, this`enqueued, this`started,
        this`uploadedResume, this`currentInterviewId, this`lastQuestion
    {
      Routed(route, message, phrases, uploadedResume.Some?, currentInterviewId, lastQuestion,
             [], old(ShownView()), ShownView(), old(controls), controls, old(apiCalls), apiCalls)
    }

    /** `prepareInterview`: describe the interview asked for and enable Start; no interview starts yet. */
    method PrepareInterview(message: string)
      requires QueueValid()
      modifies this`transcript, this`ttsQueue, this`isSpeaking, this`current, this`segments,
        this`speechRequests, this`enqueued, this`started, this`said, this`controls
      ensures QueueValid()
      ensures Handled(Prepare, message)
    {
      var company := ExtractCompany(message);
      var role := ExtractRole(message);
      Post(PrepareMessage(role, company, uploadedResume.Some?));
      controls := controls.(start := true);
      assert old(transcript) + [] == old(transcript);
    }

    /** `handleGeneralResponse`: the help text or the invitation, by whether the message asks for help. */
    method HandleGeneralResponse(message: string)
      requires QueueValid()
      modifies this`transcript, this`ttsQueue, this`isSpeaking, this`current, this`segments,
        this`speechRequests, this`enqueued, this`started, this`said
      ensures QueueValid()
      ensures Handled(General, message)
    {
      Post(GeneralReply(phrases, message));
    }

    /** `handleInterviewResponse` up to its await: the answer is sent with the interview id and the last question. */
    method SendAnswer(answer: string)
      modifies this`apiCalls
      ensures Handled(Answer, answer)
    {
      apiCalls := apiCalls + [AnswerCall(currentInterviewId, lastQuestion, answer)];
    }

    /**
     * `handleInterviewResponse` once the reply is in. `done` ends the
     * interview and posts the server's message after the closing one; a
     * next question is posted and becomes `lastQuestion`; a failure posts
     * an apology and changes nothing else.
     */
    method AnswerArrived(reply: AnswerReply, elapsed: nat)
      requires QueueValid() && TimerValid()
      modifies this`transcript, this`ttsQueue, this`isSpeaking, this`current, this`segments,
        this`speechRequests, this`enqueued, this`started, this`said,
        this`isInterviewActive, this`lastQuestion, this`controls, this`timer
      ensures QueueValid() && TimerValid()
      ensures reply.Done? ==>
        Said([StopMessage(elapsed), reply.message]) && !isInterviewActive && timer == NoTimer
        && controls == Controls(true, false, false, true) && lastQuestion == old(lastQuestion)
      ensures reply.NextQuestion? ==>
        Said([reply.question]) && lastQuestion == Some(reply.question)
        && isInterviewActive == old(isInterviewActive) && controls == old(controls) && timer == old(timer)
      ensures reply.AnswerFailed? ==>
        Said([phrases.answerFailed]) && lastQuestion == old(lastQuestion)
        && isInterviewActive == old(isInterviewActive) && controls == old(controls) && timer == old(timer)
    {
      match reply {
        case Done(closing) =>
          StopThenPost(elapsed, closing);
        case NextQuestion(question) =>
          Post(question);
          lastQuestion := Some(question);
        case AnswerFailed =>
          Post(phrases.answerFailed);
      }
    }

    // -------------------------------------------------------------------
    // Session buttons
    // -------------------------------------------------------------------

    /** `startInterview`: the interview is active, Start is disabled, Stop and Ask Again enabled, the timer runs. */
    method StartInterview()
      modifies this`isInterviewActive, this`controls, this`timer, this`timerDisplay
      ensures isInterviewActive
      ensures controls == old(controls).(start := false, stop := true, askAgain := true)
      ensures TimerValid()
      ensures selectedTimeLimit == 0 ==> timer == CountingUp && timerDisplay == "00:00"
      ensures selectedTimeLimit > 0 ==>
        timer == CountingDown(selectedTimeLimit * 60) && timerDisplay == old(timerDisplay)
    {
      isInterviewActive := true;
      controls := controls.(start := false, stop := true, askAgain := true);
      StartTimer();
    }

    /**
     * `fetchFirstQuestion` up to its await, a second after `startInterview`:
     * the topic of the first start command in `chatHistory` is requested.
     */
    method RequestFirstQuestion()
      modifies this`apiCalls
      ensures apiCalls == old(apiCalls) + [StartCall(FirstQuestionTopic(phrases, chatHistory))]
    {
      apiCalls := apiCalls + [StartCall(FirstQuestionTopic(phrases, chatHistory))];
    }

    /**
     * The rest of `fetchFirstQuestion` and of the callback awaiting it: a
     * question received is posted and, when non-empty, becomes
     * `lastQuestion`; a failure posts an apology.
     */
    method FirstQuestionArrived(reply: StartReply)
      requires QueueValid()
      modifies this`transcript, this`ttsQueue, this`isSpeaking, this`current, this`segments,
        this`speechRequests, this`enqueued, this`started, this`said,
        this`currentInterviewId, this`lastQuestion
      ensures QueueValid()
      ensures reply.Started? ==>
        Said([reply.question]) && currentInterviewId == Some(reply.interviewId)
        && lastQuestion == (if reply.question != "" then Some(reply.question) else old(lastQuestion))
      ensures reply.StartFailed? ==>
        Said([phrases.firstQuestionFailed]) && currentInterviewId == old(currentInterviewId)
        && lastQuestion == old(lastQuestion)
    {
      match reply {
        case Started(id, question) =>
          currentInterviewId := Some(id);
          Post(question);
          if question != "" {
            lastQuestion := Some(question);
          }
        case StartFailed =>
          Post(phrases.firstQuestionFailed);
      }
    }

    /**
     * `askAgain` up to its await: only during an interview with a question
     * to repeat, the follow-up prompt is posted and an empty answer sent.
     */
    method AskAgain() returns (asked: bool)
      requires QueueValid()
      modifies this`transcript, this`ttsQueue, this`isSpeaking, this`current, this`segments,
        this`speechRequests, this`enqueued, this`started, this`said, this`apiCalls
      ensures QueueValid()
      ensures asked <==> isInterviewActive && Truthy(lastQuestion)
      ensures !asked ==> Said([]) && apiCalls == old(apiCalls)
      ensures asked ==>
        Said([phrases.followUp]) && apiCalls == old(apiCalls) + [AnswerCall(currentInterviewId, lastQuestion, "")]
    {
      asked := isInterviewActive && Truthy(lastQuestion);
      if asked {
        Post(phrases.followUp);
        apiCalls := apiCalls + [AnswerCall(currentInterviewId, lastQuestion, "")];
      }
    }

    /**
     * The rest of `askAgain`: a next question is posted and becomes
     * `lastQuestion`; a failure posts an apology. A reply without a next
     * question (`done`) leaves an "undefined" bubble, never spoken because
     * stripping its tags throws, and then the apology, as a failure does.
     */
    method FollowUpArrived(reply: AnswerReply)
      requires QueueValid()
      modifies this`transcript, this`ttsQueue, this`isSpeaking, this`current, this`segments,
        this`speechRequests, this`enqueued, this`started, this`said, this`lastQuestion
      ensures QueueValid()
      ensures reply.NextQuestion? ==> Said([reply.question]) && lastQuestion == Some(reply.question)
      ensures reply.AnswerFailed? ==> Said([phrases.followUpFailed]) && lastQuestion == old(lastQuestion)
      ensures reply.Done? ==>
        transcript == old(transcript) + [ChatEntry(Bot, "undefined"), ChatEntry(Bot, phrases.followUpFailed)]
        && said == old(said) + [phrases.followUpFailed] && lastQuestion == old(lastQuestion)
        && SpeechState() == Enqueue(old(SpeechState()), StripTags(phrases.followUpFailed))
    {
      match reply {
        case NextQuestion(question) =>
          Post(question);
          lastQuestion := Some(question);
        case AnswerFailed =>
          Post(phrases.followUpFailed);
        case Done(_) =>
          transcript := transcript + [ChatEntry(Bot, "undefined")];
          Post(phrases.followUpFailed);
          SayOne(old(SpeechState()), phrases.followUpFailed);
      }
    }

    /**
     * `stopInterview`: the interview is no longer active, the timer is
     * cleared, Start and the report button are offered, and the duration
     * of `elapsed` whole seconds is posted.
     */
    method StopInterview(elapsed: nat)
      requires QueueValid()
      modifies this`transcript, this`ttsQueue, this`isSpeaking, this`current, this`segments,
        this`speechRequests, this`enqueued, this`started, this`said,
        this`isInterviewActive, this`controls, this`timer
      ensures QueueValid() && TimerValid()
      ensures Said([StopMessage(elapsed)])
      ensures !isInterviewActive && timer == NoTimer && controls == Controls(true, false, false, true)
    {
      isInterviewActive := false;
      StopTimer();
      controls := Controls(true, false, false, true);
      Post(StopMessage(elapsed));
    }

    // -------------------------------------------------------------------
    // Timer
    // -------------------------------------------------------------------

    /** `setTimeLimit`: remember the minutes chosen; 0 means no limit. */
    method SetTimeLimit(minutes: nat)
      modifies this`selectedTimeLimit, this`timerDisplay
      ensures selectedTimeLimit == minutes
      ensures timerDisplay == if minutes == 0 then "No Limit" else Decimal(minutes) + ":00"
    {
      selectedTimeLimit := minutes;
      if minutes == 0 {
        timerDisplay := "No Limit";
      } else {
        timerDisplay := Decimal(minutes) + ":00";
      }
    }

    /** `startTimer`: count up without a limit, otherwise count down from the limit in seconds. */
    method StartTimer()
      modifies this`timer, this`timerDisplay
      ensures TimerValid()
      ensures selectedTimeLimit == 0 ==> timer == CountingUp && timerDisplay == "00:00"
      ensures selectedTimeLimit > 0 ==>
        timer == CountingDown(selectedTimeLimit * 60) && timerDisplay == old(timerDisplay)
    {
      if selectedTimeLimit == 0 {
        timerDisplay := "00:00";
        timer := CountingUp;
      } else {
        timer := CountingDown(selectedTimeLimit * 60);
      }
    }

    /** `stopTimer`: clear whichever timer runs. */
    method StopTimer()
      modifies this`timer
      ensures timer == NoTimer
    {
      timer := NoTimer;
    }

    /** One tick of the count-up timer: the `elapsed` seconds shown as a clock that reads back as them. */
    method CountUpTick(elapsed: nat)
      requires timer == CountingUp
      modifies this`timerDisplay
      ensures timerDisplay == FormatTime(elapsed)
      ensures ReadsAsClock(timerDisplay, elapsed)
    {
      timerDisplay := FormatTime(elapsed);
      FormatTimeRoundTrip(elapsed);
    }

    /**
     * One tick of the count-down: one second less is shown; at zero the
     * interview is stopped and the time-up message follows the closing one.
     */
    method CountdownTick(elapsed: nat)
      requires timer.CountingDown? && TimerValid() && QueueValid()
      modifies this`transcript, this`ttsQueue, this`isSpeaking, this`current, this`segments,
        this`speechRequests, this`enqueued, this`started, this`said,
        this`isInterviewActive, this`controls, this`timer, this`timerDisplay
      ensures QueueValid() && TimerValid()
      ensures timerDisplay == FormatTime(old(timer).remaining - 1)
      ensures old(timer).remaining > 1 ==>
        timer == CountingDown(old(timer).remaining - 1) && Said([])
        && isInterviewActive == old(isInterviewActive) && controls == old(controls)
      ensures old(timer).remaining == 1 ==>
        Said([StopMessage(elapsed), phrases.timeUp])
        && timer == NoTimer && !isInterviewActive && controls == Controls(true, false, false, true)
    {
      var remaining := timer.remaining - 1;
      timerDisplay := FormatTime(remaining);
      if remaining <= 0 {
        StopThenPost(elapsed, phrases.timeUp);
      } else {
        timer := CountingDown(remaining);
      }
    }

    // -------------------------------------------------------------------
    // Resume upload
    // -------------------------------------------------------------------

    /**
     * `processUploadedFile`: a file whose extension is not allowed is
     * refused and nothing changes; an accepted one becomes the resume and
     * its upload starts.
     */
    method ProcessUploadedFile(name: string) returns (accepted: bool)
      modifies this`uploadedResume
      ensures accepted <==> IsAllowedResume(name)
      ensures uploadedResume == if accepted then Some(name) else old(uploadedResume)
    {
      accepted := IsAllowedResume(name);
      if accepted {
        uploadedResume := Some(name);
      }
    }

    /** `uploadResumeToServer` once the server has answered: a message says whether the upload succeeded. */
    method UploadSettled(ok: bool)
      requires QueueValid()
      modifies this`transcript, this`ttsQueue, this`isSpeaking, this`current, this`segments,
        this`speechRequests, this`enqueued, this`started, this`said
      ensures QueueValid()
      ensures Said([if ok then phrases.resumeUploaded else phrases.resumeUploadFailed])
    {
      if ok {
        Post(phrases.resumeUploaded);
      } else {
        Post(phrases.resumeUploadFailed);
      }
    }
  }
}
