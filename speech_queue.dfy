/**
 * The speech queue of interview.js (`enqueueTTS`, `playNextInQueue` and the
 * awaited `playTTSWithPromise`) as steps on a value. `InterviewBot` keeps
 * these fields and its methods are proved to take exactly these steps.
 */
module SpeechQueue {
  import opened InterviewText

  /** How one awaited `playTTSWithPromise(segment)` settles. */
  datatype SegmentOutcome =
    | Ended        // the audio's `onended`: the promise resolves
    | FetchFailed  // `/speak` failed or answered non-ok: logged, and the promise still resolves
    | AudioError   // the audio's `onerror`: the promise rejects

  /**
   * The queue `ttsQueue`, the flag `isSpeaking`, the text in flight with
   * the segments of it not yet finished (the one being spoken first), the
   * texts posted to `/speak` in order, and, as history, every text handed
   * to `enqueueTTS` and every text taken off the queue.
   */
  datatype Speech = Speech(
    queue: seq<string>,
    speaking: bool,
    current: string,
    segments: seq<string>,
    requests: seq<string>,
    enqueued: seq<string>,
    started: seq<string>)

  /** Nothing queued, nothing said. */
  const Silent := Speech([], false, "", [], [], [], [])

  /**
   * A FIFO with at most one text in flight: the texts taken off the queue
   * are a prefix of those put on it, an idle queue is empty, and a speaking
   * one has posted the segment it is at, which belongs to the last text
   * taken.
   */
  predicate Valid(s: Speech) {
    && s.enqueued == s.started + s.queue
    && (!s.speaking ==> s.queue == [] && s.segments == [])
    && (s.speaking ==>
          && s.started != [] && s.current == s.started[|s.started| - 1]
          && s.segments != [] && s.requests != []
          && s.requests[|s.requests| - 1] == s.segments[0])
  }

  /** `playNextInQueue` up to its first await: idle when the queue is empty, else take the head and post its first segment. */
  function PlayNext(s: Speech): Speech {
    if s.queue == [] then s.(speaking := false, segments := [])
    else
      var text := s.queue[0];
      var segs := SpeechSegments(text);
      s.(queue := s.queue[1..], speaking := true, current := text, segments := segs,
         requests := s.requests + [segs[0]], started := s.started + [text])
  }

  /** `enqueueTTS`: append at the tail; start playing only when nothing is in flight. */
  function Enqueue(s: Speech, text: string): Speech {
    var s1 := s.(queue := s.queue + [text], enqueued := s.enqueued + [text]);
    if s.speaking then s1 else PlayNext(s1)
  }

  /**
   * The segment in flight settles: a resolved promise moves to the next
   * segment, and a rejection abandons the rest of the text; once the text
   * is done `playNextInQueue` runs again.
   */
  function Settle(s: Speech, outcome: SegmentOutcome): Speech {
    if outcome != AudioError && |s.segments| > 1 then
      s.(segments := s.segments[1..], requests := s.requests + [s.segments[1]])
    else PlayNext(s)
  }

  /** The number of segments the queued texts will be spoken as. */
  function Workload(queue: seq<string>): (n: nat)
    ensures n >= |queue|
  {
    if queue == [] then 0 else |SpeechSegments(queue[0])| + Workload(queue[1..])
  }

  /** The segments still to be spoken: the rest of the text in flight and every queued text. */
  function Pending(s: Speech): nat {
    |s.segments| + Workload(s.queue)
  }

  /** `addMessage` on a run of bot messages: each is stripped of markup and enqueued, in order. */
  function Say(s: Speech, msgs: seq<string>): Speech
    decreases |msgs|
  {
    if msgs == [] then s else Say(Enqueue(s, StripTags(msgs[0])), msgs[1..])
  }

  /** The texts queued for the given bot messages. */
  function Spoken(msgs: seq<string>): (ts: seq<string>)
    ensures |ts| == |msgs|
  {
    if msgs == [] then [] else [StripTags(msgs[0])] + Spoken(msgs[1..])
  }

  /** Each queued text is its message with the markup stripped, and holds no `<`. */
  lemma {:induction false} SpokenAt(msgs: seq<string>)
    ensures forall i :: 0 <= i < |msgs| ==> Spoken(msgs)[i] == StripTags(msgs[i]) && '<' !in Spoken(msgs)[i]
  {
    if msgs != [] {
      SpokenAt(msgs[1..]);
      StripTagsSpec(msgs[0]);
      forall i | 0 < i < |msgs| ensures Spoken(msgs)[i] == Spoken(msgs[1..])[i - 1] && msgs[i] == msgs[1..][i - 1] { }
    }
  }

  /** Posting one more message queues its stripped text after the others. */
  lemma {:induction false} SpokenAppend(msgs: seq<string>, msg: string)
    ensures Spoken(msgs + [msg]) == Spoken(msgs) + [StripTags(msg)]
  {
    if msgs != [] {
      assert (msgs + [msg])[1..] == msgs[1..] + [msg];
      SpokenAppend(msgs[1..], msg);
    }
  }

  /** Settling every segment in turn while something is in flight, one outcome per awaited segment. */
  function SettleAll(s: Speech, outcomes: seq<SegmentOutcome>): Speech
    decreases |outcomes|
  {
    if outcomes == [] || !s.speaking then s else SettleAll(Settle(s, outcomes[0]), outcomes[1..])
  }

  // ---------------------------------------------------------------------
  // Properties of the steps
  // ---------------------------------------------------------------------

  /** Nothing has been said yet, and silence is a valid state. */
  lemma SilentValid()
    ensures Valid(Silent) && Pending(Silent) == 0
  {
  }

  /** Playing the next text keeps the queue valid and records it as started, in queue order. */
  lemma PlayNextValid(s: Speech)
    requires s.enqueued == s.started + s.queue
    ensures Valid(PlayNext(s)) && PlayNext(s).enqueued == s.enqueued
    ensures s.queue != [] ==>
      PlayNext(s).speaking && PlayNext(s).started == s.started + [s.queue[0]]
      && PlayNext(s).segments == SpeechSegments(s.queue[0])
    ensures s.queue == [] ==> !PlayNext(s).speaking
    ensures Pending(PlayNext(s)) == Workload(s.queue)
  {
    if s.queue != [] {
      assert s.started + s.queue == (s.started + [s.queue[0]]) + s.queue[1..];
    }
  }

  /**
   * Enqueueing keeps the queue valid and appends the text at the tail of
   * the history; an idle queue starts speaking it at once, a busy one
   * holds it behind the texts already waiting.
   */
  lemma EnqueueValid(s: Speech, text: string)
    requires Valid(s)
    ensures var r := Enqueue(s, text);
      && Valid(r) && r.enqueued == s.enqueued + [text] && r.speaking
      && (s.speaking ==> r.queue == s.queue + [text] && r.started == s.started && r.requests == s.requests)
      && (!s.speaking ==> r.current == text && r.queue == [] && r.started == s.started + [text]
                          && r.requests == s.requests + [SpeechSegments(text)[0]])
  {
    var s1 := s.(queue := s.queue + [text], enqueued := s.enqueued + [text]);
    assert s1.enqueued == s1.started + s1.queue;
    if !s.speaking {
      PlayNextValid(s1);
    }
  }

  /** Settling a segment keeps the queue valid and never changes what was enqueued. */
  lemma SettleValid(s: Speech, outcome: SegmentOutcome)
    requires Valid(s) && s.speaking
    ensures Valid(Settle(s, outcome)) && Settle(s, outcome).enqueued == s.enqueued
  {
    if !(outcome != AudioError && |s.segments| > 1) {
      PlayNextValid(s);
    }
  }

  /** Whatever the outcome, settling leaves strictly less to speak: no segment stalls the queue. */
  lemma SettleProgress(s: Speech, outcome: SegmentOutcome)
    requires Valid(s) && s.speaking
    ensures Pending(Settle(s, outcome)) < Pending(s)
  {
    if !(outcome != AudioError && |s.segments| > 1) {
      PlayNextValid(s);
    }
  }

  /** A valid queue has something left to speak exactly when it is speaking. */
  lemma PendingIffSpeaking(s: Speech)
    requires Valid(s)
    ensures Pending(s) == 0 <==> !s.speaking
  {
  }

  /**
   * Every run of outcomes at least as long as the work pending ends with
   * the queue idle and empty, every enqueued text started in order.
   */
  lemma {:induction false} DrainsToIdle(s: Speech, outcomes: seq<SegmentOutcome>)
    requires Valid(s) && |outcomes| >= Pending(s)
    ensures var r := SettleAll(s, outcomes);
      Valid(r) && !r.speaking && r.queue == [] && r.started == s.enqueued
    decreases |outcomes|
  {
    if outcomes == [] || !s.speaking {
      PendingIffSpeaking(s);
    } else {
      SettleValid(s, outcomes[0]);
      SettleProgress(s, outcomes[0]);
      DrainsToIdle(Settle(s, outcomes[0]), outcomes[1..]);
    }
  }

  /** Saying messages keeps the queue valid and enqueues each stripped message, in order. */
  lemma {:induction false} SayValid(s: Speech, msgs: seq<string>)
    requires Valid(s)
    ensures Valid(Say(s, msgs)) && Say(s, msgs).enqueued == s.enqueued + Spoken(msgs)
    decreases |msgs|
  {
    if msgs != [] {
      var t := StripTags(msgs[0]);
      EnqueueValid(s, t);
      SayStep(s, msgs);
      SayValid(Enqueue(s, t), msgs[1..]);
    }
  }

  /** One message of a run: its stripped text is enqueued first, the rest follow. */
  lemma SayStep(s: Speech, msgs: seq<string>)
    requires msgs != []
    ensures Say(s, msgs) == Say(Enqueue(s, StripTags(msgs[0])), msgs[1..])
    ensures s.enqueued + Spoken(msgs) == (s.enqueued + [StripTags(msgs[0])]) + Spoken(msgs[1..])
  {
  }

  /** Saying `a` and then `b` is saying `a + b`. */
  lemma {:induction false} SayInSequence(s: Speech, a: seq<string>, b: seq<string>)
    ensures Say(Say(s, a), b) == Say(s, a + b)
    decreases |a|
  {
    if a == [] {
      assert a + b == b;
    } else {
      assert (a + b)[1..] == a[1..] + b;
      SayInSequence(Enqueue(s, StripTags(a[0])), a[1..], b);
    }
  }

  /** Saying one message is enqueueing its stripped text. */
  lemma SayOne(s: Speech, msg: string)
    ensures Say(s, [msg]) == Enqueue(s, StripTags(msg))
  {
    assert [msg][1..] == [];
  }
}
