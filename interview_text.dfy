/**
 * The pure logic of the interview page controller (interview.js): the
 * start-intent test, the company and role look-ups, tag stripping before
 * speech, the sentence split of long speech, the resume file-extension
 * gate, the topic sent to start an interview, and the clock format.
 */
module InterviewText {
  import opened Wrappers
  import opened Text

  // ---------------------------------------------------------------------
  // Chat transcript entries
  // ---------------------------------------------------------------------

  datatype Sender = User | Bot

  /** One `{role, content}` entry of `chatHistory`. */
  datatype ChatEntry = ChatEntry(role: Sender, content: string)

  // ---------------------------------------------------------------------
  // Intent and entity extraction
  // ---------------------------------------------------------------------

  /** The words that, beside "interview", mark a request to start one. */
  const StartKeywords: seq<string> := ["practice", "want to", "apply", "role"]

  /** `isInterviewStartCommand`: "interview" and one of the start keywords, ignoring case. */
  predicate IsInterviewStartCommand(message: string) {
    var lower := ToLower(message);
    Contains(lower, "interview")
    && (Contains(lower, "practice") || Contains(lower, "want to")
        || Contains(lower, "apply") || Contains(lower, "role"))
  }

  /** Some start keyword is included exactly when one occurs at some offset. */
  lemma AnyKeywordIff(lower: string)
    ensures (Contains(lower, "practice") || Contains(lower, "want to")
             || Contains(lower, "apply") || Contains(lower, "role")) <==>
      exists k, i :: 0 <= k < |StartKeywords| && OccursAt(lower, StartKeywords[k], i)
  {
    ContainsIff(lower, "practice");
    ContainsIff(lower, "want to");
    ContainsIff(lower, "apply");
    ContainsIff(lower, "role");
    if exists k, i :: 0 <= k < |StartKeywords| && OccursAt(lower, StartKeywords[k], i) {
      var k, i :| 0 <= k < |StartKeywords| && OccursAt(lower, StartKeywords[k], i);
      assert Contains(lower, StartKeywords[k]);
    }
    if Contains(lower, "practice") { var i :| OccursAt(lower, "practice", i); assert OccursAt(lower, StartKeywords[0], i); }
    if Contains(lower, "want to") { var i :| OccursAt(lower, "want to", i); assert OccursAt(lower, StartKeywords[1], i); }
    if Contains(lower, "apply") { var i :| OccursAt(lower, "apply", i); assert OccursAt(lower, StartKeywords[2], i); }
    if Contains(lower, "role") { var i :| OccursAt(lower, "role", i); assert OccursAt(lower, StartKeywords[3], i); }
  }

  /**
   * A message is a start command exactly when its lowercase form has
   * "interview" at some offset and some start keyword at some offset.
   */
  lemma StartCommandIff(message: string)
    ensures IsInterviewStartCommand(message) <==>
      (exists i :: OccursAt(ToLower(message), "interview", i))
      && (exists k, i :: 0 <= k < |StartKeywords| && OccursAt(ToLower(message), StartKeywords[k], i))
  {
    ContainsIff(ToLower(message), "interview");
    AnyKeywordIff(ToLower(message));
  }

  /** The test ignores case: lowering the message first changes nothing. */
  lemma StartCommandIgnoresCase(message: string)
    ensures IsInterviewStartCommand(ToLower(message)) == IsInterviewStartCommand(message)
  {
    ToLowerIdempotent(message);
  }

  /** The companies `extractCompany` knows, in the order it tries them. */
  const Companies: seq<string> :=
    ["google", "amazon", "microsoft", "apple", "facebook", "meta", "netflix", "tesla", "uber", "airbnb"]

  /** The roles `extractRole` knows, in the order it tries them. */
  const Roles: seq<string> :=
    ["software engineer", "software developer", "frontend developer", "backend developer",
     "full stack developer", "data scientist", "product manager", "designer", "devops engineer"]

  /** Entry `k` is the first entry of `list` that occurs in `text`. */
  ghost predicate FirstListed(list: seq<string>, text: string, k: int) {
    0 <= k < |list| && Contains(text, list[k])
    && forall j :: 0 <= j < k ==> !Contains(text, list[j])
  }

  /** The index of the first entry of `list` that `text` includes, if any. */
  function FirstIncluded(list: seq<string>, text: string): (r: Option<nat>)
    ensures r.Some? ==> r.value < |list|
  {
    if list == [] then None
    else if Contains(text, list[0]) then Some(0)
    else match FirstIncluded(list[1..], text)
      case None => None
      case Some(k) => Some(k + 1)
  }

  /** The search finds the first entry included, and finds none only when no entry is included. */
  lemma {:induction false} FirstIncludedSpec(list: seq<string>, text: string)
    ensures var r := FirstIncluded(list, text);
      && (r.Some? ==> FirstListed(list, text, r.value))
      && (r.None? <==> forall j :: 0 <= j < |list| ==> !Contains(text, list[j]))
  {
    if list != [] && !Contains(text, list[0]) {
      FirstIncludedSpec(list[1..], text);
      var r := FirstIncluded(list[1..], text);
      if r.Some? {
        forall j | 0 <= j < r.value + 1 ensures !Contains(text, list[j]) {
          if j > 0 { assert list[j] == list[1..][j - 1]; }
        }
      } else {
        forall j | 0 <= j < |list| ensures !Contains(text, list[j]) {
          if j > 0 { assert list[j] == list[1..][j - 1]; }
        }
      }
    }
  }

  /** `w.charAt(0).toUpperCase() + w.slice(1)`. */
  function Capitalize(w: string): string {
    if w == [] then [] else [UpperChar(w[0])] + w[1..]
  }

  /**
   * `extractCompany`: the first known company the lowercased message
   * includes, with its first letter capitalised; `None` when there is none.
   */
  function ExtractCompany(message: string): Option<string> {
    match FirstIncluded(Companies, ToLower(message))
    case None => None
    case Some(k) => Some(Capitalize(Companies[k]))
  }

  /** The company found is the first one listed that the message names, in any case, capitalised; none is found only when none is named. */
  lemma ExtractCompanySpec(message: string)
    ensures var r := ExtractCompany(message);
      && (r.Some? ==> exists k :: FirstListed(Companies, ToLower(message), k) && r.value == Capitalize(Companies[k]))
      && (r.None? <==> forall j :: 0 <= j < |Companies| ==> !Contains(ToLower(message), Companies[j]))
  {
    FirstIncludedSpec(Companies, ToLower(message));
  }

  /** `extractRole`: the first known role the lowercased message includes, kept lowercase. */
  function ExtractRole(message: string): Option<string> {
    match FirstIncluded(Roles, ToLower(message))
    case None => None
    case Some(k) => Some(Roles[k])
  }

  /** The role found is the first one listed that the message names, in any case; none is found only when none is named. */
  lemma ExtractRoleSpec(message: string)
    ensures var r := ExtractRole(message);
      && (r.Some? ==> exists k :: FirstListed(Roles, ToLower(message), k) && r.value == Roles[k])
      && (r.None? <==> forall j :: 0 <= j < |Roles| ==> !Contains(ToLower(message), Roles[j]))
  {
    FirstIncludedSpec(Roles, ToLower(message));
  }

  /** The example the welcome message offers. */
  const WelcomeExample :=
    "I want to " + "practice" + " for my " + "interview" + " at " + "Google" + " for the role " + "Software Engineer"

  /** The welcome example in lowercase. */
  const WelcomeExampleLower :=
    "i want to " + "practice" + " for my " + "interview" + " at " + "google" + " for the role " + "software engineer"

  lemma WelcomeExampleLowered()
    ensures ToLower(WelcomeExample) == WelcomeExampleLower
  {
    var x := "I want to " + "practice" + " for my " + "interview";
    var y := "i want to " + "practice" + " for my " + "interview";
    WelcomeExampleHeadLowered();
    LowerStep(x, y, " at ", " at ");
    x, y := x + " at ", y + " at ";
    LowerStep(x, y, "Google", "google");
    x, y := x + "Google", y + "google";
    LowerStep(x, y, " for the role ", " for the role ");
    x, y := x + " for the role ", y + " for the role ";
    LowerStep(x, y, "Software Engineer", "software engineer");
  }

  /** The welcome example up to "interview", lowered. */
  lemma WelcomeExampleHeadLowered()
    ensures ToLower("I want to " + "practice" + " for my " + "interview")
      == "i want to " + "practice" + " for my " + "interview"
  {
    var x := "I want to ";
    var y := "i want to ";
    assert ToLower(x) == y;
    LowerStep(x, y, "practice", "practice");
    x, y := x + "practice", y + "practice";
    LowerStep(x, y, " for my ", " for my ");
    x, y := x + " for my ", y + " for my ";
    LowerStep(x, y, "interview", "interview");
  }

  /** One step of lowering a sentence built piece by piece. */
  lemma LowerStep(x: string, y: string, piece: string, lowered: string)
    requires ToLower(x) == y && ToLower(piece) == lowered
    ensures ToLower(x + piece) == y + lowered
  {
    ToLowerConcat(x, piece);
  }

  /** The welcome example is a start command. */
  lemma WelcomeExampleStarts()
    ensures IsInterviewStartCommand(WelcomeExample)
  {
    WelcomeExampleLowered();
    var x := "i want to " + "practice";
    ContainsSuffix("i want to ", "practice");
    ContainsExtend(x, " for my ", "practice");
    x := x + " for my ";
    ContainsExtend(x, "interview", "practice");
    ContainsSuffix(x, "interview");
    x := x + "interview";
    ContainsExtend(x, " at ", "practice");
    ContainsExtend(x, " at ", "interview");
    x := x + " at ";
    ContainsExtend(x, "google", "practice");
    ContainsExtend(x, "google", "interview");
    x := x + "google";
    ContainsExtend(x, " for the role ", "practice");
    ContainsExtend(x, " for the role ", "interview");
    x := x + " for the role ";
    ContainsExtend(x, "software engineer", "practice");
    ContainsExtend(x, "software engineer", "interview");
  }

  /** The welcome example names Google, the first company tried. */
  lemma WelcomeExampleCompany()
    ensures ExtractCompany(WelcomeExample) == Some("Google")
  {
    WelcomeExampleLowered();
    var x := "i want to " + "practice" + " for my " + "interview" + " at ";
    ContainsSuffix(x, "google");
    x := x + "google";
    ContainsExtend(x, " for the role ", "google");
    x := x + " for the role ";
    ContainsExtend(x, "software engineer", "google");
    assert Capitalize("google") == "Google";
  }

  /** The welcome example names the software engineer role, the first role tried. */
  lemma WelcomeExampleRole()
    ensures ExtractRole(WelcomeExample) == Some("software engineer")
  {
    WelcomeExampleLowered();
    ContainsSuffix("i want to " + "practice" + " for my " + "interview" + " at " + "google" + " for the role ", "software engineer");
  }

  // ---------------------------------------------------------------------
  // The topic sent with the request for the first question
  // ---------------------------------------------------------------------

  /** The `{role, company}` body of the start request. */
  datatype InterviewTopic = InterviewTopic(role: string, company: string)

  /** Used when the transcript holds no start command. */
  const DefaultStartMessage := "I want to practice for a " + "Software Engineer" + " role"

  /** Entry `k` is the first user entry of `history` that is a start command. */
  ghost predicate FirstStartEntry(history: seq<ChatEntry>, k: int) {
    0 <= k < |history| && history[k].role == User && IsInterviewStartCommand(history[k].content)
    && forall j :: 0 <= j < k ==> !(history[j].role == User && IsInterviewStartCommand(history[j].content))
  }

  /** `chatHistory.find(...)`: the content of the first user start command. */
  function FindStartCommand(history: seq<ChatEntry>): Option<string> {
    if history == [] then None
    else if history[0].role == User && IsInterviewStartCommand(history[0].content) then Some(history[0].content)
    else FindStartCommand(history[1..])
  }

  /** `find` gives the first user start command, and nothing only when there is none. */
  lemma {:induction false} FindStartCommandSpec(history: seq<ChatEntry>)
    ensures var r := FindStartCommand(history);
      && (r.Some? ==> exists k :: FirstStartEntry(history, k) && r.value == history[k].content)
      && (r.None? <==> forall j :: 0 <= j < |history| ==> !(history[j].role == User && IsInterviewStartCommand(history[j].content)))
  {
    if history != [] && !(history[0].role == User && IsInterviewStartCommand(history[0].content)) {
      var rest := history[1..];
      FindStartCommandSpec(rest);
      if FindStartCommand(rest).Some? {
        var k :| FirstStartEntry(rest, k) && FindStartCommand(rest).value == rest[k].content;
        assert FirstStartEntry(history, k + 1) by {
          forall j | 0 < j < k + 1 ensures history[j] == rest[j - 1] { }
        }
      } else {
        forall j | 0 < j < |history| ensures history[j] == rest[j - 1] { }
      }
    } else if history != [] {
      assert FirstStartEntry(history, 0);
    }
  }

  /** The role and company a message asks for, with `fetchFirstQuestion`'s defaults. */
  function TopicOf(message: string): InterviewTopic {
    InterviewTopic(
      match ExtractRole(message) case Some(r) => r case None => "Software Engineer",
      match ExtractCompany(message) case Some(c) => c case None => "")
  }

  /** `fetchFirstQuestion`'s request body, from the transcript; `p.defaultStart` stands in for a missing start command. */
  function FirstQuestionTopic(p: Phrases, history: seq<ChatEntry>): InterviewTopic {
    var message := match FindStartCommand(history)
      case Some(c) => if c != "" then c else p.defaultStart
      case None => p.defaultStart;
    TopicOf(message)
  }

  /** The first start command decides the topic; the name `lastMsg` notwithstanding, later ones are ignored. */
  lemma {:induction false} TopicFromFirstStartCommand(p: Phrases, history: seq<ChatEntry>, k: nat)
    requires FirstStartEntry(history, k)
    ensures FirstQuestionTopic(p, history) == TopicOf(history[k].content)
  {
    FindStartCommandSpec(history);
    var r := FindStartCommand(history);
    assert r.Some?;
    var k' :| FirstStartEntry(history, k') && r.value == history[k'].content;
    assert k' == k;
    assert history[k].content != "" by {
      assert Contains(ToLower(history[k].content), "interview");
    }
  }

  /** Messages added after the first start command never change the topic. */
  lemma LaterMessagesIgnored(p: Phrases, history: seq<ChatEntry>, more: seq<ChatEntry>, k: nat)
    requires FirstStartEntry(history, k)
    ensures FirstQuestionTopic(p, history + more) == FirstQuestionTopic(p, history)
  {
    assert FirstStartEntry(history + more, k) by {
      forall j | 0 <= j < k ensures (history + more)[j] == history[j] { }
    }
    TopicFromFirstStartCommand(p, history, k);
    TopicFromFirstStartCommand(p, history + more, k);
  }

  /** Without a start command the default message is used, and it names the role. */
  lemma NoStartCommandRole(history: seq<ChatEntry>)
    requires forall j :: 0 <= j < |history| ==> !(history[j].role == User && IsInterviewStartCommand(history[j].content))
    ensures FirstQuestionTopic(Phrasebook, history).role == "software engineer"
  {
    FindStartCommandSpec(history);
    DefaultStartRole();
  }

  /** The default message names the role "software engineer". */
  lemma DefaultStartRole()
    ensures ExtractRole(DefaultStartMessage) == Some("software engineer")
  {
    var p1, p2 := "I want to practice for a ", " role";
    ToLowerConcat(p1 + "Software Engineer", p2);
    ToLowerConcat(p1, "Software Engineer");
    assert ToLower("Software Engineer") == "software engineer";
    ContainsSuffix(ToLower(p1), "software engineer");
    ContainsExtend(ToLower(p1) + "software engineer", ToLower(p2), "software engineer");
  }

  // ---------------------------------------------------------------------
  // Markup stripped before speech
  // ---------------------------------------------------------------------

  /** After a `<`: the run of non-`>` characters, then one `>` if present. */
  function SkipTag(s: string): (r: string)
    ensures |r| <= |s| && r == s[|s| - |r|..]
  {
    if s == [] then []
    else if s[0] == '>' then s[1..]
    else SkipTag(s[1..])
  }

  /**
   * `content.replace(/<[^>]*>?/gm, '')`: the spoken text never holds a `<`,
   * and text with no `<` is spoken unchanged.
   */
  function StripTags(s: string): (r: string)
    ensures |r| <= |s|
    decreases |s|
  {
    if s == [] then []
    else if s[0] == '<' then StripTags(SkipTag(s[1..]))
    else [s[0]] + StripTags(s[1..])
  }

  /** The spoken text never holds a `<`, and text with no `<` is spoken unchanged. */
  lemma {:induction false} StripTagsSpec(s: string)
    ensures '<' !in StripTags(s)
    ensures '<' !in s ==> StripTags(s) == s
    decreases |s|
  {
    if s != [] {
      if s[0] == '<' {
        StripTagsSpec(SkipTag(s[1..]));
        assert StripTags(s) == StripTags(SkipTag(s[1..]));
      } else {
        var rest := s[1..];
        StripTagsSpec(rest);
        assert StripTags(s) == [s[0]] + StripTags(rest);
        if '<' !in s {
          assert s == [s[0]] + rest;
          assert '<' !in rest;
        }
      }
    }
  }

  /** After a `<`, the tag runs to the first `>`, which is skipped too; with no `>` the rest of the text goes. */
  lemma {:induction false} SkipTagSpec(t: string, b: string)
    requires '>' !in t
    ensures SkipTag(t + ">" + b) == b
    ensures SkipTag(t) == []
  {
    if t == [] {
      assert t + ">" + b == [">"[0]] + b;
    } else {
      assert (t + ">" + b)[1..] == t[1..] + ">" + b;
      SkipTagSpec(t[1..], b);
    }
  }

  /** Text with no `<` in front of the rest is kept as it is. */
  lemma {:induction false} StripTagsKeepsPrefix(a: string, s: string)
    requires '<' !in a
    ensures StripTags(a + s) == a + StripTags(s)
  {
    if a == [] {
      assert a + s == s;
    } else {
      assert (a + s)[0] == a[0] && a[0] in a;
      assert (a + s)[1..] == a[1..] + s;
      assert '<' !in a[1..] by { assert forall c :: c in a[1..] ==> c in a; }
      StripTagsKeepsPrefix(a[1..], s);
      assert StripTags(a + s) == [a[0]] + StripTags(a[1..] + s);
      assert [a[0]] + (a[1..] + StripTags(s)) == a + StripTags(s);
    }
  }

  /** Stripping removes a `<`-to-`>` span and keeps the text before and after it. */
  lemma StripTagsRemovesTag(a: string, t: string, b: string)
    requires '<' !in a && '>' !in t
    ensures StripTags(a + "<" + t + ">" + b) == a + StripTags(b)
  {
    var tag := "<" + t + ">" + b;
    assert a + "<" + t + ">" + b == a + tag;
    StripTagsKeepsPrefix(a, tag);
    assert tag[1..] == t + ">" + b;
    SkipTagSpec(t, b);
  }

  /** A `<` that is never closed removes the rest of the text. */
  lemma StripTagsUnclosed(a: string, t: string)
    requires '<' !in a && '>' !in t
    ensures StripTags(a + "<" + t) == a
  {
    var tag := "<" + t;
    assert a + "<" + t == a + tag;
    StripTagsKeepsPrefix(a, tag);
    assert tag[0] == '<' && tag[1..] == t;
    SkipTagSpec(t, []);
    assert StripTags(tag) == StripTags(SkipTag(t)) == [];
    assert a + [] == a;
  }

  /** Stripping twice strips nothing more. */
  lemma StripTagsIdempotent(s: string)
    ensures StripTags(StripTags(s)) == StripTags(s)
  {
    StripTagsSpec(s);
    StripTagsSpec(StripTags(s));
  }

  // ---------------------------------------------------------------------
  // Speech segments
  // ---------------------------------------------------------------------

  /** Texts longer than this many characters are spoken sentence by sentence. */
  const LongTextThreshold := 300

  predicate IsTerminator(c: char) {
    c == '.' || c == '!' || c == '?'
  }

  /** The length of the longest prefix of `s` without a sentence terminator. */
  function SpanNonTerminators(s: string): (n: nat)
    ensures n <= |s|
  {
    if s == [] || IsTerminator(s[0]) then 0 else 1 + SpanNonTerminators(s[1..])
  }

  /** The span is the longest terminator-free prefix. */
  lemma {:induction false} SpanNonTerminatorsSpec(s: string)
    ensures var n := SpanNonTerminators(s);
      (forall i :: 0 <= i < n ==> !IsTerminator(s[i])) && (n < |s| ==> IsTerminator(s[n]))
  {
    if s != [] && !IsTerminator(s[0]) {
      SpanNonTerminatorsSpec(s[1..]);
      var n := SpanNonTerminators(s);
      forall i | 0 < i < n ensures !IsTerminator(s[i]) { assert s[i] == s[1..][i - 1]; }
      if n < |s| { assert s[n] == s[1..][n - 1]; }
    }
  }

  /** The length of the longest prefix of `s` made of sentence terminators. */
  function SpanTerminators(s: string): (n: nat)
    ensures n <= |s|
  {
    if s == [] || !IsTerminator(s[0]) then 0 else 1 + SpanTerminators(s[1..])
  }

  /** The span is the longest prefix of terminators. */
  lemma {:induction false} SpanTerminatorsSpec(s: string)
    ensures var n := SpanTerminators(s);
      (forall i :: 0 <= i < n ==> IsTerminator(s[i])) && (n < |s| ==> !IsTerminator(s[n]))
  {
    if s != [] && IsTerminator(s[0]) {
      SpanTerminatorsSpec(s[1..]);
      var n := SpanTerminators(s);
      forall i | 0 < i < n ensures IsTerminator(s[i]) { assert s[i] == s[1..][i - 1]; }
      if n < |s| { assert s[n] == s[1..][n - 1]; }
    }
  }

  /** `m` splits at `k` into a non-empty `[^.!?]+` part and a non-empty `[.!?]+` part. */
  ghost predicate SplitsAt(m: string, k: int) {
    0 < k < |m|
    && (forall i :: 0 <= i < k ==> !IsTerminator(m[i]))
    && (forall i :: k <= i < |m| ==> IsTerminator(m[i]))
  }

  /** `m` matches `[^.!?]+[.!?]+` as a whole. */
  ghost predicate SentenceShaped(m: string) {
    exists k :: SplitsAt(m, k)
  }

  /**
   * `text.match(/[^.!?]+[.!?]+/g)`, an empty sequence standing for `null`:
   * the matches in left-to-right order. A run of terminators that no text
   * precedes, and a last stretch that no terminator closes, match nothing.
   */
  function SentenceMatches(s: string): seq<string>
    decreases |s|
  {
    if s == [] then []
    else if IsTerminator(s[0]) then SentenceMatches(s[1..])
    else
      var n := SpanNonTerminators(s);
      if n == |s| then []
      else
        var end := n + SpanTerminators(s[n..]);
        [s[..end]] + SentenceMatches(s[end..])
  }

  /** The first match, when there is one, splits where its terminators begin. */
  lemma FirstSentenceShaped(s: string)
    requires s != [] && !IsTerminator(s[0]) && SpanNonTerminators(s) < |s|
    ensures var n := SpanNonTerminators(s);
      SplitsAt(s[..n + SpanTerminators(s[n..])], n)
  {
    var n := SpanNonTerminators(s);
    var end := n + SpanTerminators(s[n..]);
    SpanNonTerminatorsSpec(s);
    SpanTerminatorsSpec(s[n..]);
    var m := s[..end];
    var t := s[n..];
    assert IsTerminator(t[0]);
    assert 0 < n < end <= |s| && |m| == end;
    forall i | 0 <= i < n ensures !IsTerminator(m[i]) { assert m[i] == s[i]; }
    forall i | n <= i < |m| ensures IsTerminator(m[i]) { assert m[i] == s[i] == t[i - n]; }
    assert SplitsAt(m, n);
  }

  /** Every match is a run of non-terminators followed by a run of terminators. */
  lemma {:induction false} SentenceMatchesShaped(s: string)
    ensures forall j :: 0 <= j < |SentenceMatches(s)| ==> SentenceShaped(SentenceMatches(s)[j])
    decreases |s|
  {
    if s != [] {
      if IsTerminator(s[0]) {
        SentenceMatchesShaped(s[1..]);
      } else {
        var n := SpanNonTerminators(s);
        if n < |s| {
          var end := n + SpanTerminators(s[n..]);
          FirstSentenceShaped(s);
          assert SplitsAt(s[..end], n);
          var rest := SentenceMatches(s[end..]);
          SentenceMatchesShaped(s[end..]);
          var ms := SentenceMatches(s);
          assert ms == [s[..end]] + rest;
          forall j | 0 <= j < |ms| ensures SentenceShaped(ms[j]) {
            if j == 0 { assert SplitsAt(ms[j], n); } else { assert ms[j] == rest[j - 1]; }
          }
        }
      }
    }
  }

  /** The pieces, one after the other. */
  function Concat(ps: seq<string>): string {
    if ps == [] then [] else ps[0] + Concat(ps[1..])
  }

  /** A sentence followed by text that does not start with a terminator is matched whole, first. */
  lemma FirstMatchOf(p: string, k: int, rest: string)
    requires SplitsAt(p, k) && (rest == [] || !IsTerminator(rest[0]))
    ensures SentenceMatches(p + rest) == [p] + SentenceMatches(rest)
  {
    var s := p + rest;
    assert !IsTerminator(s[0]);
    var n := SpanNonTerminators(s);
    SpanNonTerminatorsSpec(s);
    assert forall i :: 0 <= i < |p| ==> s[i] == p[i];
    assert s[k] == p[k];
    assert n == k by {
      assert n <= k;
      assert s[n] == p[n];
    }
    var t := SpanTerminators(s[n..]);
    SpanTerminatorsSpec(s[n..]);
    assert forall i :: 0 <= i < |p| - n ==> s[n..][i] == p[n + i];
    assert |p| - n < |s[n..]| ==> s[n..][|p| - n] == rest[0];
    assert n + t == |p|;
    assert s[..|p|] == p;
    assert s[|p|..] == rest;
  }

  /** Splitting text that is a run of sentences gives back exactly those sentences. */
  lemma {:induction false} SentenceMatchesOfConcat(ps: seq<string>)
    requires forall j :: 0 <= j < |ps| ==> SentenceShaped(ps[j])
    ensures SentenceMatches(Concat(ps)) == ps
  {
    if ps != [] {
      var rest := Concat(ps[1..]);
      assert SentenceShaped(ps[0]);
      var k :| SplitsAt(ps[0], k);
      assert rest == [] || !IsTerminator(rest[0]) by {
        if ps[1..] != [] {
          assert SentenceShaped(ps[1..][0]);
          var k1 :| SplitsAt(ps[1..][0], k1);
          assert rest[0] == ps[1..][0][0];
        }
      }
      FirstMatchOf(ps[0], k, rest);
      SentenceMatchesOfConcat(ps[1..]);
    }
  }

  /** Text without any terminator has no match. */
  lemma NoTerminatorNoMatch(s: string)
    requires forall i :: 0 <= i < |s| ==> !IsTerminator(s[i])
    ensures SentenceMatches(s) == []
  {
    if s != [] {
      assert SpanNonTerminators(s) == |s|;
    }
  }

  /** No terminator follows a non-terminator: the text holds no `[^.!?]+[.!?]+`. */
  ghost predicate NoSentenceIn(s: string) {
    forall i, j :: 0 <= i < j < |s| && !IsTerminator(s[i]) ==> !IsTerminator(s[j])
  }

  /** Dropping a leading terminator neither adds nor removes a sentence. */
  lemma NoSentenceAfterTerminator(s: string)
    requires s != [] && IsTerminator(s[0])
    ensures NoSentenceIn(s) <==> NoSentenceIn(s[1..])
  {
    if NoSentenceIn(s) {
      forall i, j | 0 <= i < j < |s| - 1 && !IsTerminator(s[1..][i]) ensures !IsTerminator(s[1..][j]) {
        assert s[1..][i] == s[i + 1] && s[1..][j] == s[j + 1];
      }
    }
    if NoSentenceIn(s[1..]) {
      forall i, j | 0 <= i < j < |s| && !IsTerminator(s[i]) ensures !IsTerminator(s[j]) {
        assert s[i] == s[1..][i - 1] && s[j] == s[1..][j - 1];
      }
    }
  }

  /** `match` returns `null` exactly when no terminator follows a non-terminator. */
  lemma {:induction false} NoMatchIff(s: string)
    ensures SentenceMatches(s) == [] <==> NoSentenceIn(s)
    decreases |s|
  {
    if s != [] {
      if IsTerminator(s[0]) {
        NoMatchIff(s[1..]);
        NoSentenceAfterTerminator(s);
      } else {
        SpanNonTerminatorsSpec(s);
        var n := SpanNonTerminators(s);
        if n < |s| {
          assert 0 < n && IsTerminator(s[n]) && !IsTerminator(s[0]);
        }
      }
    }
  }

  /**
   * The segments `playNextInQueue` speaks for one queued text: the text
   * itself when it has at most 300 characters; otherwise each match,
   * trimmed, or the whole text trimmed when nothing matches.
   */
  function SpeechSegments(text: string): (segs: seq<string>)
    ensures |segs| >= 1
    ensures |text| <= LongTextThreshold ==> segs == [text]
  {
    if |text| > LongTextThreshold then
      var ms := SentenceMatches(text);
      if ms == [] then [Trim(text)] else TrimEach(ms)
    else [text]
  }

  /** A long text made of sentences is spoken as those sentences, each trimmed, in order. */
  lemma LongTextSpokenBySentence(ps: seq<string>)
    requires forall j :: 0 <= j < |ps| ==> SentenceShaped(ps[j])
    requires |Concat(ps)| > LongTextThreshold
    ensures var segs := SpeechSegments(Concat(ps));
      |segs| == |ps| && forall j :: 0 <= j < |ps| ==> segs[j] == Trim(ps[j])
  {
    SentenceMatchesOfConcat(ps);
    var ms := SentenceMatches(Concat(ps));
    if ms != [] {
      TrimEachAt(ms);
    }
  }

  /** A long text with no match is spoken as one segment, the whole text trimmed. */
  lemma LongTextWithoutMatch(text: string)
    requires |text| > LongTextThreshold
    requires NoSentenceIn(text)
    ensures SpeechSegments(text) == [Trim(text)]
  {
    NoMatchIff(text);
  }

  /** Every segment of a long text is already trimmed. */
  lemma LongTextSegmentsTrimmed(text: string)
    requires |text| > LongTextThreshold
    ensures forall j :: 0 <= j < |SpeechSegments(text)| ==> Trim(SpeechSegments(text)[j]) == SpeechSegments(text)[j]
  {
    var ms := SentenceMatches(text);
    var segs := SpeechSegments(text);
    if ms == [] {
      assert segs == [Trim(text)];
      TrimIdempotent(text);
    } else {
      TrimEachAt(ms);
      forall j | 0 <= j < |segs| ensures Trim(segs[j]) == segs[j] {
        assert segs[j] == Trim(ms[j]);
        TrimIdempotent(ms[j]);
      }
    }
  }

  // ---------------------------------------------------------------------
  // Resume file-extension gate
  // ---------------------------------------------------------------------

  const AllowedTypes: seq<string> := [".pdf", ".doc", ".docx", ".txt"]

  /** `name.split('.').pop()`: the longest dot-free suffix of the name. */
  function AfterLastDot(name: string): (r: string)
    ensures |r| <= |name|
  {
    if name == [] then []
    else if name[|name| - 1] == '.' then []
    else AfterLastDot(name[..|name| - 1]) + [name[|name| - 1]]
  }

  /** `'.' + name.split('.').pop().toLowerCase()`. */
  function ResumeExtension(name: string): string {
    "." + ToLower(AfterLastDot(name))
  }

  /** `processUploadedFile` accepts the file. */
  predicate IsAllowedResume(name: string) {
    ResumeExtension(name) in AllowedTypes
  }

  /** The part kept is a dot-free suffix of the name, right after its last dot when it has one. */
  lemma {:induction false} AfterLastDotSpec(name: string)
    ensures var r := AfterLastDot(name);
      && r == name[|name| - |r|..] && '.' !in r
      && (|r| < |name| ==> name[|name| - |r| - 1] == '.')
  {
    if name != [] && name[|name| - 1] != '.' {
      var init := name[..|name| - 1];
      AfterLastDotSpec(init);
      var r := AfterLastDot(name);
      assert r == AfterLastDot(init) + [name[|name| - 1]];
      assert init[|init| - |AfterLastDot(init)|..] + [name[|name| - 1]] == name[|name| - |r|..];
    }
  }

  /** The text after a final dot is the whole of what is kept. */
  lemma {:induction false} AfterFinalDot(stem: string, ext: string)
    requires '.' !in ext
    ensures AfterLastDot(stem + "." + ext) == ext
    decreases |ext|
  {
    var name := stem + "." + ext;
    if ext != [] {
      var init := ext[..|ext| - 1];
      assert name[..|name| - 1] == stem + "." + init;
      assert ext[|ext| - 1] in ext;
      assert '.' !in init by {
        forall i | 0 <= i < |init| ensures init[i] != '.' { assert init[i] == ext[i]; }
      }
      AfterFinalDot(stem, init);
      assert ext == init + [ext[|ext| - 1]];
    }
  }

  /** Whatever comes before the final dot, the extension is the lowercased text after it. */
  lemma ExtensionAfterFinalDot(stem: string, ext: string)
    requires '.' !in ext
    ensures ResumeExtension(stem + "." + ext) == "." + ToLower(ext)
  {
    AfterFinalDot(stem, ext);
  }

  /** The extension is compared without regard to case. */
  lemma UpperCaseExtensionAccepted()
    ensures IsAllowedResume("CV.PDF")
  {
    ExtensionAfterFinalDot("CV", "PDF");
    assert "CV" + "." + "PDF" == "CV.PDF";
    assert ToLower("PDF") == "pdf";
    assert ResumeExtension("CV.PDF") == AllowedTypes[0];
  }

  /** Only the text after the final dot counts. */
  lemma DoubleExtensionRejected()
    ensures !IsAllowedResume("resume.pdf.exe")
  {
    ExtensionAfterFinalDot("resume.pdf", "exe");
    assert "resume.pdf" + "." + "exe" == "resume.pdf.exe";
    assert ToLower("exe") == "exe";
    assert ResumeExtension("resume.pdf.exe") == ".exe";
  }

  /** A name without any dot is its own "extension": a file named just "pdf" is accepted. */
  lemma UndottedNameAccepted()
    ensures IsAllowedResume("pdf")
  {
    assert AfterLastDot("pdf") == "pdf";
    assert ToLower("pdf") == "pdf";
    assert ResumeExtension("pdf") == AllowedTypes[0];
  }

  // ---------------------------------------------------------------------
  // Clock format
  // ---------------------------------------------------------------------

  /** `formatTime`: minutes and seconds, each padded to two digits, joined by a colon. */
  function FormatTime(seconds: nat): string {
    PadStart(Decimal(seconds / 60), 2, '0') + ":" + PadStart(Decimal(seconds % 60), 2, '0')
  }

  /** Two-digit padding keeps the value and yields only digits. */
  lemma PaddedValue(n: nat)
    ensures var p := PadStart(Decimal(n), 2, '0');
      (forall i :: 0 <= i < |p| ==> IsDigit(p[i])) && DigitsValue(p) == n
  {
    DecimalRoundTrip(n);
    DecimalDigits(n);
    var d := Decimal(n);
    PadStartSpec(d, 2, '0');
    if |d| < 2 {
      assert PadStart(d, 2, '0') == "0" + d;
      LeadingZero(d);
    }
  }

  /**
   * The formatted clock is the padded minutes, a colon, and exactly two
   * second digits; minutes beyond two digits carry no leading zero.
   */
  lemma FormatTimeShape(seconds: nat)
    ensures var m := PadStart(Decimal(seconds / 60), 2, '0');
      var s := PadStart(Decimal(seconds % 60), 2, '0');
      |m| >= 2 && |s| == 2 && FormatTime(seconds) == m + ":" + s
      && (|m| > 2 ==> m[0] != '0')
  {
    DecimalDigits(seconds % 60);
    DecimalDigits(seconds / 60);
    PadStartSpec(Decimal(seconds / 60), 2, '0');
  }

  /**
   * `r` reads back as the clock of `total` seconds: digit fields around a
   * colon three characters from the end, a seconds field below 60, and
   * minutes * 60 + seconds equal to `total`.
   */
  ghost predicate ReadsAsClock(r: string, total: nat) {
    && |r| >= 5 && r[|r| - 3] == ':'
    && (forall i :: 0 <= i < |r| && i != |r| - 3 ==> IsDigit(r[i]))
    && DigitsValue(r[|r| - 2..]) < 60
    && DigitsValue(r[..|r| - 3]) * 60 + DigitsValue(r[|r| - 2..]) == total
  }

  /** A clock `m + ":" + s` of digit fields worth `mins` and `secs` reads back as `mins * 60 + secs`. */
  lemma ClockReadBack(r: string, m: string, s: string, mins: nat, secs: nat, total: nat)
    requires r == m + ":" + s && |m| >= 2 && |s| == 2
    requires forall i :: 0 <= i < |m| ==> IsDigit(m[i])
    requires forall i :: 0 <= i < |s| ==> IsDigit(s[i])
    requires DigitsValue(m) == mins && DigitsValue(s) == secs && secs < 60
    requires mins * 60 + secs == total
    ensures ReadsAsClock(r, total)
  {
    assert r[..|r| - 3] == m;
    assert r[|r| - 2..] == s;
    forall i | 0 <= i < |r| && i != |r| - 3 ensures IsDigit(r[i]) {
      if i < |m| { assert r[i] == m[i]; } else { assert r[i] == s[i - |m| - 1]; }
    }
  }

  /** `formatTime` reads back as the number of seconds it was given. */
  lemma FormatTimeRoundTrip(seconds: nat)
    ensures ReadsAsClock(FormatTime(seconds), seconds)
  {
    var mins, secs := seconds / 60, seconds % 60;
    MinutesAndSeconds(seconds);
    var m := PadStart(Decimal(mins), 2, '0');
    var s := PadStart(Decimal(secs), 2, '0');
    FormatTimeShape(seconds);
    PaddedValue(mins);
    PaddedValue(secs);
    ClockReadBack(FormatTime(seconds), m, s, mins, secs, seconds);
  }

  /** Whole minutes and the remaining seconds recompose the count. */
  lemma MinutesAndSeconds(seconds: nat)
    ensures (seconds / 60) * 60 + seconds % 60 == seconds && seconds % 60 < 60
  {
  }

  // ---------------------------------------------------------------------
  // Bot messages
  // ---------------------------------------------------------------------

  /** The reply `prepareInterview` writes. */
  function PrepareMessage(role: Option<string>, company: Option<string>, hasResume: bool): string {
    PrepareLead
    + (if role.Some? && company.Some? then "a " + role.value + PositionAt + company.value + "."
       else if role.Some? then "a " + role.value + PositionEnd
       else if company.Some? then InterviewAt + company.value + "."
       else UpcomingInterview)
    + ReadyLine
    + (if hasResume then ResumeLine else "")
    + StartPrompt
  }

  // The fixed pieces of the `prepareInterview` reply.
  const PrepareLead := "Excellent! I understand you want to practice for "
  const PositionAt := " position at "
  const PositionEnd := " position."
  const InterviewAt := "an interview at "
  const UpcomingInterview := "your upcoming interview."
  const ReadyLine := "\n\nI'm ready to conduct a mock interview with you. "
  const ResumeLine := "I'll reference your uploaded resume to ask relevant questions. "
  const StartPrompt := "Click \"Start Interview\" when you're ready to begin!"

  /** The reply `handleGeneralResponse` writes, by whether the message asks for help. */
  function GeneralReply(p: Phrases, message: string): string {
    if Contains(ToLower(message), "help") then p.helpReply else p.inviteReply
  }

  /** The closing message of `stopInterview`, for the elapsed whole seconds. */
  function StopMessage(elapsed: nat): string {
    StopLead + Decimal(elapsed / 60) + "m " + Decimal(elapsed % 60) + StopTail
  }

  // The fixed pieces of the `stopInterview` message.
  const StopLead := "Interview completed! Duration: "
  const StopTail := "s. Click \"Generate Report\" to see your performance analysis."

  /** The line break and indentation of the welcome message's template literal. */
  const WelcomeIndent := "\n                    "

  /** The greeting `addWelcomeMessage` posts, with the example request inside a `<code>` element. */
  const WelcomeMessage :=
    WelcomeIndent + "<strong>Welcome to AI Interview Bot!</strong><br><br>"
    + WelcomeIndent + "I'm here to help you practice for your upcoming interview. Here's how we can get started:<br><br>"
    + WelcomeIndent + "1. <strong>Upload your resume</strong> (optional) \U{2013} This helps me ask more relevant questions<br>"
    + WelcomeIndent + "2. <strong>Set your preferred time limit</strong> using the timer options above<br>"
    + WelcomeIndent + "3. <strong>Tell me about the position</strong> you're interviewing for<br><br>"
    + WelcomeIndent + "<em>For example:</em><br>"
    + WelcomeIndent + "<code>\"" + WelcomeExample + "\"</code><br><br>"
    + WelcomeIndent + "Ready when you are!"
    + "\n                "

  const AnswerFailedMessage := "Hmm, I ran into an issue coming up with the next question."
  const FirstQuestionFailedMessage := "Oops! Couldn't fetch the first question. Try again."
  const FollowUpPrompt := "Let me ask you a follow-up:"
  const FollowUpFailedMessage := "Couldn't generate another question right now."
  const TimeUpMessage := "Time's up! The interview has ended. You can now generate your performance report."
  const ResumeUploadedMessage := "Your resume has been uploaded and analyzed successfully!"
  const ResumeUploadFailedMessage := "Sorry, there was an error uploading your resume."
  const HelpReply :=
    "I can help you practice for job interviews. Just tell me about the position you're applying for, like: 'I want to practice for my interview at Amazon for the role Software Developer'"
  const InviteReply :=
    "I'm here to help you practice interviews! To get started, please tell me about the position you're interviewing for."

  /** The fixed texts the bot posts, one per occasion. */
  datatype Phrases = Phrases(
    welcome: string,
    answerFailed: string,
    firstQuestionFailed: string,
    followUp: string,
    followUpFailed: string,
    timeUp: string,
    resumeUploaded: string,
    resumeUploadFailed: string,
    helpReply: string,
    inviteReply: string,
    defaultStart: string)

  /** The texts interview.js writes for each occasion. */
  const Phrasebook := Phrases(
    WelcomeMessage, AnswerFailedMessage, FirstQuestionFailedMessage, FollowUpPrompt,
    FollowUpFailedMessage, TimeUpMessage, ResumeUploadedMessage, ResumeUploadFailedMessage,
    HelpReply, InviteReply, DefaultStartMessage)

}
