/**
 * The report dashboard of dashboard.js: where `loadReport` finds the saved
 * report, the error path when there is none or it does not parse, the
 * grammar error count, the panels shown only for non-empty lists, the
 * emotion icons, and `startNewInterview`, which forgets the saved report.
 */
module Dashboard {
  import opened Wrappers
  import opened Text

  // ---------------------------------------------------------------------
  // Storage
  // ---------------------------------------------------------------------

  /** `localStorage` and `sessionStorage`: `getItem` is `null` for a missing key. */
  class BrowserStorage {
    var local: map<string, string>
    var session: map<string, string>

    constructor (local0: map<string, string>, session0: map<string, string>)
      ensures local == local0 && session == session0
    {
      local, session := local0, session0;
    }

    /**
     * `startNewInterview`: removes `latestReport` from local storage and
     * `interviewReport` from session storage, and nothing else.
     */
    method StartNewInterview()
      modifies this
      ensures local == old(local) - {LatestKey} && session == old(session) - {ReportKey}
    {
      local := local - {LatestKey};
      session := session - {ReportKey};
    }
  }

  const LatestKey := "latestReport"
  const ReportKey := "interviewReport"

  /** `getItem`. */
  function Get(store: map<string, string>, key: string): Option<string> {
    if key in store then Some(store[key]) else None
  }

  /** A stored value is truthy unless it is missing or empty. */
  predicate Truthy(v: Option<string>) {
    v.Some? && v.value != []
  }

  /**
   * `getItem(latestReport) || sessionStorage.getItem(interviewReport) ||
   * getItem(interviewReport)`, followed by `if (reportData)`: the text to
   * parse, or `None` for the error path.
   */
  function ReportSource(local: map<string, string>, session: map<string, string>): Option<string> {
    var a := Get(local, LatestKey);
    var b := Get(session, ReportKey);
    var c := Get(local, ReportKey);
    if Truthy(a) then a else if Truthy(b) then b else if Truthy(c) then c else None
  }

  /** The places searched, in order. */
  function Candidates(local: map<string, string>, session: map<string, string>): seq<Option<string>> {
    [Get(local, LatestKey), Get(session, ReportKey), Get(local, ReportKey)]
  }

  /** The first truthy value of a list, if any. */
  function FirstTruthy(vs: seq<Option<string>>): Option<string> {
    if vs == [] then None else if Truthy(vs[0]) then vs[0] else FirstTruthy(vs[1..])
  }

  /** `FirstTruthy` finds the earliest truthy value, and nothing only when there is none. */
  lemma {:induction false} FirstTruthySpec(vs: seq<Option<string>>)
    ensures FirstTruthy(vs).Some? ==>
      exists i :: 0 <= i < |vs| && vs[i] == FirstTruthy(vs) && Truthy(vs[i]) && forall j :: 0 <= j < i ==> !Truthy(vs[j])
    ensures FirstTruthy(vs).None? <==> forall i :: 0 <= i < |vs| ==> !Truthy(vs[i])
  {
    if vs != [] && !Truthy(vs[0]) {
      FirstTruthySpec(vs[1..]);
      if FirstTruthy(vs[1..]).Some? {
        var i :| 0 <= i < |vs[1..]| && vs[1..][i] == FirstTruthy(vs[1..]) && Truthy(vs[1..][i])
          && forall j :: 0 <= j < i ==> !Truthy(vs[1..][j]);
        assert vs[i + 1] == vs[1..][i];
        forall j | 0 < j < i + 1 ensures !Truthy(vs[j]) { assert vs[j] == vs[1..][j - 1]; }
      } else {
        forall i | 0 < i < |vs| ensures !Truthy(vs[i]) { assert vs[i] == vs[1..][i - 1]; }
      }
    } else if vs != [] {
      assert vs[0] == FirstTruthy(vs);
    }
  }

  /**
   * The report comes from the first truthy value among local
   * `latestReport`, session `interviewReport` and local `interviewReport`;
   * the error path is taken only when all three are missing or empty.
   */
  lemma ReportPrecedence(local: map<string, string>, session: map<string, string>)
    ensures ReportSource(local, session) == FirstTruthy(Candidates(local, session))
    ensures ReportSource(local, session).None? <==>
      forall i :: 0 <= i < 3 ==> !Truthy(Candidates(local, session)[i])
    ensures ReportSource(local, session).Some? ==> ReportSource(local, session).value != []
  {
    var cs := Candidates(local, session);
    assert cs[1..][1..][1..] == [];
    assert FirstTruthy(cs[1..][1..]) == if Truthy(cs[2]) then cs[2] else None;
    assert FirstTruthy(cs[1..]) == if Truthy(cs[1]) then cs[1] else FirstTruthy(cs[1..][1..]);
    FirstTruthySpec(cs);
  }

  /**
   * After `startNewInterview` only a local `interviewReport` can still be
   * loaded: the two keys the interview page writes are gone.
   */
  lemma StartingOverForgets(local: map<string, string>, session: map<string, string>)
    ensures ReportSource(local - {LatestKey}, session - {ReportKey}) ==
      if Truthy(Get(local, ReportKey)) then Get(local, ReportKey) else None
  {
    assert LatestKey != ReportKey;
  }

  // ---------------------------------------------------------------------
  // The report and what is drawn from it
  // ---------------------------------------------------------------------

  /** An entry of `flagged`. */
  datatype FlaggedItem = FlaggedItem(question: string, feedback: string, score: int)

  /** An entry of `emotions`. */
  datatype EmotionShare = EmotionShare(emotion: string, percentage: int)

  /** `grammar`: each list may be absent. */
  datatype Grammar = Grammar(totalErrors: Option<int>, mistakes: Option<seq<string>>, corrections: Option<seq<string>>)

  /** The parts of the parsed report this model follows. */
  datatype Report = Report(grammar: Grammar, emotions: seq<EmotionShare>, flagged: Option<seq<FlaggedItem>>)

  /** `grammar.total_errors || grammar.mistakes?.length || 0`: zero and absence are falsy. */
  function TotalErrors(g: Grammar): int {
    if g.totalErrors.Some? && g.totalErrors.value != 0 then g.totalErrors.value
    else if g.mistakes.Some? && |g.mistakes.value| != 0 then |g.mistakes.value|
    else 0
  }

  /** The count shown is the reported total when it is not zero, else the number of listed mistakes, else zero. */
  lemma TotalErrorsFallback(g: Grammar)
    ensures g.totalErrors.Some? && g.totalErrors.value != 0 ==> TotalErrors(g) == g.totalErrors.value
    ensures (g.totalErrors.None? || g.totalErrors.value == 0) && g.mistakes.Some? ==> TotalErrors(g) == |g.mistakes.value|
    ensures TotalErrors(g) == 0 <==>
      (g.totalErrors.None? || g.totalErrors.value == 0) && (g.mistakes.None? || g.mistakes.value == [])
  {
  }

  /** A panel that is hidden, or shown with one entry per list element. */
  datatype Panel<T> = Hidden | Shown(entries: seq<T>)

  /** `if (list && list.length > 0)`: the panel is filled from the list, in order. */
  function PanelFor<T>(list: Option<seq<T>>): Panel<T> {
    if list.Some? && |list.value| > 0 then Shown(list.value) else Hidden
  }

  /** A panel is shown exactly when its list is present and non-empty, and then lists every element in order. */
  lemma PanelRule<T>(list: Option<seq<T>>)
    ensures PanelFor(list).Shown? <==> list.Some? && list.value != []
    ensures PanelFor(list).Shown? ==>
      |PanelFor(list).entries| == |list.value| &&
      forall i :: 0 <= i < |list.value| ==> PanelFor(list).entries[i] == list.value[i]
  {
  }

  /** The `icons` table of `getEmotionIcon`. */
  const Icons: map<string, string> := map[
    "confident" := "smile", "nervous" := "frown", "excited" := "grin-hearts",
    "uncertain" := "meh", "calm" := "smile-beam", "stressed" := "tired"]

  /** The icon a known emotion gets. */
  const IconNames: set<string> := {"smile", "frown", "grin-hearts", "meh", "smile-beam", "tired"}

  /** `getEmotionIcon`: the table entry for the lowercased name, else `meh`. */
  function EmotionIcon(emotion: string): string {
    var key := ToLower(emotion);
    if key in Icons then Icons[key] else "meh"
  }

  /**
   * The six emotions are looked up without regard to case, anything else
   * is shown as `meh`, and every icon is one of the table's.
   */
  lemma EmotionIconRule(emotion: string)
    ensures EmotionIcon(emotion) == EmotionIcon(ToLower(emotion))
    ensures ToLower(emotion) in Icons ==> EmotionIcon(emotion) == Icons[ToLower(emotion)]
    ensures ToLower(emotion) !in Icons ==> EmotionIcon(emotion) == "meh"
    ensures EmotionIcon(emotion) in IconNames
  {
    ToLowerIdempotent(emotion);
  }

  /** An emotion name in capitals gets its icon. */
  lemma CapitalisedEmotion()
    ensures EmotionIcon("Calm") == "smile-beam"
  {
    assert ToLower("Calm") == "calm";
  }

  /**
   * `icons[key]` on a plain object also finds the members every object
   * inherits. The key is lowercased first, so only the inherited names
   * written wholly in lower case can be hit: `constructor` and
   * `__proto__`. Either yields a truthy object instead of the `meh` default.
   */
  const InheritedMembers: set<string> := {"constructor", "__proto__"}

  /** The value `icons[key] || 'meh'` takes: a table entry, an inherited member, or the default. */
  datatype IconLookup = TableIcon(icon: string) | InheritedMember(name: string)

  /** `getEmotionIcon` as written, with the inherited members of a plain object. */
  function EmotionIconAsWritten(emotion: string): IconLookup {
    var key := ToLower(emotion);
    if key in Icons then TableIcon(Icons[key])
    else if key in InheritedMembers then InheritedMember(key)
    else TableIcon("meh")
  }

  /**
   * As written, an emotion named "Constructor" gets an inherited function
   * rather than an icon; the table lookup `EmotionIcon` gives `meh`.
   */
  lemma ConstructorIsNotAnIcon()
    ensures EmotionIconAsWritten("Constructor") == InheritedMember("constructor")
    ensures EmotionIcon("Constructor") == "meh"
  {
    assert ToLower("Constructor") == "constructor";
  }

  /** Apart from the inherited names, the written lookup and the table lookup agree. */
  lemma AsWrittenAgreesElsewhere(emotion: string)
    requires ToLower(emotion) !in InheritedMembers
    ensures EmotionIconAsWritten(emotion) == TableIcon(EmotionIcon(emotion))
  {
  }

  /** What the dashboard shows of a report. */
  datatype Rendered = Rendered(
    totalErrors: int,
    mistakes: Panel<string>,
    corrections: Panel<string>,
    flagged: Panel<FlaggedItem>,
    emotionIcons: seq<string>)

  /**
   * `renderDashboard`'s grammar, emotion and flagged parts, with the icons
   * of the corrected lookup `EmotionIcon`; `RenderedIconsAsWritten` says
   * where the page as written differs.
   */
  function Render(r: Report): Rendered {
    Rendered(
      TotalErrors(r.grammar),
      PanelFor(r.grammar.mistakes),
      PanelFor(r.grammar.corrections),
      PanelFor(r.flagged),
      seq(|r.emotions|, i requires 0 <= i < |r.emotions| => EmotionIcon(r.emotions[i].emotion)))
  }

  /** Each emotion of the report gets the icon of its own name, in order. */
  lemma RenderedIcons(r: Report)
    ensures |Render(r).emotionIcons| == |r.emotions|
    ensures forall i :: 0 <= i < |r.emotions| ==> Render(r).emotionIcons[i] in IconNames
  {
    forall i | 0 <= i < |r.emotions| ensures Render(r).emotionIcons[i] in IconNames {
      EmotionIconRule(r.emotions[i].emotion);
    }
  }

  /** The icons the page as written shows for the report's emotions, in order. */
  function EmotionIconsAsWritten(r: Report): seq<IconLookup> {
    seq(|r.emotions|, i requires 0 <= i < |r.emotions| => EmotionIconAsWritten(r.emotions[i].emotion))
  }

  /**
   * The rendered icons differ from the page as written only at an emotion
   * whose lowercase name is an inherited member: there the page shows that
   * member, and everywhere else the same table icon.
   */
  lemma RenderedIconsAsWritten(r: Report)
    ensures |EmotionIconsAsWritten(r)| == |Render(r).emotionIcons|
    ensures forall i :: 0 <= i < |r.emotions| ==>
      if ToLower(r.emotions[i].emotion) in InheritedMembers
      then EmotionIconsAsWritten(r)[i] == InheritedMember(ToLower(r.emotions[i].emotion))
      else EmotionIconsAsWritten(r)[i] == TableIcon(Render(r).emotionIcons[i])
  {
    forall i | 0 <= i < |r.emotions| && ToLower(r.emotions[i].emotion) !in InheritedMembers
      ensures EmotionIconsAsWritten(r)[i] == TableIcon(Render(r).emotionIcons[i])
    {
      AsWrittenAgreesElsewhere(r.emotions[i].emotion);
    }
  }

  /** The page: the loading spinner, the dashboard, or the error message. */
  datatype Screen = Loading | DashboardShown(view: Rendered) | ErrorShown

  class DashboardManager {
    var reportData: Option<Report>
    var screen: Screen

    /**
     * `new DashboardManager()`: no report yet, then `loadReport`. Parsing
     * is the parameter `parse`, `None` where `JSON.parse` throws.
     */
    constructor (storage: BrowserStorage, parse: string -> Option<Report>)
      ensures reportData == LoadedReport(storage.local, storage.session, parse)
      ensures screen == ScreenFor(storage.local, storage.session, parse)
    {
      reportData, screen := None, Loading;
      new;
      LoadReport(storage, parse);
    }

    /**
     * `loadReport`: the first truthy stored text is parsed and rendered;
     * no text, or text that does not parse, shows the error message and
     * leaves `reportData` as it was.
     */
    method LoadReport(storage: BrowserStorage, parse: string -> Option<Report>)
      modifies this
      ensures match ReportSource(storage.local, storage.session)
        case None => screen == ErrorShown && reportData == old(reportData)
        case Some(text) =>
          match parse(text)
          case None => screen == ErrorShown && reportData == old(reportData)
          case Some(r) => reportData == Some(r) && screen == DashboardShown(Render(r))
    {
      var text := ReportSource(storage.local, storage.session);
      if text.Some? {
        var parsed := parse(text.value);
        if parsed.Some? {
          reportData := parsed;
          screen := DashboardShown(Render(parsed.value));
        } else {
          screen := ErrorShown;
        }
      } else {
        screen := ErrorShown;
      }
    }
  }

  /** The report a fresh dashboard holds. */
  function LoadedReport(local: map<string, string>, session: map<string, string>, parse: string -> Option<Report>): Option<Report> {
    match ReportSource(local, session)
    case None => None
    case Some(text) => parse(text)
  }

  /** The screen a fresh dashboard settles on. */
  function ScreenFor(local: map<string, string>, session: map<string, string>, parse: string -> Option<Report>): Screen {
    match LoadedReport(local, session, parse)
    case None => ErrorShown
    case Some(r) => DashboardShown(Render(r))
  }

  /**
   * Once `startNewInterview` has run, a fresh dashboard shows the error
   * message unless a local `interviewReport` is left over.
   */
  lemma NewInterviewShowsError(local: map<string, string>, session: map<string, string>, parse: string -> Option<Report>)
    requires !Truthy(Get(local, ReportKey))
    ensures ScreenFor(local - {LatestKey}, session - {ReportKey}, parse) == ErrorShown
  {
    StartingOverForgets(local, session);
  }
}
