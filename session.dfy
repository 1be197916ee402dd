/**
 * The per-session interaction state of the app (`st.session_state`): the analyses
 * keyed by image filename, the follow-up chat transcript, and the image last pressed
 * for analysis. Each user action of the "Upload & Analyze", "Ask AI" and "Previous
 * Interactions" pages is one method of SessionState.
 *
 * The hosted model is an oracle: each action that calls it receives the reply as an
 * argument, `None` when the call raised. As in the source (`response and
 * response.text`), only a non-empty reply counts as success.
 */
module SessionStore {
  import opened Wrappers
  import opened Dedup

  /** One follow-up exchange, appended to the transcript and never edited. */
  datatype ChatTurn = ChatTurn(question: string, answer: string)

  /** The three session fields as one value. */
  datatype Session = Session(analyses: map<string, string>, chatHistory: seq<ChatTurn>, selectedImage: Option<Upload>)

  /** The state of a session once every field has been set to its default. */
  const Fresh: Session := Session(map[], [], None)

  /** The text shown, and sent to the model, for an image that has no stored analysis. */
  const NoAnalysis: string := "No analysis available."

  const PromptHead: string := "Based on the previous analysis: "
  const PromptJoin: string := ", answer this question: "

  /** A model reply that the source treats as a success. */
  predicate Replied(reply: Option<string>)
  {
    reply.Some? && reply.value != ""
  }

  /** The lookup `analyses.get(name, "No analysis available.")`. */
  function AnalysisFor(analyses: map<string, string>, name: string): string
  {
    if name in analyses then analyses[name] else NoAnalysis
  }

  /** The follow-up prompt: the prior analysis first, then the question. */
  function FollowUpPrompt(analysis: string, question: string): (p: string)
    ensures |p| == |PromptHead| + |analysis| + |PromptJoin| + |question|
    ensures p[..|PromptHead|] == PromptHead
    ensures p[|PromptHead|..|PromptHead| + |analysis|] == analysis
    ensures p[|PromptHead| + |analysis|..|p| - |question|] == PromptJoin
    ensures p[|p| - |question|..] == question
  {
    PromptHead + analysis + PromptJoin + question
  }

  /**
   * The prompt an "Ask AI" press sends to the model, or `None` when no call is made:
   * no image has been selected, or the question box is empty.
   */
  function FollowUpRequest(s: Session, question: string): (r: Option<string>)
    ensures r.None? <==> s.selectedImage.None? || question == ""
    ensures r.Some? ==> r.value == FollowUpPrompt(AnalysisFor(s.analyses, s.selectedImage.value.name), question)
  {
    if s.selectedImage.None? then None
    else if question == "" then None
    else Some(FollowUpPrompt(AnalysisFor(s.analyses, s.selectedImage.value.name), question))
  }

  /** A user action that changes the session, with the model's reply where there is a call. */
  datatype Action =
    | AnalyzeImage(file: Upload, reply: Option<string>)
    | ClearAnalyses
    | AskAI(question: string, reply: Option<string>)
    | ClearChat

  /**
   * The effect of one action on the session. This is the same transition that the
   * handler methods of SessionState perform in place, written as a pure function so
   * that the lemmas about Run can reason over whole sequences of actions. Each handler
   * states that its new state equals Apply of its old state.
   */
  function Apply(s: Session, a: Action): Session
  {
    match a
    case AnalyzeImage(file, reply) =>
      if Replied(reply) then s.(selectedImage := Some(file), analyses := s.analyses[file.name := reply.value])
      else s.(selectedImage := Some(file))
    case ClearAnalyses => s.(analyses := map[])
    case AskAI(question, reply) =>
      if FollowUpRequest(s, question).Some? && Replied(reply) then
        s.(chatHistory := s.chatHistory + [ChatTurn(question, reply.value)])
      else s
    case ClearChat => s.(chatHistory := [])
  }

  /** A session's actions applied in order, one page run per action. */
  function Run(s: Session, actions: seq<Action>): Session
    decreases |actions|
  {
    if actions == [] then s else Run(Apply(s, actions[0]), actions[1..])
  }

  /** The follow-up prompt determines the question asked about a given analysis. */
  lemma FollowUpPromptDeterminesQuestion(analysis: string, q1: string, q2: string)
    requires FollowUpPrompt(analysis, q1) == FollowUpPrompt(analysis, q2)
    ensures q1 == q2
  {
    var p := FollowUpPrompt(analysis, q1);
    assert |q1| == |q2|;
    assert q1 == p[|p| - |q1|..] == q2;
  }

  /**
   * What the lookup returns after each action: the reply just stored for the analysed
   * name, the default after clearing, and the earlier text otherwise.
   */
  lemma AnalysisLookupAfter(s: Session, a: Action, name: string)
    ensures a.AnalyzeImage? && Replied(a.reply) && name == a.file.name ==>
      AnalysisFor(Apply(s, a).analyses, name) == a.reply.value
    ensures a.ClearAnalyses? ==> AnalysisFor(Apply(s, a).analyses, name) == NoAnalysis
    ensures !a.ClearAnalyses? && !(a.AnalyzeImage? && Replied(a.reply) && name == a.file.name) ==>
      AnalysisFor(Apply(s, a).analyses, name) == AnalysisFor(s.analyses, name)
  {
  }

  /**
   * Pressing "Analyze" selects the image before the model is called, so a failed
   * call leaves an image selected that has no analysis, and a follow-up question
   * about it is then grounded in the default text.
   */
  lemma SelectedWithoutAnalysis(s: Session, file: Upload, reply: Option<string>, question: string)
    requires file.name !in s.analyses && !Replied(reply) && question != ""
    ensures Apply(s, AnalyzeImage(file, reply)).selectedImage == Some(file)
    ensures file.name !in Apply(s, AnalyzeImage(file, reply)).analyses
    ensures FollowUpRequest(Apply(s, AnalyzeImage(file, reply)), question) == Some(FollowUpPrompt(NoAnalysis, question))
  {
  }

  /** Without "Clear Chat History", the transcript only grows at its end. */
  lemma {:induction false} ChatIsAppendOnly(s: Session, actions: seq<Action>)
    requires forall i :: 0 <= i < |actions| ==> !actions[i].ClearChat?
    ensures s.chatHistory <= Run(s, actions).chatHistory
    decreases |actions|
  {
    if actions != [] {
      var t := Apply(s, actions[0]);
      assert s.chatHistory <= t.chatHistory;
      ChatIsAppendOnly(t, actions[1..]);
    }
  }

  /** Without "Clear Analysis History", an analysed filename keeps an analysis. */
  lemma {:induction false} AnalysedNamesPersist(s: Session, actions: seq<Action>)
    requires forall i :: 0 <= i < |actions| ==> !actions[i].ClearAnalyses?
    ensures s.analyses.Keys <= Run(s, actions).analyses.Keys
    decreases |actions|
  {
    if actions != [] {
      AnalysedNamesPersist(Apply(s, actions[0]), actions[1..]);
    }
  }

  /** A run of model calls that all fail leaves the analyses and the transcript exactly as they were. */
  lemma {:induction false} FailedCallsKeepRecords(s: Session, actions: seq<Action>)
    requires forall i :: 0 <= i < |actions| ==>
      (actions[i].AnalyzeImage? || actions[i].AskAI?) && !Replied(actions[i].reply)
    ensures Run(s, actions).analyses == s.analyses
    ensures Run(s, actions).chatHistory == s.chatHistory
    decreases |actions|
  {
    if actions != [] {
      FailedCallsKeepRecords(Apply(s, actions[0]), actions[1..]);
    }
  }

  /** No "Analyze" press at or after position `k`. */
  predicate NoAnalyzeFrom(actions: seq<Action>, k: nat)
  {
    forall j :: k <= j < |actions| ==> !actions[j].AnalyzeImage?
  }

  lemma NoAnalyzeFromTail(actions: seq<Action>, k: nat)
    requires actions != [] && 1 <= k && NoAnalyzeFrom(actions, k)
    ensures NoAnalyzeFrom(actions[1..], k - 1)
  {
    forall j | k - 1 <= j < |actions| - 1 ensures !actions[1..][j].AnalyzeImage? {
      assert actions[1..][j] == actions[j + 1];
    }
  }

  /** With no "Analyze" press the selected image does not change: no other action touches it. */
  lemma {:induction false} SelectionKeptWithoutAnalyze(s: Session, actions: seq<Action>)
    requires NoAnalyzeFrom(actions, 0)
    ensures Run(s, actions).selectedImage == s.selectedImage
    decreases |actions|
  {
    if actions != [] {
      NoAnalyzeFromTail(actions, 1);
      SelectionKeptWithoutAnalyze(Apply(s, actions[0]), actions[1..]);
    }
  }

  /** The selected image is the file of the last "Analyze" press, whether or not its call succeeded. */
  lemma {:induction false} SelectionIsLastAnalyzed(s: Session, actions: seq<Action>, k: nat)
    requires k < |actions| && actions[k].AnalyzeImage? && NoAnalyzeFrom(actions, k + 1)
    ensures Run(s, actions).selectedImage == Some(actions[k].file)
    decreases |actions|
  {
    NoAnalyzeFromTail(actions, k + 1);
    if k == 0 {
      SelectionKeptWithoutAnalyze(Apply(s, actions[0]), actions[1..]);
    } else {
      assert actions[1..][k - 1] == actions[k];
      SelectionIsLastAnalyzed(Apply(s, actions[0]), actions[1..], k - 1);
    }
  }

  /** Analyse a.png successfully, then ask "What stage is this?": the transcript holds exactly that one turn. */
  lemma AnalyzeThenAsk(bytes: seq<bv8>, report: string, answer: string)
    requires report != "" && answer != ""
    ensures var question := "What stage is this?";
            var first := Apply(Fresh, AnalyzeImage(Upload("a.png", bytes), Some(report)));
            && FollowUpRequest(first, question) == Some(FollowUpPrompt(report, question))
            && Run(Fresh, [AnalyzeImage(Upload("a.png", bytes), Some(report)), AskAI(question, Some(answer))]).chatHistory
               == [ChatTurn(question, answer)]
  {
    var question := "What stage is this?";
    var actions := [AnalyzeImage(Upload("a.png", bytes), Some(report)), AskAI(question, Some(answer))];
    var first := Apply(Fresh, actions[0]);
    var second := Apply(first, actions[1]);
    assert second.chatHistory == [ChatTurn(question, answer)];
    assert actions[1..][1..] == [];
    assert Run(Fresh, actions) == Run(first, actions[1..]) == Run(second, []);
  }

  /** A key of `st.session_state` that may not have been set yet. */
  datatype Slot<T> = Absent | Present(value: T)

  /** The session's entries of `st.session_state`, updated in place by the page handlers. */
  class SessionState {
    var analyses: Slot<map<string, string>>
    var chatHistory: Slot<seq<ChatTurn>>
    var selectedImage: Slot<Option<Upload>>

    /** A new browser session: none of the three keys is set. */
    constructor ()
      ensures analyses == Absent && chatHistory == Absent && selectedImage == Absent
    {
      analyses, chatHistory, selectedImage := Absent, Absent, Absent;
    }

    /** All three keys are set, as they are after initialisation on every page run. */
    predicate Ready()
      reads this
    {
      analyses.Present? && chatHistory.Present? && selectedImage.Present?
    }

    function View(): (s: Session)
      reads this
      requires Ready()
    {
      Session(analyses.value, chatHistory.value, selectedImage.value)
    }

    /**
     * The initialisation at the top of every page run: each key gets its default only
     * when it is absent, so a rerun never resets what the session holds.
     */
    method Initialize()
      modifies this
      ensures Ready()
      ensures analyses == if old(analyses).Present? then old(analyses) else Present(map[])
      ensures chatHistory == if old(chatHistory).Present? then old(chatHistory) else Present([])
      ensures selectedImage == if old(selectedImage).Present? then old(selectedImage) else Present(None)
      ensures old(Ready()) ==> View() == old(View())
      ensures old(analyses == Absent && chatHistory == Absent && selectedImage == Absent) ==> View() == Fresh
    {
      if analyses.Absent? {
        analyses := Present(map[]);
      }
      if chatHistory.Absent? {
        chatHistory := Present([]);
      }
      if selectedImage.Absent? {
        selectedImage := Present(None);
      }
    }

    /**
     * The "Analyze" button of one uploaded file: the file becomes the selected image
     * first; a successful reply is then stored under the file's name, replacing any
     * earlier analysis of that name. `stored` tells whether it was.
     */
    method Analyze(file: Upload, reply: Option<string>) returns (stored: bool)
      requires Ready()
      modifies this
      ensures Ready()
      ensures View() == Apply(old(View()), AnalyzeImage(file, reply))
      ensures stored <==> Replied(reply)
      ensures selectedImage == Present(Some(file))
      ensures stored ==> analyses.value == old(analyses.value)[file.name := reply.value]
      ensures stored ==> |analyses.value| == |old(analyses.value)| + (if file.name in old(analyses.value) then 0 else 1)
      ensures !stored ==> analyses == old(analyses)
      ensures chatHistory == old(chatHistory)
    {
      selectedImage := Present(Some(file));
      if reply.Some? && reply.value != "" {
        analyses := Present(analyses.value[file.name := reply.value]);
        stored := true;
      } else {
        stored := false;
      }
    }

    /** "Clear Analysis History": empties the analyses and nothing else. */
    method ClearAnalysisHistory()
      requires Ready()
      modifies this
      ensures Ready()
      ensures View() == Apply(old(View()), ClearAnalyses)
      ensures analyses == Present(map[])
      ensures chatHistory == old(chatHistory) && selectedImage == old(selectedImage)
    {
      analyses := Present(map[]);
    }

    /**
     * The "Ask AI" button. With no selected image the page only warns, and with an
     * empty question the press does nothing; otherwise the follow-up prompt is sent
     * (`request`) and a successful reply is appended as one turn (`answered`).
     */
    method Ask(question: string, reply: Option<string>) returns (request: Option<string>, answered: bool)
      requires Ready()
      modifies this
      ensures Ready()
      ensures View() == Apply(old(View()), AskAI(question, reply))
      ensures request == FollowUpRequest(old(View()), question)
      ensures answered <==> request.Some? && Replied(reply)
      ensures answered ==> chatHistory.value == old(chatHistory.value) + [ChatTurn(question, reply.value)]
      ensures !answered ==> chatHistory == old(chatHistory)
      ensures analyses == old(analyses) && selectedImage == old(selectedImage)
    {
      request, answered := None, false;
      if selectedImage.value.None? {
        return;
      }
      var image := selectedImage.value.value;
      var analysisText := AnalysisFor(analyses.value, image.name);
      if question == "" {
        return;
      }
      request := Some(FollowUpPrompt(analysisText, question));
      if reply.Some? && reply.value != "" {
        chatHistory := Present(chatHistory.value + [ChatTurn(question, reply.value)]);
        answered := true;
      }
    }

    /** "Clear Chat History": empties the transcript and nothing else. */
    method ClearChatHistory()
      requires Ready()
      modifies this
      ensures Ready()
      ensures View() == Apply(old(View()), ClearChat)
      ensures chatHistory == Present([])
      ensures analyses == old(analyses) && selectedImage == old(selectedImage)
    {
      chatHistory := Present([]);
    }
  }
}
