/** The search form of the App component: its five state slots, the
    `handleSearch` handler split into the events it reacts to (submit, a tick
    of the phase interval, the settling of the awaited call), and the
    conditions the markup reads from that state. */
module SearchApp {
  import opened Wrappers
  import opened PulseTypes
  import opened GeminiService

  // ------------------------------------------------------------ blank topics

  /** The characters `String.prototype.trim` removes: white space and line terminators. */
  predicate IsJsWhitespace(c: char) {
    || c == '\t' || c == '\n' || c == '\U{000B}' || c == '\U{000C}' || c == '\r' || c == ' '
    || c == '\U{00A0}' || c == '\U{1680}' || ('\U{2000}' <= c <= '\U{200A}')
    || c == '\U{2028}' || c == '\U{2029}' || c == '\U{202F}' || c == '\U{205F}'
    || c == '\U{3000}' || c == '\U{FEFF}'
  }

  /** Every character of `u` is white space. */
  predicate AllWhitespace(u: string) {
    forall i :: 0 <= i < |u| ==> IsJsWhitespace(u[i])
  }

  /** `s` with its leading white space removed. */
  function TrimStart(s: string): (r: string)
    ensures |r| <= |s| && r == s[|s| - |r|..]
    ensures AllWhitespace(s[..|s| - |r|])
    ensures r == [] || !IsJsWhitespace(r[0])
    decreases |s|
  {
    if s != [] && IsJsWhitespace(s[0]) then
      var r := TrimStart(s[1..]);
      assert s[..|s| - |r|] == [s[0]] + s[1..][..|s| - 1 - |r|];
      r
    else s
  }

  /** `s` with its trailing white space removed. */
  function TrimEnd(s: string): (r: string)
    ensures |r| <= |s| && r == s[..|r|]
    ensures AllWhitespace(s[|r|..])
    ensures r == [] || !IsJsWhitespace(r[|r| - 1])
    decreases |s|
  {
    if s != [] && IsJsWhitespace(s[|s| - 1]) then
      var r := TrimEnd(s[..|s| - 1]);
      assert s[|r|..] == s[..|s| - 1][|r|..] + [s[|s| - 1]];
      r
    else s
  }

  /** `r` is `s[a..a + |r|]` and everything of `s` outside that slice is white space. */
  ghost predicate CutAt(s: string, r: string, a: nat) {
    && a + |r| <= |s| && r == s[a..a + |r|]
    && AllWhitespace(s[..a]) && AllWhitespace(s[a + |r|..])
  }

  /** A white-space suffix cut from a slice whose white-space prefix was cut
      leaves a slice of the original with white space on both sides. */
  lemma CutCompose(s: string, t: string, r: string)
    requires |t| <= |s| && t == s[|s| - |t|..] && AllWhitespace(s[..|s| - |t|])
    requires |r| <= |t| && r == t[..|r|] && AllWhitespace(t[|r|..])
    ensures CutAt(s, r, |s| - |t|)
  {
    var a := |s| - |t|;
    assert s[a + |r|..] == t[|r|..];
  }

  /** Trimming the start then the end cuts white space off both ends of `s`. */
  lemma TrimCut(s: string)
    ensures CutAt(s, TrimEnd(TrimStart(s)), |s| - |TrimStart(s)|)
  {
    CutCompose(s, TrimStart(s), TrimEnd(TrimStart(s)));
  }

  /** `s.trim()`: the middle of `s` left once the white space at both ends is cut off. */
  function Trim(s: string): (r: string)
    ensures exists a: nat :: CutAt(s, r, a)
    ensures r == [] || (!IsJsWhitespace(r[0]) && !IsJsWhitespace(r[|r| - 1]))
  {
    TrimCut(s);
    TrimEnd(TrimStart(s))
  }

  /** `!topic.trim()`: the topic is empty once trimmed, which is exactly when
      every character of it is white space. */
  predicate IsBlank(topic: string)
    ensures IsBlank(topic) <==> AllWhitespace(topic)
  {
    Trim(topic) == ""
  }

  // ------------------------------------------------------------ phase ticker

  const Initializing: string := "Initializing sensors..."
  const Scanning: string := "Scanning social media..."
  const Analyzing: string := "Analyzing sentiment..."
  const Synthesizing: string := "Synthesizing perspectives..."

  /** The status messages in the order the ticker shows them. */
  const Phases: seq<string> := [Initializing, Scanning, Analyzing, Synthesizing]

  /** Every value the `searchPhase` slot can hold: its initial "" and the four messages. */
  const PhaseStates: set<string> := {"", Initializing, Scanning, Analyzing, Synthesizing}

  /** The interval callback: each of the first three messages advances to the
      next one; the last message and any other value stay as they are. */
  function NextPhase(prev: string): (next: string)
    ensures forall i :: 0 <= i < |Phases| - 1 && prev == Phases[i] ==> next == Phases[i + 1]
    ensures prev != Initializing && prev != Scanning && prev != Analyzing ==> next == prev
  {
    if prev == Initializing then Scanning
    else if prev == Scanning then Analyzing
    else if prev == Analyzing then Synthesizing
    else prev
  }

  /** The phase after `k` ticks of the interval, starting from `start`. */
  function AfterTicks(start: string, k: nat): string
    decreases k
  {
    if k == 0 then start else NextPhase(AfterTicks(start, k - 1))
  }

  /** After `k` ticks from the start of a search, the phase is message min(k, 3). */
  lemma {:induction false} PhaseAfterTicks(k: nat)
    ensures AfterTicks(Initializing, k) == Phases[if k < 3 then k else 3]
    decreases k
  {
    if k > 0 {
      PhaseAfterTicks(k - 1);
    }
  }

  /** Ticking never leaves the set of phase values. */
  lemma {:induction false} PhaseStatesClosed(p: string, k: nat)
    requires p in PhaseStates
    ensures AfterTicks(p, k) in PhaseStates
    decreases k
  {
    if k > 0 {
      PhaseStatesClosed(p, k - 1);
    }
  }

  // ------------------------------------------------------------ error banner

  const FallbackError: string := "Failed to analyze the social pulse. Please try again."

  /** `err.message || fallback`: the text shown for a thrown error. */
  function ErrorText(message: string): (r: string)
    ensures r != ""
    ensures message != "" ==> r == message
    ensures message == "" ==> r == FallbackError
  {
    if message == "" then FallbackError else message
  }

  /** A failed search shows the service's single message, never the fallback or a parse error. */
  lemma FailedSearchShowsConnectionFailure(topic: string, generate: Request -> Upstream, parse: string -> Option<Json>)
    ensures AnalyzeSocialPulse(topic, generate, parse).Err? ==>
              ErrorText(AnalyzeSocialPulse(topic, generate, parse).error) == ConnectionFailure
  {
  }

  // ------------------------------------------------------------ component

  class App {
    var topic: string
    var loading: bool
    var error: Option<string>
    var data: Option<map<string, Json>>
    var searchPhase: string
    /** Phase intervals started and not yet cleared. */
    var intervals: nat
    /** The topics `analyzeSocialPulse` has been called with, oldest first. */
    ghost var requests: seq<string>

    ghost predicate Valid()
      reads this
    {
      && (loading ==> data.None? && error.None? && intervals > 0)
      && (loading ==> |requests| > 0 && requests[|requests| - 1] == topic)
      && !(data.Some? && error.Some?)
      && (error.Some? ==> error.value != "")
      && searchPhase in PhaseStates
    }

    /** The initial `useState` values. */
    constructor ()
      ensures Valid()
      ensures topic == "" && !loading && error.None? && data.None? && searchPhase == ""
      ensures intervals == 0 && requests == []
    {
      topic, loading, error, data, searchPhase := "", false, None, None, "";
      intervals, requests := 0, [];
    }

    /** `disabled={loading}` on the input. */
    predicate InputDisabled()
      reads this
      ensures InputDisabled() ==> SubmitDisabled()
    {
      loading
    }

    /** `disabled={loading || !topic.trim()}` on the submit button. */
    predicate SubmitDisabled()
      reads this
      ensures SubmitDisabled() <==> loading || AllWhitespace(topic)
    {
      loading || IsBlank(topic)
    }

    /** The status line under the form. */
    predicate PhaseShown()
      reads this
      ensures Valid() && PhaseShown() ==> data.None? && error.None?
    {
      loading
    }

    /** `{error && ...}`: an empty message would not show. */
    predicate ErrorShown()
      reads this
      ensures Valid() ==> (ErrorShown() <==> error.Some?)
      ensures Valid() && ErrorShown() ==> data.None? && !loading
    {
      error.Some? && error.value != ""
    }

    /** `{data && !loading && <PulseDashboard .../>}` */
    predicate DashboardShown()
      reads this
      ensures Valid() && DashboardShown() ==> error.None?
    {
      data.Some? && !loading
    }

    /** The input's `onChange`; a disabled input fires none while loading. */
    method EditTopic(value: string)
      requires Valid()
      modifies this`topic
      ensures Valid()
      ensures topic == if old(InputDisabled()) then old(topic) else value
    {
      if !loading {
        topic := value;
      }
    }

    /** The form's submit, handled by `handleSearch` up to the `await`. While
        loading the input and button are disabled and no submit reaches the
        handler; a blank topic returns before any state changes. Otherwise the
        slots are reset, the phase interval is started and the service is called. */
    method Submit() returns (started: bool)
      requires Valid()
      modifies this
      ensures Valid()
      ensures started <==> !old(SubmitDisabled())
      ensures !started ==> unchanged(this)
      ensures started ==>
                && loading && error.None? && data.None? && searchPhase == Initializing
                && topic == old(topic) && intervals == old(intervals) + 1
                && requests == old(requests) + [old(topic)]
      ensures started ==> PhaseShown() && !ErrorShown() && !DashboardShown()
    {
      if loading || IsBlank(topic) {
        return false;
      }
      loading := true;
      error := None;
      data := None;
      searchPhase := Initializing;
      intervals := intervals + 1;
      requests := requests + [topic];
      started := true;
    }

    /** One firing of a live phase interval. */
    method Tick()
      requires Valid()
      modifies this`searchPhase
      ensures Valid()
      ensures searchPhase == if intervals > 0 then NextPhase(old(searchPhase)) else old(searchPhase)
    {
      if intervals > 0 {
        assert AfterTicks(searchPhase, 1) == NextPhase(searchPhase);
        PhaseStatesClosed(searchPhase, 1);
        searchPhase := NextPhase(searchPhase);
      }
    }

    /** `k` firings of a live phase interval in a row. */
    method TickRepeatedly(k: nat)
      requires Valid() && intervals > 0
      modifies this`searchPhase
      ensures Valid()
      ensures searchPhase == AfterTicks(old(searchPhase), k)
    {
      var n := 0;
      while n < k
        invariant 0 <= n <= k
        invariant Valid()
        invariant searchPhase == AfterTicks(old(searchPhase), n)
      {
        Tick();
        n := n + 1;
      }
    }

    /** The awaited call settles: on success the interval is cleared and the
        result stored; on failure the message (or the fallback) is stored and
        the interval keeps running. `loading` is reset on both paths. */
    method Settle(outcome: Result<map<string, Json>, string>)
      requires Valid() && loading
      modifies this
      ensures Valid()
      ensures !loading && topic == old(topic) && searchPhase == old(searchPhase) && requests == old(requests)
      ensures outcome.Ok? ==> data == Some(outcome.value) && error.None? && intervals == old(intervals) - 1
      ensures outcome.Err? ==> data.None? && error == Some(ErrorText(outcome.error)) && intervals == old(intervals)
      ensures DashboardShown() <==> outcome.Ok?
      ensures ErrorShown() <==> outcome.Err?
      ensures !PhaseShown()
    {
      match outcome {
        case Ok(result) =>
          intervals := intervals - 1;
          data := Some(result);
        case Err(message) =>
          error := Some(ErrorText(message));
      }
      loading := false;
    }

    /** `await analyzeSocialPulse(topic)` settles, with the service as modelled:
        a failure always shows the service's single message. */
    method AwaitService(generate: Request -> Upstream, parse: string -> Option<Json>)
      requires Valid() && loading
      modifies this
      ensures Valid()
      ensures !loading && topic == old(topic) && searchPhase == old(searchPhase) && requests == old(requests)
      ensures var outcome := AnalyzeSocialPulse(old(topic), generate, parse);
              && (outcome.Ok? ==> data == Some(outcome.value) && error.None? && intervals == old(intervals) - 1)
              && (outcome.Err? ==> data.None? && error == Some(ConnectionFailure) && intervals == old(intervals))
    {
      var outcome := AnalyzeSocialPulse(topic, generate, parse);
      FailedSearchShowsConnectionFailure(topic, generate, parse);
      Settle(outcome);
    }

    /** A whole `handleSearch` run with no other event in between: submit,
        `ticks` firings of the interval while waiting, then the service's outcome. */
    method Search(generate: Request -> Upstream, parse: string -> Option<Json>, ticks: nat)
      requires Valid()
      modifies this
      ensures Valid()
      ensures old(SubmitDisabled()) ==> unchanged(this)
      ensures !old(SubmitDisabled()) ==>
                var outcome := AnalyzeSocialPulse(old(topic), generate, parse);
                && !loading && topic == old(topic)
                && requests == old(requests) + [old(topic)]
                && searchPhase == AfterTicks(Initializing, ticks)
                && (outcome.Ok? ==> data == Some(outcome.value) && error.None? && intervals == old(intervals))
                && (outcome.Err? ==> data.None? && error == Some(ConnectionFailure) && intervals == old(intervals) + 1)
    {
      var started := Submit();
      if !started {
        return;
      }
      TickRepeatedly(ticks);
      AwaitService(generate, parse);
    }
  }
}
