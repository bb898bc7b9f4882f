/** The deterministic part of `analyzeSocialPulse`: the prompt sent to the
    model, the citation list taken from its grounding metadata, the removal
    of Markdown code fences from its reply, the object spread that attaches
    the citations, and the wrapping of every failure into one message.
    The model call (`generate`) and `JSON.parse` (`parse`) are parameters. */
module GeminiService {
  import opened Wrappers
  import opened Text
  import opened PulseTypes

  // ---------------------------------------------------------------- prompt

  /** A prompt template: fixed text around two copies of the topic. */
  datatype Template = Template(head: string, middle: string, tail: string)

  /** The template text with the topic spliced in verbatim twice. */
  function Fill(t: Template, topic: string): (r: string)
    ensures |r| == |t.head| + |t.middle| + |t.tail| + 2 * |topic|
    ensures OccursAt(r, topic, |t.head|)
    ensures OccursAt(r, topic, |t.head| + |topic| + |t.middle|)
    ensures r[..|t.head|] == t.head
    ensures r[|t.head| + |topic|..|t.head| + |topic| + |t.middle|] == t.middle
    ensures r[|r| - |t.tail|..] == t.tail
  {
    var r := t.head + topic + t.middle + topic + t.tail;
    assert r[|t.head|..|t.head| + |topic|] == topic;
    assert r[|t.head| + |topic| + |t.middle|..|t.head| + |topic| + |t.middle| + |topic|] == topic;
    r
  }

  /** Filling one template with two topics gives the same text only when
      the topics are equal: the topic can be read back. */
  lemma FillDeterminesTopic(t: Template, t1: string, t2: string)
    requires Fill(t, t1) == Fill(t, t2)
    ensures t1 == t2
  {
    var p := Fill(t, t1);
    assert |t1| == |t2|;
    assert t1 == p[|t.head|..|t.head| + |t1|] == t2;
  }

  /** The prompt of `analyzeSocialPulse`, verbatim, split where the topic goes. */
  const SocialPulse: Template := Template(
    "\n      Act as a social media data analyst. Your task is to analyze the \"Social Pulse\" of the following topic: \"",

    "\".\n      \n      Use the Google Search tool to find recent discussions, news articles, forum posts (like Reddit), and social commentary.\n      \n" +
    "      Based on the search results, construct a JSON analysis with the following strict structure. Do not use Markdown formatting in the response, just return the raw JSON object.\n\n" +
    "      Structure:\n      {\n        \"topic\": \"",

    "\",\n        \"summary\": \"A brief 2-sentence overview of why this topic is trending or relevant right now.\",\n" +
    "        \"sideA\": {\n" +
    "          \"name\": \"Name of the first major perspective (e.g., 'Pro-Reform', 'Optimists')\",\n" +
    "          \"percentage\": number (estimated % of population holding this view, e.g. 45),\n" +
    "          \"emotion\": \"Dominant emotion (e.g., 'Hopeful', 'Angry', 'Skeptical')\",\n" +
    "          \"arguments\": [\"Key argument 1\", \"Key argument 2\", \"Key argument 3\"]\n" +
    "        },\n" +
    "        \"sideB\": {\n" +
    "          \"name\": \"Name of the opposing perspective\",\n" +
    "          \"percentage\": number (estimated %),\n" +
    "          \"emotion\": \"Dominant emotion\",\n" +
    "          \"arguments\": [\"Key argument 1\", \"Key argument 2\", \"Key argument 3\"]\n" +
    "        },\n" +
    "        \"neutral\": {\n" +
    "          \"percentage\": number (remaining %, ensuring sideA + sideB + neutral = 100),\n" +
    "          \"summary\": \"Description of the middle ground or undecided view.\"\n" +
    "        }\n      }\n\n" +
    "      Ensure the percentages sum to exactly 100. Base the arguments and emotions on the actual search results found.\n    ")

  /** The instruction text of `analyzeSocialPulse`; what it guarantees is
      Fill's contract, and PromptDeterminesTopic. */
  function BuildPrompt(topic: string): string
  {
    Fill(SocialPulse, topic)
  }

  const TopicKey: string := "\"topic\": \""

  /** The second copy of the topic is the value of the template's "topic" field:
      the text before it ends with `"topic": "`. */
  lemma MiddleEndsWithTopicKey()
    ensures |TopicKey| <= |SocialPulse.middle|
    ensures SocialPulse.middle[|SocialPulse.middle| - |TopicKey|..] == TopicKey
  {
    var c := "      Structure:\n      {\n        " + TopicKey;
    var m := SocialPulse.middle;
    assert m[|m| - |c|..] == c;
    assert c[|c| - |TopicKey|..] == TopicKey;
    SuffixOfSuffix(m, c, TopicKey);
  }

  const TopicLead: string := "the following topic: \""

  /** The first copy of the topic is quoted in the instruction sentence: the
      text before it ends with `the following topic: "`. */
  lemma HeadEndsWithTopicLead()
    ensures |TopicLead| <= |SocialPulse.head|
    ensures SocialPulse.head[|SocialPulse.head| - |TopicLead|..] == TopicLead
  {
    var h := SocialPulse.head;
    assert h[|h| - |TopicLead|..] == TopicLead;
  }

  /** Distinct topics give distinct prompts. */
  lemma PromptDeterminesTopic(t1: string, t2: string)
    requires BuildPrompt(t1) == BuildPrompt(t2)
    ensures t1 == t2
  {
    FillDeterminesTopic(SocialPulse, t1, t2);
  }

  const Model: string := "gemini-2.5-flash"

  /** The arguments of `generateContent`: the model name, the topic whose
      prompt BuildPrompt(topic) is the `contents` (by PromptDeterminesTopic the
      topic and the prompt determine each other), and whether the Google
      Search tool is on. */
  datatype Request = Request(model: string, topic: string, googleSearch: bool)

  /** The request `analyzeSocialPulse(topic)` makes. */
  function RequestFor(topic: string): (r: Request)
    ensures r.model == Model && r.googleSearch && r.topic == topic
  {
    Request(Model, topic, true)
  }

  // ------------------------------------------------- the model's response

  /** One grounding chunk; only its `web` citation is used. */
  datatype GroundingChunk = GroundingChunk(web: Option<GroundingSource>)

  datatype GroundingMetadata = GroundingMetadata(groundingChunks: Option<seq<GroundingChunk>>)

  datatype Candidate = Candidate(groundingMetadata: Option<GroundingMetadata>)

  /** What `generateContent` resolves to: the reply text (possibly absent) and the candidates. */
  datatype Response = Response(text: Option<string>, candidates: Option<seq<Candidate>>)

  /** The model call either rejects (network, quota, API error) or resolves. */
  datatype Upstream = Rejected | Resolved(response: Response)

  // ------------------------------------------------------------- sources

  const MaxSources: nat := 5

  /** `response.candidates?.[0]?.groundingMetadata?.groundingChunks || []` */
  function GroundingChunks(resp: Response): (r: seq<GroundingChunk>)
    ensures resp.candidates.None? || resp.candidates.value == [] ==> r == []
    ensures (resp.candidates.Some? && resp.candidates.value != [] &&
             resp.candidates.value[0].groundingMetadata.None?) ==> r == []
    ensures (resp.candidates.Some? && resp.candidates.value != [] &&
             resp.candidates.value[0].groundingMetadata.Some?) ==>
              var md := resp.candidates.value[0].groundingMetadata.value;
              r == (if md.groundingChunks.Some? then md.groundingChunks.value else [])
  {
    if resp.candidates.None? || |resp.candidates.value| == 0 then []
    else
      var md := resp.candidates.value[0].groundingMetadata;
      if md.None? || md.value.groundingChunks.None? then [] else md.value.groundingChunks.value
  }

  /** `.map(chunk => chunk.web)` */
  function Webs(chunks: seq<GroundingChunk>): (r: seq<Option<GroundingSource>>)
    ensures |r| == |chunks|
    ensures forall i :: 0 <= i < |chunks| ==> r[i] == chunks[i].web
  {
    seq(|chunks|, i requires 0 <= i < |chunks| => chunks[i].web)
  }

  /** `!!web && !!web.uri`: the citation is present and its uri is a non-empty string. */
  predicate HasUri(web: Option<GroundingSource>) {
    web.Some? && web.value.uri.Some? && web.value.uri.value != ""
  }

  /** `.filter(web => !!web && !!web.uri)` */
  function KeepWithUri(webs: seq<Option<GroundingSource>>): (r: seq<GroundingSource>)
    ensures |r| <= |webs|
    ensures forall i :: 0 <= i < |r| ==> HasUri(Some(r[i]))
    decreases |webs|
  {
    if webs == [] then []
    else if HasUri(webs[0]) then [webs[0].value] + KeepWithUri(webs[1..])
    else KeepWithUri(webs[1..])
  }

  /** The filter works piecewise, so it keeps the relative order of the citations. */
  lemma {:induction false} KeepWithUriConcat(a: seq<Option<GroundingSource>>, b: seq<Option<GroundingSource>>)
    ensures KeepWithUri(a + b) == KeepWithUri(a) + KeepWithUri(b)
    decreases |a|
  {
    if a == [] {
      assert a + b == b;
    } else {
      assert (a + b)[0] == a[0];
      assert (a + b)[1..] == a[1..] + b;
      KeepWithUriConcat(a[1..], b);
    }
  }

  /** The filter drops exactly the citations without a non-empty uri. */
  lemma {:induction false} KeepWithUriMembers(webs: seq<Option<GroundingSource>>, g: GroundingSource)
    ensures g in KeepWithUri(webs) <==> Some(g) in webs && HasUri(Some(g))
    decreases |webs|
  {
    if webs != [] {
      KeepWithUriMembers(webs[1..], g);
      assert webs == [webs[0]] + webs[1..];
    }
  }

  /** The `sources` of the result: the first five citations with a uri, in order. */
  function ExtractSources(resp: Response): (r: seq<GroundingSource>)
    ensures |r| <= MaxSources
    ensures forall i :: 0 <= i < |r| ==> r[i].uri.Some? && r[i].uri.value != ""
    ensures var kept := KeepWithUri(Webs(GroundingChunks(resp)));
            |r| == (if |kept| < MaxSources then |kept| else MaxSources) && r == kept[..|r|]
  {
    var kept := KeepWithUri(Webs(GroundingChunks(resp)));
    kept[..if |kept| < MaxSources then |kept| else MaxSources]
  }

  /** Citations a, "", title-only, none, b, c, d, e give the sources a, b, c, d, e. */
  lemma CitationExample()
    ensures var web := (u: string) => Some(GroundingSource(None, Some(u)));
            var chunks := [
              GroundingChunk(web("a")), GroundingChunk(web("")),
              GroundingChunk(Some(GroundingSource(Some("t"), None))), GroundingChunk(None),
              GroundingChunk(web("b")), GroundingChunk(web("c")),
              GroundingChunk(web("d")), GroundingChunk(web("e"))];
            var resp := Response(Some("{}"), Some([Candidate(Some(GroundingMetadata(Some(chunks))))]));
            ExtractSources(resp) == [
              GroundingSource(None, Some("a")), GroundingSource(None, Some("b")),
              GroundingSource(None, Some("c")), GroundingSource(None, Some("d")),
              GroundingSource(None, Some("e"))]
  {
    var web := (u: string) => Some(GroundingSource(None, Some(u)));
    var chunks := [
      GroundingChunk(web("a")), GroundingChunk(web("")),
      GroundingChunk(Some(GroundingSource(Some("t"), None))), GroundingChunk(None),
      GroundingChunk(web("b")), GroundingChunk(web("c")),
      GroundingChunk(web("d")), GroundingChunk(web("e"))];
    var webs := Webs(chunks);
    assert webs[7..][1..] == webs[8..];
    assert KeepWithUri(webs[7..]) == [GroundingSource(None, Some("e"))];
    assert webs[6..][1..] == webs[7..];
    assert KeepWithUri(webs[6..]) == [GroundingSource(None, Some("d")), GroundingSource(None, Some("e"))];
    assert webs[5..][1..] == webs[6..];
    assert KeepWithUri(webs[5..]) == [GroundingSource(None, Some("c")), GroundingSource(None, Some("d")), GroundingSource(None, Some("e"))];
    assert webs[4..][1..] == webs[5..];
    assert KeepWithUri(webs[4..]) == [GroundingSource(None, Some("b")), GroundingSource(None, Some("c")), GroundingSource(None, Some("d")), GroundingSource(None, Some("e"))];
    assert webs[3..][1..] == webs[4..];
    assert KeepWithUri(webs[3..]) == [GroundingSource(None, Some("b")), GroundingSource(None, Some("c")), GroundingSource(None, Some("d")), GroundingSource(None, Some("e"))];
    assert webs[2..][1..] == webs[3..];
    assert KeepWithUri(webs[2..]) == [GroundingSource(None, Some("b")), GroundingSource(None, Some("c")), GroundingSource(None, Some("d")), GroundingSource(None, Some("e"))];
    assert webs[1..][1..] == webs[2..];
    assert KeepWithUri(webs[1..]) == [GroundingSource(None, Some("b")), GroundingSource(None, Some("c")), GroundingSource(None, Some("d")), GroundingSource(None, Some("e"))];
    assert webs[0..][1..] == webs[1..];
    assert KeepWithUri(webs[0..]) == [GroundingSource(None, Some("a")), GroundingSource(None, Some("b")), GroundingSource(None, Some("c")), GroundingSource(None, Some("d")), GroundingSource(None, Some("e"))];
  }

  // ------------------------------------------------------- fence stripping

  const Fence: string := "```"
  const JsonFence: string := "```json"
  const JsonOpen: string := "```json\n"
  const PlainOpen: string := "```\n"
  const FenceClose: string := "\n```"

  /** `s.replace(/a|b/g, '')`: scanning left to right, every leftmost
      non-overlapping occurrence of `a` (tried first) or `b` is deleted. */
  function DeleteAll(s: string, a: string, b: string): (r: string)
    requires a != [] && b != []
    ensures |r| <= |s|
    decreases |s|
  {
    if s == [] then []
    else if IsPrefix(a, s) then DeleteAll(s[|a|..], a, b)
    else if IsPrefix(b, s) then DeleteAll(s[|b|..], a, b)
    else [s[0]] + DeleteAll(s[1..], a, b)
  }

  /** Deleting occurrences only deletes characters: what is left is a subsequence. */
  lemma {:induction false} DeleteAllIsSubsequence(s: string, a: string, b: string)
    requires a != [] && b != []
    ensures IsSubsequence(DeleteAll(s, a, b), s)
    decreases |s|
  {
    if s == [] {
    } else if IsPrefix(a, s) {
      DeleteAllIsSubsequence(s[|a|..], a, b);
      SubsequenceOfLonger(DeleteAll(s[|a|..], a, b), s[..|a|], s[|a|..]);
      assert s[..|a|] + s[|a|..] == s;
    } else if IsPrefix(b, s) {
      DeleteAllIsSubsequence(s[|b|..], a, b);
      SubsequenceOfLonger(DeleteAll(s[|b|..], a, b), s[..|b|], s[|b|..]);
      assert s[..|b|] + s[|b|..] == s;
    } else {
      DeleteAllIsSubsequence(s[1..], a, b);
      var r := [s[0]] + DeleteAll(s[1..], a, b);
      assert r[1..] == DeleteAll(s[1..], a, b);
    }
  }

  /** With no occurrence of either pattern, nothing is deleted. */
  lemma {:induction false} DeleteAllNoMatch(s: string, a: string, b: string)
    requires a != [] && b != []
    requires !Contains(s, a) && !Contains(s, b)
    ensures DeleteAll(s, a, b) == s
    decreases |s|
  {
    if s != [] {
      DeleteAllNoMatch(s[1..], a, b);
      assert [s[0]] + s[1..] == s;
    }
  }

  /** A prefix in which no occurrence starts is kept as it is. */
  lemma {:induction false} DeleteAllKeepsCleanPrefix(s: string, t: string, a: string, b: string)
    requires a != [] && b != []
    requires forall i :: 0 <= i < |s| ==> !OccursAt(s + t, a, i) && !OccursAt(s + t, b, i)
    ensures DeleteAll(s + t, a, b) == s + DeleteAll(t, a, b)
    decreases |s|
  {
    if s == [] {
      assert s + t == t;
    } else {
      var st := s + t;
      assert !OccursAt(st, a, 0) && !OccursAt(st, b, 0);
      assert st[1..] == s[1..] + t;
      forall i | 0 <= i < |s[1..]|
        ensures !OccursAt(s[1..] + t, a, i) && !OccursAt(s[1..] + t, b, i)
      {
        OccursShift(st, a, i);
        OccursShift(st, b, i);
      }
      DeleteAllKeepsCleanPrefix(s[1..], t, a, b);
      assert s == [s[0]] + s[1..];
    }
  }

  /** The text handed to `JSON.parse`: fences are removed only when the reply
      contains "```", and the "```json" opening is preferred when present. */
  function StripFences(text: string): (r: string)
    ensures |r| <= |text|
  {
    if Contains(text, JsonFence) then DeleteAll(text, JsonOpen, FenceClose)
    else if Contains(text, Fence) then DeleteAll(text, PlainOpen, FenceClose)
    else text
  }

  /** A reply without "```" reaches the parser unchanged. */
  lemma FenceFreeUnchanged(text: string)
    requires !Contains(text, Fence)
    ensures StripFences(text) == text
  {
    if Contains(text, JsonFence) {
      assert JsonFence == Fence + "json";
      ContainsLonger(text, Fence, "json");
    }
  }

  /** Stripping only deletes characters. */
  lemma StripOnlyDeletes(text: string)
    ensures IsSubsequence(StripFences(text), text)
  {
    if Contains(text, JsonFence) {
      DeleteAllIsSubsequence(text, JsonOpen, FenceClose);
    } else if Contains(text, Fence) {
      DeleteAllIsSubsequence(text, PlainOpen, FenceClose);
    } else {
      SubsequenceOfSelf(text);
    }
  }

  /** Up to and including its first character, "\n```" reads as "\n". */
  lemma CloseExtendsNewline(body: string)
    ensures (body + FenceClose)[..|body| + 1] == body + "\n"
  {
  }

  /** "```json\n" has its only newline at the end. */
  lemma JsonOpenNewlineLast(k: nat)
    requires 1 <= k <= 6
    ensures JsonOpen[k] != '\n'
  {
    assert k == 1 || k == 2 || k == 3 || k == 4 || k == 5 || k == 6;
  }

  /** An occurrence in `body + "\n```"` that ends by the newline is one in `body + "\n"`. */
  lemma OccursBeforeClose(body: string, p: string, i: nat)
    requires i + |p| <= |body| + 1
    ensures OccursAt(body + FenceClose, p, i) ==> OccursAt(body + "\n", p, i)
  {
    var bc := body + FenceClose;
    CloseExtendsNewline(body);
    assert bc[..i + |p|] == bc[..|body| + 1][..i + |p|];
    OccursAgree(bc, body + "\n", p, i);
  }

  /** No occurrence of the "```json\n" opening starts inside `body` in `body + "\n```"`. */
  lemma NoJsonOpenInBody(body: string, i: nat)
    requires !Contains(body + "\n", JsonOpen) && i < |body|
    ensures !OccursAt(body + FenceClose, JsonOpen, i)
  {
    ContainsIffOccurs(body + "\n", JsonOpen);
    if i + |JsonOpen| <= |body| + 1 {
      OccursBeforeClose(body, JsonOpen, i);
    } else {
      OccursChar(body + FenceClose, JsonOpen, i, |body|);
      JsonOpenNewlineLast(|body| - i);
    }
  }

  /** No occurrence of the "```\n" opening starts inside `body` in `body + "\n```"`. */
  lemma NoPlainOpenInBody(body: string, i: nat)
    requires !Contains(body + "\n", PlainOpen) && i < |body|
    ensures !OccursAt(body + FenceClose, PlainOpen, i)
  {
    ContainsIffOccurs(body + "\n", PlainOpen);
    if i + |PlainOpen| <= |body| + 1 {
      OccursBeforeClose(body, PlainOpen, i);
    } else {
      OccursChar(body + FenceClose, PlainOpen, i, |body|);
      var k := |body| - i;
      assert PlainOpen[k] != '\n' by {
        assert k == 1 || k == 2;
      }
    }
  }

  /** No occurrence of the "\n```" closing starts inside `body` in `body + "\n```"`. */
  lemma NoCloseInBody(body: string, i: nat)
    requires !Contains(body, FenceClose) && i < |body|
    ensures !OccursAt(body + FenceClose, FenceClose, i)
  {
    var bc := body + FenceClose;
    ContainsIffOccurs(body, FenceClose);
    if i + |FenceClose| <= |body| {
      assert bc[..i + |FenceClose|] == body[..i + |FenceClose|];
      OccursAgree(bc, body, FenceClose, i);
    } else {
      OccursChar(bc, FenceClose, i, |body|);
      var k := |body| - i;
      assert 1 <= k <= 3;
      assert FenceClose[k] != '\n' by {
        assert k == 1 || k == 2 || k == 3;
      }
    }
  }

  /** A reply wrapped as "```json\n" + body + "\n```" is unwrapped to exactly `body`,
      provided no fence pattern occurs in `body` (nor across its end). */
  lemma JsonFenceUnwraps(body: string)
    requires !Contains(body + "\n", JsonOpen) && !Contains(body, FenceClose)
    ensures StripFences(JsonOpen + body + FenceClose) == body
  {
    var text := JsonOpen + body + FenceClose;
    assert text[..|JsonFence|] == JsonFence;
    assert IsPrefix(JsonOpen, text);
    assert text[|JsonOpen|..] == body + FenceClose;
    forall i | 0 <= i < |body|
      ensures !OccursAt(body + FenceClose, JsonOpen, i) && !OccursAt(body + FenceClose, FenceClose, i)
    {
      NoJsonOpenInBody(body, i);
      NoCloseInBody(body, i);
    }
    DeleteAllKeepsCleanPrefix(body, FenceClose, JsonOpen, FenceClose);
    assert FenceClose[|FenceClose|..] == [];
    assert DeleteAll(FenceClose, JsonOpen, FenceClose) == [];
  }

  /** The same for a fence without a language tag, "```\n" + body + "\n```",
      when `body` does not itself contain "```json". */
  lemma PlainFenceUnwraps(body: string)
    requires !Contains(body, JsonFence)
    requires !Contains(body + "\n", PlainOpen) && !Contains(body, FenceClose)
    ensures StripFences(PlainOpen + body + FenceClose) == body
  {
    var text := PlainOpen + body + FenceClose;
    NoJsonFenceInPlainWrap(body);
    assert text[..|Fence|] == Fence;
    assert IsPrefix(PlainOpen, text);
    assert text[|PlainOpen|..] == body + FenceClose;
    forall i | 0 <= i < |body|
      ensures !OccursAt(body + FenceClose, PlainOpen, i) && !OccursAt(body + FenceClose, FenceClose, i)
    {
      NoPlainOpenInBody(body, i);
      NoCloseInBody(body, i);
    }
    DeleteAllKeepsCleanPrefix(body, FenceClose, PlainOpen, FenceClose);
    assert FenceClose[|FenceClose|..] == [];
    assert DeleteAll(FenceClose, PlainOpen, FenceClose) == [];
  }

  /** "```json" cannot start in the wrapping of a body that lacks it. */
  lemma NoJsonFenceInPlainWrap(body: string)
    requires !Contains(body, JsonFence)
    ensures !Contains(PlainOpen + body + FenceClose, JsonFence)
  {
    var text := PlainOpen + body + FenceClose;
    var n := |PlainOpen|;
    ContainsIffOccurs(body, JsonFence);
    ContainsIffOccurs(text, JsonFence);
    forall i: nat
      ensures !OccursAt(text, JsonFence, i)
    {
      if i < n {
        OccursChar(text, JsonFence, i, n - 1);
        var k := n - 1 - i;
        assert JsonFence[k] != '\n' by {
          assert k == 0 || k == 1 || k == 2 || k == 3;
        }
      } else if i + |JsonFence| <= n + |body| {
        assert text[i..i + |JsonFence|] == body[i - n..i - n + |JsonFence|];
        assert !OccursAt(body, JsonFence, i - n);
      } else if i < n + |body| {
        OccursChar(text, JsonFence, i, n + |body|);
        var k := n + |body| - i;
        assert JsonFence[k] != '\n' by {
          assert k == 1 || k == 2 || k == 3 || k == 4 || k == 5 || k == 6;
        }
      }
    }
  }

  /** The side condition above is needed: a body ending in "```json" is not
      recovered, since the opening pattern then also matches across its end. */
  lemma JsonFenceStraddle()
    ensures StripFences(JsonOpen + JsonFence + FenceClose) == Fence
  {
    var text := JsonOpen + JsonFence + FenceClose;
    assert text[..|JsonFence|] == JsonFence;
    assert IsPrefix(JsonOpen, text);
    var rest := text[|JsonOpen|..];
    assert rest == JsonOpen + Fence;
    assert IsPrefix(JsonOpen, rest);
    assert rest[|JsonOpen|..] == Fence;
    assert DeleteAll(text, JsonOpen, FenceClose) == DeleteAll(rest, JsonOpen, FenceClose);
    assert DeleteAll(rest, JsonOpen, FenceClose) == DeleteAll(Fence, JsonOpen, FenceClose);
    TooLongNotContained(Fence, JsonOpen);
    TooLongNotContained(Fence, FenceClose);
    DeleteAllNoMatch(Fence, JsonOpen, FenceClose);
  }

  // ------------------------------------------------------------- assembly

  /** The properties that `{...value}` copies: an object's own keys, the
      index keys of an array or a string, and nothing for other values. */
  function OwnProperties(j: Json): (r: map<string, Json>)
    ensures j.JObject? ==> r == j.fields
    ensures j.JArray? ==> IndexedBy(r, j.items)
    ensures j.JString? ==> IndexedBy(r, seq(|j.s|, i requires 0 <= i < |j.s| => JString([j.s[i]])))
    ensures (j.JNull? || j.JBool? || j.JNumber?) ==> r == map[]
  {
    match j
    case JObject(m) => m
    case JArray(items) => Indexed(items)
    case JString(s) => Indexed(seq(|s|, i requires 0 <= i < |s| => JString([s[i]])))
    case _ => map[]
  }

  /** `r` has exactly the keys "0", "1", ... for the positions of `items`, each mapped to its element. */
  ghost predicate IndexedBy(r: map<string, Json>, items: seq<Json>) {
    && (forall i :: 0 <= i < |items| ==> Decimal(i) in r && r[Decimal(i)] == items[i])
    && (forall k :: k in r ==> exists i :: 0 <= i < |items| && k == Decimal(i))
  }

  function Indexed(items: seq<Json>): (r: map<string, Json>)
    ensures IndexedBy(r, items)
  {
    DecimalInjective();
    map i | 0 <= i < |items| :: Decimal(i) := items[i]
  }

  /** `{ ...parsedData, sources }`: the parsed reply's properties, with
      `sources` set to the filtered citations whether or not the reply had one. */
  function Assemble(parsed: Json, sources: seq<GroundingSource>): (r: map<string, Json>)
    ensures "sources" in r && r["sources"] == SourcesToJson(sources)
    ensures forall k :: k != "sources" ==> (k in r <==> k in OwnProperties(parsed))
    ensures forall k :: k != "sources" && k in r ==> r[k] == OwnProperties(parsed)[k]
  {
    OwnProperties(parsed)["sources" := SourcesToJson(sources)]
  }

  /** Whenever the result reads as PulseData, its sources are the filtered ones. */
  lemma AssembledSourcesWin(parsed: Json, sources: seq<GroundingSource>)
    ensures AsPulseData(Assemble(parsed, sources)).Some? ==>
              AsPulseData(Assemble(parsed, sources)).value.sources == sources
  {
    SourcesRoundTrip(sources);
  }

  /** A reply object that carries the fields of `p` (and possibly more, or a
      `sources` of its own) yields `p` with its sources replaced. */
  lemma AssembledMirrorsReply(p: PulseData, m: map<string, Json>, sources: seq<GroundingSource>)
    requires forall k :: k in PayloadKeys ==> k in m && m[k] == ToObject(p)[k]
    ensures AsPulseData(Assemble(JObject(m), sources)) == Some(p.(sources := sources))
  {
    var q := p.(sources := sources);
    ObjectRoundTrip(q);
    ViewReadsPayloadAndSources(Assemble(JObject(m), sources), ToObject(q));
  }

  // --------------------------------------------------------------- errors

  const ParseFailure: string := "Failed to parse social analysis data."
  const ConnectionFailure: string := "Unable to connect to the social pulse network."

  /** The inner `try`: parse the stripped text; a parse error becomes ParseFailure. */
  function ParseReply(text: string, sources: seq<GroundingSource>, parse: string -> Option<Json>)
    : (r: Result<map<string, Json>, string>)
    ensures r.Err? <==> parse(StripFences(text)).None?
    ensures r.Err? ==> r.error == ParseFailure
    ensures r.Ok? ==> "sources" in r.value && r.value["sources"] == SourcesToJson(sources)
    ensures r.Ok? ==> r.value == Assemble(parse(StripFences(text)).value, sources)
  {
    match parse(StripFences(text))
    case None => Err(ParseFailure)
    case Some(parsed) => Ok(Assemble(parsed, sources))
  }

  /** `analyzeSocialPulse(topic)`. A rejected model call, a reply without text
      (`text.includes` throws) and a parse error all surface as ConnectionFailure. */
  function AnalyzeSocialPulse(topic: string, generate: Request -> Upstream, parse: string -> Option<Json>)
    : (r: Result<map<string, Json>, string>)
    ensures r.Err? ==> r.error == ConnectionFailure
    ensures r.Ok? <==>
              && generate(RequestFor(topic)).Resolved?
              && generate(RequestFor(topic)).response.text.Some?
              && parse(StripFences(generate(RequestFor(topic)).response.text.value)).Some?
    ensures r.Ok? ==>
              var resp := generate(RequestFor(topic)).response;
              r.value == Assemble(parse(StripFences(resp.text.value)).value, ExtractSources(resp))
  {
    match generate(RequestFor(topic))
    case Rejected => Err(ConnectionFailure)
    case Resolved(resp) =>
      var sources := ExtractSources(resp);
      if resp.text.None? then Err(ConnectionFailure)
      else match ParseReply(resp.text.value, sources, parse)
        case Ok(data) => Ok(data)
        case Err(_) => Err(ConnectionFailure)
  }

  /** A conforming reply, fenced or not, reaches the caller field for field,
      with the first five uri-bearing citations as its sources. */
  lemma ConformingReplySucceeds(
    topic: string, generate: Request -> Upstream, parse: string -> Option<Json>,
    p: PulseData, m: map<string, Json>)
    requires generate(RequestFor(topic)).Resolved?
    requires generate(RequestFor(topic)).response.text.Some?
    requires parse(StripFences(generate(RequestFor(topic)).response.text.value)) == Some(JObject(m))
    requires forall k :: k in PayloadKeys ==> k in m && m[k] == ToObject(p)[k]
    ensures AnalyzeSocialPulse(topic, generate, parse).Ok?
    ensures AsPulseData(AnalyzeSocialPulse(topic, generate, parse).value) ==
              Some(p.(sources := ExtractSources(generate(RequestFor(topic)).response)))
  {
    AssembledMirrorsReply(p, m, ExtractSources(generate(RequestFor(topic)).response));
  }
}
