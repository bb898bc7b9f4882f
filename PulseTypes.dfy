/** The record shapes of the dashboard (Perspective, GroundingSource, PulseData)
    and the JSON values that the language model's reply parses into.

    The service never checks that the parsed reply has the PulseData shape: it
    casts. `AsPulseData` is that cast made explicit, as the view the dashboard
    reads; `ToObject` is the reply a conforming model would send. */
module PulseTypes {
  import opened Wrappers

  /** A JSON value as `JSON.parse` produces it; numbers are integers here. */
  datatype Json =
    | JNull
    | JBool(b: bool)
    | JNumber(n: int)
    | JString(s: string)
    | JArray(items: seq<Json>)
    | JObject(fields: map<string, Json>)

  /** One side of the debate. */
  datatype Perspective = Perspective(name: string, percentage: int, emotion: string, arguments: seq<string>)

  /** A web citation; both fields are optional. */
  datatype GroundingSource = GroundingSource(title: Option<string>, uri: Option<string>)

  /** The undecided share. */
  datatype Neutral = Neutral(percentage: int, summary: string)

  datatype PulseData = PulseData(
    topic: string,
    summary: string,
    sideA: Perspective,
    sideB: Perspective,
    neutral: Neutral,
    sources: seq<GroundingSource>)

  /** The keys of a PulseData object other than `sources`. */
  const PayloadKeys: set<string> := {"topic", "summary", "sideA", "sideB", "neutral"}

  // ---- encoding: a value as the JSON object that carries it ----

  function StringsToJson(xs: seq<string>): (r: Json)
    ensures r.JArray? && |r.items| == |xs|
    ensures forall i :: 0 <= i < |xs| ==> r.items[i] == JString(xs[i])
  {
    JArray(seq(|xs|, i requires 0 <= i < |xs| => JString(xs[i])))
  }

  function PerspectiveToJson(p: Perspective): Json {
    JObject(map[
      "name" := JString(p.name),
      "percentage" := JNumber(p.percentage),
      "emotion" := JString(p.emotion),
      "arguments" := StringsToJson(p.arguments)])
  }

  function NeutralToJson(n: Neutral): Json {
    JObject(map["percentage" := JNumber(n.percentage), "summary" := JString(n.summary)])
  }

  /** An absent optional field is an absent key. */
  function SourceToJson(g: GroundingSource): Json {
    JObject(
      (if g.title.Some? then map["title" := JString(g.title.value)] else map[]) +
      (if g.uri.Some? then map["uri" := JString(g.uri.value)] else map[]))
  }

  function SourcesToJson(gs: seq<GroundingSource>): (r: Json)
    ensures r.JArray? && |r.items| == |gs|
    ensures forall i :: 0 <= i < |gs| ==> r.items[i] == SourceToJson(gs[i])
  {
    JArray(seq(|gs|, i requires 0 <= i < |gs| => SourceToJson(gs[i])))
  }

  function ToObject(p: PulseData): map<string, Json> {
    map[
      "topic" := JString(p.topic),
      "summary" := JString(p.summary),
      "sideA" := PerspectiveToJson(p.sideA),
      "sideB" := PerspectiveToJson(p.sideB),
      "neutral" := NeutralToJson(p.neutral),
      "sources" := SourcesToJson(p.sources)]
  }

  // ---- the typed view: reading an object as PulseData ----

  function StringAt(m: map<string, Json>, k: string): Option<string> {
    if k in m && m[k].JString? then Some(m[k].s) else None
  }

  function NumberAt(m: map<string, Json>, k: string): Option<int> {
    if k in m && m[k].JNumber? then Some(m[k].n) else None
  }

  function AsStrings(items: seq<Json>): (r: Option<seq<string>>)
    ensures r.Some? ==> |r.value| == |items|
    decreases |items|
  {
    if items == [] then Some([])
    else if !items[0].JString? then None
    else match AsStrings(items[1..])
      case None => None
      case Some(rest) => Some([items[0].s] + rest)
  }

  function AsPerspective(j: Json): Option<Perspective> {
    if !j.JObject? then None
    else
      var m := j.fields;
      var name, pct, emo := StringAt(m, "name"), NumberAt(m, "percentage"), StringAt(m, "emotion");
      if name.None? || pct.None? || emo.None? || "arguments" !in m || !m["arguments"].JArray? then None
      else match AsStrings(m["arguments"].items)
        case None => None
        case Some(args) => Some(Perspective(name.value, pct.value, emo.value, args))
  }

  function AsNeutral(j: Json): Option<Neutral> {
    if !j.JObject? then None
    else
      var pct, sum := NumberAt(j.fields, "percentage"), StringAt(j.fields, "summary");
      if pct.None? || sum.None? then None else Some(Neutral(pct.value, sum.value))
  }

  /** A citation object: any string `title` and `uri` keys are read, anything else is ignored. */
  function AsSource(j: Json): Option<GroundingSource> {
    if !j.JObject? then None
    else Some(GroundingSource(StringAt(j.fields, "title"), StringAt(j.fields, "uri")))
  }

  function AsSources(items: seq<Json>): (r: Option<seq<GroundingSource>>)
    ensures r.Some? ==> |r.value| == |items|
    decreases |items|
  {
    if items == [] then Some([])
    else match (AsSource(items[0]), AsSources(items[1..]))
      case (Some(g), Some(rest)) => Some([g] + rest)
      case _ => None
  }

  /** The object read as PulseData, or None when a field is missing or of the wrong kind. */
  function AsPulseData(m: map<string, Json>): (r: Option<PulseData>)
    ensures r.Some? ==> "topic" in m && m["topic"] == JString(r.value.topic)
    ensures r.Some? ==> "summary" in m && m["summary"] == JString(r.value.summary)
    ensures r.Some? ==> "sideA" in m && "sideB" in m && "neutral" in m
    ensures r.Some? ==> "sources" in m && m["sources"].JArray? && |r.value.sources| == |m["sources"].items|
    ensures "topic" !in m || !m["topic"].JString? ==> r.None?
  {
    var topic, summary := StringAt(m, "topic"), StringAt(m, "summary");
    var a := if "sideA" in m then AsPerspective(m["sideA"]) else None;
    var b := if "sideB" in m then AsPerspective(m["sideB"]) else None;
    var n := if "neutral" in m then AsNeutral(m["neutral"]) else None;
    var srcs := if "sources" in m && m["sources"].JArray? then AsSources(m["sources"].items) else None;
    if topic.None? || summary.None? || a.None? || b.None? || n.None? || srcs.None? then None
    else Some(PulseData(topic.value, summary.value, a.value, b.value, n.value, srcs.value))
  }

  // ---- round trips ----

  lemma {:induction false} StringsRoundTrip(xs: seq<string>)
    ensures AsStrings(StringsToJson(xs).items) == Some(xs)
    decreases |xs|
  {
    if xs != [] {
      var items := StringsToJson(xs).items;
      assert items[1..] == StringsToJson(xs[1..]).items;
      StringsRoundTrip(xs[1..]);
      assert [xs[0]] + xs[1..] == xs;
    }
  }

  lemma {:induction false} SourcesRoundTrip(gs: seq<GroundingSource>)
    ensures AsSources(SourcesToJson(gs).items) == Some(gs)
    decreases |gs|
  {
    if gs != [] {
      var items := SourcesToJson(gs).items;
      assert items[1..] == SourcesToJson(gs[1..]).items;
      SourcesRoundTrip(gs[1..]);
      var g := gs[0];
      assert AsSource(SourceToJson(g)) == Some(g);
      assert [gs[0]] + gs[1..] == gs;
    }
  }

  lemma PerspectiveRoundTrip(p: Perspective)
    ensures AsPerspective(PerspectiveToJson(p)) == Some(p)
  {
    StringsRoundTrip(p.arguments);
  }

  /** Reading back what a conforming reply carries gives the same record. */
  lemma ObjectRoundTrip(p: PulseData)
    ensures AsPulseData(ToObject(p)) == Some(p)
  {
    PerspectiveRoundTrip(p.sideA);
    PerspectiveRoundTrip(p.sideB);
    SourcesRoundTrip(p.sources);
  }

  /** The typed view of an object depends on its payload keys and on `sources` only. */
  lemma ViewReadsPayloadAndSources(m1: map<string, Json>, m2: map<string, Json>)
    requires forall k :: k in PayloadKeys + {"sources"} ==> (k in m1 <==> k in m2)
    requires forall k :: k in PayloadKeys + {"sources"} && k in m1 ==> m1[k] == m2[k]
    ensures AsPulseData(m1) == AsPulseData(m2)
  {
    assert "topic" in PayloadKeys && "summary" in PayloadKeys && "sideA" in PayloadKeys;
    assert "sideB" in PayloadKeys && "neutral" in PayloadKeys;
  }
}
