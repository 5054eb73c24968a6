/**
  The AI reflection card of `components/StatsTab.tsx`: the context string
  built from the most recent memories, the source links taken from the
  search-grounding chunks of the answer, the fallback and error sentences,
  the `isReflecting` flag around the request, and the truncation of link
  titles on display. The request itself is an input: its answer, or its
  failure.
*/
module Insight {
  import opened Common
  import opened Types
  import App

  const FallbackText := "I'm having trouble reflecting right now, but keep blooming!"
  const ErrorText := "I couldn't reach the stars right now. Try again in a moment!"
  const DefaultLinkTitle := "Wellness Source"
  const DefaultLinkUri := "#"
  const TitleLimit: nat := 20
  const Ellipsis := "..."

  // ---------------------------------------------------------------------------
  // Context

  /** One memory in the prompt: `${m.title}: ${m.content}`. */
  function Line(m: Memory): string {
    m.title + ": " + m.content
  }

  /** `lines.join('\n')`. */
  function JoinLines(lines: seq<string>): (r: string)
    ensures |lines| == 1 ==> r == lines[0]
    ensures lines == [] ==> r == ""
  {
    if lines == [] then ""
    else if |lines| == 1 then lines[0]
    else lines[0] + "\n" + JoinLines(lines[1..])
  }

  function Lines(memories: seq<Memory>): (r: seq<string>)
    ensures |r| == |memories|
    ensures forall i :: 0 <= i < |memories| ==> r[i] == Line(memories[i])
  {
    seq(|memories|, i requires 0 <= i < |memories| => Line(memories[i]))
  }

  /** `memories.slice(0, 3).map(...).join('\n')`. */
  function RecentContext(memories: seq<Memory>): (r: string)
    ensures |memories| == 0 ==> r == ""
    ensures |memories| == 1 ==> r == Line(memories[0])
    ensures |memories| == 2 ==> r == Line(memories[0]) + "\n" + Line(memories[1])
    ensures |memories| >= 3 ==> r == Line(memories[0]) + "\n" + Line(memories[1]) + "\n" + Line(memories[2])
  {
    var lines := Lines(memories[..Min(3, |memories|)]);
    if |lines| >= 2 then
      assert JoinLines(lines) == lines[0] + "\n" + JoinLines(lines[1..]);
      if |lines| == 3 then
        assert JoinLines(lines[1..]) == lines[1] + "\n" + JoinLines(lines[2..]);
        JoinLines(lines)
      else JoinLines(lines)
    else JoinLines(lines)
  }

  /** Memories beyond the third never reach the prompt. */
  lemma RecentContextFirstThree(memories: seq<Memory>, more: seq<Memory>)
    requires |memories| >= 3
    ensures RecentContext(memories + more) == RecentContext(memories[..3])
  {
    var all := memories + more;
    assert all[0] == memories[0] && all[1] == memories[1] && all[2] == memories[2];
  }

  /** Saving an entry puts it at the head of the prompt. */
  lemma RecentContextAfterSave(s: App.AppState, draft: App.Draft, id: string, time: string)
    requires |s.memories| >= 2
    ensures RecentContext(App.SaveEntry(s, draft, id, time).memories) ==
      Line(App.MemoryOf(draft, id, time)) + "\n" + Line(s.memories[0]) + "\n" + Line(s.memories[1])
  {
    var ms := App.SaveEntry(s, draft, id, time).memories;
    assert ms[1] == s.memories[0] && ms[2] == s.memories[1];
  }

  // ---------------------------------------------------------------------------
  // Links

  datatype WebSource = WebSource(title: Option<string>, uri: Option<string>)

  /** A grounding chunk of the answer; only its `web` field is read. */
  datatype GroundingChunk = GroundingChunk(web: Option<WebSource>)

  datatype Link = Link(title: string, uri: string)

  /** `{ title: web?.title || 'Wellness Source', uri: web?.uri || '#' }`. */
  function LinkOf(web: WebSource): (l: Link)
    ensures l.title == App.OrElse(web.title, DefaultLinkTitle)
    ensures l.uri == App.OrElse(web.uri, DefaultLinkUri)
    ensures l.title != "" && l.uri != ""
  {
    Link(App.OrElse(web.title, DefaultLinkTitle), App.OrElse(web.uri, DefaultLinkUri))
  }

  /** How many chunks carry a web source. */
  function WebCount(chunks: seq<GroundingChunk>): (n: nat)
    ensures n <= |chunks|
  {
    if chunks == [] then 0 else (if chunks[0].web.Some? then 1 else 0) + WebCount(chunks[1..])
  }

  /** `chunks.filter(chunk => chunk.web).map(...)`. */
  function LinksOf(chunks: seq<GroundingChunk>): (r: seq<Link>)
    ensures |r| == WebCount(chunks)
    ensures forall i :: 0 <= i < |r| ==> r[i].title != "" && r[i].uri != ""
  {
    if chunks == [] then []
    else if chunks[0].web.Some? then [LinkOf(chunks[0].web.value)] + LinksOf(chunks[1..])
    else LinksOf(chunks[1..])
  }

  /** The links of two runs of chunks are the links of the first followed by those of the second. */
  lemma {:induction false} LinksOfAppend(a: seq<GroundingChunk>, b: seq<GroundingChunk>)
    ensures LinksOf(a + b) == LinksOf(a) + LinksOf(b)
  {
    if a != [] {
      assert (a + b)[1..] == a[1..] + b;
      LinksOfAppend(a[1..], b);
    } else {
      assert a + b == b;
    }
  }

  /** Chunks without a web source add nothing. */
  lemma {:induction false} LinksOfNoWeb(chunks: seq<GroundingChunk>)
    requires forall i :: 0 <= i < |chunks| ==> chunks[i].web.None?
    ensures LinksOf(chunks) == []
  {
    if chunks != [] {
      LinksOfNoWeb(chunks[1..]);
    }
  }

  /** When every chunk has a web source, link `i` is made from chunk `i`. */
  lemma {:induction false} LinksOfAllWeb(chunks: seq<GroundingChunk>, i: nat)
    requires forall k :: 0 <= k < |chunks| ==> chunks[k].web.Some?
    requires i < |chunks|
    ensures WebCount(chunks) == |chunks|
    ensures LinksOf(chunks)[i] == LinkOf(chunks[i].web.value)
  {
    WebCountAll(chunks);
    if i > 0 {
      LinksOfAllWeb(chunks[1..], i - 1);
    }
  }

  lemma {:induction false} WebCountAll(chunks: seq<GroundingChunk>)
    requires forall k :: 0 <= k < |chunks| ==> chunks[k].web.Some?
    ensures WebCount(chunks) == |chunks|
  {
    if chunks != [] {
      WebCountAll(chunks[1..]);
    }
  }

  // ---------------------------------------------------------------------------
  // The insight

  /** What the answer offers: `response.text`, and the grounding chunks of its first candidate. */
  datatype Response = Response(text: Option<string>, chunks: Option<seq<GroundingChunk>>)

  datatype Report = Report(text: string, links: seq<Link>)

  /** The report built from an answer. */
  function ReportOf(response: Response): (r: Report)
    ensures response.text.Some? && response.text.value != "" ==> r.text == response.text.value
    ensures response.text.None? || response.text.value == "" ==> r.text == FallbackText
    ensures response.chunks.None? ==> r.links == []
    ensures response.chunks.Some? ==> r.links == LinksOf(response.chunks.value)
  {
    var chunks := if response.chunks.Some? then response.chunks.value else [];
    Report(App.OrElse(response.text, FallbackText), LinksOf(chunks))
  }

  /** The report when the request throws. */
  function ErrorReport(): (r: Report)
    ensures r.text == ErrorText && r.links == []
  {
    Report(ErrorText, [])
  }

  /** The card's state. */
  datatype StatsState = StatsState(isReflecting: bool, aiInsight: Option<Report>)

  const InitialStats := StatsState(false, None)

  /** `generateAIInsight`, up to the request. */
  function BeginReflection(s: StatsState): (r: StatsState)
    ensures r.isReflecting && r.aiInsight == s.aiInsight
  {
    s.(isReflecting := true)
  }

  /** The request settles with an answer, or with `None` when it throws; `finally` lowers the flag. */
  function FinishReflection(s: StatsState, outcome: Option<Response>): (r: StatsState)
    ensures !r.isReflecting
    ensures outcome.None? ==> r.aiInsight == Some(ErrorReport())
    ensures outcome.Some? ==> r.aiInsight == Some(ReportOf(outcome.value))
  {
    StatsState(false, Some(if outcome.Some? then ReportOf(outcome.value) else ErrorReport()))
  }

  /** The close button of the report. */
  function Dismiss(s: StatsState): (r: StatsState)
    ensures r.aiInsight.None? && r.isReflecting == s.isReflecting
  {
    s.(aiInsight := None)
  }

  /** What the card shows. */
  datatype Card = PromptCard | ReflectingCard | ReportCard(report: Report)

  function CardOf(s: StatsState): (c: Card)
    ensures s.isReflecting <==> c.ReflectingCard?
    ensures c.PromptCard? <==> !s.isReflecting && s.aiInsight.None?
    ensures c.ReportCard? ==> s.aiInsight == Some(c.report)
  {
    if s.aiInsight.None? && !s.isReflecting then PromptCard
    else if s.isReflecting then ReflectingCard
    else ReportCard(s.aiInsight.value)
  }

  /** However the request ends, the card leaves the reflecting state and shows a report. */
  lemma ReflectionEndsInReport(s: StatsState, outcome: Option<Response>)
    ensures CardOf(BeginReflection(s)).ReflectingCard?
    ensures CardOf(FinishReflection(BeginReflection(s), outcome)).ReportCard?
    ensures outcome.None? ==> CardOf(FinishReflection(BeginReflection(s), outcome)).report.links == []
  {
  }

  // ---------------------------------------------------------------------------
  // Display

  /** A link's label: titles over 20 characters keep their first 20 and gain `...`. */
  function DisplayTitle(title: string): (r: string)
    ensures |title| <= TitleLimit ==> r == title
    ensures |title| > TitleLimit ==> |r| == TitleLimit + |Ellipsis| && r[..TitleLimit] == title[..TitleLimit] && r[TitleLimit..] == Ellipsis
    ensures |r| <= TitleLimit + |Ellipsis|
  {
    if |title| > TitleLimit then title[..TitleLimit] + Ellipsis else title
  }

  /** The default title fits. */
  lemma DefaultTitleFits()
    ensures DisplayTitle(DefaultLinkTitle) == DefaultLinkTitle
  {
  }
}
