/**
  * The start-up sequence: fetch the eight sheet tabs, then either render every section from its
  * own tab or, when any fetch failed, replace the page with an error panel showing that failure.
  * What each fetch returned is a parameter; the order in which concurrent requests settle is not
  * modelled (the failure shown is the first failing tab in the fixed tab order).
  */
module Page {
  import opened Wrappers
  import opened Sheet
  import opened Profile
  import opened Sections
  import opened Accordion
  import opened SheetFetch

  /** The tab names, in the order they are requested. */
  const SheetNames: seq<string> :=
    ["Profile", "SkillsCore", "SkillsTechnical", "Experience", "Projects", "Education", "Awards", "Testimonials"]

  /** The page once loading ends: every section rendered, or the error panel with the failure's message. */
  datatype Screen =
    | Rendered(
        profile: ProfileView,
        coreSkills: View,
        technicalSkills: View,
        experience: View,
        timeline: seq<bool>,
        projects: View,
        education: View,
        awards: View,
        testimonials: View)
    | ErrorPanel(details: string)

  /** The first failed fetch, if any. */
  function FirstFailure(results: seq<Result<Table>>): (r: Option<nat>)
    ensures r.None? <==> forall k :: 0 <= k < |results| ==> results[k].Ok?
    ensures r.Some? ==> r.value < |results| && results[r.value].Err?
    ensures r.Some? ==> forall k :: 0 <= k < r.value ==> results[k].Ok?
  {
    if results == [] then None
    else if results[0].Err? then Some(0)
    else
      match FirstFailure(results[1..])
      case None => None
      case Some(k) => Some(k + 1)
  }

  /** The accordion flags right after the Experience section is rendered. */
  function TimelineFlags(t: Table): (active: seq<bool>)
    ensures SectionView(Experience, t).Entries? ==> |active| == |SectionView(Experience, t).items|
    ensures SectionView(Experience, t).Placeholder? ==> active == []
  {
    SectionViewShape(Experience, t);
    if SectionView(Experience, t).Entries? then InitialActive(KeptIndices(Experience, t)) else []
  }

  /** What loading produces from the eight fetch results (in `SheetNames` order). */
  function LoadPage(results: seq<Result<Table>>): (p: Screen)
    requires |results| == |SheetNames|
    ensures p.ErrorPanel? <==> exists k :: 0 <= k < |results| && results[k].Err?
    ensures p.ErrorPanel? ==> exists k :: 0 <= k < |results| && results[k] == Err(p.details)
  {
    match FirstFailure(results)
    case Some(k) => ErrorPanel(results[k].error)
    case None =>
      Rendered(
        RenderProfile(results[0].value),
        SectionView(Skills, results[1].value),
        SectionView(Skills, results[2].value),
        SectionView(Experience, results[3].value),
        TimelineFlags(results[3].value),
        SectionView(Projects, results[4].value),
        SectionView(Education, results[5].value),
        SectionView(Awards, results[6].value),
        SectionView(Testimonials, results[7].value))
  }

  /** The eight fetches made with one configuration, each given what the network answered for its tab. */
  function FetchAll(cfg: Config, responses: seq<Response>): (results: seq<Result<Table>>)
    requires |responses| == |SheetNames|
    ensures |results| == |SheetNames|
  {
    seq(|SheetNames|, k requires 0 <= k < |SheetNames| => FetchSheetData(cfg, SheetNames[k], responses[k]))
  }

  /**
    * A configuration that fails the pre-flight checks always ends in the error panel with that
    * check's message, whatever the network would have answered and whichever request settles first.
    */
  lemma MisconfiguredShowsCritical(cfg: Config, responses: seq<Response>)
    requires |responses| == |SheetNames|
    requires IdUnset(cfg) || KeyUnset(cfg) || KeyIsClientSecret(cfg)
    ensures LoadPage(FetchAll(cfg, responses)) == ErrorPanel(Request(cfg, "Profile").error)
  {
    var results := FetchAll(cfg, responses);
    assert results[0] == FetchSheetData(cfg, SheetNames[0], responses[0]);
    assert forall k :: 0 <= k < |results| ==> results[k] == Err(Request(cfg, "Profile").error);
  }

  /** Each section of a rendered page depends on its own tab only, and the timeline starts with at most one item open. */
  lemma RenderedSections(results: seq<Result<Table>>)
    requires |results| == |SheetNames|
    requires forall k :: 0 <= k < |results| ==> results[k].Ok?
    ensures LoadPage(results).Rendered?
    ensures LoadPage(results).profile == RenderProfile(results[0].value)
    ensures LoadPage(results).coreSkills == SectionView(Skills, results[1].value)
    ensures LoadPage(results).technicalSkills == SectionView(Skills, results[2].value)
    ensures LoadPage(results).experience == SectionView(Experience, results[3].value)
    ensures LoadPage(results).projects == SectionView(Projects, results[4].value)
    ensures LoadPage(results).education == SectionView(Education, results[5].value)
    ensures LoadPage(results).awards == SectionView(Awards, results[6].value)
    ensures LoadPage(results).testimonials == SectionView(Testimonials, results[7].value)
    ensures AtMostOneActive(LoadPage(results).timeline)
  {
    var t := results[3].value;
    InitialAtMostOne(KeptIndices(Experience, t));
  }
}
