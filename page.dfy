/**
 * The page-level catalogue view: its own URL check and thumbnail choice, and the page state that the
 * configuration check, the fetch and the controls update.
 */
module Page {
  import opened Wrappers
  import opened Text
  import opened Seqs
  import opened Catalog
  import opened YouTube
  import ResourcesClient

  /** A link may be followed: non-empty, free of the placeholder marker, and starting with `http`
      (any continuation, so `httpfoo` passes). */
  function IsValidUrl(url: String): (ok: bool)
    ensures ok <==> |url| > 0 && (forall i :: !OccursAt(url, ResourcesClient.PlaceholderMarker, i))
                    && StartsWith(url, "http")
  {
    |url| > 0 && !Contains(url, ResourcesClient.PlaceholderMarker) && StartsWith(url, "http")
  }

  /** Every link the component accepts is accepted here. */
  lemma UrlCheckWeakerThanComponent(url: String)
    ensures ResourcesClient.IsValidUrl(url) ==> IsValidUrl(url)
  {
  }

  /** `httpfoo` is accepted here and refused by the component. */
  lemma UrlChecksDiverge()
    ensures IsValidUrl("httpfoo") && !ResourcesClient.IsValidUrl("httpfoo")
  {
    AbsentFirstChar("httpfoo", ResourcesClient.PlaceholderMarker);
    assert "httpfoo"[..4] == "http";
    assert !StartsWith("httpfoo", "http://") by {
      assert "httpfoo"[4] != ':';
    }
  }

  /** The card's image: the stored thumbnail when there is one, else the still of the leftmost video id,
      else the empty string. */
  function GetThumb(url: String, stored: Option<String>): (r: String)
    ensures ResourcesClient.Truthy(stored) ==> r == stored.value
    ensures !ResourcesClient.Truthy(stored) && (forall i :: !MatchAt(url, i)) ==> r == []
    ensures !ResourcesClient.Truthy(stored) ==> forall i :: LeftmostMatch(url, i) ==> r == MaxResUrl(IdAt(url, i))
  {
    FindVideoIdLeftmost(url);
    if ResourcesClient.Truthy(stored) then stored.value
    else match FindVideoId(url, 0)
      case Some(id) => MaxResUrl(id)
      case None => []
  }

  /** The two views choose the same image and differ only in their fallback. */
  lemma ThumbnailsDifferOnlyInFallback(url: String, stored: Option<String>)
    ensures GetThumb(url, stored) != [] ==> GetThumb(url, stored) == ResourcesClient.YoutubeThumbnail(url, stored)
    ensures GetThumb(url, stored) == [] <==> !ResourcesClient.Truthy(stored) && forall i :: !MatchAt(url, i)
    ensures GetThumb(url, stored) == [] ==> ResourcesClient.YoutubeThumbnail(url, stored) == ResourcesClient.PlaceholderImage
  {
  }

  /** The video card shows an image only for a non-empty thumbnail that has not failed to load; otherwise it
      shows the play icon. */
  function ThumbnailImageShown(url: String, stored: Option<String>, imgError: bool): (shown: bool)
    ensures shown <==> !imgError && (ResourcesClient.Truthy(stored) || exists i :: MatchAt(url, i))
  {
    ThumbnailsDifferOnlyInFallback(url, stored);
    GetThumb(url, stored) != [] && !imgError
  }

  /** How the fetch of the catalogue ended: with data (possibly null), or with an error. */
  datatype Outcome = Fetched(data: Option<seq<Resource>>) | Failed

  /** What the page renders: the configuration error screen, or the catalogue with the blocks shown. */
  datatype Screen =
    | EnvErrorScreen
    | CatalogueScreen(skeleton: bool, empty: bool, videoSection: bool, pdfSection: bool)

  class PageState {
    var resources: seq<Resource>
    var loading: bool
    var envOk: bool
    var tab: Tab
    var subject: String
    var level: String
    var search: String

    /** The filter state as the engine sees it. */
    function FilterState(): Filters
      reads this
    {
      Filters(tab, subject, level, search)
    }

    /** The state on first render: loading, configuration assumed present, no entries, default filters. */
    constructor ()
      ensures resources == [] && loading && envOk
      ensures FilterState() == DefaultFilters
    {
      resources, loading, envOk := [], true, true;
      tab, subject, level, search := All, AnySubject, AnyLevel, "";
    }

    /** The configuration is missing: the error screen replaces the page and loading stops. */
    method EnvMissing()
      modifies this
      ensures !envOk && !loading
      ensures resources == old(resources) && FilterState() == old(FilterState())
    {
      envOk := false;
      loading := false;
    }

    /** The fetch succeeded: its rows replace the entries (no rows when the data is null) and loading stops. */
    method LoadOk(data: Option<seq<Resource>>)
      modifies this
      ensures resources == data.GetOr([]) && !loading
      ensures envOk == old(envOk) && FilterState() == old(FilterState())
    {
      resources := data.GetOr([]);
      loading := false;
    }

    /** The fetch failed: the error is logged only; the entries stay as they were and loading stops. */
    method LoadErr()
      modifies this
      ensures resources == old(resources) && !loading
      ensures envOk == old(envOk) && FilterState() == old(FilterState())
    {
      loading := false;
    }

    /** The mount effect: both configuration values and the client must be present before the fetch is run. */
    method Mount(urlSet: bool, keySet: bool, clientReady: bool, outcome: Outcome)
      modifies this
      ensures !loading && FilterState() == old(FilterState())
      ensures envOk <==> old(envOk) && urlSet && keySet && clientReady
      ensures !(urlSet && keySet && clientReady) || outcome.Failed? ==> resources == old(resources)
      ensures urlSet && keySet && clientReady && outcome.Fetched? ==> resources == outcome.data.GetOr([])
    {
      if !urlSet || !keySet {
        EnvMissing();
        return;
      }
      if !clientReady {
        EnvMissing();
        return;
      }
      match outcome
      case Fetched(data) => LoadOk(data);
      case Failed => LoadErr();
    }

    /** The reset button: default filters, entries and flags untouched, so every entry is visible again. */
    method Reset()
      modifies this
      ensures FilterState() == DefaultFilters
      ensures resources == old(resources) && loading == old(loading) && envOk == old(envOk)
      ensures Visible() == resources
    {
      search := "";
      subject := AnySubject;
      level := AnyLevel;
      tab := All;
      DefaultShowsAll(resources);
    }

    method SetTab(t: Tab)
      modifies this
      ensures FilterState() == old(FilterState()).(tab := t)
      ensures resources == old(resources) && loading == old(loading) && envOk == old(envOk)
    {
      tab := t;
    }

    method SetSubject(s: String)
      modifies this
      ensures FilterState() == old(FilterState()).(subject := s)
      ensures resources == old(resources) && loading == old(loading) && envOk == old(envOk)
    {
      subject := s;
    }

    method SetLevel(l: String)
      modifies this
      ensures FilterState() == old(FilterState()).(level := l)
      ensures resources == old(resources) && loading == old(loading) && envOk == old(envOk)
    {
      level := l;
    }

    method SetSearch(q: String)
      modifies this
      ensures FilterState() == old(FilterState()).(search := q)
      ensures resources == old(resources) && loading == old(loading) && envOk == old(envOk)
    {
      search := q;
    }

    /** The subject select's options: the sentinel, then each truthy subject once, in first-seen order. */
    function Subjects(): (r: seq<String>)
      reads this`resources
      ensures |r| >= 1 && r[0] == AnySubject && NoDup(r[1..])
      ensures forall s :: s in r[1..] <==> exists i :: 0 <= i < |resources| && HasSubject(resources[i], s)
      ensures forall i, j :: 1 <= i < j < |r| ==> AppearsBefore(resources, r[i], r[j])
    {
      SubjectFacets(resources)
    }

    /** The visible entries: an order-preserving selection of the catalogue passing the filter. */
    function Visible(): (r: seq<Resource>)
      reads this
      ensures IsSubsequence(r, resources)
      ensures forall i :: 0 <= i < |r| ==> FacetsAdmit(FilterState(), r[i])
      ensures forall x :: multiset(r)[x] == if Matches(FilterState(), x) then multiset(resources)[x] else 0
    {
      Filtered(resources, FilterState())
    }

    /** `videos` and `pdfs` split the visible entries by kind. */
    function VideosAndPdfs(): (r: (seq<Resource>, seq<Resource>))
      reads this
      ensures forall i :: 0 <= i < |r.0| ==> r.0[i].kind == Video
      ensures forall i :: 0 <= i < |r.1| ==> r.1[i].kind == Pdf
      ensures IsSubsequence(r.0, Visible()) && IsSubsequence(r.1, Visible())
      ensures multiset(r.0) + multiset(r.1) == multiset(Visible())
    {
      var visible := Visible();
      KindPartition(visible);
      (OfKind(visible, Video), OfKind(visible, Pdf))
    }

    /** The XP figure sums the whole catalogue: it reads the entries and none of the filter fields. */
    function TotalXpShown(): (xp: int)
      reads this`resources
      ensures xp == TotalXp(OfKind(resources, Video)) + TotalXp(OfKind(resources, Pdf))
    {
      TotalXpSplits(resources);
      TotalXp(resources)
    }

    /** The page: the error screen without configuration; while loading only the skeleton; once loaded the
        same blocks as the component view. */
    function Screen(): (s: Screen)
      reads this
      ensures s.EnvErrorScreen? <==> !envOk
      ensures s.CatalogueScreen? ==> (s.skeleton <==> loading)
      ensures loading && s.CatalogueScreen? ==> !s.empty && !s.videoSection && !s.pdfSection
      ensures envOk && !loading ==> var b := ResourcesClient.Render(resources, FilterState());
        s == CatalogueScreen(false, b.empty, b.videoSection, b.pdfSection)
    {
      if !envOk then EnvErrorScreen
      else
        var visible := Visible();
        var videos, pdfs := OfKind(visible, Video), OfKind(visible, Pdf);
        CatalogueScreen(
          loading,
          !loading && |visible| == 0,
          !loading && (tab == All || tab == Only(Video)) && |videos| > 0,
          !loading && (tab == All || tab == Only(Pdf)) && |pdfs| > 0)
    }
  }
}
