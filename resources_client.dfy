/**
 * The componentised catalogue view: its URL check, its thumbnail choice, the statistics it shows,
 * its reset handler and which blocks it renders for a catalogue and a filter state.
 */
module ResourcesClient {
  import opened Wrappers
  import opened Text
  import opened Catalog
  import opened YouTube

  /** The placeholder marker that an unconfigured link still carries. */
  const PlaceholderMarker: String := "TON_ID"

  /** A link may be followed: non-empty, free of the placeholder marker, with an http:// or https:// scheme. */
  function IsValidUrl(url: String): (ok: bool)
    ensures ok <==> |url| > 0 && (forall i :: !OccursAt(url, PlaceholderMarker, i))
                    && (StartsWith(url, "http://") || StartsWith(url, "https://"))
  {
    |url| > 0 && !Contains(url, PlaceholderMarker) && (StartsWith(url, "http://") || StartsWith(url, "https://"))
  }

  /** A placeholder link is refused even with a correct scheme. */
  lemma PlaceholderUrlRejected()
    ensures !IsValidUrl("https://TON_ID_PLACEHOLDER")
  {
    assert OccursAt("https://TON_ID_PLACEHOLDER", PlaceholderMarker, 8);
  }

  /** The image shown for a video when no image is stored and the link holds no video id. */
  const PlaceholderImage: String := "https://placehold.co/640x360/1A1A1A/FF6B00?text=Vidéo"

  /** A stored string is truthy: non-null and non-empty. */
  predicate Truthy(stored: Option<String>) {
    stored.Some? && stored.value != []
  }

  /** The card's image: the stored thumbnail when there is one, else the still of the leftmost video id
      in the link, else the placeholder image. */
  function YoutubeThumbnail(url: String, stored: Option<String>): (r: String)
    ensures Truthy(stored) ==> r == stored.value
    ensures !Truthy(stored) && (forall i :: !MatchAt(url, i)) ==> r == PlaceholderImage
    ensures !Truthy(stored) ==> forall i :: LeftmostMatch(url, i) ==> r == MaxResUrl(IdAt(url, i))
  {
    FindVideoIdLeftmost(url);
    if Truthy(stored) then stored.value
    else match FindVideoId(url, 0)
      case Some(id) => MaxResUrl(id)
      case None => PlaceholderImage
  }

  /** A short link gives the still of the id it carries. */
  lemma ShortLinkGivesItsId(id: String)
    requires |id| > 0 && forall k :: 0 <= k < |id| ==> IsIdChar(id[k])
    ensures YoutubeThumbnail("https://youtu.be/" + id, None) == MaxResUrl(id)
  {
    assert "https://" + ShortMarker + id == "https://youtu.be/" + id;
    LinkYieldsId("https://", ShortMarker, id);
  }

  /** A watch link gives the still of the id it carries. */
  lemma WatchLinkGivesItsId(id: String)
    requires |id| > 0 && forall k :: 0 <= k < |id| ==> IsIdChar(id[k])
    ensures YoutubeThumbnail("https://www.youtube.com/watch?v=" + id, None) == MaxResUrl(id)
  {
    assert "https://www." + WatchMarker + id == "https://www.youtube.com/watch?v=" + id;
    LinkYieldsId("https://www.", WatchMarker, id);
  }

  /** The hero and tab figures: catalogue size, entries per kind and the XP total. */
  datatype CatalogueStats = CatalogueStats(total: nat, videoCount: nat, pdfCount: nat, totalXp: int)

  /** The figures are taken over the whole catalogue, never over the filtered list. */
  function Stats(rs: seq<Resource>): (st: CatalogueStats)
    ensures st.total == |rs| && st.total == st.videoCount + st.pdfCount
    ensures st.totalXp == TotalXp(rs)
    ensures st.totalXp == TotalXp(OfKind(rs, Video)) + TotalXp(OfKind(rs, Pdf))
    ensures st.videoCount == |OfKind(rs, Video)| && st.pdfCount == |OfKind(rs, Pdf)|
  {
    KindPartition(rs);
    TotalXpSplits(rs);
    CatalogueStats(|rs|, |OfKind(rs, Video)|, |OfKind(rs, Pdf)|, TotalXp(rs))
  }

  /** The reset handler: whatever the state, the new state shows every entry of every catalogue. */
  function HandleReset(f: Filters): (g: Filters)
    ensures g.tab == All && g.subject == AnySubject && g.level == AnyLevel && g.search == []
    ensures forall rs :: Filtered(rs, g) == rs
  {
    forall rs ensures Filtered(rs, DefaultFilters) == rs {
      DefaultShowsAll(rs);
    }
    DefaultFilters
  }

  /** Which of the result blocks the view renders. */
  datatype Blocks = Blocks(empty: bool, videoSection: bool, pdfSection: bool)

  /** The empty state shows when nothing passes the filter; a section shows when its tab is active (or ALL)
      and it has an entry. */
  function Render(rs: seq<Resource>, f: Filters): (b: Blocks)
    ensures b.empty <==> Filtered(rs, f) == []
    ensures b.videoSection <==> f.tab != Only(Pdf) && exists x :: x in Filtered(rs, f) && x.kind == Video
    ensures b.pdfSection <==> f.tab != Only(Video) && exists x :: x in Filtered(rs, f) && x.kind == Pdf
    ensures b.empty ==> !b.videoSection && !b.pdfSection
    ensures !b.empty ==> b.videoSection || b.pdfSection
  {
    var visible := Filtered(rs, f);
    var videos, pdfs := OfKind(visible, Video), OfKind(visible, Pdf);
    KindPartition(visible);
    assert visible != [] ==> visible[0] in visible;
    assert videos != [] ==> videos[0] in videos;
    assert pdfs != [] ==> pdfs[0] in pdfs;
    Blocks(|visible| == 0,
           (f.tab == All || f.tab == Only(Video)) && |videos| > 0,
           (f.tab == All || f.tab == Only(Pdf)) && |pdfs| > 0)
  }

  /** After a reset the empty state shows only for an empty catalogue. */
  lemma ResetEmptyOnlyForEmptyCatalogue(rs: seq<Resource>, f: Filters)
    ensures Render(rs, HandleReset(f)).empty <==> rs == []
  {
  }
}
