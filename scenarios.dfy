/** Concrete catalogues on which the engine's behaviour can be read off directly. */
module Scenarios {
  import opened Wrappers
  import opened Text
  import opened Catalog
  import ResourcesClient

  function Entry(id: String, title: String, kind: Kind, subject: Option<String>, xp: int): Resource {
    Resource(id, title, None, kind, "", subject, None, xp, None, None)
  }

  /** Two videos and a PDF. */
  function Mixed(): seq<Resource> {
    [Entry("a", "A", Video, None, 10), Entry("b", "B", Pdf, None, 5), Entry("c", "C", Video, None, 20)]
  }

  /** The mixed catalogue carries 35 XP. */
  lemma MixedCatalogueXp()
    ensures TotalXp(Mixed()) == 35
  {
    var rs := Mixed();
    assert rs[1..][1..] == [rs[2]] && [rs[2]][1..] == [];
    assert TotalXp([rs[2]]) == 20;
  }

  /** The mixed catalogue's videos are its first and third entries. */
  lemma MixedCatalogueVideos()
    ensures OfKind(Mixed(), Video) == [Mixed()[0], Mixed()[2]]
  {
    var rs := Mixed();
    var last := [rs[2]];
    assert rs[1..][1..] == last && last[1..] == [];
    assert OfKind(last, Video) == last;
    assert OfKind(rs[1..], Video) == last;
  }

  /** The mixed catalogue's only PDF is its second entry. */
  lemma MixedCataloguePdfs()
    ensures OfKind(Mixed(), Pdf) == [Mixed()[1]]
  {
    var rs := Mixed();
    var last := [rs[2]];
    assert rs[1..][1..] == last && last[1..] == [];
    assert OfKind(last, Pdf) == [];
    assert OfKind(rs[1..], Pdf) == [rs[1]];
  }

  /** The figures of the mixed catalogue: three entries, two videos, one PDF, 35 XP. */
  lemma MixedCatalogueStats()
    ensures ResourcesClient.Stats(Mixed()) == ResourcesClient.CatalogueStats(3, 2, 1, 35)
  {
    MixedCatalogueXp();
    MixedCatalogueVideos();
    MixedCataloguePdfs();
  }

  /** The video tab keeps the two videos of the mixed catalogue, in their order. */
  lemma MixedCatalogueVideoTab()
    ensures Filtered(Mixed(), DefaultFilters.(tab := Only(Video))) == [Mixed()[0], Mixed()[2]]
  {
    var rs := Mixed();
    var f := DefaultFilters.(tab := Only(Video));
    assert rs[1..] == [rs[1], rs[2]] && rs[1..][1..] == [rs[2]] && [rs[2]][1..] == [];
    assert Matches(f, rs[0]) && !Matches(f, rs[1]) && Matches(f, rs[2]);
    assert Filtered([rs[2]], f) == [rs[2]];
    assert Filtered([rs[1], rs[2]], f) == [rs[2]];
  }

  /** An upper-case query finds a subject written in mixed case. */
  lemma UpperCaseQueryFindsSubject()
    ensures Matches(DefaultFilters.(search := "REACT"), Entry("a", "Hooks", Video, Some("React"), 0))
  {
    assert Lower("REACT") == "react";
    assert Lower("React") == "react";
    assert StartsWith(Lower("React"), Lower("REACT"));
  }

  /** Subjects shared by several entries appear once in the facets, in first-seen order; empty and null
      subjects are skipped. */
  lemma FacetsOfSharedSubjects()
    ensures SubjectFacets([Entry("a", "A", Video, Some("React"), 0), Entry("b", "B", Pdf, Some(""), 0),
                           Entry("c", "C", Pdf, None, 0), Entry("d", "D", Video, Some("Vue"), 0),
                           Entry("e", "E", Pdf, Some("React"), 0)]) == ["Tous", "React", "Vue"]
  {
    var a, b, c := Entry("a", "A", Video, Some("React"), 0), Entry("b", "B", Pdf, Some(""), 0), Entry("c", "C", Pdf, None, 0);
    var d, e := Entry("d", "D", Video, Some("Vue"), 0), Entry("e", "E", Pdf, Some("React"), 0);
    var rs := [a, b, c, d, e];
    assert rs[..4] == [a, b, c, d] && [a, b, c, d][..3] == [a, b, c] && [a, b, c][..2] == [a, b] && [a, b][..1] == [a];
    assert [a][..0] == [];
    assert DistinctSubjects([a]) == ["React"];
    assert DistinctSubjects([a, b]) == ["React"];
    assert DistinctSubjects([a, b, c]) == ["React"];
    assert DistinctSubjects([a, b, c, d]) == ["React", "Vue"];
    assert DistinctSubjects(rs) == ["React", "Vue"];
  }

  const GuideQuery := DefaultFilters.(search := "guide")

  lemma GuideFoundInTitle()
    ensures Matches(GuideQuery, Entry("a", "React Guide", Video, None, 0))
  {
    assert Lower("guide") == "guide";
    assert Lower("React Guide") == "react guide";
    assert OccursAt("react guide", "guide", 6);
  }

  lemma GuideNotFoundElsewhere()
    ensures !Matches(GuideQuery, Entry("b", "Vue Basics", Pdf, None, 0))
  {
    assert Lower("guide") == "guide";
    assert Lower("Vue Basics") == "vue basics";
    AbsentFirstChar("vue basics", "guide");
    assert Lower("") == "";
  }

  /** A query found in one title only keeps that entry; the empty query keeps both. */
  lemma SearchByTitle()
    ensures var rs := [Entry("a", "React Guide", Video, None, 0), Entry("b", "Vue Basics", Pdf, None, 0)];
      && Filtered(rs, GuideQuery) == [rs[0]]
      && Filtered(rs, DefaultFilters) == rs
  {
    var rs := [Entry("a", "React Guide", Video, None, 0), Entry("b", "Vue Basics", Pdf, None, 0)];
    GuideFoundInTitle();
    GuideNotFoundElsewhere();
    assert rs[1..] == [rs[1]] && [rs[1]][1..] == [];
    assert Filtered([rs[1]], GuideQuery) == [];
    DefaultShowsAll(rs);
  }
}
