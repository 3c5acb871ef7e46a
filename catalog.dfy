/**
 * The catalogue record and the filtering and aggregation engine that both views share:
 * the filter predicate, the split by kind, the XP total and the subject facets.
 */
module Catalog {
  import opened Wrappers
  import opened Text
  import opened Seqs

  /** `type: 'VIDEO' | 'PDF'`. */
  datatype Kind = Video | Pdf

  /** `level: 'Débutant' | 'Intermédiaire' | 'Avancé' | null` (null is "all levels"). */
  datatype Level = Beginner | Intermediate | Advanced

  /** The label a level carries in the data and in the level select. */
  function LevelName(l: Level): String {
    match l
    case Beginner => "Débutant"
    case Intermediate => "Intermédiaire"
    case Advanced => "Avancé"
  }

  /** A catalogue entry, with the fields the engine and the cards read. */
  datatype Resource = Resource(
    id: String,
    title: String,
    description: Option<String>,
    kind: Kind,
    url: String,
    subject: Option<String>,
    level: Option<Level>,
    xp: int,
    thumbnail: Option<String>,
    tags: Option<seq<String>>)

  /** The tab selector `'ALL' | 'VIDEO' | 'PDF'`. */
  datatype Tab = All | Only(kind: Kind)

  /** The "any subject" and "any level" sentinels of the two selects. */
  const AnySubject: String := "Tous"
  const AnyLevel: String := "Tous niveaux"

  /** The four pieces of filter state a view holds. */
  datatype Filters = Filters(tab: Tab, subject: String, level: String, search: String)

  /** The state both views start in and return to on reset. */
  const DefaultFilters := Filters(All, AnySubject, AnyLevel, "")

  predicate TabAdmits(t: Tab, r: Resource) {
    t.All? || r.kind == t.kind
  }

  predicate SubjectAdmits(subject: String, r: Resource) {
    subject == AnySubject || r.subject == Some(subject)
  }

  predicate LevelAdmits(level: String, r: Resource) {
    level == AnyLevel || (r.level.Some? && LevelName(r.level.value) == level)
  }

  /** The three equality conditions that come before the search. */
  predicate FacetsAdmit(f: Filters, r: Resource) {
    TabAdmits(f.tab, r) && SubjectAdmits(f.subject, r) && LevelAdmits(f.level, r)
  }

  /** Some tag contains `q` once lower-cased (`tags.some(...)`). */
  predicate SomeTagContains(tags: seq<String>, q: String) {
    exists i :: 0 <= i < |tags| && Contains(Lower(tags[i]), q)
  }

  /** The lower-cased query `q` is found in the title, the description, the subject or a tag. */
  predicate SearchHits(r: Resource, q: String) {
    || Contains(Lower(r.title), q)
    || Contains(Lower(r.description.GetOr("")), q)
    || Contains(Lower(r.subject.GetOr("")), q)
    || SomeTagContains(r.tags.GetOr([]), q)
  }

  /** The filter callback: tab, subject and level first, then the search when it is non-empty. */
  predicate Matches(f: Filters, r: Resource) {
    if !TabAdmits(f.tab, r) then false
    else if !SubjectAdmits(f.subject, r) then false
    else if !LevelAdmits(f.level, r) then false
    else if f.search != [] then SearchHits(r, Lower(f.search))
    else true
  }

  /** The visible list. */
  function Filtered(rs: seq<Resource>, f: Filters): (r: seq<Resource>)
    ensures IsSubsequence(r, rs)
    ensures forall i :: 0 <= i < |r| ==> FacetsAdmit(f, r[i])
    ensures f.search != [] ==> forall i :: 0 <= i < |r| ==> SearchHits(r[i], Lower(f.search))
    ensures forall x :: multiset(r)[x] == if Matches(f, x) then multiset(rs)[x] else 0
  {
    Filter(rs, (x: Resource) => Matches(f, x))
  }

  /** The entries of one kind (`videos`, `pdfs` and the per-kind counts). */
  function OfKind(rs: seq<Resource>, k: Kind): (r: seq<Resource>)
    ensures IsSubsequence(r, rs)
    ensures forall i :: 0 <= i < |r| ==> r[i].kind == k
    ensures forall x :: x in r <==> x in rs && x.kind == k
    ensures forall x :: multiset(r)[x] == if x.kind == k then multiset(rs)[x] else 0
  {
    Filter(rs, (x: Resource) => x.kind == k)
  }

  /** `reduce((s, r) => s + r.xp, 0)` (integer addition is associative, so the fold may run from the right). */
  function TotalXp(rs: seq<Resource>): int
    decreases |rs|
  {
    if rs == [] then 0 else rs[0].xp + TotalXp(rs[1..])
  }

  /** A subject counts for the facets when it is non-null and non-empty (`filter(Boolean)`). */
  predicate HasSubject(r: Resource, s: String) {
    s != [] && r.subject == Some(s)
  }

  /** Subject `a` is carried by some entry that comes before every entry carrying `b`. */
  ghost predicate AppearsBefore(rs: seq<Resource>, a: String, b: String) {
    exists k :: 0 <= k < |rs| && HasSubject(rs[k], a) && forall m :: 0 <= m < k ==> !HasSubject(rs[m], b)
  }

  /** `Array.from(new Set(rs.map(r => r.subject).filter(Boolean)))`: each truthy subject once, in the
      order of its first appearance. */
  function DistinctSubjects(rs: seq<Resource>): (r: seq<String>)
    ensures NoDup(r)
    ensures forall s :: s in r <==> exists i :: 0 <= i < |rs| && HasSubject(rs[i], s)
    ensures forall i, j :: 0 <= i < j < |r| ==> AppearsBefore(rs, r[i], r[j])
    decreases |rs|
  {
    if rs == [] then []
    else
      var front, last := rs[..|rs| - 1], rs[|rs| - 1];
      assert rs == front + [last];
      var d := DistinctSubjects(front);
      var r := SetInsert(d, last);
      InsertKeepsNoDup(d, last);
      InsertMembership(front, last, d);
      AppearsBeforeExtends(front, last, d);
      if r != d then
        NewSubjectComesLast(front, last, d);
        r
      else
        r
  }

  /** The insertion step of `new Set(...)`: a truthy subject not yet present goes at the end. */
  function SetInsert(d: seq<String>, r: Resource): seq<String> {
    if r.subject.Some? && r.subject.value != [] && r.subject.value !in d then d + [r.subject.value] else d
  }

  lemma InsertKeepsNoDup(d: seq<String>, last: Resource)
    requires NoDup(d)
    ensures NoDup(SetInsert(d, last))
  {
  }

  lemma InsertMembership(front: seq<Resource>, last: Resource, d: seq<String>)
    requires forall s :: s in d <==> exists i :: 0 <= i < |front| && HasSubject(front[i], s)
    ensures forall s :: s in SetInsert(d, last) <==> exists i :: 0 <= i < |front + [last]| && HasSubject((front + [last])[i], s)
  {
    var rs := front + [last];
    forall s ensures s in SetInsert(d, last) <==> exists i :: 0 <= i < |rs| && HasSubject(rs[i], s) {
      if s in d {
        var i :| 0 <= i < |front| && HasSubject(front[i], s);
        assert rs[i] == front[i];
      }
      if HasSubject(last, s) {
        assert rs[|front|] == last;
      }
      if i :| 0 <= i < |rs| && HasSubject(rs[i], s) {
        if i < |front| {
          assert rs[i] == front[i];
        }
      }
    }
  }

  /** Orderings found in a prefix still hold once an entry is appended. */
  lemma AppearsBeforeExtends(front: seq<Resource>, last: Resource, d: seq<String>)
    requires forall i, j :: 0 <= i < j < |d| ==> AppearsBefore(front, d[i], d[j])
    ensures forall i, j :: 0 <= i < j < |d| ==> AppearsBefore(front + [last], d[i], d[j])
  {
    var rs := front + [last];
    forall i, j | 0 <= i < j < |d| ensures AppearsBefore(rs, d[i], d[j]) {
      var k :| 0 <= k < |front| && HasSubject(front[k], d[i]) && forall m :: 0 <= m < k ==> !HasSubject(front[m], d[j]);
      assert rs[k] == front[k];
      assert forall m :: 0 <= m < k ==> rs[m] == front[m];
    }
  }

  /** A subject first seen in the appended entry comes after every subject seen before it. */
  lemma NewSubjectComesLast(front: seq<Resource>, last: Resource, d: seq<String>)
    requires SetInsert(d, last) != d
    requires forall s :: s in d <==> exists i :: 0 <= i < |front| && HasSubject(front[i], s)
    requires forall i, j :: 0 <= i < j < |d| ==> AppearsBefore(front + [last], d[i], d[j])
    ensures forall i, j :: 0 <= i < j < |SetInsert(d, last)| ==> AppearsBefore(front + [last], SetInsert(d, last)[i], SetInsert(d, last)[j])
  {
    var rs, b, r := front + [last], last.subject.value, SetInsert(d, last);
    forall i | 0 <= i < |d| ensures AppearsBefore(rs, d[i], b) {
      assert d[i] in d;
      var k :| 0 <= k < |front| && HasSubject(front[k], d[i]);
      assert rs[k] == front[k];
      forall m | 0 <= m < k ensures !HasSubject(rs[m], b) {
        assert rs[m] == front[m];
      }
    }
    forall i, j | 0 <= i < j < |r| ensures AppearsBefore(rs, r[i], r[j]) {
      if j < |d| {
        assert r[i] == d[i] && r[j] == d[j];
      } else {
        assert r[i] == d[i] && r[j] == b;
      }
    }
  }

  /** `['Tous', ...distinct subjects]`: the options of the subject select. */
  function SubjectFacets(rs: seq<Resource>): (r: seq<String>)
    ensures |r| >= 1 && r[0] == AnySubject
    ensures NoDup(r[1..])
    ensures forall s :: s in r[1..] <==> exists i :: 0 <= i < |rs| && HasSubject(rs[i], s)
    ensures forall i, j :: 1 <= i < j < |r| ==> AppearsBefore(rs, r[i], r[j])
  {
    var d := DistinctSubjects(rs);
    assert ([AnySubject] + d)[1..] == d;
    [AnySubject] + d
  }

  // ---- Properties of the engine ----

  /** `q` is found in `s` once `s` is lower-cased: an occurrence exists at some position. */
  ghost predicate FoundIn(s: String, q: String) {
    exists i :: OccursAt(Lower(s), q, i)
  }

  /** The lower-cased query occurs in the lower-cased title, description, subject or one of the tags. */
  ghost predicate QueryFound(x: Resource, q: String) {
    || FoundIn(x.title, q)
    || FoundIn(x.description.GetOr(""), q)
    || FoundIn(x.subject.GetOr(""), q)
    || exists t :: 0 <= t < |x.tags.GetOr([])| && FoundIn(x.tags.GetOr([])[t], q)
  }

  /** An entry passing tab, subject and level is kept by a non-empty search exactly when the lower-cased query
      occurs in its lower-cased title, description, subject or one of its tags. */
  lemma FilteredWithSearch(rs: seq<Resource>, f: Filters, x: Resource)
    requires f.search != []
    requires FacetsAdmit(f, x)
    ensures x in Filtered(rs, f) <==> x in rs && QueryFound(x, Lower(f.search))
  {
  }

  /** With an empty search the visible list is exactly the entries that pass tab, subject and level. */
  lemma FilteredWithoutSearch(rs: seq<Resource>, f: Filters)
    requires f.search == []
    ensures forall x :: x in Filtered(rs, f) <==> x in rs && FacetsAdmit(f, x)
  {
  }

  /** The search is case-insensitive: a query and its lower-cased form select the same entries. */
  lemma SearchIgnoresCase(f: Filters, r: Resource)
    ensures Matches(f, r) == Matches(f.(search := Lower(f.search)), r)
  {
    LowerIdempotent(f.search);
  }

  /** The default filter state shows the whole catalogue. */
  lemma DefaultShowsAll(rs: seq<Resource>)
    ensures Filtered(rs, DefaultFilters) == rs
  {
    FilterAll(rs, (x: Resource) => Matches(DefaultFilters, x));
  }

  /** `videos` and `pdfs` split a list: together they hold each of its entries exactly once. */
  lemma KindPartition(xs: seq<Resource>)
    ensures multiset(OfKind(xs, Video)) + multiset(OfKind(xs, Pdf)) == multiset(xs)
    ensures |OfKind(xs, Video)| + |OfKind(xs, Pdf)| == |xs|
  {
    FilterComplement(xs, (x: Resource) => x.kind == Video, (x: Resource) => x.kind == Pdf);
  }

  /** The XP total is the XP of the videos plus the XP of the PDFs. */
  lemma {:induction false} TotalXpSplits(xs: seq<Resource>)
    ensures TotalXp(xs) == TotalXp(OfKind(xs, Video)) + TotalXp(OfKind(xs, Pdf))
    decreases |xs|
  {
    if xs != [] {
      TotalXpSplits(xs[1..]);
      var v, p := OfKind(xs[1..], Video), OfKind(xs[1..], Pdf);
      if xs[0].kind == Video {
        assert OfKind(xs, Video) == [xs[0]] + v;
        assert OfKind(xs, Pdf) == p;
        assert ([xs[0]] + v)[1..] == v;
      } else {
        assert OfKind(xs, Pdf) == [xs[0]] + p;
        assert OfKind(xs, Video) == v;
        assert ([xs[0]] + p)[1..] == p;
      }
    }
  }

  /** Selecting the tab of one kind shows exactly the entries of that kind that the ALL tab shows. */
  lemma {:induction false} TabSelectsKind(rs: seq<Resource>, f: Filters, k: Kind)
    ensures Filtered(rs, f.(tab := Only(k))) == OfKind(Filtered(rs, f.(tab := All)), k)
    decreases |rs|
  {
    if rs != [] {
      TabSelectsKind(rs[1..], f, k);
      var all := Filtered(rs[1..], f.(tab := All));
      if Matches(f.(tab := All), rs[0]) {
        assert Filtered(rs, f.(tab := All)) == [rs[0]] + all;
        assert ([rs[0]] + all)[1..] == all;
      }
    }
  }
}
