/**
 * fill_pdf_pdfrw as it runs: pdfrw hands out the annotation dictionaries as
 * mutable objects, and the nested loop over pages and /Annots updates the
 * matched ones in place. The same annotation object may be listed more than
 * once (on several pages, or twice on one); the proof allows for that.
 */
module PdfForm {
  import opened Wrappers
  import opened FormFill

  /** A widget annotation's dictionary, updated in place by `annotation.update(...)`. */
  class Annotation {
    var dict: Dict

    constructor (dict: Dict)
      ensures this.dict == dict
    {
      this.dict := dict;
    }
  }

  /** A page: its /Annots entry, when present, lists annotation objects. */
  datatype Page = Page(annots: Option<seq<Annotation>>)

  /** Every annotation object listed on some page. */
  function Widgets(pages: seq<Page>): set<Annotation>
  {
    set i, k | 0 <= i < |pages| && pages[i].annots.Some? && 0 <= k < |pages[i].annots.value|
      :: pages[i].annots.value[k]
  }

  /** The annotation objects one page lists. */
  function PageWidgets(p: Page): set<Annotation>
  {
    match p.annots
    case None => {}
    case Some(annots) => set a | a in annots
  }

  /** The annotation objects listed on the first `i` pages. */
  function Visited(pages: seq<Page>, i: nat): set<Annotation>
    requires i <= |pages|
  {
    if i == 0 then {} else Visited(pages, i - 1) + PageWidgets(pages[i - 1])
  }

  /** The objects of the first pages are objects of the document, and all pages give all of them. */
  lemma {:induction false} VisitedWidgets(pages: seq<Page>, i: nat)
    requires i <= |pages|
    ensures Visited(pages, i) <= Widgets(pages)
    ensures i == |pages| ==> Visited(pages, i) == Widgets(pages)
  {
    if i > 0 {
      VisitedWidgets(pages, i - 1);
      forall a | a in PageWidgets(pages[i - 1])
        ensures a in Widgets(pages)
      {
        var l :| 0 <= l < |pages[i - 1].annots.value| && a == pages[i - 1].annots.value[l];
      }
    }
    if i == |pages| {
      forall a | a in Widgets(pages)
        ensures a in Visited(pages, i)
      {
        var j, l :| 0 <= j < |pages| && pages[j].annots.Some? && 0 <= l < |pages[j].annots.value|
                    && a == pages[j].annots.value[l];
        VisitedPage(pages, j, i);
      }
    }
  }

  /** A page's objects are among those of every longer prefix. */
  lemma {:induction false} VisitedPage(pages: seq<Page>, j: nat, i: nat)
    requires j < i <= |pages|
    ensures PageWidgets(pages[j]) <= Visited(pages, i)
  {
    if j < i - 1 {
      VisitedPage(pages, j, i - 1);
    }
  }

  /** The dictionaries of a list of annotation objects, in order. */
  ghost function Dicts(annots: seq<Annotation>): (ds: seq<Dict>)
    reads set a | a in annots
    ensures |ds| == |annots|
    ensures forall k :: 0 <= k < |annots| ==> ds[k] == annots[k].dict
  {
    if annots == [] then [] else [annots[0].dict] + Dicts(annots[1..])
  }

  /** The document's current content, as values. */
  ghost function Snapshot(pages: seq<Page>): (ps: seq<PageState>)
    reads Widgets(pages)
    ensures |ps| == |pages|
    ensures forall i :: 0 <= i < |pages| ==> ps[i].annots.Some? == pages[i].annots.Some?
    ensures forall i :: 0 <= i < |pages| && pages[i].annots.Some? ==>
              ps[i].annots.value == Dicts(pages[i].annots.value)
  {
    if pages == [] then []
    else
      var first := match pages[0].annots
        case None => PageState(None)
        case Some(annots) => PageState(Some(Dicts(annots)));
      [first] + Snapshot(pages[1..])
  }

  /**
   * The body of the inner loop of fill_pdf_pdfrw for one annotation: read
   * /T, normalise it, and update /V and /Ff when the key is bound. It
   * reports false when /T is truthy but has no text, where Python raises
   * before touching the annotation.
   */
  method FillWidget(annotation: Annotation, data: map<string, string>) returns (readable: bool)
    modifies annotation
    ensures readable <==> TitleReadable(old(annotation.dict))
    ensures annotation.dict == FillAnnotation(old(annotation.dict), data)
  {
    match FieldKey(annotation.dict) {
      case Unnamed =>
      case NotText =>
        FieldKeyFails(annotation.dict);
        return false;
      case Named(key) =>
        if key in data {
          annotation.dict := annotation.dict[ValueKey := Str(data[key])][FlagsKey := Int(1)];
        }
    }
    FieldKeyFails(old(annotation.dict));
    readable := true;
  }

  /**
   * The inner loop of fill_pdf_pdfrw over one /Annots list. It fails (false)
   * exactly when some listed annotation has a truthy /T without text, where
   * Python raises. Every listed object ends untouched or filled; on success,
   * every one is filled.
   */
  method FillAnnotationList(annots: seq<Annotation>, data: map<string, string>) returns (ok: bool)
    modifies set a | a in annots
    ensures ok <==> forall a :: a in annots ==> TitleReadable(old(a.dict))
    ensures forall a :: a in annots ==>
              a.dict == old(a.dict) || a.dict == FillAnnotation(old(a.dict), data)
    ensures ok ==> forall a :: a in annots ==> a.dict == FillAnnotation(old(a.dict), data)
  {
    var k := 0;
    while k < |annots|
      invariant 0 <= k <= |annots|
      invariant forall a :: a in annots ==>
                  a.dict == old(a.dict) || a.dict == FillAnnotation(old(a.dict), data)
      invariant forall l :: 0 <= l < k ==>
                  annots[l].dict == FillAnnotation(old(annots[l].dict), data) && TitleReadable(old(annots[l].dict))
    {
      var annotation := annots[k];
      ghost var seen := annotation.dict;
      var readable := FillWidget(annotation, data);
      FilledTwice(old(annotation.dict), seen, annotation.dict, data);
      FillAnnotationKeepsReadable(old(annotation.dict), data);
      if !readable {
        return false;
      }
      k := k + 1;
    }
    ok := true;
    forall a | a in annots
      ensures a.dict == FillAnnotation(old(a.dict), data) && TitleReadable(old(a.dict))
    {
      var l :| 0 <= l < |annots| && a == annots[l];
    }
  }

  /** An object filled once or twice, from any mix of the two, ends untouched or filled once. */
  lemma FilledTwice(d: Dict, once: Dict, twice: Dict, data: map<string, string>)
    requires once == d || once == FillAnnotation(d, data)
    requires twice == once || twice == FillAnnotation(once, data)
    ensures twice == d || twice == FillAnnotation(d, data)
    ensures once == FillAnnotation(d, data) ==> twice == once
    ensures twice == FillAnnotation(once, data) ==> twice == FillAnnotation(d, data)
  {
    FillAnnotationIdempotent(d, data);
  }

  /** The content the document has when each listed object holds the dictionary `dicts` gives it. */
  ghost function Contents(pages: seq<Page>, dicts: map<Annotation, Dict>): (ps: seq<PageState>)
    ensures |ps| == |pages|
  {
    if pages == [] then []
    else
      var first := match pages[0].annots
        case None => PageState(None)
        case Some(annots) => PageState(Some(seq(|annots|, l requires 0 <= l < |annots| =>
                               if annots[l] in dicts then dicts[annots[l]] else map[])));
      [first] + Contents(pages[1..], dicts)
  }

  /** Taken from the objects' current dictionaries, those contents are the snapshot. */
  lemma {:induction false} SnapshotContents(pages: seq<Page>, dicts: map<Annotation, Dict>)
    requires forall a :: a in Widgets(pages) ==> a in dicts && dicts[a] == a.dict
    ensures Snapshot(pages) == Contents(pages, dicts)
  {
    if pages != [] {
      assert Widgets(pages[1..]) <= Widgets(pages) by {
        forall a | a in Widgets(pages[1..])
          ensures a in Widgets(pages)
        {
          var j, l :| 0 <= j < |pages[1..]| && pages[1..][j].annots.Some?
                      && 0 <= l < |pages[1..][j].annots.value| && a == pages[1..][j].annots.value[l];
          assert pages[1..][j] == pages[j + 1];
        }
      }
      SnapshotContents(pages[1..], dicts);
      if pages[0].annots.Some? {
        var annots := pages[0].annots.value;
        forall l | 0 <= l < |annots|
          ensures annots[l] in Widgets(pages)
        {
        }
        assert Dicts(annots) == seq(|annots|, l requires 0 <= l < |annots| =>
                                  if annots[l] in dicts then dicts[annots[l]] else map[]);
      }
    }
  }

  /** The page entry of the contents at index `j`, listed object by object. */
  lemma {:induction false} ContentsAt(pages: seq<Page>, dicts: map<Annotation, Dict>, j: nat)
    requires j < |pages|
    ensures Contents(pages, dicts)[j].annots.Some? == pages[j].annots.Some?
    ensures pages[j].annots.Some? ==>
              |Contents(pages, dicts)[j].annots.value| == |pages[j].annots.value|
              && forall l :: 0 <= l < |pages[j].annots.value| && pages[j].annots.value[l] in dicts ==>
                   Contents(pages, dicts)[j].annots.value[l] == dicts[pages[j].annots.value[l]]
  {
    if j > 0 {
      ContentsAt(pages[1..], dicts, j - 1);
      assert pages[1..][j - 1] == pages[j];
      assert Contents(pages, dicts)[j] == Contents(pages[1..], dicts)[j - 1];
    }
  }

  /** One listed object whose /T has no text makes the whole fill fail. */
  lemma UnreadableWidget(pages: seq<Page>, dicts: map<Annotation, Dict>, a: Annotation,
                         data: map<string, string>)
    requires a in Widgets(pages) && a in dicts && !TitleReadable(dicts[a])
    ensures FillPages(Contents(pages, dicts), data).None?
  {
    var j, l :| 0 <= j < |pages| && pages[j].annots.Some? && 0 <= l < |pages[j].annots.value|
                && a == pages[j].annots.value[l];
    ContentsAt(pages, dicts, j);
    assert !NamesReadable(Contents(pages, dicts)[j].annots.value);
  }

  /**
   * Once every listed object holds the filled form of the dictionary
   * `dicts` gives it, and each of those had a readable /T, the document is
   * FillPages of the contents `dicts` describes.
   */
  lemma FilledSnapshot(pages: seq<Page>, dicts: map<Annotation, Dict>, data: map<string, string>)
    requires forall a :: a in Widgets(pages) ==>
               a in dicts && a.dict == FillAnnotation(dicts[a], data) && TitleReadable(dicts[a])
    ensures FillPages(Contents(pages, dicts), data) == Some(Snapshot(pages))
  {
    var ps := Contents(pages, dicts);
    var after := Snapshot(pages);
    forall j | 0 <= j < |pages|
      ensures ps[j].annots.Some? == pages[j].annots.Some?
    {
      ContentsAt(pages, dicts, j);
    }
    forall j | 0 <= j < |pages| && pages[j].annots.Some?
      ensures FilledFrom(ps[j].annots.value, after[j].annots.value, data)
      ensures NamesReadable(ps[j].annots.value)
    {
      ContentsAt(pages, dicts, j);
      forall l | 0 <= l < |pages[j].annots.value|
        ensures after[j].annots.value[l] == FillAnnotation(ps[j].annots.value[l], data)
        ensures TitleReadable(ps[j].annots.value[l])
      {
        assert pages[j].annots.value[l] in Widgets(pages);
      }
    }
    FillPagesCharacterised(ps, after, data);
  }

  /**
   * One turn of the page loop: fill the annotations page `i` lists. `orig`
   * holds every listed object's dictionary from before the loop; the objects
   * of the pages before `i` are already filled from it and the others are
   * untouched or filled. On success the same holds with page `i` counted in;
   * on failure some object of page `i` had a /T without text.
   */
  method FillPageOf(pages: seq<Page>, i: nat, data: map<string, string>,
                    ghost orig: map<Annotation, Dict>) returns (ok: bool)
    requires i < |pages|
    requires Widgets(pages) <= orig.Keys
    requires forall a :: a in Widgets(pages) ==>
               a.dict == orig[a] || a.dict == FillAnnotation(orig[a], data)
    requires Visited(pages, i) <= Widgets(pages)
    requires forall a :: a in Visited(pages, i) ==>
               a.dict == FillAnnotation(orig[a], data) && TitleReadable(orig[a])
    modifies PageWidgets(pages[i])
    ensures forall a :: a in Widgets(pages) ==>
              a.dict == orig[a] || a.dict == FillAnnotation(orig[a], data)
    ensures ok ==> Visited(pages, i + 1) <= Widgets(pages)
    ensures ok ==> forall a :: a in Visited(pages, i + 1) ==>
                     a.dict == FillAnnotation(orig[a], data) && TitleReadable(orig[a])
    ensures !ok ==> exists a :: a in PageWidgets(pages[i]) && !TitleReadable(orig[a])
  {
    VisitedWidgets(pages, i);
    ok := true;
    match pages[i].annots {
      case None =>
      case Some(annots) =>
        assert forall m :: 0 <= m < |annots| ==> annots[m] in Widgets(pages);
        ok := FillAnnotationList(annots, data);
        forall a | a in annots
          ensures a.dict == orig[a] || a.dict == FillAnnotation(orig[a], data)
          ensures a in Visited(pages, i) ==> a.dict == FillAnnotation(orig[a], data)
          ensures ok ==> a.dict == FillAnnotation(orig[a], data) && TitleReadable(orig[a])
          ensures TitleReadable(old(a.dict)) == TitleReadable(orig[a])
        {
          FilledTwice(orig[a], old(a.dict), a.dict, data);
          FillAnnotationKeepsReadable(orig[a], data);
        }
    }
  }

  /**
   * The page loop of fill_pdf_pdfrw. It fails (false) exactly when some
   * listed annotation has a truthy /T without text; on success the
   * document is FillPages of the old one. Either way every annotation
   * object ends untouched or filled, and nothing else changes.
   */
  method Fill(pages: seq<Page>, data: map<string, string>) returns (ok: bool)
    modifies Widgets(pages)
    ensures ok <==> FillPages(old(Snapshot(pages)), data).Some?
    ensures ok ==> Snapshot(pages) == FillPages(old(Snapshot(pages)), data).value
    ensures forall a :: a in Widgets(pages) ==>
              a.dict == old(a.dict) || a.dict == FillAnnotation(old(a.dict), data)
  {
    // every listed object's dictionary on entry
    ghost var orig: map<Annotation, Dict> := map a: Annotation | a in Widgets(pages) :: a.dict;
    SnapshotContents(pages, orig);
    var i := 0;
    while i < |pages|
      invariant 0 <= i <= |pages|
      invariant forall a :: a in Widgets(pages) ==>
                  a.dict == orig[a] || a.dict == FillAnnotation(orig[a], data)
      invariant Visited(pages, i) <= Widgets(pages)
      invariant forall a :: a in Visited(pages, i) ==>
                  a.dict == FillAnnotation(orig[a], data) && TitleReadable(orig[a])
    {
      VisitedWidgets(pages, i);
      var pageOk := FillPageOf(pages, i, data, orig);
      if !pageOk {
        ghost var bad :| bad in PageWidgets(pages[i]) && !TitleReadable(orig[bad]);
        assert bad in Widgets(pages);
        UnreadableWidget(pages, orig, bad, data);
        return false;
      }
      i := i + 1;
    }
    ok := true;
    VisitedWidgets(pages, i);
    FilledSnapshot(pages, orig, data);
  }
}
