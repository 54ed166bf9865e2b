/**
 * The annotation-filling pass of fill_pdf_pdfrw, stated on values: what one
 * widget annotation's dictionary becomes, and what the list of pages becomes.
 * PdfForm proves the in-place loop over annotation objects against these.
 */
module FormFill {
  import opened Wrappers
  import opened FieldNames

  /**
   * A PDF object as the filler sees it through pdfrw.
   * Name(n): a name object; pdfrw's PdfName is the string "/" + n.
   * Str(raw): a string object as the raw literal-string token, e.g. "(NIF)".
   * Token(raw): a number, boolean or other bare token, e.g. "5" or "true";
   *   pdfrw's PdfObject is a Python string holding the token as written.
   * Int(i): a Python integer; the parser never produces one, only the
   *   filler itself, which stores 1 under /Ff.
   * Other(truthy): an array (a Python list) or a dictionary (a PdfDict);
   *   only whether Python's truth test accepts it (non-empty) matters here.
   */
  datatype PdfValue = Name(name: string) | Str(raw: string) | Token(raw: string) | Int(i: int) | Other(truthy: bool)

  /** An annotation dictionary, keyed by name text ("/T", "/V", ...). */
  type Dict = map<string, PdfValue>

  /** The page's /Annots entry: absent, or the annotation dictionaries in order. */
  datatype PageState = PageState(annots: Option<seq<Dict>>)

  const TitleKey := "/T"
  const ValueKey := "/V"
  const FlagsKey := "/Ff"

  /** Python's truth test on the object; a string-like object is true exactly when its text is non-empty. */
  predicate Truthy(v: PdfValue)
    ensures Text(v).Some? ==> (Truthy(v) <==> Text(v).value != "")
    ensures v.Name? ==> Truthy(v)
  {
    match v
    case Name(_) => true
    case Str(raw) => raw != ""
    case Token(raw) => raw != ""
    case Int(i) => i != 0
    case Other(truthy) => truthy
  }

  /** The text of a string-like object (PdfName, PdfString and PdfObject are Python strings); none otherwise. */
  function Text(v: PdfValue): Option<string>
  {
    match v
    case Name(n) => Some("/" + n)
    case Str(raw) => Some(raw)
    case Token(raw) => Some(raw)
    case _ => None
  }

  /**
   * What the filler does with an annotation's /T: skip it (absent or falsy),
   * look up a key, or fail because the object is not a string (Python raises:
   * a list has no startswith, and a PdfDict answers the attribute with None).
   */
  datatype FieldLookup = Unnamed | Named(key: string) | NotText

  /** Python gets past line 17 with this /T: it is absent, falsy, or has text. */
  predicate TitleReadable(d: Dict)
  {
    TitleKey !in d || !Truthy(d[TitleKey]) || Text(d[TitleKey]).Some?
  }

  /** The lookup key of an annotation: the normalised text of a truthy /T, which is never longer than that text. */
  function FieldKey(d: Dict): (r: FieldLookup)
    ensures r.NotText? <==> !TitleReadable(d)
    ensures r.Named? ==> TitleKey in d && Text(d[TitleKey]).Some? && Text(d[TitleKey]).value != ""
    ensures r.Named? ==> |r.key| <= |Text(d[TitleKey]).value|
  {
    if TitleKey !in d || !Truthy(d[TitleKey]) then Unnamed
    else match Text(d[TitleKey])
      case Some(t) => Named(Normalise(t))
      case None => NotText
  }

  /** The annotation is one the filler writes: it has a name and the name is bound. */
  predicate Matches(d: Dict, data: map<string, string>)
  {
    FieldKey(d).Named? && FieldKey(d).key in data
  }

  /** One annotation through the filler (the update of lines 19-22, when the key is bound). */
  function FillAnnotation(d: Dict, data: map<string, string>): (r: Dict)
    ensures TitleKey in r <==> TitleKey in d
    ensures TitleKey in d ==> r[TitleKey] == d[TitleKey]
    ensures Matches(d, data) ==>
              ValueKey in r && r[ValueKey] == Str(data[FieldKey(d).key]) && FlagsKey in r && r[FlagsKey] == Int(1)
  {
    if Matches(d, data) then
      d[ValueKey := Str(data[FieldKey(d).key])][FlagsKey := Int(1)]
    else
      d
  }

  /** An annotation is skipped exactly when /T is absent or fails Python's truth test. */
  lemma FieldKeySkips(d: Dict)
    ensures FieldKey(d).Unnamed? <==> TitleKey !in d || !Truthy(d[TitleKey])
  {
  }

  /** Python raises exactly on a truthy /T that is neither a name nor a string. */
  lemma FieldKeyFails(d: Dict)
    ensures FieldKey(d).NotText? <==> TitleKey in d && Truthy(d[TitleKey]) && (d[TitleKey].Int? || d[TitleKey].Other?)
    ensures FieldKey(d).NotText? <==> !TitleReadable(d)
  {
  }

  /**
   * A /T written as a literal string `(name)` is looked up as `name`; a bare
   * non-empty one, a number token such as `5` or `0` included, as itself.
   */
  lemma {:induction false} FieldKeyOfString(d: Dict, raw: string)
    requires TitleKey in d && (d[TitleKey] == Str(raw) || d[TitleKey] == Token(raw))
    ensures raw == "" ==> FieldKey(d) == Unnamed
    ensures forall name :: raw == "(" + name + ")" ==> FieldKey(d) == Named(name)
    ensures raw != "" && !Parenthesised(raw) ==> FieldKey(d) == Named(raw)
  {
    forall name | raw == "(" + name + ")"
      ensures FieldKey(d) == Named(name)
    {
      NormaliseUnwraps(name);
    }
  }

  /**
   * A matched annotation gets /V (the bound string) and /Ff = 1 and keeps
   * every other entry, /T included; any other annotation is untouched.
   */
  lemma FillAnnotationFrame(d: Dict, data: map<string, string>)
    ensures var r := FillAnnotation(d, data);
      && (Matches(d, data) ==> r.Keys == d.Keys + {ValueKey, FlagsKey})
      && (Matches(d, data) ==> r[ValueKey] == Str(data[FieldKey(d).key]) && r[FlagsKey] == Int(1))
      && (forall k :: k in d && k != ValueKey && k != FlagsKey ==> k in r && r[k] == d[k])
      && (!Matches(d, data) ==> r == d)
  {
  }

  /** Filling never touches /T, so the annotation's name reads the same afterwards. */
  lemma FillAnnotationKeepsName(d: Dict, data: map<string, string>)
    ensures TitleKey in FillAnnotation(d, data) <==> TitleKey in d
    ensures TitleKey in d ==> FillAnnotation(d, data)[TitleKey] == d[TitleKey]
    ensures FieldKey(FillAnnotation(d, data)) == FieldKey(d)
  {
  }

  /** In particular, whether Python can read /T is the same before and after filling. */
  lemma FillAnnotationKeepsReadable(d: Dict, data: map<string, string>)
    ensures TitleReadable(FillAnnotation(d, data)) == TitleReadable(d)
  {
    FillAnnotationKeepsName(d, data);
  }

  /** Filling an already filled annotation changes nothing more. */
  lemma FillAnnotationIdempotent(d: Dict, data: map<string, string>)
    ensures FillAnnotation(FillAnnotation(d, data), data) == FillAnnotation(d, data)
  {
    var once := FillAnnotation(d, data);
    FillAnnotationKeepsName(d, data);
    if Matches(d, data) {
      assert once[ValueKey := Str(data[FieldKey(d).key])][FlagsKey := Int(1)] == once;
    }
  }

  /** No annotation in the list has a /T the filler would choke on. */
  predicate NamesReadable(ds: seq<Dict>)
  {
    forall k :: 0 <= k < |ds| ==> TitleReadable(ds[k])
  }

  /** `rs` is `ds` with every annotation filled in place: same length, same order. */
  predicate FilledFrom(ds: seq<Dict>, rs: seq<Dict>, data: map<string, string>)
  {
    |rs| == |ds| && forall k :: 0 <= k < |ds| ==> rs[k] == FillAnnotation(ds[k], data)
  }

  /** The inner loop over one /Annots list; none when some /T has no text. */
  function FillAnnots(ds: seq<Dict>, data: map<string, string>): (r: Option<seq<Dict>>)
    ensures r.Some? <==> NamesReadable(ds)
    ensures r.Some? ==> FilledFrom(ds, r.value, data)
  {
    if ds == [] then Some([])
    else if !TitleReadable(ds[0]) then None
    else
      assert forall k :: 1 <= k < |ds| ==> ds[k] == ds[1..][k - 1];
      match FillAnnots(ds[1..], data)
      case None => None
      case Some(rest) => Some([FillAnnotation(ds[0], data)] + rest)
  }

  predicate PagesReadable(ps: seq<PageState>)
  {
    forall i :: 0 <= i < |ps| && ps[i].annots.Some? ==> NamesReadable(ps[i].annots.value)
  }

  /** `rs` is `ps` with every page's annotations filled: same pages, same /Annots presence. */
  predicate PagesFilledFrom(ps: seq<PageState>, rs: seq<PageState>, data: map<string, string>)
  {
    && |rs| == |ps|
    && forall i :: 0 <= i < |ps| ==>
         && rs[i].annots.Some? == ps[i].annots.Some?
         && (ps[i].annots.Some? ==> FilledFrom(ps[i].annots.value, rs[i].annots.value, data))
  }

  /** One page: pages without /Annots are passed over, the others filled entry by entry. */
  function FillPage(p: PageState, data: map<string, string>): (r: Option<PageState>)
    ensures r.Some? <==> (p.annots.Some? ==> NamesReadable(p.annots.value))
    ensures p.annots.None? ==> r == Some(p)
    ensures r.Some? && p.annots.Some? ==>
              r.value.annots.Some? && FilledFrom(p.annots.value, r.value.annots.value, data)
  {
    match p.annots
    case None => Some(p)
    case Some(ds) =>
      match FillAnnots(ds, data)
      case None => None
      case Some(rs) => Some(PageState(Some(rs)))
  }

  /** The outer loop over the document's pages; none when some page's annotations fail. */
  function FillPages(ps: seq<PageState>, data: map<string, string>): (r: Option<seq<PageState>>)
    ensures r.Some? <==> PagesReadable(ps)
    ensures r.Some? ==> PagesFilledFrom(ps, r.value, data)
  {
    if ps == [] then Some([])
    else match FillPage(ps[0], data)
      case None => None
      case Some(first) =>
        match FillPages(ps[1..], data)
        case None => None
        case Some(rest) => Some([first] + rest)
  }

  /** PagesFilledFrom pins the result down: it is what FillPages returns. */
  lemma {:induction false} FillPagesCharacterised(ps: seq<PageState>, rs: seq<PageState>, data: map<string, string>)
    requires PagesReadable(ps)
    requires PagesFilledFrom(ps, rs, data)
    ensures FillPages(ps, data) == Some(rs)
  {
    var r := FillPages(ps, data).value;
    assert |r| == |rs|;
    forall i | 0 <= i < |ps|
      ensures r[i] == rs[i]
    {
      if ps[i].annots.Some? {
        var a, b := r[i].annots.value, rs[i].annots.value;
        assert |a| == |b|;
        assert forall k :: 0 <= k < |a| ==> a[k] == b[k];
        assert a == b;
      }
    }
    assert r == rs;
  }

  /** Filling with an empty binding gives the document back unchanged. */
  lemma {:induction false} FillPagesNoData(ps: seq<PageState>)
    requires PagesReadable(ps)
    ensures FillPages(ps, map[]) == Some(ps)
  {
    forall i | 0 <= i < |ps| && ps[i].annots.Some?
      ensures FilledFrom(ps[i].annots.value, ps[i].annots.value, map[])
    {
    }
    FillPagesCharacterised(ps, ps, map[]);
  }

  /** Filling twice with the same binding gives the same document as filling once. */
  lemma {:induction false} FillPagesIdempotent(ps: seq<PageState>, data: map<string, string>)
    requires FillPages(ps, data).Some?
    ensures FillPages(FillPages(ps, data).value, data) == FillPages(ps, data)
  {
    var once := FillPages(ps, data).value;
    forall i, k | 0 <= i < |once| && once[i].annots.Some? && 0 <= k < |once[i].annots.value|
      ensures !FieldKey(once[i].annots.value[k]).NotText?
      ensures FillAnnotation(once[i].annots.value[k], data) == once[i].annots.value[k]
    {
      FillAnnotationIdempotent(ps[i].annots.value[k], data);
    }
    FillPagesCharacterised(once, once, data);
  }

  /**
   * Widgets sharing a name: every annotation whose normalised /T is the same
   * bound key ends with the same /V, the bound string.
   */
  lemma {:induction false} FillPagesConsistent(ps: seq<PageState>, data: map<string, string>,
                                               i: nat, k: nat, j: nat, l: nat)
    requires FillPages(ps, data).Some?
    requires i < |ps| && ps[i].annots.Some? && k < |ps[i].annots.value|
    requires j < |ps| && ps[j].annots.Some? && l < |ps[j].annots.value|
    requires FieldKey(ps[i].annots.value[k]) == FieldKey(ps[j].annots.value[l])
    requires Matches(ps[i].annots.value[k], data)
    ensures var out := FillPages(ps, data).value;
      && out[i].annots.value[k][ValueKey] == out[j].annots.value[l][ValueKey]
      && out[i].annots.value[k][ValueKey] == Str(data[FieldKey(ps[i].annots.value[k]).key])
  {
    var out := FillPages(ps, data).value;
    assert out[i].annots.value[k] == FillAnnotation(ps[i].annots.value[k], data);
    assert out[j].annots.value[l] == FillAnnotation(ps[j].annots.value[l], data);
  }

  /** An annotation the binding does not name comes out exactly as it went in. */
  lemma {:induction false} FillPagesUntouched(ps: seq<PageState>, data: map<string, string>, i: nat, k: nat)
    requires FillPages(ps, data).Some?
    requires i < |ps| && ps[i].annots.Some? && k < |ps[i].annots.value|
    requires !Matches(ps[i].annots.value[k], data)
    ensures FillPages(ps, data).value[i].annots.value[k] == ps[i].annots.value[k]
  {
    var out := FillPages(ps, data).value;
    assert out[i].annots.value[k] == FillAnnotation(ps[i].annots.value[k], data);
  }
}
