/**
  The upload side of the backend: `structure_slide` turns a slide's text and
  category into a title, cleaned bullet points and a diagram hint, and the upload
  handler enriches every extracted slide with its category and that structure.
 */
module SlideUpload {
  import opened Wrappers
  import opened Text
  import opened ContextBuilder
  import opened SlideClassifier

  /** The characters `lstrip("-•* ")` removes from the front of a point. */
  const BulletChars: set<char> := {'-', '\U{2022}', '*', ' '}

  /** `p.lstrip("-•* ").strip()`: bullet markers and spaces go first, then surrounding whitespace. */
  function CleanPoint(p: string): (r: string)
    ensures Trimmed(r, Python)
    ensures |r| <= |p|
  {
    PyStrip(LStripChars(p, BulletChars))
  }

  /** The elements of `s` that satisfy `keep`, in order. */
  function Filter<T>(s: seq<T>, keep: T -> bool): (r: seq<T>)
    ensures |r| <= |s|
    ensures forall x :: x in r ==> x in s && keep(x)
  {
    if s == [] then [] else (if keep(s[0]) then [s[0]] else []) + Filter(s[1..], keep)
  }

  /** A filter that every element passes keeps the sequence whole. */
  lemma {:induction false} FilterAll<T>(s: seq<T>, keep: T -> bool)
    requires forall i :: 0 <= i < |s| ==> keep(s[i])
    ensures Filter(s, keep) == s
  {
    if s != [] {
      assert keep(s[0]);
      FilterAll(s[1..], keep);
    }
  }

  /** The test of the comprehension's `if p.strip()`. */
  predicate NotBlank(p: string) {
    PyStrip(p) != ""
  }

  /** `[CleanPoint(p) for p in points if p.strip()]`. */
  function CleanPoints(points: seq<string>): (r: seq<string>)
    ensures |r| <= |points|
  {
    var kept := Filter(points, NotBlank);
    seq(|kept|, i requires 0 <= i < |kept| => CleanPoint(kept[i]))
  }

  /** On lines that strip to themselves and are non-empty the filter keeps every point. */
  lemma CleanPointsKeepsAll(points: seq<string>)
    requires forall i :: 0 <= i < |points| ==> points[i] != "" && PyStrip(points[i]) == points[i]
    ensures |CleanPoints(points)| == |points|
    ensures forall i :: 0 <= i < |points| ==> CleanPoints(points)[i] == CleanPoint(points[i])
  {
    FilterAll(points, NotBlank);
  }

  /** `diagram_map` of `structure_slide`. */
  const DiagramMap: map<string, string> := map[
    "process" := "flowchart",
    "comparison" := "split",
    "hierarchy" := "tree",
    "definition" := "concept",
    "list" := "bullets"
  ]

  /** `diagram_map.get(category, "unknown")`. */
  function DiagramType(category: string): (d: string)
    ensures d == "unknown" <==> category !in DiagramMap
    ensures d in {"flowchart", "split", "tree", "concept", "bullets", "unknown"}
  {
    if category in DiagramMap then DiagramMap[category] else "unknown"
  }

  /** The dictionary `structure_slide` returns. */
  datatype Structured = Structured(title: string, points: seq<string>, diagramType: string)

  /** `structure_slide`. */
  function StructureSlide(text: string, category: string): Structured {
    var lines := NonBlankLines(text);
    var title := if |lines| > 0 then lines[0] else "";
    var points := if |lines| > 1 then lines[1..] else [];
    Structured(title, CleanPoints(points), DiagramType(category))
  }

  /**
    The title is the first non-blank line (or ""), and there is one point per
    further non-blank line, cleaned of its bullet marker: the `if p.strip()`
    filter never drops anything.
   */
  lemma StructureSlideShape(text: string, category: string)
    ensures var lines, st := NonBlankLines(text), StructureSlide(text, category);
      && st.title == (if lines == [] then "" else lines[0])
      && |st.points| == (if |lines| == 0 then 0 else |lines| - 1)
      && (forall i :: 0 <= i < |st.points| ==> st.points[i] == CleanPoint(lines[i + 1]))
      && st.diagramType == DiagramType(category)
  {
    var lines, st := NonBlankLines(text), StructureSlide(text, category);
    if |lines| > 1 {
      var rest := lines[1..];
      RestStripped(lines);
      CleanPointsKeepsAll(rest);
      assert st.points == CleanPoints(rest);
      forall i | 0 <= i < |st.points|
        ensures st.points[i] == CleanPoint(lines[i + 1])
      {
        assert rest[i] == lines[i + 1];
      }
    }
  }

  /** The lines after the first of a list of non-empty stripped lines strip to themselves. */
  lemma RestStripped(lines: seq<string>)
    requires |lines| > 1
    requires forall line :: line in lines ==> line != "" && Trimmed(line, Python)
    ensures forall i :: 0 <= i < |lines| - 1 ==> lines[1..][i] != "" && PyStrip(lines[1..][i]) == lines[1..][i]
  {
    forall i | 0 <= i < |lines| - 1
      ensures lines[1..][i] != "" && PyStrip(lines[1..][i]) == lines[1..][i]
    {
      assert lines[1..][i] == lines[i + 1] && lines[i + 1] in lines;
      TrimOfTrimmed(lines[i + 1], Python);
    }
  }

  /** A slide as `extract_slides_text` produces it: its 1-based number and its text. */
  datatype ExtractedSlide = ExtractedSlide(slideNo: int, rawText: string)

  /**
    A slide dictionary during upload; the enriched keys are absent (`None`)
    until the loop adds them.
   */
  datatype SlideDict = SlideDict(
    slideNo: int,
    rawText: string,
    category: Option<string>,
    title: Option<string>,
    points: Option<seq<string>>,
    diagramType: Option<string>)

  function FromExtracted(e: ExtractedSlide): SlideDict {
    SlideDict(e.slideNo, e.rawText, None, None, None, None)
  }

  /** One iteration of the upload loop: `slide["category"] = …` then `slide.update(structure_slide(…))`. */
  function Enriched(d: SlideDict): SlideDict {
    var category := ClassifySlide(d.rawText);
    var st := StructureSlide(d.rawText, category);
    d.(category := Some(category), title := Some(st.title), points := Some(st.points), diagramType := Some(st.diagramType))
  }

  /**
    An enriched slide keeps its number and text, its category is the classifier's
    label for the text, and its diagram hint is the one that category maps to,
    "unknown" exactly for the "unknown" category.
   */
  lemma EnrichedFields(d: SlideDict)
    ensures var e := Enriched(d);
      && e.slideNo == d.slideNo && e.rawText == d.rawText
      && e.category == Some(ClassifySlide(d.rawText))
      && e.category.value in Categories
      && e.diagramType == Some(DiagramType(e.category.value))
      && (e.diagramType.value == "unknown" <==> e.category.value == "unknown")
      && e.title.Some? && e.points.Some?
  {
  }

  /** Replaces every element of `a`, in index order, by `f` of it. */
  method UpdateEach<T>(a: array<T>, f: T -> T)
    modifies a
    ensures forall i :: 0 <= i < a.Length ==> a[i] == f(old(a[i]))
  {
    ghost var before := a[..];
    for i := 0 to a.Length
      invariant forall k :: 0 <= k < i ==> a[k] == f(before[k])
      invariant forall k :: i <= k < a.Length ==> a[k] == before[k]
    {
      a[i] := f(a[i]);
    }
  }

  /** The loop at the heart of `upload_ppt`, updating each slide dictionary in place. */
  method EnrichSlides(slides: array<SlideDict>)
    modifies slides
    ensures forall i :: 0 <= i < slides.Length ==> slides[i] == Enriched(old(slides[i]))
  {
    UpdateEach(slides, Enriched);
  }

  /** The response of `upload_ppt`. */
  datatype UploadResponse = UploadResponse(filename: string, slideCount: int, slides: seq<SlideDict>)

  /**
    `upload_ppt` after the file has been saved and parsed: `extracted` is what
    `extract_slides_text` returned for it.
   */
  method UploadPpt(filename: string, extracted: seq<ExtractedSlide>) returns (resp: UploadResponse)
    ensures resp.filename == filename
    ensures resp.slideCount == |extracted| == |resp.slides|
    ensures forall i :: 0 <= i < |extracted| ==> resp.slides[i] == Enriched(FromExtracted(extracted[i]))
  {
    var slides := new SlideDict[|extracted|](i requires 0 <= i < |extracted| => FromExtracted(extracted[i]));
    EnrichSlides(slides);
    resp := UploadResponse(filename, slides.Length, slides[..]);
  }
}
