/**
 * The resources page: a resource row, the ordered list of categories, and
 * what is shown for a resource (a phase meditation, an embedded video,
 * a link, or its paragraphs).
 */
module Resources {
  import opened Wrappers
  import opened Strings
  import opened Lists
  import opened Sorting

  /** A row of the resource table; absent columns are `None`, `type` is `kind`. */
  datatype Resource = Resource(id: string, title: string, description: Option<string>, content: Option<string>,
                               category: Option<string>, kind: string, mediaUrl: Option<string>,
                               iconName: Option<string>, phaseAssociation: Option<int>)

  /** A JavaScript string value in a condition: `None`, `null` and `""` are false. */
  predicate Truthy(s: Option<string>) {
    s.Some? && s.value != ""
  }

  /** `o || fallback` on a string. */
  function OrElse(o: Option<string>, fallback: string): (r: string)
    ensures Truthy(o) ==> r == o.value
    ensures !Truthy(o) ==> r == fallback
  {
    if Truthy(o) then o.value else fallback
  }

  // ----- categories -----

  const OtherCategory: string := "Outros"

  /** The categories shown first, in this order. */
  const CategoryOrder: seq<string> := [
    "Fórmulas Lumina Restauris", "Meditações e Práticas Energéticas", "Conceitos Fundamentais",
    "Guias e E-books", "Ferramentas de Acompanhamento", "Práticas Complementares", "Outros"
  ]

  /** `item.category || "Outros"`. */
  function CategoryOf(r: Resource): string {
    OrElse(r.category, OtherCategory)
  }

  function CategoryList(rs: seq<Resource>): (r: seq<string>)
    ensures |r| == |rs| && forall i :: 0 <= i < |rs| ==> r[i] == CategoryOf(rs[i])
  {
    seq(|rs|, i requires 0 <= i < |rs| => CategoryOf(rs[i]))
  }

  /** `order.indexOf(c)`, -1 for a category that is not listed. */
  function OrderIndex(c: string): (r: int)
    ensures -1 <= r < |CategoryOrder|
    ensures r == -1 <==> c !in CategoryOrder
    ensures r >= 0 ==> CategoryOrder[r] == c
  {
    if c in CategoryOrder then FirstIndex(CategoryOrder, c) else -1
  }

  /** The comparator is negative: listed categories by their position, then listed before unlisted, then `localeCompare`. */
  predicate CategoryBefore(a: string, b: string) {
    var ia, ib := OrderIndex(a), OrderIndex(b);
    if ia != -1 && ib != -1 then ia < ib
    else if ia != -1 then true
    else if ib != -1 then false
    else Less(a, b)
  }

  function ByCategory(): (string, string) -> bool {
    (a: string, b: string) => CategoryBefore(a, b)
  }

  /** `[...new Set(resources.map(item => item.category || "Outros"))].sort(...)`. */
  function Categories(rs: seq<Resource>): (r: seq<string>)
    ensures Distinct(r)
    ensures forall c :: c in r <==> exists i :: 0 <= i < |rs| && CategoryOf(rs[i]) == c
  {
    var d := Dedup(CategoryList(rs));
    var r := SortBy(d, ByCategory());
    assert forall c :: c in r <==> c in multiset(d);
    assert Distinct(r) by {
      DistinctPermutation(d, r);
    }
    r
  }

  /** A rearrangement of a duplicate-free list is duplicate-free. */
  lemma DistinctPermutation<T>(d: seq<T>, r: seq<T>)
    requires Distinct(d) && multiset(d) == multiset(r)
    ensures Distinct(r)
  {
    forall i, j | 0 <= i < j < |r| ensures r[i] != r[j] {
      if r[i] == r[j] {
        assert multiset(r)[r[i]] >= 2 by {
          var rest := r[..i] + r[i + 1..];
          assert r == r[..i] + [r[i]] + r[i + 1..];
          assert r[j] in rest by {
            assert rest[j - 1] == r[j];
          }
          assert multiset(r) == multiset(rest) + multiset{r[i]};
        }
        DistinctCount(d, r[i]);
        assert false;
      }
    }
  }

  /** In a duplicate-free list a value occurs at most once. */
  lemma {:induction false} DistinctCount<T>(d: seq<T>, x: T)
    requires Distinct(d)
    ensures multiset(d)[x] <= 1
  {
    if d != [] {
      assert d == [d[0]] + d[1..];
      assert Distinct(d[1..]);
      DistinctCount(d[1..], x);
      if d[0] == x {
        assert x !in d[1..];
      }
    }
  }

  /** The comparator is a strict total order on strings. */
  lemma CategoryOrderStrict(s: seq<string>)
    ensures StrictTotalOn(s, ByCategory())
  {
    var before := ByCategory();
    forall a | a in s ensures !before(a, a) {
      LessIrreflexive(a);
    }
    forall a, b | a in s && b in s && a != b ensures before(a, b) || before(b, a) {
      LessTotal(a, b);
    }
    forall a, b, c | a in s && b in s && c in s && before(a, b) && before(b, c) ensures before(a, c) {
      if OrderIndex(a) == -1 && OrderIndex(b) == -1 && OrderIndex(c) == -1 {
        LessTransitive(a, b, c);
      }
    }
  }

  /** The category list is in comparator order: every earlier category compares below every later one. */
  lemma CategoriesSorted(rs: seq<Resource>)
    ensures StrictlySorted(Categories(rs), ByCategory())
  {
    var d := Dedup(CategoryList(rs));
    CategoryOrderStrict(d);
    SortByStrictlySorted(d, ByCategory());
  }

  /** Listed categories come first, by their position in the order; unlisted ones follow in string order. */
  lemma CategoryPlacement(rs: seq<Resource>, i: nat, j: nat)
    requires i < j < |Categories(rs)|
    ensures var a, b := Categories(rs)[i], Categories(rs)[j];
      (a in CategoryOrder && b in CategoryOrder ==> OrderIndex(a) < OrderIndex(b)) &&
      (b in CategoryOrder ==> a in CategoryOrder) &&
      (a !in CategoryOrder && b !in CategoryOrder ==> Less(a, b))
  {
    CategoriesSorted(rs);
    assert ByCategory()(Categories(rs)[i], Categories(rs)[j]);
  }

  // ----- video ids -----

  const YouTubeMarker: string := "youtube.com/watch?v="
  const VimeoMarker: string := "vimeo.com/"

  /** `url.split('v=')[1].split('&')[0]`, for a URL holding the YouTube marker. */
  function YouTubeId(url: string): (id: string)
    requires Contains(url, YouTubeMarker)
  {
    ContainsPart(url, YouTubeMarker, 18, "v=");
    SplitSecond(url, "v=");
    Split(Split(url, "v=")[1], "&")[0]
  }

  /** `url.split('vimeo.com/')[1].split('?')[0]`, for a URL holding the Vimeo marker. */
  function VimeoId(url: string): (id: string)
    requires Contains(url, VimeoMarker)
  {
    SplitSecond(url, VimeoMarker);
    Split(Split(url, VimeoMarker)[1], "?")[0]
  }

  /**
   * The id cut out of a URL after the first `mark` is the longest text there
   * that holds neither `stop` nor another `mark`.
   */
  lemma CutAfter(url: string, mark: string, stop: string)
    requires |mark| > 0 && |stop| > 0 && Contains(url, mark)
    ensures |Split(url, mark)| >= 2
    ensures var after := url[IndexOf(url, mark).value + |mark|..];
      var id := Split(Split(url, mark)[1], stop)[0];
      |id| <= |after| && id == after[..|id|] &&
      !Contains(id, stop) && !Contains(id, mark) &&
      (|id| < |after| ==> OccursAt(after, stop, |id|) || OccursAt(after, mark, |id|))
  {
    SplitSecond(url, mark);
    var after := url[IndexOf(url, mark).value + |mark|..];
    var piece := Split(after, mark)[0];
    var id := Split(piece, stop)[0];
    SplitHead(after, mark);
    SplitHead(piece, stop);
    SplitPiecesFree(piece, stop, 0);
    if Contains(id, mark) {
      var j := IndexOf(id, mark).value;
      OccursInPrefix(piece, mark, |id|, j);
      assert piece[..|id|] == id;
      SplitPiecesFree(after, mark, 0);
      assert Contains(piece, mark);
      assert false;
    }
    if |id| < |piece| {
      assert OccursAt(piece, stop, |id|);
      OccursInPrefix(after, stop, |piece|, |id|);
    }
  }

  /** The YouTube id is the text after the first `v=`, up to the next `&` or `v=`. */
  lemma YouTubeIdShape(url: string)
    requires Contains(url, YouTubeMarker)
    ensures Contains(url, "v=")
    ensures var after := url[IndexOf(url, "v=").value + 2..];
      var id := YouTubeId(url);
      |id| <= |after| && id == after[..|id|] && !Contains(id, "&") && !Contains(id, "v=") &&
      (|id| < |after| ==> OccursAt(after, "&", |id|) || OccursAt(after, "v=", |id|))
  {
    ContainsPart(url, YouTubeMarker, 18, "v=");
    CutAfter(url, "v=", "&");
  }

  /** The Vimeo id is the text after the first `vimeo.com/`, up to the next `?` or `vimeo.com/`. */
  lemma VimeoIdShape(url: string)
    requires Contains(url, VimeoMarker)
    ensures var after := url[IndexOf(url, VimeoMarker).value + |VimeoMarker|..];
      var id := VimeoId(url);
      |id| <= |after| && id == after[..|id|] && !Contains(id, "?") && !Contains(id, VimeoMarker) &&
      (|id| < |after| ==> OccursAt(after, "?", |id|) || OccursAt(after, VimeoMarker, |id|))
  {
    CutAfter(url, VimeoMarker, "?");
  }

  // ----- content display -----

  /** A rendered line of text: a break for a blank line, otherwise a paragraph. */
  datatype Line = Break | Paragraph(text: string)

  function LineOf(piece: string): Line {
    if IsBlank(piece) then Break else Paragraph(piece)
  }

  /** `content.split('\n').map(...)`. */
  function Paragraphs(content: string): (r: seq<Line>)
    ensures |r| == |Split(content, "\n")|
    ensures forall i :: 0 <= i < |r| ==> r[i] == LineOf(Split(content, "\n")[i])
  {
    var pieces := Split(content, "\n");
    seq(|pieces|, i requires 0 <= i < |pieces| => LineOf(pieces[i]))
  }

  /** What `ResourceContentDisplay` shows. */
  datatype Display =
    | Unavailable
    | PhaseMeditation(phase: int, content: Option<string>)
    | MeditationText(lines: seq<Line>)
    | MeditationSoon
    | YouTubeEmbed(videoId: string)
    | VimeoEmbed(videoId: string)
    | ExternalMedia(url: string)
    | AudioPlayer(url: string)
    | PdfLink(url: string)
    | Text(lines: seq<Line>)
    | ComingSoon

  const MeditationScript: string := "meditation_audio_script"

  /** The video shown for a `video_link` with a media URL. */
  function VideoDisplay(url: string): (d: Display)
    ensures Contains(url, YouTubeMarker) ==> d == YouTubeEmbed(YouTubeId(url))
    ensures !Contains(url, YouTubeMarker) && Contains(url, VimeoMarker) ==> d == VimeoEmbed(VimeoId(url))
    ensures !Contains(url, YouTubeMarker) && !Contains(url, VimeoMarker) ==> d == ExternalMedia(url)
  {
    if Contains(url, YouTubeMarker) then YouTubeEmbed(YouTubeId(url))
    else if Contains(url, VimeoMarker) then VimeoEmbed(VimeoId(url))
    else ExternalMedia(url)
  }

  /** `renderGenericContent()`: media by type when there is a URL, otherwise the text, otherwise a notice. */
  function GenericDisplay(r: Resource): Display {
    if Truthy(r.mediaUrl) && r.kind == "video_link" then VideoDisplay(r.mediaUrl.value)
    else if Truthy(r.mediaUrl) && r.kind == "audio_link" then AudioPlayer(r.mediaUrl.value)
    else if Truthy(r.mediaUrl) && r.kind == "pdf_link" then PdfLink(r.mediaUrl.value)
    else if Truthy(r.content) then Text(Paragraphs(r.content.value))
    else ComingSoon
  }

  /** `ResourceContentDisplay({ resource })`. */
  function ContentDisplay(resource: Option<Resource>): (d: Display)
    ensures resource.None? ==> d == Unavailable
    ensures resource.Some? && resource.value.kind != MeditationScript ==> d == GenericDisplay(resource.value)
  {
    if resource.None? then Unavailable
    else
      var r := resource.value;
      if r.kind == MeditationScript then
        if r.phaseAssociation.Some? && 1 <= r.phaseAssociation.value <= 4 then PhaseMeditation(r.phaseAssociation.value, r.content)
        else if r.content.Some? then MeditationText(Paragraphs(r.content.value))
        else MeditationSoon
      else GenericDisplay(r)
  }

  /** A meditation script goes to its phase's component exactly for phases 1 to 4; other phases show the text. */
  lemma MeditationDispatch(r: Resource)
    requires r.kind == MeditationScript
    ensures ContentDisplay(Some(r)).PhaseMeditation? <==> r.phaseAssociation.Some? && 1 <= r.phaseAssociation.value <= 4
    ensures ContentDisplay(Some(r)).PhaseMeditation? ==> ContentDisplay(Some(r)).phase == r.phaseAssociation.value
    ensures ContentDisplay(Some(r)).MeditationSoon? <==> !ContentDisplay(Some(r)).PhaseMeditation? && r.content.None?
  {
  }

  /**
   * The lines of a text are its `\n`-separated pieces: joined back they give
   * the text, and a line is a break exactly when its piece is blank.
   */
  lemma ParagraphsCoverText(content: string)
    ensures Join(Split(content, "\n"), "\n") == content
    ensures forall i :: 0 <= i < |Paragraphs(content)| ==>
      (Paragraphs(content)[i].Break? <==> IsBlank(Split(content, "\n")[i]))
    ensures forall i :: 0 <= i < |Paragraphs(content)| && Paragraphs(content)[i].Paragraph? ==>
      Paragraphs(content)[i].text == Split(content, "\n")[i] && !Contains(Paragraphs(content)[i].text, "\n")
  {
    JoinSplit(content, "\n");
    forall i | 0 <= i < |Paragraphs(content)|
      ensures !Contains(Split(content, "\n")[i], "\n")
    {
      SplitPiecesFree(content, "\n", i);
    }
  }
}
