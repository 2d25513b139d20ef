/** The content extractor and bounder of the URL path. A fetched page is
    given as its paragraph elements in document order, each marked with
    whether it lies inside an `article` element; parsing the HTML and
    evaluating the CSS selectors are not part of this model. */
module Extractor {
  import opened JsText

  /** One `<p>` element: its text content and whether `article p` selects it. */
  datatype Para = Para(text: string, inArticle: bool)

  /** Upper bound of `slice(0, 8000)` on fetched content. */
  const MaxContent: nat := 8000

  /** `Array.prototype.join(" ")` on a list of strings. The join is the
      falsy "" exactly for no strings or the single string "". */
  function JoinSpace(xs: seq<string>): (r: string)
    ensures r == "" <==> xs == [] || xs == [""]
  {
    if |xs| == 0 then "" else if |xs| == 1 then xs[0] else xs[0] + " " + JoinSpace(xs[1..])
  }

  /** Texts of the paragraphs `$("article p")` selects, in document order:
      each is the text of an article paragraph, and there are none exactly
      when the page has no article paragraph. */
  function ArticleTexts(doc: seq<Para>): (r: seq<string>)
    ensures |r| <= |doc|
    ensures forall k :: 0 <= k < |r| ==> exists i :: 0 <= i < |doc| && doc[i].inArticle && doc[i].text == r[k]
    ensures r == [] <==> forall i :: 0 <= i < |doc| ==> !doc[i].inArticle
  {
    if doc == [] then []
    else (if doc[0].inArticle then [doc[0].text] else []) + ArticleTexts(doc[1..])
  }

  /** Texts of all paragraphs, `$("p")`, in document order. */
  function PageTexts(doc: seq<Para>): (r: seq<string>)
    ensures |r| == |doc| && forall i :: 0 <= i < |doc| ==> r[i] == doc[i].text
  {
    seq(|doc|, i requires 0 <= i < |doc| => doc[i].text)
  }

  /** The text the handler extracts: the space-joined article paragraphs,
      replaced by the space-joined page paragraphs only when the former is
      exactly "" (a falsy string), not when it is merely blank. Either way it
      is one of the two joins, and a page without article paragraphs always
      gets the page join. */
  function ExtractedText(doc: seq<Para>): (r: string)
    ensures r == JoinSpace(ArticleTexts(doc)) || r == JoinSpace(PageTexts(doc))
    ensures ArticleTexts(doc) == [] ==> r == JoinSpace(PageTexts(doc))
  {
    var articleText := JoinSpace(ArticleTexts(doc));
    if articleText == "" then JoinSpace(PageTexts(doc)) else articleText
  }

  /** The handler gives up on the page: the extracted text trims to "", that
      is, it is blank. */
  predicate ExtractionFails(doc: seq<Para>)
    ensures ExtractionFails(doc) <==> AllWs(ExtractedText(doc))
  {
    TrimBlankIff(ExtractedText(doc));
    Trim(ExtractedText(doc)) == ""
  }

  /** `slice(0, MaxContent)`: the longest prefix of at most MaxContent
      characters. */
  function Bound(s: string): (r: string)
    ensures |r| <= MaxContent && |r| <= |s| && r == s[..|r|]
    ensures |s| <= MaxContent ==> r == s
    ensures |s| > MaxContent ==> |r| == MaxContent
  {
    if |s| <= MaxContent then s else s[..MaxContent]
  }

  predicate AllBlank(xs: seq<string>) {
    forall i :: 0 <= i < |xs| ==> AllWs(xs[i])
  }

  /** The join is blank exactly when every joined string is blank. */
  lemma {:induction false} JoinBlankIff(xs: seq<string>)
    ensures AllWs(JoinSpace(xs)) <==> AllBlank(xs)
  {
    if |xs| >= 2 {
      JoinBlankIff(xs[1..]);
      var j := JoinSpace(xs);
      var rest := JoinSpace(xs[1..]);
      assert j == xs[0] + " " + rest;
      if AllWs(j) {
        forall i | 0 <= i < |xs[0]| ensures IsWs(xs[0][i]) { assert j[i] == xs[0][i]; }
        forall i | 0 <= i < |rest| ensures IsWs(rest[i]) { assert j[|xs[0]| + 1 + i] == rest[i]; }
        forall i | 0 <= i < |xs| ensures AllWs(xs[i]) {
          if i > 0 { assert xs[i] == xs[1..][i - 1]; }
        }
      }
      if AllBlank(xs) {
        assert AllWs(xs[0]);
        assert AllBlank(xs[1..]) by {
          forall i | 0 <= i < |xs| - 1 ensures AllWs(xs[1..][i]) { assert xs[1..][i] == xs[i + 1]; }
        }
      }
    }
  }

  /** The article selection keeps document order: it distributes over
      concatenation of documents. */
  lemma {:induction false} ArticleTextsAppend(d1: seq<Para>, d2: seq<Para>)
    ensures ArticleTexts(d1 + d2) == ArticleTexts(d1) + ArticleTexts(d2)
  {
    if d1 != [] {
      assert (d1 + d2)[0] == d1[0];
      assert (d1 + d2)[1..] == d1[1..] + d2;
      ArticleTextsAppend(d1[1..], d2);
    } else {
      assert d1 + d2 == d2;
    }
  }

  /** Which text the extractor picks: the fallback to all paragraphs happens
      exactly when there are no article paragraphs or exactly one, with empty
      text; otherwise the article join is kept. */
  lemma FallbackTrigger(doc: seq<Para>)
    ensures var a := ArticleTexts(doc);
      ExtractedText(doc) == if a == [] || a == [""] then JoinSpace(PageTexts(doc)) else JoinSpace(a)
  {
  }

  /** Paragraphs outside `article` do not affect the extracted text once the
      article join is non-empty, wherever they occur in the document. */
  lemma OutsideParagraphIgnored(pre: seq<Para>, post: seq<Para>, t: string)
    requires JoinSpace(ArticleTexts(pre + post)) != ""
    ensures ExtractedText(pre + [Para(t, false)] + post) == ExtractedText(pre + post)
    ensures ExtractedText(pre + post) == JoinSpace(ArticleTexts(pre + post))
  {
    ArticleTextsAppend(pre, post);
    ArticleTextsAppend(pre + [Para(t, false)], post);
    ArticleTextsAppend(pre, [Para(t, false)]);
    assert ArticleTexts([Para(t, false)]) == [];
    assert ArticleTexts(pre + [Para(t, false)]) == ArticleTexts(pre);
  }

  /** A page whose paragraphs all lie outside `article` yields the space-joined
      text of all its paragraphs. */
  lemma OutsideOnly(doc: seq<Para>)
    requires forall i :: 0 <= i < |doc| ==> !doc[i].inArticle
    ensures ExtractedText(doc) == JoinSpace(PageTexts(doc))
  {
  }

  /** When extraction fails: every article paragraph is blank, and either the
      article join is non-empty, which suppresses the fallback, or every
      paragraph of the page is blank. The article join is non-empty and blank
      for two or more blank article paragraphs, and also for a single article
      paragraph whose text is whitespace but not "" (a lone `&nbsp;`, say). */
  lemma ExtractionFailsIff(doc: seq<Para>)
    ensures ExtractionFails(doc) <==>
      AllBlank(ArticleTexts(doc)) && (JoinSpace(ArticleTexts(doc)) != "" || AllBlank(PageTexts(doc)))
  {
    var a := ArticleTexts(doc);
    TrimBlankIff(ExtractedText(doc));
    JoinBlankIff(a);
    JoinBlankIff(PageTexts(doc));
    if JoinSpace(a) == "" {
      assert AllBlank(a);
    }
  }

  /** Blank article paragraphs whose join is not "" make extraction fail
      whatever the rest of the page holds: two or more of them, or a single
      one whose text is whitespace but not empty. */
  lemma BlankArticleBlocksFallback(doc: seq<Para>)
    requires JoinSpace(ArticleTexts(doc)) != "" && AllBlank(ArticleTexts(doc))
    ensures ExtractionFails(doc)
    ensures |ArticleTexts(doc)| >= 2 || (ArticleTexts(doc) != [] && ArticleTexts(doc)[0] != "")
  {
    ExtractionFailsIff(doc);
  }

  /** An instance: an article holding only a non-breaking space, next to a
      paragraph of text outside it. The page join has text, but the fallback
      never looks at it, and extraction fails. */
  lemma NbspArticleFails()
    ensures var doc := [Para("\U{00A0}", true), Para("hello", false)];
      JoinSpace(PageTexts(doc)) == "\U{00A0} hello" && ExtractionFails(doc)
  {
    var doc := [Para("\U{00A0}", true), Para("hello", false)];
    assert ArticleTexts(doc) == ["\U{00A0}"];
    BlankArticleBlocksFallback(doc);
  }

  /** A page without any non-blank paragraph, in particular one without
      paragraphs, makes extraction fail. */
  lemma BlankPageFails(doc: seq<Para>)
    requires forall i :: 0 <= i < |doc| ==> AllWs(doc[i].text)
    ensures ExtractionFails(doc)
  {
    ExtractionFailsIff(doc);
    ArticleTextsBlank(doc);
  }

  lemma {:induction false} ArticleTextsBlank(doc: seq<Para>)
    requires forall i :: 0 <= i < |doc| ==> AllWs(doc[i].text)
    ensures AllBlank(ArticleTexts(doc))
  {
    if doc != [] {
      ArticleTextsBlank(doc[1..]);
      ArticleTextsAppend([doc[0]], doc[1..]);
      assert [doc[0]] + doc[1..] == doc;
    }
  }

  /** Every article paragraph's text is among those `article p` selects. */
  lemma {:induction false} ArticleTextsHas(doc: seq<Para>, k: nat)
    requires k < |doc| && doc[k].inArticle
    ensures doc[k].text in ArticleTexts(doc)
  {
    if k > 0 {
      ArticleTextsHas(doc[1..], k - 1);
    }
  }

  /** A non-blank article paragraph makes the article join the extracted
      text, and extraction succeeds. */
  lemma ReadableArticle(doc: seq<Para>, k: nat)
    requires k < |doc| && doc[k].inArticle && !AllWs(doc[k].text)
    ensures ExtractedText(doc) == JoinSpace(ArticleTexts(doc))
    ensures !ExtractionFails(doc)
  {
    var a := ArticleTexts(doc);
    ArticleTextsHas(doc, k);
    var j :| 0 <= j < |a| && a[j] == doc[k].text;
    assert !AllBlank(a);
    JoinBlankIff(a);
  }
}
