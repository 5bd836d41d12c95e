/** `cleanText` and `scrapeURL` of src/app/utils/scrapers.ts.  The HTTP request (`axios.get`)
    and the HTML selection (`cheerio`) are not modelled: the strings the selectors return are the
    input `PageText`, and whether the request and the parse succeeded is the input `Fetch`. */
module Scrapers {
  import opened Wrappers
  import opened JsText

  // ---------------------------------------------------------------------------------------
  // cleanText

  /** `s.replace(/\s+/g, ' ')`: each maximal run of whitespace becomes one space. */
  function CollapseSpaces(s: string): (r: string)
    ensures r == [] <==> s == []
    ensures r != [] ==> (IsSpace(r[0]) <==> IsSpace(s[0]))
    decreases |s|
  {
    if s == [] then []
    else if IsSpace(s[0]) then
      var t := TrimStart(s);
      assert |t| < |s|;
      " " + CollapseSpaces(t)
    else [s[0]] + CollapseSpaces(s[1..])
  }

  /** Every whitespace character is a plain space and no two are adjacent. */
  predicate Collapsed(s: string) {
    && (forall k :: 0 <= k < |s| && IsSpace(s[k]) ==> s[k] == ' ')
    && (forall k :: 0 <= k < |s| - 1 ==> !(IsSpace(s[k]) && IsSpace(s[k + 1])))
  }

  /** The shape `cleanText` promises: collapsed and without whitespace at either end. */
  predicate Normalized(s: string) {
    Collapsed(s) && (s == [] || (!IsSpace(s[0]) && !IsSpace(s[|s| - 1])))
  }

  /** After `replace(/\s+/g, ' ')` only single plain spaces are left. */
  lemma {:induction false} CollapseSpacesCollapsed(s: string)
    ensures Collapsed(CollapseSpaces(s))
    decreases |s|
  {
    if s != [] {
      var head, t := if IsSpace(s[0]) then " " else [s[0]], if IsSpace(s[0]) then TrimStart(s) else s[1..];
      var c := CollapseSpaces(t);
      CollapseSpacesCollapsed(t);
      assert CollapseSpaces(s) == head + c;
      assert IsSpace(head[0]) ==> c == [] || !IsSpace(c[0]);
      assert forall k :: 1 <= k < |head + c| ==> (head + c)[k] == c[k - 1];
    }
  }

  lemma CollapsedSlice(s: string, i: nat, j: nat)
    requires Collapsed(s) && i <= j <= |s|
    ensures Collapsed(s[i..j])
  {
    assert forall k :: 0 <= k < j - i ==> s[i..j][k] == s[i + k];
  }

  /** `cleanText(text)`: whitespace runs collapsed to one space, then trimmed. */
  function CleanText(text: string): string {
    Trim(CollapseSpaces(text))
  }

  /** `cleanText` leaves single plain spaces between words and none at either end. */
  lemma CleanTextNormalized(text: string)
    ensures Normalized(CleanText(text))
  {
    var c := CollapseSpaces(text);
    var i, j := TrimSlice(c);
    CollapseSpacesCollapsed(text);
    CollapsedSlice(c, i, j);
  }

  // The words of a string: its maximal runs of non-whitespace characters, in order.

  function TakeWord(s: string): (w: string)
    ensures w <= s && NoSpace(w)
    ensures |w| < |s| ==> IsSpace(s[|w|])
  {
    if s == [] || IsSpace(s[0]) then [] else [s[0]] + TakeWord(s[1..])
  }

  function Words(s: string): (ws: seq<string>)
    ensures forall i :: 0 <= i < |ws| ==> ws[i] != [] && NoSpace(ws[i])
    decreases |s|
  {
    if s == [] then []
    else if IsSpace(s[0]) then Words(s[1..])
    else
      var w := TakeWord(s);
      [w] + Words(s[|w|..])
  }

  lemma {:induction false} TakeWordBeforeSpace(a: string, c: char, b: string)
    requires IsSpace(c)
    ensures TakeWord(a + [c] + b) == TakeWord(a)
  {
    if a != [] && !IsSpace(a[0]) {
      TakeWordBeforeSpace(a[1..], c, b);
      assert (a + [c] + b)[1..] == a[1..] + [c] + b;
    }
  }

  /** A whitespace character separates the words of its two sides. */
  lemma {:induction false} WordsAroundSpace(a: string, c: char, b: string)
    requires IsSpace(c)
    ensures Words(a + [c] + b) == Words(a) + Words(b)
    decreases |a|
  {
    var s := a + [c] + b;
    if a == [] {
      assert s[1..] == b;
    } else if IsSpace(a[0]) {
      WordsAroundSpace(a[1..], c, b);
      assert s[1..] == a[1..] + [c] + b;
    } else {
      var w := TakeWord(a);
      TakeWordBeforeSpace(a, c, b);
      assert s[|w|..] == a[|w|..] + [c] + b;
      WordsAroundSpace(a[|w|..], c, b);
    }
  }

  /** A non-whitespace character joins the first word of what follows it. */
  lemma WordsCons(c: char, t: string)
    requires !IsSpace(c)
    ensures t == [] || IsSpace(t[0]) ==> Words([c] + t) == [[c]] + Words(t)
    ensures t != [] && !IsSpace(t[0]) ==> Words([c] + t) == [[c] + Words(t)[0]] + Words(t)[1..]
  {
    var s := [c] + t;
    assert s[1..] == t;
    if t != [] && !IsSpace(t[0]) {
      var w := TakeWord(t);
      assert TakeWord(s) == [c] + w;
      assert s[|[c] + w|..] == t[|w|..];
    } else {
      assert TakeWord(s) == [c];
    }
  }

  lemma {:induction false} WordsTrimStart(s: string)
    ensures Words(TrimStart(s)) == Words(s)
  {
    if s != [] && IsSpace(s[0]) {
      WordsTrimStart(s[1..]);
    }
  }

  lemma {:induction false} WordsTrimEnd(s: string)
    ensures Words(TrimEnd(s)) == Words(s)
    decreases |s|
  {
    if s != [] && IsSpace(s[|s| - 1]) {
      var a := s[..|s| - 1];
      WordsTrimEnd(a);
      WordsAroundSpace(a, s[|s| - 1], []);
      assert s == a + [s[|s| - 1]] + [];
    }
  }

  /** Collapsing whitespace keeps the words. */
  lemma {:induction false} WordsCollapse(s: string)
    ensures Words(CollapseSpaces(s)) == Words(s)
    decreases |s|
  {
    if s == [] {
    } else if IsSpace(s[0]) {
      var t := TrimStart(s);
      WordsCollapse(t);
      WordsTrimStart(s);
      var c := CollapseSpaces(t);
      assert (" " + c)[1..] == c;
    } else {
      WordsCollapse(s[1..]);
      WordsCons(s[0], s[1..]);
      WordsCons(s[0], CollapseSpaces(s[1..]));
      assert s == [s[0]] + s[1..];
    }
  }

  /** A normalized string is its words joined by single spaces. */
  lemma {:induction false} NormalizedIsJoinedWords(x: string)
    requires Normalized(x)
    ensures JoinWith(Words(x), " ") == x
    decreases |x|
  {
    if x != [] {
      var w := TakeWord(x);
      if |w| == |x| {
        assert w == x;
        assert x[|w|..] == [];
      } else {
        var rest := x[|w| + 1..];
        assert x[|w|] == ' ';
        assert rest != [] by {
          assert !IsSpace(x[|x| - 1]);
        }
        assert !IsSpace(rest[0]) by {
          assert !(IsSpace(x[|w|]) && IsSpace(x[|w| + 1]));
        }
        CollapsedSlice(x, |w| + 1, |x|);
        NormalizedIsJoinedWords(rest);
        var after := x[|w|..];
        assert after[1..] == rest;
        assert Words(after) == Words(rest);
        var ws := Words(rest);
        assert ws != [];
        assert ([w] + ws)[1..] == ws;
        assert x == w + " " + rest;
      }
    }
  }

  /** `cleanText` is the words of its input joined by single spaces (Python's
      `" ".join(s.split())`). */
  lemma CleanTextIsJoinedWords(s: string)
    ensures CleanText(s) == JoinWith(Words(s), " ")
  {
    var c := CollapseSpaces(s);
    WordsCollapse(s);
    WordsTrimStart(c);
    WordsTrimEnd(TrimStart(c));
    CleanTextNormalized(s);
    NormalizedIsJoinedWords(CleanText(s));
  }

  /** Cleaning twice is cleaning once. */
  lemma CleanTextIdempotent(s: string)
    ensures CleanText(CleanText(s)) == CleanText(s)
  {
    var c := CleanText(s);
    CleanTextIsJoinedWords(c);
    CleanTextNormalized(s);
    NormalizedIsJoinedWords(c);
  }

  /** Joining two word lists joins their texts with one space. */
  lemma {:induction false} JoinWordsAppend(ws1: seq<string>, ws2: seq<string>)
    requires ws1 != [] && ws2 != []
    ensures JoinWith(ws1 + ws2, " ") == JoinWith(ws1, " ") + " " + JoinWith(ws2, " ")
  {
    if |ws1| == 1 {
      assert (ws1 + ws2)[1..] == ws2;
    } else {
      JoinWordsAppend(ws1[1..], ws2);
      assert (ws1 + ws2)[1..] == ws1[1..] + ws2;
    }
  }

  /** Joining non-empty pieces gives the empty string only when there are none. */
  lemma JoinEmpty(ws: seq<string>)
    requires forall i :: 0 <= i < |ws| ==> ws[i] != []
    ensures JoinWith(ws, " ") == "" <==> ws == []
  {
    if |ws| >= 2 {
      assert |JoinWith(ws, " ")| >= |ws[0]|;
    }
  }

  /** Cleaning two texts joined by a space gives their cleaned forms joined by one space, an
      empty side contributing nothing. */
  lemma CleanTextAroundSpace(a: string, b: string)
    ensures CleanText(a + " " + b) ==
      if CleanText(a) == "" then CleanText(b)
      else if CleanText(b) == "" then CleanText(a)
      else CleanText(a) + " " + CleanText(b)
  {
    WordsAroundSpace(a, ' ', b);
    assert a + " " + b == a + [' '] + b;
    CleanTextIsJoinedWords(a + " " + b);
    CleanTextIsJoinedWords(a);
    CleanTextIsJoinedWords(b);
    JoinAroundSpace(Words(a), Words(b));
  }

  /** Joining two lists of words: an empty side contributes nothing, otherwise one space
      separates them. */
  lemma JoinAroundSpace(wa: seq<string>, wb: seq<string>)
    requires forall i :: 0 <= i < |wa| ==> wa[i] != []
    requires forall i :: 0 <= i < |wb| ==> wb[i] != []
    ensures JoinWith(wa + wb, " ") ==
      if JoinWith(wa, " ") == "" then JoinWith(wb, " ")
      else if JoinWith(wb, " ") == "" then JoinWith(wa, " ")
      else JoinWith(wa, " ") + " " + JoinWith(wb, " ")
  {
    JoinEmpty(wa);
    JoinEmpty(wb);
    if wa != [] && wb != [] {
      JoinWordsAppend(wa, wb);
    } else if wa == [] {
      assert wa + wb == wb;
    } else {
      assert wa + wb == wa;
    }
  }

  /** The cleaned form of each text, dropping those that clean to nothing. */
  function CleanedPieces(texts: seq<string>): (r: seq<string>)
    ensures forall i :: 0 <= i < |r| ==> r[i] != []
  {
    if texts == [] then []
    else (if CleanText(texts[0]) == "" then [] else [CleanText(texts[0])]) + CleanedPieces(texts[1..])
  }

  /** Cleaning texts joined by spaces is joining their non-empty cleaned forms by single spaces. */
  lemma {:induction false} CleanTextOfJoin(texts: seq<string>)
    ensures CleanText(JoinWith(texts, " ")) == JoinWith(CleanedPieces(texts), " ")
  {
    if texts == [] {
      assert CollapseSpaces("") == "";
    } else if |texts| == 1 {
      assert CleanedPieces(texts[1..]) == [];
      CleanTextIdempotent(texts[0]);
    } else {
      var rest := texts[1..];
      CleanTextOfJoin(rest);
      CleanTextAroundSpace(texts[0], JoinWith(rest, " "));
      var tail := CleanedPieces(rest);
      JoinEmpty(tail);
      if CleanText(texts[0]) != "" && tail != [] {
        assert ([CleanText(texts[0])] + tail)[1..] == tail;
      } else if CleanText(texts[0]) != "" {
        assert [CleanText(texts[0])] + tail == [CleanText(texts[0])];
      } else {
        assert [] + tail == tail;
      }
    }
  }

  // ---------------------------------------------------------------------------------------
  // scrapeURL

  /** What the selectors return for a fetched page: `$('title').text()`, the `content` attribute
      of `meta[name="description"]` (absent when there is none) and the text of every selected
      `h1`, `h2`, `article`, content block (`.content, #content, [class*="content"]`), `p` and `li`
      element, in document order, after script, style, noscript and iframe elements are removed. */
  datatype PageText = PageText(title: string, metaContent: Option<string>,
                               h1: seq<string>, h2: seq<string>, articles: seq<string>,
                               contentBlocks: seq<string>, paragraphs: seq<string>, listItems: seq<string>)

  /** The outcome of `axios.get` and `cheerio.load`: a page, or an exception. */
  datatype Fetch = Fetched(page: PageText) | FetchFailed

  datatype Headings = Headings(h1: string, h2: string)

  /** The record `scrapeURL` resolves to; `scrapeError` is `null` on success. */
  datatype ScrapeResult = ScrapeResult(url: string, title: string, headings: Headings,
                                       metaDescription: string, content: string,
                                       scrapeError: Option<string>)

  const MaxContentLength: nat := 40000
  const ScrapeFailureMessage := "Failed to scrape the URL."

  /** The eight extracted fields in the order they are combined: title, meta description, h1,
      h2, articles, content blocks, paragraphs, list items, the texts of each selection joined
      by single spaces. */
  function Fields(p: PageText): (fs: seq<string>)
    ensures |fs| == 8 && fs[0] == p.title && fs[1] == p.metaContent.GetOr("")
  {
    [p.title, p.metaContent.GetOr(""), JoinWith(p.h1, " "), JoinWith(p.h2, " "),
     JoinWith(p.articles, " "), JoinWith(p.contentBlocks, " "), JoinWith(p.paragraphs, " "),
     JoinWith(p.listItems, " ")]
  }

  /** `scrapeURL(url)` once the request has settled: never an exception, a failure record instead. */
  function ScrapeUrl(url: string, fetch: Fetch): (r: ScrapeResult)
    ensures r.url == url
    ensures r.scrapeError.Some? <==> fetch.FetchFailed?
    ensures fetch.FetchFailed? ==>
      && r.title == "" && r.headings == Headings("", "") && r.metaDescription == ""
      && r.content == "" && r.scrapeError == Some(ScrapeFailureMessage)
    ensures fetch.Fetched? ==>
      var body := CleanText(JoinWith(Fields(fetch.page), " "));
      && |r.content| <= MaxContentLength
      && r.content <= body
      && (|body| <= MaxContentLength ==> r.content == body)
    ensures fetch.Fetched? ==>
      && r.title == CleanText(fetch.page.title)
      && r.headings == Headings(CleanText(JoinWith(fetch.page.h1, " ")), CleanText(JoinWith(fetch.page.h2, " ")))
      && r.metaDescription == CleanText(fetch.page.metaContent.GetOr(""))
  {
    match fetch
    case FetchFailed =>
      ScrapeResult(url, "", Headings("", ""), "", "", Some(ScrapeFailureMessage))
    case Fetched(page) =>
      var combined := JoinWith(Fields(page), " ");
      ScrapeResult(url, CleanText(page.title),
                   Headings(CleanText(JoinWith(page.h1, " ")), CleanText(JoinWith(page.h2, " "))),
                   CleanText(page.metaContent.GetOr("")),
                   SliceTo(CleanText(combined), MaxContentLength), None)
  }

  /** On success the content is the non-empty cleaned fields, in their fixed order, joined by
      single spaces and cut after 40,000 characters. */
  lemma ScrapedContentFields(url: string, page: PageText)
    ensures ScrapeUrl(url, Fetched(page)).content
      == SliceTo(JoinWith(CleanedPieces(Fields(page)), " "), MaxContentLength)
  {
    CleanTextOfJoin(Fields(page));
  }

  /** Every text is whitespace only. */
  predicate EachAllSpace(texts: seq<string>) {
    forall i :: 0 <= i < |texts| ==> AllSpace(texts[i])
  }

  /** A successful scrape yields empty content exactly when every field is whitespace only. */
  lemma ScrapedContentEmpty(url: string, page: PageText)
    ensures ScrapeUrl(url, Fetched(page)).content == "" <==>
      EachAllSpace(Fields(page))
  {
    var fs := Fields(page);
    ScrapedContentFields(url, page);
    JoinEmpty(CleanedPieces(fs));
    CleanedPiecesEmpty(fs);
  }

  /** A text that cleans to nothing. */
  predicate Blank(t: string) {
    CleanText(t) == ""
  }

  lemma {:induction false} CollapseAllSpace(s: string)
    ensures AllSpace(CollapseSpaces(s)) <==> AllSpace(s)
    decreases |s|
  {
    if s != [] && IsSpace(s[0]) {
      var t := TrimStart(s);
      CollapseAllSpace(t);
      var c := CollapseSpaces(t);
      assert CollapseSpaces(s) == " " + c;
      AllSpaceAppend(" ", c);
      assert s == s[..|s| - |t|] + t;
      AllSpaceAppend(s[..|s| - |t|], t);
    }
  }

  /** `cleanText` returns the empty string exactly for all-whitespace input. */
  lemma BlankIffAllSpace(t: string)
    ensures Blank(t) <==> AllSpace(t)
  {
    CollapseAllSpace(t);
  }

  lemma EachAllSpaceCons(texts: seq<string>)
    requires texts != []
    ensures EachAllSpace(texts) <==> AllSpace(texts[0]) && EachAllSpace(texts[1..])
  {
    var rest := texts[1..];
    if AllSpace(texts[0]) && EachAllSpace(rest) {
      forall i | 1 <= i < |texts|
        ensures AllSpace(texts[i])
      {
        assert texts[i] == rest[i - 1];
      }
    }
  }


  /** The cleaned pieces are none exactly when every text is whitespace only. */
  lemma {:induction false} CleanedPiecesEmpty(texts: seq<string>)
    ensures CleanedPieces(texts) == [] <==> EachAllSpace(texts)
  {
    if texts != [] {
      var rest := texts[1..];
      CleanedPiecesEmpty(rest);
      BlankIffAllSpace(texts[0]);
      EachAllSpaceCons(texts);
      var c := CleanText(texts[0]);
      if c == "" {
        assert CleanedPieces(texts) == CleanedPieces(rest);
      } else {
        assert CleanedPieces(texts)[0] == c;
      }
    }
  }
}
