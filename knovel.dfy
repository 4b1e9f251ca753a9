/**
 * The matching-and-formatting core of the KNovel scraper (main.py): resolving
 * a novel by exact name and a chapter by a substring of its caption, filtering
 * a chapter listing, assembling the chapter file's text and its name, and the
 * script that strings these together over fetched pages.
 */
module KNovel {
  import opened PyStr

  datatype Option<T> = None | Some(value: T)

  /** The exceptions the script can raise. */
  datatype Error =
    | HttpError(url: string)   // requests.get failed or raise_for_status rejected the status
    | AttributeError           // soup.find(...) returned None and .find_all was called on it
    | IndexError               // the first <h3> was indexed in an empty list
    | KeyError(key: string)    // tag["href"] on an anchor without that attribute
    | ValueError(message: string)

  datatype Result<T> = Ok(value: T) | Err(error: Error)

  /** An anchor element: its text and its href attribute, if it has one. */
  datatype Link = Link(text: string, href: Option<string>)

  /**
   * A parsed page, reduced to what the script asks of it.
   * anchors[c] holds, in document order, the anchors inside the first <div>
   * whose class matches c; a class with no such <div> is not a key.
   * headings holds the text of every <h3>, in document order.
   * paragraphs holds the text of every <p> inside the first
   * <div class="post-text-content">, or None if there is no such <div>.
   */
  datatype Soup = Soup(anchors: map<string, seq<Link>>, headings: seq<string>, paragraphs: Option<seq<string>>)

  /** The local file the script writes, as it stands once the script ends. */
  datatype File = Untouched | Holds(name: string, text: string)

  const BaseUrl: string := "https://animecenterbr.com/light-novels-2/"
  const NovelContainerClass: string := "container-general"
  const ChapterContainerClass: string := "post-text-content my-3"
  /** The marker word of a chapter caption on the site. */
  const ChapterMarker: string := "Cap\U{ED}tulo"

  // ---------------------------------------------------------------------------
  // Fetching and link extraction (the network and the HTML parser are inputs)
  // ---------------------------------------------------------------------------

  /** get_soup: the web is a map from URL to parsed page; a URL it lacks fails the fetch. */
  function GetSoup(web: map<string, Soup>, url: string): (r: Result<Soup>)
    ensures r.Ok? <==> url in web
    ensures r.Ok? ==> r.value == web[url]
    ensures r.Err? ==> r.error == HttpError(url)
  {
    if url in web then Ok(web[url]) else Err(HttpError(url))
  }

  /** find_links: the anchors of the container with the given class, or AttributeError when it is absent. */
  function FindLinks(soup: Soup, containerClass: string): (r: Result<seq<Link>>)
    ensures r.Ok? <==> containerClass in soup.anchors
    ensures r.Ok? ==> r.value == soup.anchors[containerClass]
    ensures r.Err? ==> r.error == AttributeError
  {
    if containerClass in soup.anchors then Ok(soup.anchors[containerClass]) else Err(AttributeError)
  }

  /** `link["href"]`. */
  function Href(link: Link): (r: Result<string>)
    ensures r.Ok? <==> link.href.Some?
    ensures r.Ok? ==> link.href == Some(r.value)
    ensures r.Err? ==> r.error == KeyError("href")
  {
    match link.href
    case Some(h) => Ok(h)
    case None => Err(KeyError("href"))
  }

  // ---------------------------------------------------------------------------
  // Selection: first match wins, exact for novels, substring for chapters
  // ---------------------------------------------------------------------------

  /** What a user-supplied key is matched as. */
  datatype Matcher = ByName(name: string) | ByNumber(number: string)

  predicate Matches(m: Matcher, text: string)
  {
    match m
    case ByName(name) => text == name
    case ByNumber(number) => Contains(text, number)
  }

  function ContainerOf(m: Matcher): string
  {
    match m
    case ByName(_) => NovelContainerClass
    case ByNumber(_) => ChapterContainerClass
  }

  function NotFoundMessage(m: Matcher): string
  {
    match m
    case ByName(name) => "No novel found with the name " + name
    case ByNumber(number) => "No chapter found with the number " + number
  }

  /** Index i holds a match and no earlier index does. */
  predicate IsFirstMatch(links: seq<Link>, m: Matcher, i: nat)
  {
    i < |links| && Matches(m, links[i].text) &&
    forall j :: 0 <= j < i ==> !Matches(m, links[j].text)
  }

  /** The position of the first link whose text matches, if any. */
  function FirstIndex(links: seq<Link>, m: Matcher): (r: Option<nat>)
    ensures r.Some? ==> IsFirstMatch(links, m, r.value)
    ensures r.None? <==> forall j :: 0 <= j < |links| ==> !Matches(m, links[j].text)
  {
    if links == [] then None
    else if Matches(m, links[0].text) then Some(0)
    else match FirstIndex(links[1..], m)
      case None => None
      case Some(i) => Some(i + 1)
  }

  /** The result of scanning a link list: the first match's href, or the not-found ValueError. */
  function Select(links: seq<Link>, m: Matcher): (r: Result<string>)
    ensures r.Err? && r.error.ValueError? <==> forall j :: 0 <= j < |links| ==> !Matches(m, links[j].text)
    ensures r.Err? && r.error.ValueError? ==> r.error.message == NotFoundMessage(m)
    ensures r.Ok? ==> exists i: nat :: IsFirstMatch(links, m, i) && links[i].href == Some(r.value)
    ensures r.Err? && !r.error.ValueError? ==>
              r.error == KeyError("href") && exists i: nat :: IsFirstMatch(links, m, i) && links[i].href == None
  {
    match FirstIndex(links, m)
    case Some(i) =>
      (match links[i].href
       case Some(h) =>
         assert IsFirstMatch(links, m, i) && links[i].href == Some(h);
         Ok(h)
       case None =>
         assert IsFirstMatch(links, m, i) && links[i].href == None;
         Err(KeyError("href")))
    case None => Err(ValueError(NotFoundMessage(m)))
  }

  /** What get_novel_link / get_chapter_link compute on a page. */
  function Lookup(soup: Soup, m: Matcher): Result<string>
  {
    match FindLinks(soup, ContainerOf(m))
    case Err(e) => Err(e)
    case Ok(links) => Select(links, m)
  }

  /** get_novel_link: the href of the first novel whose text equals the name exactly. */
  method GetNovelLink(soup: Soup, novelName: string) returns (r: Result<string>)
    ensures r == Lookup(soup, ByName(novelName))
  {
    var found := FindLinks(soup, NovelContainerClass);
    if found.Err? {
      return Err(found.error);
    }
    var links := found.value;
    assert Lookup(soup, ByName(novelName)) == Select(links, ByName(novelName));
    var i := 0;
    while i < |links|
      invariant i <= |links|
      invariant forall j :: 0 <= j < i ==> links[j].text != novelName
    {
      if links[i].text == novelName {
        assert IsFirstMatch(links, ByName(novelName), i);
        assert FirstIndex(links, ByName(novelName)) == Some(i);
        return Href(links[i]);
      }
      i := i + 1;
    }
    return Err(ValueError("No novel found with the name " + novelName));
  }

  /** get_chapter_link: the href of the first link, in the unfiltered list, whose text contains the key. */
  method GetChapterLink(soup: Soup, chapterNumber: string) returns (r: Result<string>)
    ensures r == Lookup(soup, ByNumber(chapterNumber))
  {
    var found := FindLinks(soup, ChapterContainerClass);
    if found.Err? {
      return Err(found.error);
    }
    var links := found.value;
    assert Lookup(soup, ByNumber(chapterNumber)) == Select(links, ByNumber(chapterNumber));
    var i := 0;
    while i < |links|
      invariant i <= |links|
      invariant forall j :: 0 <= j < i ==> !Contains(links[j].text, chapterNumber)
    {
      if Contains(links[i].text, chapterNumber) {
        assert IsFirstMatch(links, ByNumber(chapterNumber), i);
        assert FirstIndex(links, ByNumber(chapterNumber)) == Some(i);
        return Href(links[i]);
      }
      i := i + 1;
    }
    return Err(ValueError("No chapter found with the number " + chapterNumber));
  }

  /** Any exact match is a substring match, so the chapter scan stops no later than the novel scan. */
  lemma ExactMatchIsSubstringMatch(links: seq<Link>, key: string)
    requires FirstIndex(links, ByName(key)).Some?
    ensures FirstIndex(links, ByNumber(key)).Some?
    ensures FirstIndex(links, ByNumber(key)).value <= FirstIndex(links, ByName(key)).value
    ensures !Select(links, ByNumber(key)).Err? || !Select(links, ByNumber(key)).error.ValueError?
  {
    var i := FirstIndex(links, ByName(key)).value;
    ContainsSelf(key);
    assert Matches(ByNumber(key), links[i].text);
  }

  /** With an empty key the chapter scan picks the first link of any non-empty list. */
  lemma EmptyNumberSelectsFirst(links: seq<Link>)
    requires links != []
    ensures FirstIndex(links, ByNumber("")) == Some(0)
    ensures Select(links, ByNumber("")) == Href(links[0])
  {
    ContainsEmpty(links[0].text);
  }

  /** A name that differs only in letter case selects nothing. */
  lemma NameMatchIsCaseSensitive()
    ensures var links := [Link("Solo Leveling", Some("u1")), Link("Omniscient Reader", Some("u2"))];
            Select(links, ByName("Solo Leveling")) == Ok("u1") &&
            Select(links, ByName("solo leveling")) == Err(ValueError("No novel found with the name solo leveling"))
  {
  }

  /** A chapter number embedded in a longer caption selects that caption. */
  lemma NumberMatchesInsideCaption()
    ensures Select([Link("Cap\U{ED}tulo 12: The Return", Some("c12"))], ByNumber("12")) == Ok("c12")
  {
    ContainsSelf("12");
    ContainsInContext("Cap\U{ED}tulo ", "12", ": The Return", "12");
    assert "Cap\U{ED}tulo " + "12" + ": The Return" == "Cap\U{ED}tulo 12: The Return";
  }

  /**
   * The chapter scan ignores the chapter filter: a link that is not a chapter
   * caption can be selected when it comes first and contains the key.
   */
  lemma NumberMayMatchNonChapterLink()
    ensures var links := [Link("Volume 2", Some("v2")), Link("Cap\U{ED}tulo 2", Some("c2"))];
            Select(links, ByNumber("2")) == Ok("v2") && !IsChapterLink(links[0]) && IsChapterLink(links[1])
  {
    ContainsSelf("2");
    ContainsInContext("Volume ", "2", "", "2");
    assert "Volume " + "2" + "" == "Volume 2";
    ContainsSelf(ChapterMarker);
    ContainsInContext("", ChapterMarker, " 2", ChapterMarker);
    assert "" + ChapterMarker + " 2" == "Cap\U{ED}tulo 2";
    assert !Contains("Volume 2", ChapterMarker) by {
      forall i: nat | i <= 8 ensures !OccursAt("Volume 2", ChapterMarker, i) {
        if i == 0 {
          assert "Volume 2"[0] != ChapterMarker[0];
        }
      }
    }
  }

  // ---------------------------------------------------------------------------
  // The chapter filter of print_all_chapters
  // ---------------------------------------------------------------------------

  predicate IsChapterLink(l: Link)
  {
    Contains(l.text, ChapterMarker)
  }

  /** `filter(lambda x: "Capítulo" in x.text, links)`. */
  function ChapterEntries(links: seq<Link>): (r: seq<Link>)
    ensures |r| <= |links|
    ensures forall l :: l in r ==> l in links && IsChapterLink(l)
  {
    if links == [] then []
    else (if IsChapterLink(links[0]) then [links[0]] else []) + ChapterEntries(links[1..])
  }

  /** `a` is `b` with some elements deleted, the rest in their order. */
  predicate IsSubsequence<T(==)>(a: seq<T>, b: seq<T>)
    decreases |b|
  {
    if a == [] then true
    else if b == [] then false
    else (a[0] == b[0] && IsSubsequence(a[1..], b[1..])) || IsSubsequence(a, b[1..])
  }

  lemma {:induction false} ChapterEntriesIsSubsequence(links: seq<Link>)
    ensures IsSubsequence(ChapterEntries(links), links)
    decreases |links|
  {
    if links != [] {
      ChapterEntriesIsSubsequence(links[1..]);
      var rest := ChapterEntries(links[1..]);
      if IsChapterLink(links[0]) {
        assert ChapterEntries(links) == [links[0]] + rest;
        assert ([links[0]] + rest)[1..] == rest;
      } else {
        assert ChapterEntries(links) == rest;
        SubsequenceDropsHead(rest, links);
      }
    }
  }

  /** Deleting the head of `b` keeps any subsequence of its tail a subsequence of `b`. */
  lemma SubsequenceDropsHead<T>(a: seq<T>, b: seq<T>)
    requires b != [] && IsSubsequence(a, b[1..])
    ensures IsSubsequence(a, b)
  {
  }

  /** Each link is kept as often as it occurs when it is a chapter caption, and dropped otherwise. */
  lemma {:induction false} ChapterEntriesKeepsExactly(links: seq<Link>, l: Link)
    ensures multiset(ChapterEntries(links))[l] == if IsChapterLink(l) then multiset(links)[l] else 0
    decreases |links|
  {
    if links != [] {
      ChapterEntriesKeepsExactly(links[1..], l);
      assert links == [links[0]] + links[1..];
      var head := if IsChapterLink(links[0]) then [links[0]] else [];
      assert multiset(ChapterEntries(links)) == multiset(head) + multiset(ChapterEntries(links[1..]));
      assert multiset(links) == multiset([links[0]]) + multiset(links[1..]);
    }
  }

  /** Filtering a concatenation filters each part in turn: relative order is kept. */
  lemma {:induction false} ChapterEntriesAppend(a: seq<Link>, b: seq<Link>)
    ensures ChapterEntries(a + b) == ChapterEntries(a) + ChapterEntries(b)
    decreases |a|
  {
    if a == [] {
      assert a + b == b;
    } else {
      assert (a + b)[0] == a[0];
      assert (a + b)[1..] == a[1..] + b;
      ChapterEntriesAppend(a[1..], b);
    }
  }

  /** Filtering a listing twice changes nothing. */
  lemma {:induction false} ChapterEntriesIdempotent(links: seq<Link>)
    ensures ChapterEntries(ChapterEntries(links)) == ChapterEntries(links)
    decreases |links|
  {
    if links != [] {
      var head := if IsChapterLink(links[0]) then [links[0]] else [];
      ChapterEntriesIdempotent(links[1..]);
      ChapterEntriesAppend(head, ChapterEntries(links[1..]));
      assert ChapterEntries(head) == head by {
        if head != [] {
          assert head[1..] == [];
        }
      }
    }
  }

  function Texts(links: seq<Link>): (r: seq<string>)
    ensures |r| == |links|
    ensures forall i :: 0 <= i < |links| ==> r[i] == links[i].text
  {
    seq(|links|, i requires 0 <= i < |links| => links[i].text)
  }

  /** print_all_novels: the lines printed, one per link of the novel container. */
  function NovelTitles(soup: Soup): (r: Result<seq<string>>)
    ensures r.Err? <==> NovelContainerClass !in soup.anchors
    ensures r.Err? ==> r.error == AttributeError
    ensures r.Ok? ==> r.value == Texts(soup.anchors[NovelContainerClass])
  {
    match FindLinks(soup, NovelContainerClass)
    case Err(e) => Err(e)
    case Ok(links) => Ok(Texts(links))
  }

  /** print_all_chapters: the lines printed, one per chapter caption of the chapter container. */
  function ChapterTitles(soup: Soup): (r: Result<seq<string>>)
    ensures r.Err? <==> ChapterContainerClass !in soup.anchors
    ensures r.Err? ==> r.error == AttributeError
    ensures r.Ok? ==> r.value == Texts(ChapterEntries(soup.anchors[ChapterContainerClass]))
    ensures r.Ok? ==> |r.value| <= |soup.anchors[ChapterContainerClass]|
    ensures r.Ok? ==> forall line :: line in r.value ==> Contains(line, ChapterMarker)
  {
    match FindLinks(soup, ChapterContainerClass)
    case Err(e) => Err(e)
    case Ok(links) =>
      var kept := ChapterEntries(links);
      assert forall i :: 0 <= i < |kept| ==> IsChapterLink(kept[i]) by {
        forall i | 0 <= i < |kept| ensures IsChapterLink(kept[i]) {
          assert kept[i] in kept;
        }
      }
      Ok(Texts(kept))
  }

  // ---------------------------------------------------------------------------
  // The chapter file: its text (write_chapter_to_file) and its name (main)
  // ---------------------------------------------------------------------------

  /** One write of the loop: a piece of text followed by a blank line. */
  function Block(s: string): string
  {
    s + "\n\n"
  }

  /** The paragraph writes, in document order. */
  function Blocks(paragraphs: seq<string>): string
  {
    if paragraphs == [] then ""
    else Blocks(paragraphs[..|paragraphs| - 1]) + Block(paragraphs[|paragraphs| - 1])
  }

  /** The file's text: the title, then each paragraph, each followed by a blank line. */
  function ChapterText(title: string, paragraphs: seq<string>): string
  {
    Block(title) + Blocks(paragraphs)
  }

  /** Total length of the paragraph writes: each paragraph plus two newlines. */
  function BlocksLength(paragraphs: seq<string>): nat
  {
    if paragraphs == [] then 0 else |paragraphs[0]| + 2 + BlocksLength(paragraphs[1..])
  }

  lemma {:induction false} BlocksAppend(a: seq<string>, b: seq<string>)
    ensures Blocks(a + b) == Blocks(a) + Blocks(b)
    decreases |b|
  {
    if b == [] {
      assert a + b == a;
    } else {
      var n := |b| - 1;
      assert (a + b)[..|a + b| - 1] == a + b[..n];
      assert (a + b)[|a + b| - 1] == b[n];
      BlocksAppend(a, b[..n]);
    }
  }

  lemma {:induction false} BlocksLengthIsLength(paragraphs: seq<string>)
    ensures |Blocks(paragraphs)| == BlocksLength(paragraphs)
    decreases |paragraphs|
  {
    if paragraphs != [] {
      assert paragraphs == [paragraphs[0]] + paragraphs[1..];
      BlocksAppend([paragraphs[0]], paragraphs[1..]);
      assert [paragraphs[0]][..0] == [];
      BlocksLengthIsLength(paragraphs[1..]);
    }
  }

  /** |text| == |title| + 2 + the sum of |p| + 2 over the paragraphs. */
  lemma ChapterTextLength(title: string, paragraphs: seq<string>)
    ensures |ChapterText(title, paragraphs)| == |title| + 2 + BlocksLength(paragraphs)
  {
    BlocksLengthIsLength(paragraphs);
  }

  /** The text opens with the title and a blank line, and paragraph k sits right after the ones before it. */
  lemma ChapterTextLayout(title: string, paragraphs: seq<string>, k: nat)
    requires k < |paragraphs|
    ensures var text := ChapterText(title, paragraphs);
            var at := |title| + 2 + BlocksLength(paragraphs[..k]);
            text[..|title| + 2] == title + "\n\n" &&
            at + |paragraphs[k]| + 2 <= |text| &&
            text[at..at + |paragraphs[k]| + 2] == paragraphs[k] + "\n\n"
  {
    var before, rest := paragraphs[..k], paragraphs[k + 1..];
    assert paragraphs == before + [paragraphs[k]] + rest;
    BlocksAppend(before + [paragraphs[k]], rest);
    BlocksAppend(before, [paragraphs[k]]);
    assert ([] + [paragraphs[k]])[..0] == [];
    assert Blocks([paragraphs[k]]) == Block(paragraphs[k]);
    BlocksLengthIsLength(before);
    var text := ChapterText(title, paragraphs);
    assert text == Block(title) + Blocks(before) + Block(paragraphs[k]) + Blocks(rest);
  }

  /** A title and two paragraphs give exactly the three blocks. */
  lemma ChapterTextTwoParagraphs(title: string, p: string, q: string)
    ensures ChapterText(title, [p, q]) == title + "\n\n" + p + "\n\n" + q + "\n\n"
  {
    var ps := [p, q];
    assert ps[..1] == [p];
    assert ps[..1][..0] == [];
    assert Blocks([p]) == p + "\n\n";
  }

  /** Outcome of write_chapter_to_file: the file afterwards and the exception raised, if any. */
  datatype Written = Written(file: File, raised: Option<Error>)

  function ChapterFile(soup: Soup, fileName: string): Written
  {
    if soup.paragraphs.None? then Written(Untouched, Some(AttributeError))
    else if soup.headings == [] then Written(Holds(fileName, ""), Some(IndexError))
    else Written(Holds(fileName, ChapterText(soup.headings[0], soup.paragraphs.value)), None)
  }

  /**
   * write_chapter_to_file: the content lookup fails before the file is opened;
   * the missing title fails after open has truncated it; otherwise the title
   * and the paragraphs are written one after the other.
   */
  method WriteChapterToFile(soup: Soup, fileName: string) returns (file: File, raised: Option<Error>)
    ensures Written(file, raised) == ChapterFile(soup, fileName)
  {
    if soup.paragraphs.None? {
      return Untouched, Some(AttributeError);
    }
    var paragraphs := soup.paragraphs.value;
    var text := "";
    if soup.headings == [] {
      return Holds(fileName, text), Some(IndexError);
    }
    text := text + Block(soup.headings[0]);
    var i := 0;
    while i < |paragraphs|
      invariant i <= |paragraphs|
      invariant text == Block(soup.headings[0]) + Blocks(paragraphs[..i])
    {
      text := text + Block(paragraphs[i]);
      assert paragraphs[..i + 1][..i] == paragraphs[..i];
      i := i + 1;
    }
    assert paragraphs[..i] == paragraphs;
    return Holds(fileName, text), None;
  }

  /** f"{novel_name} - {chapter_number}.txt", read back piece by piece. */
  function FileName(novelName: string, chapterNumber: string): (r: string)
    ensures |r| == |novelName| + |chapterNumber| + 7
    ensures r[..|novelName|] == novelName
    ensures r[|novelName|..|novelName| + 3] == " - "
    ensures r[|novelName| + 3..|r| - 4] == chapterNumber
    ensures r[|r| - 4..] == ".txt"
  {
    novelName + " - " + chapterNumber + ".txt"
  }

  /** For a given novel, the file name determines the chapter key. */
  lemma FileNameDeterminesChapter(novelName: string, c1: string, c2: string)
    requires FileName(novelName, c1) == FileName(novelName, c2)
    ensures c1 == c2
  {
  }

  /** Across novels it does not: two different choices can write the same file. */
  lemma FileNameIsAmbiguous()
    ensures FileName("A - B", "C") == FileName("A", "B - C") == "A - B - C.txt"
  {
  }

  // ---------------------------------------------------------------------------
  // main: the whole run over a given web and the two answers typed at the prompts
  // ---------------------------------------------------------------------------

  /** What a run leaves behind: the lines listed, the file, and the exception that ended it, if any. */
  datatype RunResult = RunResult(shown: seq<string>, file: File, raised: Option<Error>)

  function Outcome(web: map<string, Soup>, novelName: string, chapterNumber: string): RunResult
  {
    match GetSoup(web, BaseUrl)
    case Err(e) => RunResult([], Untouched, Some(e))
    case Ok(index) =>
      match NovelTitles(index)
      case Err(e) => RunResult([], Untouched, Some(e))
      case Ok(novels) =>
        match Lookup(index, ByName(novelName))
        case Err(e) => RunResult(novels, Untouched, Some(e))
        case Ok(novelLink) =>
          match GetSoup(web, novelLink)
          case Err(e) => RunResult(novels, Untouched, Some(e))
          case Ok(listing) =>
            match ChapterTitles(listing)
            case Err(e) => RunResult(novels, Untouched, Some(e))
            case Ok(chapters) =>
              match Lookup(listing, ByNumber(chapterNumber))
              case Err(e) => RunResult(novels + chapters, Untouched, Some(e))
              case Ok(chapterLink) =>
                match GetSoup(web, chapterLink)
                case Err(e) => RunResult(novels + chapters, Untouched, Some(e))
                case Ok(page) =>
                  var w := ChapterFile(page, FileName(novelName, chapterNumber));
                  RunResult(novels + chapters, w.file, w.raised)
  }

  /** main, with the network as `web` and the two input() answers as parameters. */
  method Run(web: map<string, Soup>, novelName: string, chapterNumber: string) returns (r: RunResult)
    ensures r == Outcome(web, novelName, chapterNumber)
  {
    var index := GetSoup(web, BaseUrl);
    if index.Err? {
      return RunResult([], Untouched, Some(index.error));
    }
    var novels := NovelTitles(index.value);
    if novels.Err? {
      return RunResult([], Untouched, Some(novels.error));
    }
    var novelLink := GetNovelLink(index.value, novelName);
    if novelLink.Err? {
      return RunResult(novels.value, Untouched, Some(novelLink.error));
    }
    var listing := GetSoup(web, novelLink.value);
    if listing.Err? {
      return RunResult(novels.value, Untouched, Some(listing.error));
    }
    var chapters := ChapterTitles(listing.value);
    if chapters.Err? {
      return RunResult(novels.value, Untouched, Some(chapters.error));
    }
    var shown := novels.value + chapters.value;
    var chapterLink := GetChapterLink(listing.value, chapterNumber);
    if chapterLink.Err? {
      return RunResult(shown, Untouched, Some(chapterLink.error));
    }
    var page := GetSoup(web, chapterLink.value);
    if page.Err? {
      return RunResult(shown, Untouched, Some(page.error));
    }
    var fileName := FileName(novelName, chapterNumber);
    var file, raised := WriteChapterToFile(page.value, fileName);
    return RunResult(shown, file, raised);
  }

  /** Whatever file a run touches is named from the two answers. */
  lemma OutcomeNamesFile(web: map<string, Soup>, novelName: string, chapterNumber: string)
    ensures Outcome(web, novelName, chapterNumber).file.Holds? ==>
              Outcome(web, novelName, chapterNumber).file.name == FileName(novelName, chapterNumber)
  {
  }

  /**
   * A run that raises leaves no file, except when the chapter page has no
   * title: the file was already opened and is left empty. A run that does not
   * raise has written the file.
   */
  lemma OutcomeFileOnError(web: map<string, Soup>, novelName: string, chapterNumber: string)
    ensures var r := Outcome(web, novelName, chapterNumber);
            (r.raised.None? ==> r.file.Holds?) &&
            (r.raised.Some? && r.raised != Some(IndexError) ==> r.file == Untouched) &&
            (r.raised == Some(IndexError) ==> r.file.Holds? && r.file.text == "")
  {
  }

  /** The chapter listing of the end-to-end scenario: both links are captions, and "2" picks the second. */
  lemma ScenarioListing()
    ensures var chapters := [Link("Cap\U{ED}tulo 1", Some("b1")), Link("Cap\U{ED}tulo 2", Some("b2"))];
            ChapterEntries(chapters) == chapters && Select(chapters, ByNumber("2")) == Ok("b2")
  {
    var c1, c2 := "Cap\U{ED}tulo 1", "Cap\U{ED}tulo 2";
    var chapters := [Link(c1, Some("b1")), Link(c2, Some("b2"))];
    ContainsPrefix(ChapterMarker, " 1");
    ContainsPrefix(ChapterMarker, " 2");
    assert ChapterMarker + " 1" == c1;
    assert ChapterMarker + " 2" == c2;
    assert chapters[1..] == [chapters[1]];
    assert chapters[1..][1..] == [];
    ContainsChar(c1, '2');
    ContainsChar(c2, '2');
    assert c2[|c2| - 1] == '2';
    CaptionOneLacksTwo();
    assert "2" == ['2'];
    assert FirstIndex(chapters, ByNumber("2")) == Some(1);
  }

  lemma CaptionOneLacksTwo()
    ensures !Contains("Cap\U{ED}tulo 1", "2")
  {
    var c1 := "Cap\U{ED}tulo 1";
    ContainsChar(c1, '2');
    forall k | 0 <= k < |c1| ensures c1[k] != '2' {
      if k == 9 {
        assert c1[9] == '1';
      }
    }
    assert "2" == ['2'];
  }

  /** Two novels, the second chosen by name, its second chapter chosen by number. */
  lemma EndToEndScenario()
    ensures var chapter2 := Soup(map[], ["Cap\U{ED}tulo 2"], Some(["Hello.", "World."]));
            var web := map[
              BaseUrl := Soup(map[NovelContainerClass := [Link("A", Some("a")), Link("B", Some("b"))]], [], None),
              "b" := Soup(map[ChapterContainerClass := [Link("Cap\U{ED}tulo 1", Some("b1")), Link("Cap\U{ED}tulo 2", Some("b2"))]], [], None),
              "b2" := chapter2];
            Outcome(web, "B", "2") ==
              RunResult(["A", "B", "Cap\U{ED}tulo 1", "Cap\U{ED}tulo 2"],
                        Holds("B - 2.txt", "Cap\U{ED}tulo 2" + "\n\n" + "Hello." + "\n\n" + "World." + "\n\n"), None)
  {
    var novels := [Link("A", Some("a")), Link("B", Some("b"))];
    var chapters := [Link("Cap\U{ED}tulo 1", Some("b1")), Link("Cap\U{ED}tulo 2", Some("b2"))];
    var index := Soup(map[NovelContainerClass := novels], [], None);
    var listing := Soup(map[ChapterContainerClass := chapters], [], None);
    var chapter2 := Soup(map[], ["Cap\U{ED}tulo 2"], Some(["Hello.", "World."]));
    var web := map[BaseUrl := index, "b" := listing, "b2" := chapter2];
    assert BaseUrl != "b" && BaseUrl != "b2";
    assert GetSoup(web, BaseUrl) == Ok(index);
    assert Texts(novels) == ["A", "B"];
    assert NovelTitles(index) == Ok(["A", "B"]);
    assert "A" != "B";
    assert FirstIndex(novels, ByName("B")) == Some(1);
    assert Lookup(index, ByName("B")) == Ok("b");
    assert GetSoup(web, "b") == Ok(listing);
    ScenarioListing();
    assert Texts(chapters) == ["Cap\U{ED}tulo 1", "Cap\U{ED}tulo 2"];
    assert ChapterTitles(listing) == Ok(["Cap\U{ED}tulo 1", "Cap\U{ED}tulo 2"]);
    assert Lookup(listing, ByNumber("2")) == Ok("b2");
    assert GetSoup(web, "b2") == Ok(chapter2);
    assert FileName("B", "2") == "B - 2.txt";
    ChapterTextTwoParagraphs("Cap\U{ED}tulo 2", "Hello.", "World.");
    assert ["A", "B"] + ["Cap\U{ED}tulo 1", "Cap\U{ED}tulo 2"] == ["A", "B", "Cap\U{ED}tulo 1", "Cap\U{ED}tulo 2"];
  }
}
