# KNovel core in Dafny

KNovel is a command-line scraper for a light-novel site. It lists the novels on the index page. The user picks one by its exact name. It then lists that novel's chapters, and the user picks one by a piece of its caption. Finally it writes the chapter's title and paragraphs to `<novel> - <chapter>.txt`.

This project models the logic of `main.py` that decides things. That logic is:

- resolving the novel by exact, case-sensitive equality of link text;
- resolving the chapter by substring containment, first match wins;
- the `"Capítulo"` filter of the chapter listing;
- the text written to the chapter file;
- the file name.

The module `PyStr` (`pystr.dfy`) models Python's `sub in s` on `str`. The module `KNovel` (`knovel.dfy`) models `main.py`.

How the outside world is represented:

- **Parsed pages.** A parsed page is a `Soup` value. It gives, for each container class that exists on the page, the anchors of the first matching `<div>`, in document order. It also gives the text of every `<h3>`, and the `<p>` texts of the first `<div class="post-text-content">`, if there is one.
- **Anchors.** An anchor is a `Link(text, href)`. Its `href` is optional because `tag["href"]` raises `KeyError` on an anchor without one.
- **The network.** It is a parameter `web`, a map from URL to parsed page. A URL missing from the map stands for a failed request or a status that `raise_for_status` rejects.
- **Console input.** The two answers typed at the prompts are parameters of `Run`.
- **Console output.** The lines printed are returned as a sequence.
- **The written file.** It is returned as a `File` value: the name and the text written to it, assuming that `open(file_name, "w")` succeeds (see "Left out").

Error paths are those of the code:

- A missing container makes `.find_all` fail on `None`. This is `AttributeError`, and for the chapter page it happens before the file is opened.
- A chapter page without `<h3>` fails at `[0]` with `IndexError`. This happens after `open(..., "w")` has already created or truncated the file, so an empty file is left behind (`OutcomeFileOnError`).
- A missed selection raises `ValueError` carrying the source's exact message.
- The chapter lookup searches the unfiltered anchor list, not the filtered chapter listing shown to the user. So a non-chapter link can be chosen (`NumberMayMatchNonChapterLink`), and an empty key chooses the first link.

## Model

| member | source | states |
|---|---|---|
| `PyStr.ContainsSelf` | main.py:59 | every string contains itself, so an exact key is also a substring key |
| `PyStr.ContainsEmpty` | main.py:59 | the empty key is contained in every text, `""` included |
| `PyStr.ContainsInContext` | main.py:59 | containment survives text added on either side |
| `PyStr.ContainsChar` | main.py:59 | a one-character key is contained exactly when that character occurs in the text |
| `PyStr.ContainsPrefix` | main.py:49 | a string is contained in any string it starts |
| `KNovel.GetSoup` | main.py:17-21 | a fetch succeeds exactly when the URL is in the web, giving that page; otherwise it fails with HttpError for that URL |
| `KNovel.FindLinks` | main.py:24-26 | the anchors of the container with the given class, and AttributeError exactly when the page has no such container |
| `KNovel.Href` | main.py:41 | `tag["href"]`: the attribute's value when present, KeyError("href") exactly when it is absent |
| `KNovel.NovelTitles` | main.py:29-33 | the printed novel lines are the texts of the novel container's anchors, in order; AttributeError exactly when the container is missing |
| `KNovel.FirstIndex` | main.py:39-41 | the scan position: some index that matches with no earlier match, and none exactly when no link matches |
| `KNovel.Select` | main.py:39-42 | ValueError with the not-found message exactly when no link matches; otherwise the first matching link's href, or KeyError when that link has no href |
| `KNovel.GetNovelLink` | main.py:36-42 | loop with early return equals the first-exact-match selection over the novel container; AttributeError if the container is missing |
| `KNovel.GetChapterLink` | main.py:55-61 | loop with early return equals the first-substring-match selection over the unfiltered chapter container |
| `KNovel.ExactMatchIsSubstringMatch` | main.py:40-59 | when the novel scan finds a key, the chapter scan on the same list finds it at an index no greater and does not fail with not-found |
| `KNovel.EmptyNumberSelectsFirst` | main.py:57-60 | an empty chapter key selects the first link of any non-empty list |
| `KNovel.NameMatchIsCaseSensitive` | main.py:39-42 | "Solo Leveling" resolves; "solo leveling" fails with "No novel found with the name solo leveling" |
| `KNovel.NumberMatchesInsideCaption` | main.py:58-60 | key "12" selects the link captioned "Capítulo 12: The Return" |
| `KNovel.NumberMayMatchNonChapterLink` | main.py:47-60 | with "Volume 2" before "Capítulo 2", key "2" selects the non-chapter link that the filter drops |
| `KNovel.ChapterEntries` | main.py:48-50 | the filter's result is no longer than its input and holds only input links that contain "Capítulo" |
| `KNovel.ChapterEntriesIsSubsequence` | main.py:48-50 | the filter's result is a subsequence of its input |
| `KNovel.ChapterEntriesKeepsExactly` | main.py:48-50 | each link is kept exactly as many times as it occurs when it contains the marker, and never otherwise |
| `KNovel.ChapterEntriesAppend` | main.py:48-50 | filtering a concatenation is the concatenation of the filtered parts (order preserved) |
| `KNovel.ChapterEntriesIdempotent` | main.py:48-50 | filtering twice equals filtering once |
| `KNovel.ChapterTitles` | main.py:45-52 | the printed chapter lines are the texts of the filtered anchors, in order, so each contains "Capítulo" and there are no more of them than anchors; AttributeError exactly when the container is missing |
| `KNovel.WriteChapterToFile` | main.py:64-75 | accumulator loop: no content div gives AttributeError with no file; no `<h3>` gives IndexError with an empty file; otherwise the file holds the first `<h3>`'s text and then each paragraph, each followed by a blank line |
| `KNovel.BlocksAppend` | main.py:74-75 | the paragraph writes of a concatenation are the writes of each part in order |
| `KNovel.BlocksLengthIsLength` | main.py:74-75 | the paragraph writes have length Σ(len(p) + 2) |
| `KNovel.ChapterTextLength` | main.py:72-75 | the file text has length len(title) + 2 + Σ(len(p) + 2) |
| `KNovel.ChapterTextLayout` | main.py:73-75 | the text opens with title + "\n\n", and paragraph k plus "\n\n" sits right after the title and paragraphs 0..k-1 |
| `KNovel.ChapterTextTwoParagraphs` | main.py:73-75 | a title and two paragraphs give exactly title + "\n\n" + p + "\n\n" + q + "\n\n" |
| `KNovel.FileName` | main.py:89 | the name reads back as the novel name, " - ", the chapter key and ".txt", with length len(novel) + len(chapter) + 7 |
| `KNovel.FileNameDeterminesChapter` | main.py:89 | for a fixed novel name, different chapter keys give different file names |
| `KNovel.FileNameIsAmbiguous` | main.py:89 | ("A - B", "C") and ("A", "B - C") give the same file name, "A - B - C.txt" |
| `KNovel.Run` | main.py:78-90 | the script's run: the fetch, list, select, fetch, list, select, fetch, write sequence, stopping at the first exception |
| `KNovel.OutcomeNamesFile` | main.py:89-90 | any file a run touches is named from the two answers |
| `KNovel.OutcomeFileOnError` | main.py:78-90 | with `open` assumed to succeed: a run without exception has written the file; a run that raises leaves no file, unless the error is the missing title, which leaves an empty one |
| `KNovel.ScenarioListing` | main.py:48-60 | for ["Capítulo 1", "Capítulo 2"] the filter keeps both, and key "2" selects the second |
| `KNovel.EndToEndScenario` | main.py:78-90 | novels A and B, choose "B" and then "2": the lines shown are A, B and both captions, and the file "B - 2.txt" holds the title and both paragraphs |

## Left out

- `get_soup` (main.py:17-21): the HTTP request, its headers and `raise_for_status` are network I/O. The model replaces them with the `web` map: a URL that is absent fails with `HttpError`. Timeouts, retries and status codes are not distinguished.
- BeautifulSoup parsing and `find` / `find_all` (main.py:26, 68-71) belong to a foreign library. A page is given already reduced to a `Soup`. How `class_="post-text-content my-3"` and `class_="post-text-content"` match class attributes is library behaviour and is not modelled: the two containers are independent fields.
- `print_all_novels` / `print_all_chapters` (main.py:29-33, 45-52): their output is modelled as the sequence of printed lines, not as console writes. The `input()` prompts of `main` are parameters.
- The file open, its UTF-8 encoding and the overwrite of an existing file (main.py:72) are not modelled beyond the name and the text written. The model assumes `open(file_name, "w")` succeeds for every name `FileName` builds. In Python it raises when the name is not a valid path, for example a novel listed as "Fate/Zero" gives "Fate/Zero - 1.txt", whose directory does not exist. That failure comes after all three fetches, and `Outcome` reports no exception for it.
- OutcomeFileOnError, Run: their contracts hold only under that assumption about `open`; a file name that the operating system refuses is not an error path of the model.
- Newline translation is not modelled: in text mode on Windows every "\n" is stored as "\r\n", so the bytes on disk differ from `ChapterText`.
- The unused `novel_name` parameter of `write_chapter_to_file` has no behaviour and is not a parameter of `WriteChapterToFile`.
- Exceptions raised inside the outside world are not modelled: a failed write, a keyboard interrupt, a parser crash.
- Python strings that hold lone surrogates have no counterpart, because Dafny's `char` is a Unicode scalar value.
