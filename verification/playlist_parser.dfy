/** The playlist text parser of PlaylistManager (`parseM3UTextToJson`):
    a left fold over the lines of the downloaded text that tracks the
    current group, merges lines by channel name, and finally drops the
    channels filed under the feed's "update time" group. The JSON rendering
    of the result is not modelled; the parser yields the name-keyed map the
    code builds. */
module PlaylistParser {
  import opened Text

  /** Group of channels that precede every group marker. */
  const DefaultGroup: string := "default"
  /** Second field of a group-marker line. */
  const GenreMarker: string := "#genre#"
  /** "更新时间" ("update time"): channels of a group whose name contains it
      are the feed's informational row, not channels. */
  const UpdateTimeMarker: string := "\U{66F4}\U{65B0}\U{65F6}\U{95F4}"

  datatype Channel = Channel(name: string, groupName: string, urls: seq<string>)

  /** The parser's `HashMap<String, Channel>`: iteration order is not part of
      the result. */
  type Catalog = map<string, Channel>

  /** What one line of playlist text means. */
  datatype LineKind =
    | Skip                              // blank, or no comma at all
    | GroupMarker(group: string)        // "<group>,#genre#"
    | Entry(name: string, url: string)  // "<name>,<url>[,ignored...]"

  /** Every channel is stored under its own name and has at least one URL. */
  predicate WellFormed(c: Catalog) {
    forall n | n in c :: c[n].name == n && |c[n].urls| >= 1
  }

  /** Classifies one line: split on every comma, trim the first two pieces,
      and treat "#genre#" in second place as a group marker. */
  function Classify(line: string): (k: LineKind)
    ensures k.Skip? <==> ',' !in line
    ensures k.GroupMarker? ==> IsTrimmed(k.group) && ',' !in k.group
    ensures k.Entry? ==> IsTrimmed(k.name) && ',' !in k.name
    ensures k.Entry? ==> IsTrimmed(k.url) && ',' !in k.url && k.url != GenreMarker
  {
    if IsBlank(line) || ',' !in line then Skip
    else
      var parts := Split(line, ',');
      var name := Trim(parts[0]);
      var url := if |parts| > 1 then Trim(parts[1]) else "";
      if url == GenreMarker then GroupMarker(name) else Entry(name, url)
  }

  /** A blank line never holds a comma, so it is skipped. */
  lemma BlankLineSkipped(line: string)
    requires IsBlank(line)
    ensures Classify(line) == Skip
  {
    if ',' in line {
      var i :| 0 <= i < |line| && line[i] == ',';
      assert IsWhitespace(line[i]);
    }
  }

  /** The name is the trimmed text before the first comma and the URL the
      trimmed text after it; "name," yields the empty URL. */
  lemma ClassifyTwoFields(a: string, b: string)
    requires ',' !in a && ',' !in b
    ensures Classify(a + [','] + b) ==
      if Trim(b) == GenreMarker then GroupMarker(Trim(a)) else Entry(Trim(a), Trim(b))
  {
    var line := a + [','] + b;
    SplitFirst(a, ',', b);
    SplitNoSeparator(b, ',');
    ClassifyFromParts(line, |a|, a, b);
  }

  /** Anything from the second comma on is ignored. */
  lemma ClassifyIgnoresTail(a: string, b: string, t: string)
    requires ',' !in a && ',' !in b
    ensures Classify(a + [','] + b + [','] + t) == Classify(a + [','] + b)
  {
    var line := a + [','] + b + [','] + t;
    assert line == a + [','] + (b + [','] + t);
    SplitFirst(a, ',', b + [','] + t);
    SplitFirst(b, ',', t);
    ClassifyFromParts(line, |a|, a, b);
    ClassifyTwoFields(a, b);
  }

  /** A line with a comma at position i is classified from the first two
      pieces of its split. */
  lemma ClassifyFromParts(line: string, i: int, a: string, b: string)
    requires 0 <= i < |line| && line[i] == ','
    requires |Split(line, ',')| > 1
    requires Split(line, ',')[0] == a && Split(line, ',')[1] == b
    ensures Classify(line) ==
      if Trim(b) == GenreMarker then GroupMarker(Trim(a)) else Entry(Trim(a), Trim(b))
  {
    BlankHasNoComma(line, i);
  }

  lemma BlankHasNoComma(line: string, i: int)
    requires 0 <= i < |line| && line[i] == ','
    ensures !IsBlank(line)
  {
  }

  /** The parser's running state: the current group and the channels so far. */
  datatype Builder = Builder(group: string, channels: Catalog)

  /** The URLs a classified line contributes to the channel named n: one
      URL when it is an entry for n, none otherwise. */
  function EntryUrls(k: LineKind, n: string): seq<string> {
    if k.Entry? && k.name == n then [k.url] else []
  }

  predicate IsEntryFor(k: LineKind, n: string) {
    k.Entry? && k.name == n
  }

  /** One step of the fold on a classified line. A marker only changes the
      group; an entry for a known name appends its URL and keeps the group
      the channel was created in; an entry for a new name creates a channel
      in the current group. */
  function Apply(b: Builder, k: LineKind): (b': Builder)
    ensures WellFormed(b.channels) ==> WellFormed(b'.channels)
    ensures forall n :: n in b'.channels <==> n in b.channels || IsEntryFor(k, n)
    ensures forall n | n in b.channels ::
      && b'.channels[n].groupName == b.channels[n].groupName
      && b'.channels[n].urls == b.channels[n].urls + EntryUrls(k, n)
    ensures forall n | n in b'.channels && n !in b.channels ::
      b'.channels[n] == Channel(n, b.group, EntryUrls(k, n))
    ensures b'.group == if k.GroupMarker? then k.group else b.group
  {
    match k
    case Skip => b
    case GroupMarker(g) => b.(group := g)
    case Entry(n, u) =>
      if n in b.channels then
        b.(channels := b.channels[n := b.channels[n].(urls := b.channels[n].urls + [u])])
      else
        b.(channels := b.channels[n := Channel(n, b.group, [u])])
  }

  /** Applies the classified lines in order. */
  function ApplyAll(b: Builder, ks: seq<LineKind>): Builder
    decreases |ks|
  {
    if |ks| == 0 then b else Apply(ApplyAll(b, ks[..|ks| - 1]), ks[|ks| - 1])
  }

  /** Classifies every line. */
  function ClassifyAll(lines: seq<string>): (ks: seq<LineKind>)
    ensures |ks| == |lines|
  {
    seq(|lines|, i requires 0 <= i < |lines| => Classify(lines[i]))
  }

  /** The fold from the initial state: group "default", no channels. */
  function ParseLines(lines: seq<string>): Builder {
    ApplyAll(Builder(DefaultGroup, map[]), ClassifyAll(lines))
  }

  // ---------------------------------------------------------------------
  // Reference definitions over classified lines, one concern each.

  /** The group in effect after the lines: the group of the last marker,
      or "default" when there is none. */
  function GroupAfter(ks: seq<LineKind>): string
    decreases |ks|
  {
    if |ks| == 0 then DefaultGroup
    else if ks[|ks| - 1].GroupMarker? then ks[|ks| - 1].group
    else GroupAfter(ks[..|ks| - 1])
  }

  /** The URLs of every entry named n, in encounter order, duplicates kept. */
  function UrlsFor(ks: seq<LineKind>, n: string): seq<string>
    decreases |ks|
  {
    if |ks| == 0 then [] else UrlsFor(ks[..|ks| - 1], n) + EntryUrls(ks[|ks| - 1], n)
  }

  /** Line i is the first entry named n. */
  predicate FirstEntryAt(ks: seq<LineKind>, n: string, i: int) {
    && 0 <= i < |ks|
    && IsEntryFor(ks[i], n)
    && forall j | 0 <= j < i :: !IsEntryFor(ks[j], n)
  }

  /** A name has URLs exactly when some line is an entry for it. */
  lemma {:induction false} UrlsForEntries(ks: seq<LineKind>, n: string)
    ensures UrlsFor(ks, n) != [] <==> exists i | 0 <= i < |ks| :: IsEntryFor(ks[i], n)
    decreases |ks|
  {
    if |ks| > 0 {
      var p := ks[..|ks| - 1];
      UrlsForEntries(p, n);
      if exists i | 0 <= i < |p| :: IsEntryFor(p[i], n) {
        var i :| 0 <= i < |p| && IsEntryFor(p[i], n);
        assert ks[i] == p[i];
      }
      if exists i | 0 <= i < |ks| :: IsEntryFor(ks[i], n) {
        var i :| 0 <= i < |ks| && IsEntryFor(ks[i], n);
        if i < |p| {
          assert p[i] == ks[i];
        }
      }
    }
  }

  /** The fold computes the reference definitions: the current group is the
      last marker's, the channels are exactly the names with an entry, each
      carries the URLs of all its entries in order, and its group is the one
      in effect at its first entry. */
  lemma ApplyAllCorrect(ks: seq<LineKind>)
    ensures ApplyAll(Builder(DefaultGroup, map[]), ks).group == GroupAfter(ks)
    ensures WellFormed(ApplyAll(Builder(DefaultGroup, map[]), ks).channels)
    ensures forall n :: n in ApplyAll(Builder(DefaultGroup, map[]), ks).channels <==> UrlsFor(ks, n) != []
    ensures forall n | n in ApplyAll(Builder(DefaultGroup, map[]), ks).channels ::
      ApplyAll(Builder(DefaultGroup, map[]), ks).channels[n].urls == UrlsFor(ks, n)
    ensures forall n, i | FirstEntryAt(ks, n, i) ::
      && n in ApplyAll(Builder(DefaultGroup, map[]), ks).channels
      && ApplyAll(Builder(DefaultGroup, map[]), ks).channels[n].groupName == GroupAfter(ks[..i])
  {
    ApplyAllContents(ks);
    ApplyAllFirstGroup(ks);
  }

  /** The group, the keys and the URLs of the fold. */
  lemma {:induction false} ApplyAllContents(ks: seq<LineKind>)
    ensures ApplyAll(Builder(DefaultGroup, map[]), ks).group == GroupAfter(ks)
    ensures WellFormed(ApplyAll(Builder(DefaultGroup, map[]), ks).channels)
    ensures forall n :: n in ApplyAll(Builder(DefaultGroup, map[]), ks).channels <==> UrlsFor(ks, n) != []
    ensures forall n | n in ApplyAll(Builder(DefaultGroup, map[]), ks).channels ::
      ApplyAll(Builder(DefaultGroup, map[]), ks).channels[n].urls == UrlsFor(ks, n)
    decreases |ks|
  {
    if |ks| > 0 {
      ApplyAllContents(ks[..|ks| - 1]);
    }
  }

  /** Each channel keeps the group in effect at its first entry. */
  lemma {:induction false} ApplyAllFirstGroup(ks: seq<LineKind>)
    ensures forall n, i | FirstEntryAt(ks, n, i) ::
      && n in ApplyAll(Builder(DefaultGroup, map[]), ks).channels
      && ApplyAll(Builder(DefaultGroup, map[]), ks).channels[n].groupName == GroupAfter(ks[..i])
    decreases |ks|
  {
    if |ks| > 0 {
      var p := ks[..|ks| - 1];
      var last := ks[|ks| - 1];
      ApplyAllFirstGroup(p);
      ApplyAllContents(p);
      var b := ApplyAll(Builder(DefaultGroup, map[]), p);
      var b' := ApplyAll(Builder(DefaultGroup, map[]), ks);
      assert b' == Apply(b, last);
      forall n, i | FirstEntryAt(ks, n, i)
        ensures n in b'.channels && b'.channels[n].groupName == GroupAfter(ks[..i])
      {
        if i < |p| {
          assert FirstEntryAt(p, n, i) by {
            forall j | 0 <= j < i ensures !IsEntryFor(p[j], n) {
              assert p[j] == ks[j];
            }
          }
          assert ks[..i] == p[..i];
        } else {
          assert ks[..i] == p;
          UrlsForEntries(p, n);
        }
      }
    }
  }

  lemma {:induction false} FirstEntryExists(ks: seq<LineKind>, n: string)
    requires exists i | 0 <= i < |ks| :: IsEntryFor(ks[i], n)
    ensures exists i :: FirstEntryAt(ks, n, i)
    decreases |ks|
  {
    if IsEntryFor(ks[0], n) {
      assert FirstEntryAt(ks, n, 0);
    } else {
      var i :| 0 <= i < |ks| && IsEntryFor(ks[i], n);
      assert ks[1..][i - 1] == ks[i];
      FirstEntryExists(ks[1..], n);
      var k :| FirstEntryAt(ks[1..], n, k);
      forall j | 0 <= j < k + 1 ensures !IsEntryFor(ks[j], n) {
        if j > 0 {
          assert ks[j] == ks[1..][j - 1];
        }
      }
      assert FirstEntryAt(ks, n, k + 1);
    }
  }

  /** Keeps exactly the channels whose group name does not contain the
      "update time" marker. */
  function DropUpdateRows(c: Catalog): (r: Catalog)
    ensures forall n :: n in r <==> n in c && !Contains(c[n].groupName, UpdateTimeMarker)
    ensures forall n | n in r :: r[n] == c[n]
  {
    map n | n in c && !Contains(c[n].groupName, UpdateTimeMarker) :: c[n]
  }

  /** `parseM3UTextToJson`, before rendering to JSON. */
  function Parse(text: string): Catalog {
    DropUpdateRows(ParseLines(Lines(text)).channels)
  }

  /** The values of a catalog as the JSON writer receives them: listed in
      the map's iteration order `order`, passing over names not in it. */
  function Listing(c: Catalog, order: seq<string>): (cs: seq<Channel>)
    ensures forall k | 0 <= k < |cs| :: cs[k] in c.Values
    decreases |order|
  {
    if |order| == 0 then []
    else
      var n := order[|order| - 1];
      Listing(c, order[..|order| - 1]) + (if n in c then [c[n]] else [])
  }

  /** An iteration order of a catalog visits each of its names once. */
  predicate IsIterationOrder(c: Catalog, order: seq<string>) {
    && (forall n | n in c :: n in order)
    && (forall k | 0 <= k < |order| :: order[k] in c)
    && (forall i, j | 0 <= i < j < |order| :: order[i] != order[j])
  }

  /** What the JSON writer may receive for a catalog: every channel once,
      nothing else, whatever the order. */
  predicate IsListingOf(c: Catalog, cs: seq<Channel>) {
    && |cs| == |c|
    && (forall n | n in c :: c[n] in cs)
    && (forall k | 0 <= k < |cs| :: cs[k] in c.Values)
    && (forall i, j | 0 <= i < j < |cs| :: cs[i].name != cs[j].name)
  }

  /** An iteration order names every key exactly once, so it is as long as
      the catalog. */
  lemma {:induction false} IterationOrderLength(c: Catalog, order: seq<string>)
    requires IsIterationOrder(c, order)
    ensures |order| == |c|
    decreases |order|
  {
    if |order| == 0 {
      assert c.Keys == {};
    } else {
      var n := order[|order| - 1];
      var p := order[..|order| - 1];
      var c' := c - {n};
      forall m | m in c' ensures m in p {
        var k :| 0 <= k < |order| && order[k] == m;
        assert k != |order| - 1;
        assert p[k] == m;
      }
      forall k | 0 <= k < |p| ensures p[k] in c' {
        assert p[k] == order[k] && order[k] != order[|order| - 1];
      }
      IterationOrderLength(c', p);
      assert c'.Keys == c.Keys - {n};
      assert |c.Keys| == |c| && |c'.Keys| == |c'|;
    }
  }

  /** Any iteration order of a well-formed catalog hands the writer a
      listing of it. */
  lemma ListingIsListingOf(c: Catalog, order: seq<string>)
    requires IsIterationOrder(c, order) && WellFormed(c)
    ensures IsListingOf(c, Listing(c, order))
  {
    var cs := Listing(c, order);
    IterationOrderLength(c, order);
    ListingCoversCatalog(c, order);
    ListingNamesDistinct(c, order);
    forall n | n in c ensures c[n] in cs {
      var k :| 0 <= k < |order| && cs[k] == c[n];
    }
  }

  /** When every name of the order is in the catalog, the listing is the
      catalog's channels in that order. */
  lemma {:induction false} ListingInOrder(c: Catalog, order: seq<string>)
    requires forall k | 0 <= k < |order| :: order[k] in c
    ensures |Listing(c, order)| == |order|
    ensures forall k | 0 <= k < |order| :: Listing(c, order)[k] == c[order[k]]
    decreases |order|
  {
    if |order| > 0 {
      var p := order[..|order| - 1];
      assert forall k | 0 <= k < |p| :: p[k] == order[k];
      ListingInOrder(c, p);
    }
  }

  /** Whatever the iteration order, the writer receives every channel of the
      catalog, and nothing else. */
  lemma ListingCoversCatalog(c: Catalog, order: seq<string>)
    requires IsIterationOrder(c, order)
    ensures |Listing(c, order)| == |order|
    ensures forall n | n in c :: exists k | 0 <= k < |order| :: Listing(c, order)[k] == c[n]
  {
    var cs := Listing(c, order);
    ListingInOrder(c, order);
    forall n | n in c
      ensures exists k | 0 <= k < |order| :: cs[k] == c[n]
    {
      var k :| 0 <= k < |order| && order[k] == n;
      assert cs[k] == c[n];
    }
  }

  /** In a well-formed catalog the writer receives each channel only once:
      no two listed channels share a name. */
  lemma ListingNamesDistinct(c: Catalog, order: seq<string>)
    requires IsIterationOrder(c, order) && WellFormed(c)
    ensures |Listing(c, order)| == |order|
    ensures forall i, j | 0 <= i < j < |order| :: Listing(c, order)[i].name != Listing(c, order)[j].name
  {
    var cs := Listing(c, order);
    ListingInOrder(c, order);
    forall i, j | 0 <= i < j < |order|
      ensures cs[i].name != cs[j].name
    {
      assert cs[i] == c[order[i]] && cs[j] == c[order[j]];
    }
  }

  /** What the parser promises, in terms of the classified lines ks of the
      text: every channel is keyed by its own name and has at least one URL;
      it carries the URLs of all its entry lines in order; no channel
      appears without an entry line; and the channel of a name whose first
      entry is at line i survives exactly when the group in effect there
      does not mention the "update time" marker, and then has that group. */
  lemma ParseCorrect(text: string, ks: seq<LineKind>)
    requires ks == ClassifyAll(Lines(text))
    ensures WellFormed(Parse(text))
    ensures forall n | n in Parse(text) :: Parse(text)[n].urls == UrlsFor(ks, n)
    ensures forall n | n in Parse(text) :: exists i :: FirstEntryAt(ks, n, i)
    ensures forall n, i | FirstEntryAt(ks, n, i) ::
      && (n in Parse(text) <==> !Contains(GroupAfter(ks[..i]), UpdateTimeMarker))
      && (n in Parse(text) ==> Parse(text)[n].groupName == GroupAfter(ks[..i]))
  {
    ApplyAllCorrect(ks);
    forall n | n in Parse(text) ensures exists i :: FirstEntryAt(ks, n, i) {
      UrlsForEntries(ks, n);
      FirstEntryExists(ks, n);
    }
  }

  /** Whatever iteration order the parser's map has, the JSON writer
      receives each surviving channel once and nothing else. */
  lemma ParsedListing(text: string, order: seq<string>)
    requires IsIterationOrder(Parse(text), order)
    ensures IsListingOf(Parse(text), Listing(Parse(text), order))
  {
    ParseCorrect(text, ClassifyAll(Lines(text)));
    ListingIsListingOf(Parse(text), order);
  }

  /** A line without a comma (blank lines included) changes nothing: neither
      the channels nor the current group. */
  lemma SkippedLineInvisible(lines: seq<string>, line: string)
    requires ',' !in line
    ensures ParseLines(lines + [line]) == ParseLines(lines)
  {
    assert ClassifyAll(lines + [line]) == ClassifyAll(lines) + [Skip];
    assert (ClassifyAll(lines) + [Skip])[..|lines|] == ClassifyAll(lines);
  }

  /** Two entries sharing a name make one channel holding both URLs in
      order, wherever they stand, provided no other entry has that name. */
  lemma MergeByName(ks: seq<LineKind>, i: int, j: int, n: string)
    requires 0 <= i < j < |ks|
    requires IsEntryFor(ks[i], n) && IsEntryFor(ks[j], n)
    requires forall m | 0 <= m < |ks| && m != i && m != j :: !IsEntryFor(ks[m], n)
    ensures n in ApplyAll(Builder(DefaultGroup, map[]), ks).channels
    ensures ApplyAll(Builder(DefaultGroup, map[]), ks).channels[n].urls == [ks[i].url, ks[j].url]
    ensures ApplyAll(Builder(DefaultGroup, map[]), ks).channels[n].groupName == GroupAfter(ks[..i])
  {
    assert FirstEntryAt(ks, n, i) by {
      forall m | 0 <= m < i ensures !IsEntryFor(ks[m], n) {
      }
    }
    ApplyAllChannel(ks, n, i);
    UrlsForOnly(ks, n, i, j);
    assert [ks[i].url] + [ks[j].url] == [ks[i].url, ks[j].url];
  }

  /** The fold's facts about one channel, given its first entry. */
  lemma ApplyAllChannel(ks: seq<LineKind>, n: string, i: int)
    requires FirstEntryAt(ks, n, i)
    ensures n in ApplyAll(Builder(DefaultGroup, map[]), ks).channels
    ensures ApplyAll(Builder(DefaultGroup, map[]), ks).channels[n].urls == UrlsFor(ks, n)
    ensures ApplyAll(Builder(DefaultGroup, map[]), ks).channels[n].groupName == GroupAfter(ks[..i])
  {
    ApplyAllContents(ks);
    ApplyAllFirstGroup(ks);
  }

  lemma {:induction false} UrlsForOnly(ks: seq<LineKind>, n: string, i: int, j: int)
    requires 0 <= i < j <= |ks|
    requires IsEntryFor(ks[i], n) && (j < |ks| ==> IsEntryFor(ks[j], n))
    requires forall m | 0 <= m < |ks| && m != i && m != j :: !IsEntryFor(ks[m], n)
    ensures UrlsFor(ks, n) == [ks[i].url] + (if j < |ks| then [ks[j].url] else [])
    decreases |ks|
  {
    var p := ks[..|ks| - 1];
    if j == |ks| {
      if i == |ks| - 1 {
        UrlsForNone(p, n);
      } else {
        UrlsForOnly(p, n, i, |p|);
      }
    } else if j == |ks| - 1 {
      UrlsForOnly(p, n, i, |p|);
    } else {
      UrlsForOnly(p, n, i, j);
    }
  }

  lemma {:induction false} UrlsForNone(ks: seq<LineKind>, n: string)
    requires forall m | 0 <= m < |ks| :: !IsEntryFor(ks[m], n)
    ensures UrlsFor(ks, n) == []
  {
    UrlsForEntries(ks, n);
  }

  /** The lines of a small sample feed: two groups of
      channels and an "update time" group. */
  const SampleLines: seq<string> := [
    "China,#genre#", "CCTV-1,http://a/x", "CCTV-1,http://a/y", "News,#genre#",
    "VOA,http://b/z", UpdateTimeMarker + ",#genre#", "Stale,http://c/w"]

  /** The sample feed, each line ended by a line feed:
      "China,#genre#\nCCTV-1,http://a/x\n ... Stale,http://c/w\n". */
  const SampleText: string := Unlines(SampleLines)

  const SampleKinds: seq<LineKind> := [
    GroupMarker("China"), Entry("CCTV-1", "http://a/x"), Entry("CCTV-1", "http://a/y"),
    GroupMarker("News"), Entry("VOA", "http://b/z"), GroupMarker(UpdateTimeMarker),
    Entry("Stale", "http://c/w"), Skip]

  lemma SampleSplitsIntoLines()
    ensures Lines(SampleText) == SampleLines + [""]
  {
    var l := SampleLines;
    assert forall k | 0 <= k < |l| :: HasNoLineBreak(l[k]) by {
      assert HasNoLineBreak(l[0]);
      assert HasNoLineBreak(l[1]);
      assert HasNoLineBreak(l[2]);
      assert HasNoLineBreak(l[3]);
      assert HasNoLineBreak(l[4]);
      assert HasNoLineBreak(l[5]);
      assert HasNoLineBreak(l[6]);
    }
    LinesUnlines(l);
  }

  /** The two fields of each sample line other than the final empty one. */
  const SampleFields: seq<(string, string)> := [
    ("China", GenreMarker), ("CCTV-1", "http://a/x"), ("CCTV-1", "http://a/y"),
    ("News", GenreMarker), ("VOA", "http://b/z"), (UpdateTimeMarker, GenreMarker),
    ("Stale", "http://c/w")]

  lemma SampleClassified()
    ensures ClassifyAll(SampleLines + [""]) == SampleKinds
  {
    SampleLinesFromFields();
    SampleFieldsClean();
    SampleKindsFromFields();
    FieldLinesClassified(SampleFields, SampleLines + [""], SampleKinds);
  }

  lemma SampleLinesFromFields()
    ensures forall k | 0 <= k < 7 :: SampleLines[k] == FieldLine(SampleFields[k])
  {
  }

  lemma SampleFieldsClean()
    ensures forall k | 0 <= k < 7 :: CleanField(SampleFields[k].0) && CleanField(SampleFields[k].1)
  {
  }

  /** SampleKinds spells out what each pair of fields means. */
  lemma SampleKindsFromFields()
    ensures forall k | 0 <= k < 7 :: FieldKind(SampleFields[k]) == SampleKinds[k]
  {
  }

  /** A field of a line: no comma and nothing to trim. */
  predicate CleanField(x: string) {
    ',' !in x && IsTrimmed(x)
  }

  /** The line "a,b" of two fields. */
  function FieldLine(f: (string, string)): string {
    f.0 + "," + f.1
  }

  /** What a line "a,b" of clean fields means. */
  function FieldKind(f: (string, string)): LineKind {
    if f.1 == GenreMarker then GroupMarker(f.0) else Entry(f.0, f.1)
  }

  /** Lines made of two clean fields each, then one empty line, classify
      field by field and then as skipped. */
  lemma FieldLinesClassified(fs: seq<(string, string)>, lines: seq<string>, kinds: seq<LineKind>)
    requires |lines| == |fs| + 1 && |kinds| == |fs| + 1
    requires forall k | 0 <= k < |fs| ::
      lines[k] == FieldLine(fs[k]) && CleanField(fs[k].0) && CleanField(fs[k].1)
    requires forall k | 0 <= k < |fs| :: kinds[k] == FieldKind(fs[k])
    requires lines[|fs|] == "" && kinds[|fs|] == Skip
    ensures ClassifyAll(lines) == kinds
  {
    forall k | 0 <= k < |fs|
      ensures ClassifyAll(lines)[k] == kinds[k]
    {
      assert ClassifyAll(lines)[k] == Classify(FieldLine(fs[k]));
      TwoCleanFields(fs[k].0, fs[k].1);
    }
    assert ClassifyAll(lines)[|fs|] == Classify("");
  }

  lemma TwoCleanFields(a: string, b: string)
    requires ',' !in a && ',' !in b && IsTrimmed(a) && IsTrimmed(b)
    ensures Classify(a + "," + b) == if b == GenreMarker then GroupMarker(a) else Entry(a, b)
  {
    ClassifyTwoFields(a, b);
    TrimTrimmed(a);
    TrimTrimmed(b);
  }

  lemma SampleFolded()
    ensures ApplyAll(Builder(DefaultGroup, map[]), SampleKinds).channels == SampleChannels
  {
    var ks := SampleKinds;
    var b0 := Builder(DefaultGroup, map[]);
    SampleFoldedSixLines();
    assert ks[6] == Entry("Stale", "http://c/w") && ks[7] == Skip;
    assert ks[..7][..6] == ks[..6];
    assert ApplyAll(b0, ks[..7]) == Builder(UpdateTimeMarker, SampleChannels);
    assert ks[..8] == ks;
  }

  /** The first six sample lines: the "News" group adds VOA, then the
      "update time" marker. */
  lemma SampleFoldedSixLines()
    ensures ApplyAll(Builder(DefaultGroup, map[]), SampleKinds[..6]) ==
      Builder(UpdateTimeMarker, map[
        "CCTV-1" := Channel("CCTV-1", "China", ["http://a/x", "http://a/y"]),
        "VOA" := Channel("VOA", "News", ["http://b/z"])])
  {
    var ks := SampleKinds;
    var b0 := Builder(DefaultGroup, map[]);
    var c3 := map["CCTV-1" := Channel("CCTV-1", "China", ["http://a/x", "http://a/y"])];
    SampleFoldedFirstHalf();
    assert ks[4] == Entry("VOA", "http://b/z") && ks[5] == GroupMarker(UpdateTimeMarker);
    assert ks[..5][..4] == ks[..4];
    assert ApplyAll(b0, ks[..5]) == Builder("News", c3["VOA" := Channel("VOA", "News", ["http://b/z"])]);
    assert ks[..6][..5] == ks[..5];
  }

  /** The first four sample lines: two entries merged under "China", then
      the "News" marker. */
  lemma SampleFoldedFirstHalf()
    ensures ApplyAll(Builder(DefaultGroup, map[]), SampleKinds[..4]) ==
      Builder("News", map["CCTV-1" := Channel("CCTV-1", "China", ["http://a/x", "http://a/y"])])
  {
    var ks := SampleKinds;
    var b0 := Builder(DefaultGroup, map[]);
    assert ks[0] == GroupMarker("China") && ks[1] == Entry("CCTV-1", "http://a/x");
    assert ks[2] == Entry("CCTV-1", "http://a/y") && ks[3] == GroupMarker("News");
    assert ks[..1][..0] == [];
    assert ApplyAll(b0, ks[..1]) == Builder("China", map[]);
    assert ks[..2][..1] == ks[..1];
    assert ApplyAll(b0, ks[..2]) == Builder("China", map["CCTV-1" := Channel("CCTV-1", "China", ["http://a/x"])]);
    var c3 := map["CCTV-1" := Channel("CCTV-1", "China", ["http://a/x", "http://a/y"])];
    assert ks[..3][..2] == ks[..2];
    assert ["http://a/x"] + ["http://a/y"] == ["http://a/x", "http://a/y"];
    assert ApplyAll(b0, ks[..3]) == Builder("China", c3);
    assert ks[..4][..3] == ks[..3];
  }

  /** The channels of the sample before the "update time" filter. */
  const SampleChannels: Catalog := map[
    "CCTV-1" := Channel("CCTV-1", "China", ["http://a/x", "http://a/y"]),
    "VOA" := Channel("VOA", "News", ["http://b/z"]),
    "Stale" := Channel("Stale", UpdateTimeMarker, ["http://c/w"])]

  lemma SampleParsedLines()
    ensures ParseLines(Lines(SampleText)).channels == SampleChannels
  {
    SampleSplitsIntoLines();
    SampleClassified();
    SampleFolded();
  }

  lemma SampleDropped()
    ensures DropUpdateRows(SampleChannels) == map[
      "CCTV-1" := Channel("CCTV-1", "China", ["http://a/x", "http://a/y"]),
      "VOA" := Channel("VOA", "News", ["http://b/z"])]
  {
    assert Contains(UpdateTimeMarker, UpdateTimeMarker) by {
      ContainsInfix("", UpdateTimeMarker, "");
      assert "" + UpdateTimeMarker + "" == UpdateTimeMarker;
    }
    assert !Contains("China", UpdateTimeMarker) by {
      if Contains("China", UpdateTimeMarker) {
        ContainsCharacters("China", UpdateTimeMarker, 0);
      }
    }
    assert !Contains("News", UpdateTimeMarker) by {
      if Contains("News", UpdateTimeMarker) {
        ContainsCharacters("News", UpdateTimeMarker, 0);
      }
    }
    assert DropUpdateRows(SampleChannels).Keys == {"CCTV-1", "VOA"};
  }

  /** The sample parses to two channels: the CCTV-1 lines merge in order,
      and the channel under the "update time" group is dropped. */
  lemma SampleParse()
    ensures Parse(SampleText) == map[
      "CCTV-1" := Channel("CCTV-1", "China", ["http://a/x", "http://a/y"]),
      "VOA" := Channel("VOA", "News", ["http://b/z"])]
  {
    SampleParsedLines();
    SampleDropped();
  }

}
