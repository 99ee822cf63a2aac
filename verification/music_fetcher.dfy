/** Model of `MusicFetcher` (music_fetcher.py): the MusicBrainz query strings built
    from an iTunes artist and title, the composer fallback chain, the record with its
    "Unknown ..." defaults, and the order-preserving `fetch_all`.

    The remote services are a parameter (`Services`): each request maps to a `Reply`,
    where `Raised` stands for any exception the request, `raise_for_status()` or the
    JSON decoding throws. A JSON key whose absence makes Python raise is an `Option`. */
module MusicFetcher {
  import opened Wrappers
  import opened PyText

  // ---------------------------------------------------------------------------
  // Remote answers and the record
  // ---------------------------------------------------------------------------

  /** What one remote call produced: a decoded JSON body, or an exception. */
  datatype Reply<T> = Raised | Answered(body: T)

  /** One entry of a recording's "relations" (`inc=work-rels`): its "target-type"
      ("" when absent) and `relation["work"]["id"]` (None when a key is missing). */
  datatype WorkRelation = WorkRelation(targetType: string, workId: Option<string>)

  /** One entry of a work's "relations" (`inc=artist-rels`): its "type" ("" when
      absent) and `relation["artist"]["name"]` (None when a key is missing). */
  datatype ArtistRelation = ArtistRelation(relType: string, artistName: Option<string>)

  /** One iTunes search result; None is an absent key. */
  datatype Track = Track(
    trackName: Option<string>,
    artistName: Option<string>,
    composer: Option<string>,
    collectionName: Option<string>,
    releaseDate: Option<string>,
    primaryGenreName: Option<string>,
    trackViewUrl: Option<string>)

  /** The remote services, one function per kind of request:
      - itunesSearch: search term -> "results" (their count is "resultCount");
      - recordingSearch: recording query -> the "id" of each recording hit ("recordings"
        absent reads as no hits);
      - recordingRelations: recording id -> its relations;
      - workRelations: work id -> its relations;
      - workSearch: free text -> the "id" of each work hit ("works" absent reads as none). */
  datatype Services = Services(
    itunesSearch: string -> Reply<seq<Track>>,
    recordingSearch: string -> Reply<seq<Option<string>>>,
    recordingRelations: string -> Reply<seq<WorkRelation>>,
    workRelations: string -> Reply<seq<ArtistRelation>>,
    workSearch: string -> Reply<seq<Option<string>>>)

  /** The dictionary `fetch_metadata` returns. */
  datatype Record = Record(
    query: string,
    title: string,
    artist: string,
    composer: string,
    album: string,
    year: string,
    genre: string,
    link: string)

  // ---------------------------------------------------------------------------
  // The artist clause (music_fetcher.py:19-27)
  // ---------------------------------------------------------------------------

  predicate IsArtistSeparator(ch: char) { ch == ',' || ch == '&' }

  predicate IsQuote(ch: char) { ch == '"' }

  /** One piece of the split artist string after `if a.strip()` and
      `a.strip().replace('"', '')`: dropped when blank, cleaned otherwise. */
  function CleanPiece(piece: string): seq<string> {
    if Strip(piece) == "" then [] else [RemoveChar(Strip(piece), '"')]
  }

  /** The list comprehension of line 20 over `pieces`. */
  function CleanPieces(pieces: seq<string>): seq<string>
    decreases |pieces|
  {
    if pieces == [] then [] else CleanPiece(pieces[0]) + CleanPieces(pieces[1..])
  }

  /** The artist names the clause is built from (lines 19-20). */
  function ArtistNames(artist: string): seq<string> {
    CleanPieces(Split(artist, IsArtistSeparator))
  }

  function Quoted(name: string): string { "\"" + name + "\"" }

  /** `' OR '.join([f'"{a}"' for a in names])`. */
  function JoinOr(names: seq<string>): string
    requires names != []
    decreases |names|
  {
    if |names| == 1 then Quoted(names[0]) else Quoted(names[0]) + " OR " + JoinOr(names[1..])
  }

  /** `artist:("A" OR "B" ...)`, or "" when no name survives (lines 23-27). */
  function ArtistClause(artist: string): string {
    var names := ArtistNames(artist);
    if names == [] then "" else "artist:(" + JoinOr(names) + ")"
  }

  /** The second, fourth, ... pieces: the text inside each pair of quotes. */
  function OddPieces(pieces: seq<string>): seq<string>
    decreases |pieces|
  {
    if |pieces| < 2 then [] else [pieces[1]] + OddPieces(pieces[2..])
  }

  /** Reads the quoted names back out of an artist clause. */
  function ClauseNames(clause: string): seq<string> {
    if |clause| >= 9 && clause[..8] == "artist:(" && clause[|clause| - 1] == ')'
    then OddPieces(Split(clause[8..|clause| - 1], IsQuote))
    else []
  }

  // ---------------------------------------------------------------------------
  // Title variants and recording queries (music_fetcher.py:30-49)
  // ---------------------------------------------------------------------------

  /** The variants tried in order: the title without '"', the text after the first
      ": " when there is one, and the title with parenthesised groups removed and
      stripped, when that is non-empty and differs from the cleaned title. */
  function TitleVariants(title: string): seq<string> {
    var clean := RemoveChar(title, '"');
    var afterColon := match Find(clean, ": ") case Some(k) => [clean[k + 2..]] case None => [];
    var base := Strip(StripGroups(clean));
    [clean] + afterColon + (if base != "" && base != clean then [base] else [])
  }

  /** The recording search query for one variant (line 49). */
  function RecordingQuery(variant: string, clause: string): string {
    "recording:\"" + variant + "\" AND " + clause
  }

  // ---------------------------------------------------------------------------
  // The variant loop (music_fetcher.py:46-96)
  // ---------------------------------------------------------------------------

  /** The index of the first relation whose "target-type" is "work", or |rels|. */
  function FirstWorkRelation(rels: seq<WorkRelation>): (k: nat)
    ensures k <= |rels|
    ensures k < |rels| ==> rels[k].targetType == "work"
    ensures forall j :: 0 <= j < k ==> rels[j].targetType != "work"
    decreases |rels|
  {
    if rels == [] then 0
    else if rels[0].targetType == "work" then 0
    else 1 + FirstWorkRelation(rels[1..])
  }

  /** The index of the first relation whose "type" is "composer", or |rels|. */
  function FirstComposerRelation(rels: seq<ArtistRelation>): (k: nat)
    ensures k <= |rels|
    ensures k < |rels| ==> rels[k].relType == "composer"
    ensures forall j :: 0 <= j < k ==> rels[j].relType != "composer"
    decreases |rels|
  {
    if rels == [] then 0
    else if rels[0].relType == "composer" then 0
    else 1 + FirstComposerRelation(rels[1..])
  }

  /** One pass of the variant loop's body: the composer it returns, or None when it
      moves on to the next variant (no hit, no work, an empty work id, no composer
      relation, or an exception, a missing JSON key included). */
  function VariantComposer(variant: string, clause: string, svc: Services): Option<string> {
    match svc.recordingSearch(RecordingQuery(variant, clause))
    case Raised => None
    case Answered(hits) =>
      if hits == [] || hits[0].None? then None
      else
        match svc.recordingRelations(hits[0].value)
        case Raised => None
        case Answered(rels) =>
          var k := FirstWorkRelation(rels);
          if k == |rels| || rels[k].workId.None? || rels[k].workId.value == "" then None
          else
            match svc.workRelations(rels[k].workId.value)
            case Raised => None
            case Answered(arts) =>
              var m := FirstComposerRelation(arts);
              if m == |arts| then None else arts[m].artistName
  }

  /** The composer of the first variant, in order, whose pass returns one. */
  function FirstHit(variants: seq<string>, clause: string, svc: Services): Option<string>
    decreases |variants|
  {
    if variants == [] then None
    else
      match VariantComposer(variants[0], clause, svc)
      case Some(c) => Some(c)
      case None => FirstHit(variants[1..], clause, svc)
  }

  /** The variant loop: it stops at once when the artist clause is empty. */
  function FirstVariantComposer(variants: seq<string>, clause: string, svc: Services): Option<string> {
    if clause == "" then None else FirstHit(variants, clause, svc)
  }

  // ---------------------------------------------------------------------------
  // The work-search fallback (music_fetcher.py:99-134)
  // ---------------------------------------------------------------------------

  /** Heuristic 2's inner loop: some part longer than 3 characters occurs,
      case-insensitively, in the query. */
  predicate AnyPartOccurs(parts: seq<string>, query: string)
    decreases |parts|
  {
    parts != [] &&
    ((|parts[0]| > 3 && Contains(Lower(query), Lower(parts[0]))) || AnyPartOccurs(parts[1..], query))
  }

  /** The two acceptance rules for a composer candidate (lines 122-130). */
  predicate Accepts(name: string, artist: string, query: string) {
    (artist != "" && Contains(Lower(artist), Lower(name))) || AnyPartOccurs(Words(name), query)
  }

  /** How a scan of the fallback ends: a composer is returned, the candidates run
      out, or an exception ends the whole fallback. */
  datatype Scan = Accepted(name: string) | Exhausted | Aborted

  /** The scan over one work's relations: every composer relation is a candidate. */
  function ScanRelations(rels: seq<ArtistRelation>, artist: string, query: string): Scan
    decreases |rels|
  {
    if rels == [] then Exhausted
    else if rels[0].relType != "composer" then ScanRelations(rels[1..], artist, query)
    else
      match rels[0].artistName
      case None => Aborted
      case Some(name) =>
        if Accepts(name, artist, query) then Accepted(name) else ScanRelations(rels[1..], artist, query)
  }

  /** The scan over the works the search returned. */
  function ScanWorks(works: seq<Option<string>>, artist: string, query: string,
                     workRelations: string -> Reply<seq<ArtistRelation>>): Scan
    decreases |works|
  {
    if works == [] then Exhausted
    else
      match works[0]
      case None => Aborted
      case Some(id) =>
        match workRelations(id)
        case Raised => Aborted
        case Answered(rels) =>
          match ScanRelations(rels, artist, query)
          case Exhausted => ScanWorks(works[1..], artist, query, workRelations)
          case other => other
  }

  /** A work the fallback passes over: it has an id, its relations came back, and
      its scan ran out of candidates. */
  predicate WorkExhausted(work: Option<string>, artist: string, query: string,
                          workRelations: string -> Reply<seq<ArtistRelation>>) {
    work.Some? && workRelations(work.value).Answered? &&
    ScanRelations(workRelations(work.value).body, artist, query).Exhausted?
  }

  /** How the fallback ends at a work it does not pass over: aborted when the work
      has no id or its lookup raised, and otherwise as the scan of its relations. */
  function WorkStop(work: Option<string>, artist: string, query: string,
                    workRelations: string -> Reply<seq<ArtistRelation>>): Scan {
    if work.None? || workRelations(work.value).Raised? then Aborted
    else ScanRelations(workRelations(work.value).body, artist, query)
  }

  /** The fallback: only with a non-empty original query; None when nothing is
      accepted or an exception ends it. */
  function FallbackComposer(query: string, artist: string, svc: Services): Option<string> {
    if query == "" then None
    else
      match svc.workSearch(query)
      case Raised => None
      case Answered(works) =>
        match ScanWorks(works, artist, query, svc.workRelations)
        case Accepted(name) => Some(name)
        case _ => None
  }

  /** `fetch_composer_from_mb`: the variant loop first, the fallback after it. */
  function ComposerFromMb(title: string, artist: string, query: string, svc: Services): Option<string> {
    match FirstVariantComposer(TitleVariants(title), ArtistClause(artist), svc)
    case Some(c) => Some(c)
    case None => FallbackComposer(query, artist, svc)
  }

  // ---------------------------------------------------------------------------
  // fetch_metadata and fetch_all (music_fetcher.py:136-190)
  // ---------------------------------------------------------------------------

  /** `release_date[:4] if release_date else "Unknown"`. */
  function Year(releaseDate: Option<string>): (year: string)
    ensures releaseDate.GetOr("") == "" ==> year == "Unknown"
    ensures releaseDate.GetOr("") != "" ==>
      year <= releaseDate.value && |year| == Min(4, |releaseDate.value|)
  {
    var date := releaseDate.GetOr("");
    if date == "" then "Unknown" else date[..Min(4, |date|)]
  }

  /** Python truthiness of an optional string. */
  predicate Truthy(s: Option<string>) { s.Some? && s.value != "" }

  /** `fetch_metadata`: None when the search raised or found nothing; otherwise the
      top result's fields with their defaults, the composer taken from iTunes when
      it is truthy and from MusicBrainz otherwise. */
  function Metadata(query: string, svc: Services): (r: Option<Record>)
    ensures r.Some? ==> r.value.query == query && r.value.composer != ""
  {
    match svc.itunesSearch(query)
    case Raised => None
    case Answered(results) =>
      if results == [] then None
      else
        var track := results[0];
        var title := track.trackName.GetOr("Unknown Title");
        var artist := track.artistName.GetOr("Unknown Artist");
        var composer := if Truthy(track.composer) then track.composer
                        else ComposerFromMb(title, artist, query, svc);
        Some(Record(
          query,
          title,
          artist,
          if Truthy(composer) then composer.value else "Unknown Composer",
          track.collectionName.GetOr("Unknown Album"),
          Year(track.releaseDate),
          track.primaryGenreName.GetOr("Unknown Genre"),
          track.trackViewUrl.GetOr("")))
  }

  /** `f` applied to each element, in order. */
  function MapSeq<A, B>(xs: seq<A>, f: A -> B): (ys: seq<B>)
    ensures |ys| == |xs|
  {
    seq(|xs|, i requires 0 <= i < |xs| => f(xs[i]))
  }

  /** `fetch_metadata` as a function of the query. */
  function MetadataOf(svc: Services): string -> Option<Record> {
    query => Metadata(query, svc)
  }

  /** What `fetch_metadata` answers for each title, in order. */
  function Lookups(titles: seq<string>, svc: Services): seq<Option<Record>> {
    MapSeq(titles, MetadataOf(svc))
  }

  /** `fetch_all`: the records found, in the order of their titles. */
  function FoundRecords(titles: seq<string>, svc: Services): seq<Record> {
    Present(Lookups(titles, svc))
  }

  // ---------------------------------------------------------------------------
  // The operations, step by step
  // ---------------------------------------------------------------------------

  /** `fetch_composer_from_mb`: builds the variants by appending, tries them in
      order until one returns a composer, then falls back to the work search. */
  method FetchComposerFromMb(title: string, artist: string, originalQuery: string, svc: Services)
    returns (composer: Option<string>)
    ensures composer == ComposerFromMb(title, artist, originalQuery, svc)
  {
    var artistQuery := ArtistClause(artist);

    var titleVariants := CollectTitleVariants(title);

    for i := 0 to |titleVariants|
      invariant FirstVariantComposer(titleVariants, artistQuery, svc)
             == FirstVariantComposer(titleVariants[i..], artistQuery, svc)
    {
      if artistQuery == "" {
        break;
      }
      var found := TryVariant(titleVariants[i], artistQuery, svc);
      if found.Some? {
        return found;
      }
      assert titleVariants[i..][1..] == titleVariants[i + 1..];
    }

    composer := FallbackLookup(artist, originalQuery, svc);
  }

  /** Lines 30-43: the cleaned title, the text after its first ": ", and the title
      without parenthesised groups, appended in that order. */
  method CollectTitleVariants(title: string) returns (titleVariants: seq<string>)
    ensures titleVariants == TitleVariants(title)
  {
    titleVariants := [];
    var cleanTitle := RemoveChar(title, '"');
    titleVariants := titleVariants + [cleanTitle];
    var colon := Find(cleanTitle, ": ");
    if colon.Some? {
      titleVariants := titleVariants + [cleanTitle[colon.value + 2..]];
    }
    var baseTitle := Strip(StripGroups(cleanTitle));
    if baseTitle != "" && baseTitle != cleanTitle {
      titleVariants := titleVariants + [baseTitle];
    }
  }

  /** The body of the `try` block for one variant (lines 49-92): the composer it
      returns, or None where the source continues with the next variant. */
  method TryVariant(variant: string, artistQuery: string, svc: Services) returns (composer: Option<string>)
    ensures composer == VariantComposer(variant, artistQuery, svc)
  {
    var query := RecordingQuery(variant, artistQuery);
    var found := svc.recordingSearch(query);
    if found.Raised? || found.body == [] || found.body[0].None? {
      return None;
    }
    var details := svc.recordingRelations(found.body[0].value);
    if details.Raised? {
      return None;
    }
    var relations := details.body;
    var workId: Option<string> := None;
    var raised := false;
    var k := 0;
    while k < |relations|
      invariant 0 <= k <= |relations|
      invariant forall j :: 0 <= j < k ==> relations[j].targetType != "work"
      invariant workId.None? && !raised
    {
      if relations[k].targetType == "work" {
        if relations[k].workId.None? {
          raised := true;
        } else {
          workId := relations[k].workId;
        }
        break;
      }
      k := k + 1;
    }
    assert k == FirstWorkRelation(relations);
    if raised || workId.None? || workId.value == "" {
      return None;
    }
    var work := svc.workRelations(workId.value);
    if work.Raised? {
      return None;
    }
    var m := 0;
    while m < |work.body|
      invariant 0 <= m <= |work.body|
      invariant forall j :: 0 <= j < m ==> work.body[j].relType != "composer"
    {
      if work.body[m].relType == "composer" {
        assert m == FirstComposerRelation(work.body);
        return work.body[m].artistName;
      }
      m := m + 1;
    }
    return None;
  }

  /** The fallback of lines 99-134: the works found for the original query, each
      work's composer relations, and the two acceptance rules. */
  method FallbackLookup(artist: string, originalQuery: string, svc: Services) returns (composer: Option<string>)
    ensures composer == FallbackComposer(originalQuery, artist, svc)
  {
    if originalQuery == "" {
      return None;
    }
    var searched := svc.workSearch(originalQuery);
    if searched.Raised? {
      return None;
    }
    var works := searched.body;
    var w := 0;
    while w < |works|
      invariant 0 <= w <= |works|
      invariant ScanWorks(works, artist, originalQuery, svc.workRelations)
             == ScanWorks(works[w..], artist, originalQuery, svc.workRelations)
    {
      if works[w].None? {
        return None;
      }
      var details := svc.workRelations(works[w].value);
      if details.Raised? {
        return None;
      }
      var relations := details.body;
      var m := 0;
      while m < |relations|
        invariant 0 <= m <= |relations|
        invariant ScanRelations(relations, artist, originalQuery)
               == ScanRelations(relations[m..], artist, originalQuery)
      {
        assert relations[m..][1..] == relations[m + 1..];
        if relations[m].relType == "composer" {
          if relations[m].artistName.None? {
            return None;
          }
          var composerName := relations[m].artistName.value;
          if artist != "" && Contains(Lower(artist), Lower(composerName)) {
            return Some(composerName);
          }
          var parts := Words(composerName);
          var p := 0;
          while p < |parts|
            invariant 0 <= p <= |parts|
            invariant AnyPartOccurs(parts, originalQuery) == AnyPartOccurs(parts[p..], originalQuery)
          {
            if |parts[p]| > 3 && Contains(Lower(originalQuery), Lower(parts[p])) {
              return Some(composerName);
            }
            assert parts[p..][1..] == parts[p + 1..];
            p := p + 1;
          }
        }
        m := m + 1;
      }
      assert works[w..][1..] == works[w + 1..];
      w := w + 1;
    }
    return None;
  }

  /** `fetch_metadata`: one iTunes search, the MusicBrainz chain only when the
      iTunes composer is falsy, and the record with its defaults. */
  method FetchMetadata(query: string, svc: Services) returns (record: Option<Record>)
    ensures record == Metadata(query, svc)
  {
    var response := svc.itunesSearch(query);
    if response.Raised? {
      return None;
    }
    if |response.body| == 0 {
      return None;
    }
    var result := response.body[0];
    var year := Year(result.releaseDate);
    var title := result.trackName.GetOr("Unknown Title");
    var artist := result.artistName.GetOr("Unknown Artist");
    var composer := result.composer;
    if !Truthy(composer) {
      composer := FetchComposerFromMb(title, artist, query, svc);
    }
    return Some(Record(
      query,
      title,
      artist,
      if Truthy(composer) then composer.value else "Unknown Composer",
      result.collectionName.GetOr("Unknown Album"),
      year,
      result.primaryGenreName.GetOr("Unknown Genre"),
      result.trackViewUrl.GetOr("")));
  }

  /** `fetch_all`: appends each record found, skipping the titles that found none. */
  method FetchAll(musicTitles: seq<string>, svc: Services) returns (results: seq<Record>)
    ensures results == FoundRecords(musicTitles, svc)
  {
    results := [];
    ghost var found := Lookups(musicTitles, svc);
    for i := 0 to |musicTitles|
      invariant results == Present(found[..i])
    {
      var data := FetchMetadata(musicTitles[i], svc);
      assert found[i] == data;
      PresentStep(found, i);
      if data.Some? {
        results := results + [data.value];
      }
    }
    assert found[..|musicTitles|] == found;
  }

  // ---------------------------------------------------------------------------
  // Properties: the artist clause
  // ---------------------------------------------------------------------------

  /** The names keep the order of their pieces: cleaning a concatenation cleans
      each part in turn. */
  lemma {:induction false} CleanPiecesAppend(a: seq<string>, b: seq<string>)
    ensures CleanPieces(a + b) == CleanPieces(a) + CleanPieces(b)
    decreases |a|
  {
    if a != [] {
      assert (a + b)[0] == a[0];
      assert (a + b)[1..] == a[1..] + b;
      CleanPiecesAppend(a[1..], b);
      calc {
        CleanPieces(a + b);
        CleanPiece(a[0]) + CleanPieces(a[1..] + b);
        CleanPiece(a[0]) + (CleanPieces(a[1..]) + CleanPieces(b));
        (CleanPiece(a[0]) + CleanPieces(a[1..])) + CleanPieces(b);
        CleanPieces(a) + CleanPieces(b);
      }
    } else {
      assert a + b == b;
    }
  }

  /** A character absent from every piece is absent from every name, and no name
      holds a '"'. */
  lemma {:induction false} CleanPiecesAvoid(pieces: seq<string>, x: char)
    requires forall p <- pieces :: x !in p
    ensures forall n <- CleanPieces(pieces) :: x !in n && '"' !in n
    decreases |pieces|
  {
    if pieces != [] {
      var p := pieces[0];
      StripKeepsChars(p);
      RemoveCharSpec(Strip(p), '"');
      CleanPiecesAvoid(pieces[1..], x);
    }
  }

  /** No artist name holds a separator or a quote. */
  lemma ArtistNamesAvoid(artist: string)
    ensures forall n <- ArtistNames(artist) :: ',' !in n && '&' !in n && '"' !in n
  {
    var pieces := Split(artist, IsArtistSeparator);
    SplitPiecesHaveNoSeparator(artist, IsArtistSeparator);
    forall p <- pieces ensures ',' !in p && '&' !in p {
      var i :| 0 <= i < |pieces| && pieces[i] == p;
      forall j | 0 <= j < |p| ensures p[j] != ',' && p[j] != '&' {
        assert !IsArtistSeparator(pieces[i][j]);
      }
    }
    CleanPiecesAvoid(pieces, ',');
    CleanPiecesAvoid(pieces, '&');
  }

  /** The names are empty exactly when every piece is blank. */
  lemma {:induction false} CleanPiecesEmpty(pieces: seq<string>)
    ensures CleanPieces(pieces) == [] <==> AllBlank(pieces)
    decreases |pieces|
  {
    if pieces != [] {
      StripSpec(pieces[0]);
      CleanPiecesEmpty(pieces[1..]);
      assert pieces == [pieces[0]] + pieces[1..];
      AllBlankCons(pieces[0], pieces[1..]);
    }
  }

  /** Every piece is blank. */
  predicate AllBlank(pieces: seq<string>) {
    forall i :: 0 <= i < |pieces| ==> Blank(pieces[i])
  }

  /** `s` holds nothing but whitespace, ',' and '&'. */
  predicate OnlySeparators(s: string) {
    forall j :: 0 <= j < |s| ==> IsSpace(s[j]) || IsArtistSeparator(s[j])
  }

  lemma AllBlankCons(p: string, ps: seq<string>)
    ensures AllBlank([p] + ps) <==> Blank(p) && AllBlank(ps)
  {
    var all := [p] + ps;
    if Blank(p) && AllBlank(ps) {
      forall i | 0 <= i < |all| ensures Blank(all[i]) {
        if i > 0 {
          assert all[i] == ps[i - 1];
        }
      }
    }
    if AllBlank(all) {
      assert Blank(all[0]);
      forall i | 0 <= i < |ps| ensures Blank(ps[i]) {
        assert ps[i] == all[i + 1];
      }
    }
  }

  lemma BlankCons(c: char, r: string)
    ensures Blank([c] + r) <==> IsSpace(c) && Blank(r)
  {
    var all := [c] + r;
    if IsSpace(c) && Blank(r) {
      forall i | 0 <= i < |all| ensures IsSpace(all[i]) {
        if i > 0 {
          assert all[i] == r[i - 1];
        }
      }
    }
    if Blank(all) {
      assert IsSpace(all[0]);
      forall i | 0 <= i < |r| ensures IsSpace(r[i]) {
        assert r[i] == all[i + 1];
      }
    }
  }

  /** Every piece between separators is blank exactly when the whole string is
      made of whitespace and separators. */
  lemma {:induction false} SplitAllBlank(s: string)
    ensures AllBlank(Split(s, IsArtistSeparator)) <==> OnlySeparators(s)
    decreases |s|
  {
    if s != [] {
      SplitAllBlank(s[1..]);
      var rest := Split(s[1..], IsArtistSeparator);
      assert OnlySeparators(s) <==> (IsSpace(s[0]) || IsArtistSeparator(s[0])) && OnlySeparators(s[1..]) by {
        assert forall j :: 1 <= j < |s| ==> s[j] == s[1..][j - 1];
      }
      assert rest == [rest[0]] + rest[1..];
      AllBlankCons(rest[0], rest[1..]);
      if IsArtistSeparator(s[0]) {
        AllBlankCons("", rest);
      } else {
        AllBlankCons([s[0]] + rest[0], rest[1..]);
        BlankCons(s[0], rest[0]);
      }
    }
  }

  /** No name survives exactly when the artist string holds nothing but
      whitespace, ',' and '&'; the clause is then "". */
  lemma ArtistClauseEmpty(artist: string)
    ensures ArtistNames(artist) == [] <==> OnlySeparators(artist)
    ensures ArtistClause(artist) == "" <==> ArtistNames(artist) == []
  {
    CleanPiecesEmpty(Split(artist, IsArtistSeparator));
    SplitAllBlank(artist);
  }

  /** A quoted quote-free name splits into an empty piece and the name. */
  lemma SplitQuoted(name: string, rest: string)
    requires '"' !in name
    ensures Split(Quoted(name) + rest, IsQuote) == ["", name] + Split(rest, IsQuote)
  {
    assert Quoted(name) + rest == ['"'] + (name + (['"'] + rest));
    SplitSeparatorPrefix('"', name + (['"'] + rest), IsQuote);
    SplitPlainPrefix(name, ['"'] + rest, IsQuote);
    SplitSeparatorPrefix('"', rest, IsQuote);
    var z := Split(['"'] + rest, IsQuote);
    assert z[0] == "" && z[1..] == Split(rest, IsQuote);
    assert name + z[0] == name;
    assert Split(name + (['"'] + rest), IsQuote) == [name] + Split(rest, IsQuote);
  }

  /** Only the pieces after the first one decide the odd pieces. */
  lemma OddPiecesIgnoreFirst(x: string, y: string, rest: seq<string>)
    ensures OddPieces([x] + rest) == OddPieces([y] + rest)
  {
    if |rest| >= 1 {
      assert ([x] + rest)[2..] == rest[1..] == ([y] + rest)[2..];
    }
  }

  /** The names quoted and joined by " OR " are read back, in order, as the text
      between each pair of quotes. */
  lemma {:induction false} JoinOrRoundTrip(names: seq<string>)
    requires names != []
    requires forall n <- names :: '"' !in n
    ensures OddPieces(Split(JoinOr(names), IsQuote)) == names
    decreases |names|
  {
    if |names| == 1 {
      assert JoinOr(names) == Quoted(names[0]) + "";
      SplitQuoted(names[0], "");
      assert Split(JoinOr(names), IsQuote) == ["", names[0], ""];
    } else {
      var tail := JoinOr(names[1..]);
      assert JoinOr(names) == Quoted(names[0]) + (" OR " + tail);
      SplitQuoted(names[0], " OR " + tail);
      SplitPlainPrefix(" OR ", tail, IsQuote);
      var rest := Split(tail, IsQuote);
      JoinOrRoundTrip(names[1..]);
      var pieces := Split(JoinOr(names), IsQuote);
      assert pieces == ["", names[0]] + ([" OR " + rest[0]] + rest[1..]);
      assert pieces[2..] == [" OR " + rest[0]] + rest[1..];
      OddPiecesIgnoreFirst(" OR " + rest[0], rest[0], rest[1..]);
      assert rest == [rest[0]] + rest[1..];
      assert names == [names[0]] + names[1..];
    }
  }

  /** The clause carries exactly the artist names, in order: reading the quoted
      names back out of `artist:("A" OR "B" ...)` gives the names it was built
      from (and the empty clause gives none). */
  lemma ArtistClauseRoundTrip(artist: string)
    ensures ClauseNames(ArtistClause(artist)) == ArtistNames(artist)
  {
    var names := ArtistNames(artist);
    if names != [] {
      ArtistNamesAvoid(artist);
      JoinOrRoundTrip(names);
      var clause := ArtistClause(artist);
      assert clause[..8] == "artist:(";
      assert clause[8..|clause| - 1] == JoinOr(names);
    }
  }

  // ---------------------------------------------------------------------------
  // Properties: title variants and recording queries
  // ---------------------------------------------------------------------------

  /** One to three variants: the title without '"' first; the text after the
      first ": " next when there is one; the title without its groups last, only
      when that is non-empty and differs from the cleaned title. */
  lemma TitleVariantsSpec(title: string)
    ensures var v := TitleVariants(title);
      1 <= |v| <= 3 && v[0] == RemoveChar(title, '"')
    ensures var clean := RemoveChar(title, '"');
      Contains(clean, ": ") ==>
        var k := Find(clean, ": ").value;
        TitleVariants(title)[1] == clean[k + 2..] && OccursAt(clean, ": ", k) &&
        forall i :: 0 <= i < k ==> !OccursAt(clean, ": ", i)
    ensures var clean := RemoveChar(title, '"');
      var base := Strip(StripGroups(clean));
      (|TitleVariants(title)| == (if Contains(clean, ": ") then 3 else 2)) <==> base != "" && base != clean
    ensures var clean := RemoveChar(title, '"');
      var base := Strip(StripGroups(clean));
      base != "" && base != clean ==> TitleVariants(title)[|TitleVariants(title)| - 1] == base
  {
    FindFromFirst(RemoveChar(title, '"'), ": ", 0);
  }

  /** No variant holds a '"', so none can break out of the quoted phrase of its
      recording query. */
  lemma TitleVariantsUnquoted(title: string)
    ensures forall i :: 0 <= i < |TitleVariants(title)| ==> '"' !in TitleVariants(title)[i]
  {
    var clean := RemoveChar(title, '"');
    RemoveCharSpec(title, '"');
    StripGroupsKeepsChars(clean);
    StripKeepsChars(StripGroups(clean));
  }

  /** The phrase of a recording query is the variant itself: what lies between
      its first two quotes is `variant`, and its field name comes before. */
  lemma RecordingQueryPhrase(variant: string, clause: string)
    requires '"' !in variant
    ensures |Split(RecordingQuery(variant, clause), IsQuote)| >= 2
    ensures Split(RecordingQuery(variant, clause), IsQuote)[0] == "recording:"
    ensures Split(RecordingQuery(variant, clause), IsQuote)[1] == variant
  {
    var rest := " AND " + clause;
    assert RecordingQuery(variant, clause) == "recording:" + (Quoted(variant) + rest);
    SplitQuoted(variant, rest);
    SplitPlainPrefix("recording:", Quoted(variant) + rest, IsQuote);
    var tail := Split(Quoted(variant) + rest, IsQuote);
    assert tail[0] == "" && tail[1] == variant;
    assert "recording:" + tail[0] == "recording:";
  }

  // ---------------------------------------------------------------------------
  // Properties: the variant loop and the fallback
  // ---------------------------------------------------------------------------

  /** The loop finds nothing exactly when every variant's pass moves on. */
  lemma {:induction false} FirstHitNone(variants: seq<string>, clause: string, svc: Services)
    ensures FirstHit(variants, clause, svc).None? <==>
      forall i :: 0 <= i < |variants| ==> VariantComposer(variants[i], clause, svc).None?
    decreases |variants|
  {
    if variants != [] {
      FirstHitNone(variants[1..], clause, svc);
      if FirstHit(variants, clause, svc).None? {
        forall i | 1 <= i < |variants| ensures VariantComposer(variants[i], clause, svc).None? {
          assert variants[i] == variants[1..][i - 1];
        }
      } else if VariantComposer(variants[0], clause, svc).None? {
        var i :| 0 <= i < |variants[1..]| && VariantComposer(variants[1..][i], clause, svc).Some?;
        assert variants[i + 1] == variants[1..][i];
      }
    }
  }

  /** A composer the loop finds is that of some variant whose predecessors all
      moved on. */
  lemma {:induction false} FirstHitFirst(variants: seq<string>, clause: string, svc: Services)
    ensures FirstHit(variants, clause, svc).Some? ==>
      exists i :: 0 <= i < |variants| &&
        VariantComposer(variants[i], clause, svc) == FirstHit(variants, clause, svc) &&
        forall j :: 0 <= j < i ==> VariantComposer(variants[j], clause, svc).None?
    decreases |variants|
  {
    if variants != [] && VariantComposer(variants[0], clause, svc).None? && FirstHit(variants, clause, svc).Some? {
      var rest := variants[1..];
      FirstHitFirst(rest, clause, svc);
      var i :| 0 <= i < |rest| &&
        VariantComposer(rest[i], clause, svc) == FirstHit(rest, clause, svc) &&
        forall j :: 0 <= j < i ==> VariantComposer(rest[j], clause, svc).None?;
      assert variants[i + 1] == rest[i];
      forall j | 1 <= j < i + 1 ensures VariantComposer(variants[j], clause, svc).None? {
        assert variants[j] == rest[j - 1];
      }
    }
  }

  /** With no artist name the variant loop stops before its first recording
      query: the composer comes from the fallback alone, whatever the recording
      search would have answered. */
  lemma NoArtistSkipsRecordings(title: string, artist: string, query: string, svc: Services,
                                search: string -> Reply<seq<Option<string>>>)
    requires OnlySeparators(artist)
    ensures ComposerFromMb(title, artist, query, svc) == FallbackComposer(query, artist, svc)
    ensures ComposerFromMb(title, artist, query, svc.(recordingSearch := search))
         == ComposerFromMb(title, artist, query, svc)
  {
    ArtistClauseEmpty(artist);
  }

  /** Heuristic 2 holds exactly when some part longer than 3 characters occurs in
      the query, compared in lower case. */
  lemma {:induction false} AnyPartOccursSpec(parts: seq<string>, query: string)
    ensures AnyPartOccurs(parts, query) <==>
      exists i :: 0 <= i < |parts| && |parts[i]| > 3 && Contains(Lower(query), Lower(parts[i]))
    decreases |parts|
  {
    if parts != [] {
      AnyPartOccursSpec(parts[1..], query);
      assert forall i :: 1 <= i < |parts| ==> parts[i] == parts[1..][i - 1];
      if AnyPartOccurs(parts[1..], query) {
        var i :| 0 <= i < |parts[1..]| && |parts[1..][i]| > 3 && Contains(Lower(query), Lower(parts[1..][i]));
        assert parts[i + 1] == parts[1..][i];
      }
    }
  }

  /** The two acceptance rules: the lower-cased name occurs somewhere in the
      lower-cased (non-empty) artist, or some whitespace-separated word of the
      name longer than 3 characters occurs somewhere in the lower-cased query. */
  lemma AcceptsSpec(name: string, artist: string, query: string)
    ensures Accepts(name, artist, query) <==>
      (artist != "" && exists i :: OccursAt(Lower(artist), Lower(name), i)) ||
      (exists w :: w in Words(name) && |w| > 3 && exists i :: OccursAt(Lower(query), Lower(w), i))
  {
    ContainsSpec(Lower(artist), Lower(name));
    AnyPartOccursSpec(Words(name), query);
    var words := Words(name);
    forall w | w in words ensures Contains(Lower(query), Lower(w)) <==> exists i :: OccursAt(Lower(query), Lower(w), i) {
      ContainsSpec(Lower(query), Lower(w));
    }
    if exists w :: w in words && |w| > 3 && exists i :: OccursAt(Lower(query), Lower(w), i) {
      var w :| w in words && |w| > 3 && exists i :: OccursAt(Lower(query), Lower(w), i);
      var k :| 0 <= k < |words| && words[k] == w;
    }
  }

  /** A composer candidate is a composer relation with a name. */
  predicate Candidate(rel: ArtistRelation) {
    rel.relType == "composer" && rel.artistName.Some?
  }

  /** The scan over one work returns the first accepted composer candidate, all
      composer relations before it being rejected candidates. */
  lemma {:induction false} ScanRelationsAccepted(rels: seq<ArtistRelation>, artist: string, query: string)
    ensures ScanRelations(rels, artist, query).Accepted? ==>
      var name := ScanRelations(rels, artist, query).name;
      exists k :: 0 <= k < |rels| && Candidate(rels[k]) && rels[k].artistName.value == name &&
        Accepts(name, artist, query) &&
        forall j :: 0 <= j < k && rels[j].relType == "composer" ==>
          Candidate(rels[j]) && !Accepts(rels[j].artistName.value, artist, query)
    decreases |rels|
  {
    if rels != [] && ScanRelations(rels, artist, query).Accepted? &&
       (!Candidate(rels[0]) || !Accepts(rels[0].artistName.value, artist, query)) {
      ScanRelationsAccepted(rels[1..], artist, query);
      var name := ScanRelations(rels, artist, query).name;
      var k :| 0 <= k < |rels[1..]| && Candidate(rels[1..][k]) && rels[1..][k].artistName.value == name &&
        Accepts(name, artist, query) &&
        forall j :: 0 <= j < k && rels[1..][j].relType == "composer" ==>
          Candidate(rels[1..][j]) && !Accepts(rels[1..][j].artistName.value, artist, query);
      assert rels[k + 1] == rels[1..][k];
      forall j | 1 <= j < k + 1 && rels[j].relType == "composer"
        ensures Candidate(rels[j]) && !Accepts(rels[j].artistName.value, artist, query)
      {
        assert rels[j] == rels[1..][j - 1];
      }
    }
  }

  /** Rejected candidates never stop the scan: it runs to the end exactly when
      every composer relation has a name and none is accepted. */
  lemma {:induction false} ScanRelationsExhausted(rels: seq<ArtistRelation>, artist: string, query: string)
    ensures ScanRelations(rels, artist, query).Exhausted? <==>
      forall j :: 0 <= j < |rels| && rels[j].relType == "composer" ==>
        Candidate(rels[j]) && !Accepts(rels[j].artistName.value, artist, query)
    decreases |rels|
  {
    if rels != [] {
      ScanRelationsExhausted(rels[1..], artist, query);
      assert forall j :: 1 <= j < |rels| ==> rels[j] == rels[1..][j - 1];
    }
  }

  /** The scan over one work aborts at the first composer relation without an
      artist name, all composer relations before it being rejected candidates. */
  lemma {:induction false} ScanRelationsAborted(rels: seq<ArtistRelation>, artist: string, query: string)
    ensures ScanRelations(rels, artist, query).Aborted? ==>
      exists k :: 0 <= k < |rels| && rels[k].relType == "composer" && rels[k].artistName.None? &&
        forall j :: 0 <= j < k && rels[j].relType == "composer" ==>
          Candidate(rels[j]) && !Accepts(rels[j].artistName.value, artist, query)
    decreases |rels|
  {
    if rels != [] && ScanRelations(rels, artist, query).Aborted? &&
       (rels[0].relType != "composer" || Candidate(rels[0])) {
      ScanRelationsAborted(rels[1..], artist, query);
      var k :| 0 <= k < |rels[1..]| && rels[1..][k].relType == "composer" && rels[1..][k].artistName.None? &&
        forall j :: 0 <= j < k && rels[1..][j].relType == "composer" ==>
          Candidate(rels[1..][j]) && !Accepts(rels[1..][j].artistName.value, artist, query);
      assert rels[k + 1] == rels[1..][k];
      forall j | 1 <= j < k + 1 && rels[j].relType == "composer"
        ensures Candidate(rels[j]) && !Accepts(rels[j].artistName.value, artist, query)
      {
        assert rels[j] == rels[1..][j - 1];
      }
    }
  }

  /** Works passed over do not change the outcome of the scan. */
  lemma {:induction false} ScanWorksSkip(works: seq<Option<string>>, artist: string, query: string,
                                         workRelations: string -> Reply<seq<ArtistRelation>>, w: nat)
    requires w <= |works|
    requires forall v :: 0 <= v < w ==> WorkExhausted(works[v], artist, query, workRelations)
    ensures ScanWorks(works, artist, query, workRelations) == ScanWorks(works[w..], artist, query, workRelations)
    decreases w
  {
    if w > 0 {
      assert WorkExhausted(works[0], artist, query, workRelations);
      forall v | 0 <= v < w - 1 ensures WorkExhausted(works[1..][v], artist, query, workRelations) {
        assert works[1..][v] == works[v + 1];
      }
      ScanWorksSkip(works[1..], artist, query, workRelations, w - 1);
      assert works[1..][w - 1..] == works[w..];
    }
  }

  /** The scan over the works ends as the first work it does not pass over. */
  lemma ScanWorksAt(works: seq<Option<string>>, artist: string, query: string,
                    workRelations: string -> Reply<seq<ArtistRelation>>, w: nat)
    requires w < |works|
    requires forall v :: 0 <= v < w ==> WorkExhausted(works[v], artist, query, workRelations)
    requires !WorkExhausted(works[w], artist, query, workRelations)
    ensures ScanWorks(works, artist, query, workRelations) == WorkStop(works[w], artist, query, workRelations)
  {
    ScanWorksSkip(works, artist, query, workRelations, w);
    assert works[w..][0] == works[w];
  }

  /** The scan over the works runs to the end exactly when it passes over every
      work. */
  lemma {:induction false} ScanWorksExhausted(works: seq<Option<string>>, artist: string, query: string,
                                              workRelations: string -> Reply<seq<ArtistRelation>>)
    ensures ScanWorks(works, artist, query, workRelations).Exhausted? <==>
      forall v :: 0 <= v < |works| ==> WorkExhausted(works[v], artist, query, workRelations)
    decreases |works|
  {
    if works != [] {
      ScanWorksExhausted(works[1..], artist, query, workRelations);
      assert forall v :: 1 <= v < |works| ==> works[v] == works[1..][v - 1];
    }
  }

  /** A composer the scan over the works returns passes the acceptance rules. */
  lemma {:induction false} ScanWorksSound(works: seq<Option<string>>, artist: string, query: string,
                                          workRelations: string -> Reply<seq<ArtistRelation>>)
    ensures ScanWorks(works, artist, query, workRelations).Accepted? ==>
      Accepts(ScanWorks(works, artist, query, workRelations).name, artist, query)
    decreases |works|
  {
    if works != [] && works[0].Some? && workRelations(works[0].value).Answered? {
      ScanRelationsAccepted(workRelations(works[0].value).body, artist, query);
      ScanWorksSound(works[1..], artist, query, workRelations);
    }
  }

  /** The fallback searches only with a non-empty query, finds nothing when the
      search raised or every work is passed over, and every composer it returns
      passes the acceptance rules for that query. */
  lemma FallbackSound(query: string, artist: string, svc: Services)
    ensures query == "" ==> FallbackComposer(query, artist, svc) == None
    ensures svc.workSearch(query).Raised? ==> FallbackComposer(query, artist, svc) == None
    ensures (svc.workSearch(query).Answered? &&
               forall v :: 0 <= v < |svc.workSearch(query).body| ==>
                 WorkExhausted(svc.workSearch(query).body[v], artist, query, svc.workRelations)) ==>
      FallbackComposer(query, artist, svc) == None
    ensures FallbackComposer(query, artist, svc).Some? ==>
      query != "" && svc.workSearch(query).Answered? &&
      Accepts(FallbackComposer(query, artist, svc).value, artist, query)
  {
    if svc.workSearch(query).Answered? {
      ScanWorksExhausted(svc.workSearch(query).body, artist, query, svc.workRelations);
      ScanWorksSound(svc.workSearch(query).body, artist, query, svc.workRelations);
    }
  }

  /** The fallback returns the candidate accepted at the first work it does not
      pass over, and nothing when that work aborts the scan. */
  lemma FallbackAt(query: string, artist: string, svc: Services, w: nat)
    requires query != "" && svc.workSearch(query).Answered?
    requires w < |svc.workSearch(query).body|
    requires forall v :: 0 <= v < w ==>
      WorkExhausted(svc.workSearch(query).body[v], artist, query, svc.workRelations)
    requires !WorkExhausted(svc.workSearch(query).body[w], artist, query, svc.workRelations)
    ensures var stop := WorkStop(svc.workSearch(query).body[w], artist, query, svc.workRelations);
      (stop.Accepted? ==> FallbackComposer(query, artist, svc) == Some(stop.name)) &&
      (!stop.Accepted? ==> FallbackComposer(query, artist, svc) == None)
  {
    ScanWorksAt(svc.workSearch(query).body, artist, query, svc.workRelations, w);
  }

  /** The variant loop returns the composer of the first variant whose pass finds
      one. */
  lemma {:induction false} FirstHitAt(variants: seq<string>, clause: string, svc: Services, i: nat)
    requires i < |variants| && VariantComposer(variants[i], clause, svc).Some?
    requires forall j :: 0 <= j < i ==> VariantComposer(variants[j], clause, svc).None?
    ensures FirstHit(variants, clause, svc) == VariantComposer(variants[i], clause, svc)
    decreases i
  {
    if i > 0 {
      assert VariantComposer(variants[0], clause, svc).None?;
      forall j | 0 <= j < i - 1 ensures VariantComposer(variants[1..][j], clause, svc).None? {
        assert variants[1..][j] == variants[j + 1];
      }
      assert variants[1..][i - 1] == variants[i];
      FirstHitAt(variants[1..], clause, svc, i - 1);
    }
  }

  /** The chain of `fetch_composer_from_mb`: the composer of the first variant whose
      pass finds one; when every variant moves on or there is no artist name, the
      fallback's answer, which passes the acceptance rules. */
  lemma ComposerFromMbSpec(title: string, artist: string, query: string, svc: Services)
    ensures var vs := TitleVariants(title);
      var clause := ArtistClause(artist);
      ComposerFromMb(title, artist, query, svc).Some? ==>
        (clause != "" &&
           exists i :: 0 <= i < |vs| &&
             VariantComposer(vs[i], clause, svc) == ComposerFromMb(title, artist, query, svc) &&
             forall j :: 0 <= j < i ==> VariantComposer(vs[j], clause, svc).None?) ||
        ((clause == "" || forall i :: 0 <= i < |vs| ==> VariantComposer(vs[i], clause, svc).None?) &&
          query != "" && Accepts(ComposerFromMb(title, artist, query, svc).value, artist, query))
    ensures var vs := TitleVariants(title);
      var clause := ArtistClause(artist);
      forall i :: (0 <= i < |vs| && clause != "" && VariantComposer(vs[i], clause, svc).Some? &&
                   forall j :: 0 <= j < i ==> VariantComposer(vs[j], clause, svc).None?) ==>
        ComposerFromMb(title, artist, query, svc) == VariantComposer(vs[i], clause, svc)
    ensures var vs := TitleVariants(title);
      var clause := ArtistClause(artist);
      (clause == "" || forall i :: 0 <= i < |vs| ==> VariantComposer(vs[i], clause, svc).None?) ==>
        ComposerFromMb(title, artist, query, svc) == FallbackComposer(query, artist, svc)
  {
    var vs := TitleVariants(title);
    var clause := ArtistClause(artist);
    FirstHitNone(vs, clause, svc);
    FirstHitFirst(vs, clause, svc);
    FallbackSound(query, artist, svc);
    forall i | 0 <= i < |vs| && clause != "" && VariantComposer(vs[i], clause, svc).Some? &&
      (forall j :: 0 <= j < i ==> VariantComposer(vs[j], clause, svc).None?)
      ensures ComposerFromMb(title, artist, query, svc) == VariantComposer(vs[i], clause, svc)
    {
      FirstHitAt(vs, clause, svc, i);
    }
  }

  // ---------------------------------------------------------------------------
  // Properties: fetch_metadata and fetch_all
  // ---------------------------------------------------------------------------

  /** No record exactly when the search raised or found nothing. */
  lemma MetadataNone(query: string, svc: Services)
    ensures Metadata(query, svc).None? <==>
      svc.itunesSearch(query).Raised? || svc.itunesSearch(query).body == []
  {
  }

  /** The record's fields: each iTunes field when present and its fixed default
      otherwise; the year is the first four characters of a non-empty release
      date, "Unknown" otherwise. */
  lemma MetadataDefaults(query: string, svc: Services)
    requires svc.itunesSearch(query).Answered? && svc.itunesSearch(query).body != []
    ensures var track := svc.itunesSearch(query).body[0];
      var r := Metadata(query, svc).value;
      r.query == query &&
      (track.trackName.None? ==> r.title == "Unknown Title") &&
      (track.trackName.Some? ==> r.title == track.trackName.value) &&
      (track.artistName.None? ==> r.artist == "Unknown Artist") &&
      (track.artistName.Some? ==> r.artist == track.artistName.value) &&
      (track.collectionName.None? ==> r.album == "Unknown Album") &&
      (track.collectionName.Some? ==> r.album == track.collectionName.value) &&
      (track.primaryGenreName.None? ==> r.genre == "Unknown Genre") &&
      (track.primaryGenreName.Some? ==> r.genre == track.primaryGenreName.value) &&
      (track.trackViewUrl.None? ==> r.link == "") &&
      (track.trackViewUrl.Some? ==> r.link == track.trackViewUrl.value) &&
      (!Truthy(track.releaseDate) ==> r.year == "Unknown") &&
      (Truthy(track.releaseDate) && |track.releaseDate.value| >= 4 ==>
         r.year == track.releaseDate.value[..4])
  {
  }

  /** The composer: a truthy iTunes composer is taken as it is, and then no
      MusicBrainz service is consulted (any other MusicBrainz answers give the same
      record); otherwise the chain runs with the record's title and artist, and a
      falsy result becomes "Unknown Composer". */
  lemma MetadataComposer(query: string, svc: Services, other: Services)
    requires svc.itunesSearch(query).Answered? && svc.itunesSearch(query).body != []
    ensures var track := svc.itunesSearch(query).body[0];
      var r := Metadata(query, svc).value;
      var mb := ComposerFromMb(r.title, r.artist, query, svc);
      (Truthy(track.composer) ==>
         r.composer == track.composer.value &&
         Metadata(query, other.(itunesSearch := svc.itunesSearch)) == Metadata(query, svc)) &&
      (!Truthy(track.composer) && Truthy(mb) ==> r.composer == mb.value) &&
      (!Truthy(track.composer) && !Truthy(mb) ==> r.composer == "Unknown Composer")
  {
  }

  /** `fetch_all` over a concatenation is the concatenation of the two runs: the
      records come in the order of the titles that found them. */
  lemma FoundRecordsAppend(a: seq<string>, b: seq<string>, svc: Services)
    ensures FoundRecords(a + b, svc) == FoundRecords(a, svc) + FoundRecords(b, svc)
  {
    MapSeqAppend(a, b, MetadataOf(svc));
    PresentAppend(Lookups(a, svc), Lookups(b, svc));
  }

  /** Mapping distributes over concatenation. */
  lemma MapSeqAppend<A, B>(a: seq<A>, b: seq<A>, f: A -> B)
    ensures MapSeq(a + b, f) == MapSeq(a, f) + MapSeq(b, f)
  {
    var both := MapSeq(a, f) + MapSeq(b, f);
    forall k | 0 <= k < |a + b| ensures MapSeq(a + b, f)[k] == both[k] {
      if k < |a| {
        assert (a + b)[k] == a[k];
      } else {
        assert (a + b)[k] == b[k - |a|];
      }
    }
  }

  /** At most one record per title; each record is the one its own query finds,
      and that query is one of the titles; every title that finds a record
      contributes it. */
  lemma FoundRecordsSpec(titles: seq<string>, svc: Services)
    ensures |FoundRecords(titles, svc)| <= |titles|
    ensures forall r <- FoundRecords(titles, svc) :: r.query in titles && Metadata(r.query, svc) == Some(r)
    ensures forall t <- titles :: Metadata(t, svc).Some? ==> Metadata(t, svc).value in FoundRecords(titles, svc)
  {
    var found := Lookups(titles, svc);
    PresentSpec(found);
    forall r <- FoundRecords(titles, svc) ensures r.query in titles && Metadata(r.query, svc) == Some(r) {
      var i :| 0 <= i < |found| && found[i] == Some(r);
      assert Metadata(titles[i], svc) == Some(r);
    }
    forall t <- titles | Metadata(t, svc).Some? ensures Metadata(t, svc).value in FoundRecords(titles, svc) {
      var i :| 0 <= i < |titles| && titles[i] == t;
      assert found[i] == Metadata(t, svc);
    }
  }
}
