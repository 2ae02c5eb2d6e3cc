/** The mandatory Step 5 record searches: which queries are issued and how answers are read. */
module RecordQueries {
  import opened Text
  import opened Options

  function GazetteQuery(title: string, countyFragment: string): string {
    "Kenya " + "Gazette" + (" \"" + title + "\" land notice" + countyFragment)
  }

  function ConversionQuery(title: string): string {
    ("\"" + title + "\" \"Land Registration Act 2012\" ") + "conversion" + " registry"
  }

  function ZoningQuery(title: string, county: Option<string>): string {
    if county.Some?
    then ("\"" + title + "\" \"" + county.value + " County\" ") + "zoning" + " physical planning land use compliance"
    else ("\"" + title + "\" \"Kenya county physical planning\" ") + "zoning" + " land use compliance"
  }

  function BuildRecordSearchQueries(title: string, owner: Option<string>, county: Option<string>)
    : (queries: seq<string>)
    ensures |queries| == 5
  {
    var countyFragment := if county.Some? then " " + county.value else "";
    var ownerFragment := if owner.Some? then " \"" + owner.value + "\"" else "";
    [ "National Land Commission records \"" + title + "\"" + ownerFragment + countyFragment,
      GazetteQuery(title, countyFragment),
      ConversionQuery(title),
      ZoningQuery(title, county),
      "\"" + title + "\" ownership history previous owner green card register" + ownerFragment ]
  }

  predicate IsGazetteQuery(query: string) { Contains(Lower(query), "gazette") }

  predicate IsZoningQuery(query: string) {
    Contains(Lower(query), "zoning") || Contains(Lower(query), "physical planning")
  }

  predicate MentionsDispute(text: string) {
    ContainsAny(Lower(text), ["disputed", "dispute", "court order", "injunction", "restriction"])
  }

  predicate MentionsConversion(text: string) {
    ContainsAny(Lower(text), ["undergoing conversion", "old register", "converted from", "conversion pending"])
  }

  predicate MentionsNewRegister(text: string) {
    ContainsAny(Lower(text), ["green card", "new register", "official register extract", "updated register"])
  }

  /** Does the combined search transcript call for a historical-continuity search? */
  predicate CallsForContinuity(transcript: string) {
    ContainsAny(Lower(transcript), ["conversion", "converted from", "old registry", "green card", "new registry"])
  }

  function ResultEntry(query: string, traceId: string, text: string): string {
    "Query: " + query + ("\nTrace: " + traceId + "\nResult: " + text)
  }

  lemma GazetteQueryIsOne(title: string, countyFragment: string)
    ensures IsGazetteQuery(GazetteQuery(title, countyFragment))
  {
    assert MatchesAt(Lower("Gazette"), "gazette", 0);
    LowerContains("Kenya ", "Gazette", " \"" + title + "\" land notice" + countyFragment, "gazette");
  }

  lemma ConversionQueryMentionsConversion(title: string)
    ensures Contains(Lower(ConversionQuery(title)), "conversion")
  {
    assert MatchesAt(Lower("conversion"), "conversion", 0);
    LowerContains("\"" + title + "\" \"Land Registration Act 2012\" ", "conversion", " registry", "conversion");
  }

  lemma ZoningQueryIsOne(title: string, county: Option<string>)
    ensures IsZoningQuery(ZoningQuery(title, county))
  {
    assert MatchesAt(Lower("zoning"), "zoning", 0);
    if county.Some? {
      LowerContains("\"" + title + "\" \"" + county.value + " County\" ", "zoning",
                    " physical planning land use compliance", "zoning");
    } else {
      LowerContains("\"" + title + "\" \"Kenya county physical planning\" ", "zoning",
                    " land use compliance", "zoning");
    }
  }

  /** Whatever the title, owner and county: the second query goes to the Gazette, the third one
      mentions conversion and the fourth one is a zoning query. */
  lemma QueriesCoverMandatoryTopics(title: string, owner: Option<string>, county: Option<string>)
    ensures var q := BuildRecordSearchQueries(title, owner, county);
            IsGazetteQuery(q[1]) && Contains(Lower(q[2]), "conversion") && IsZoningQuery(q[3])
  {
    var countyFragment := if county.Some? then " " + county.value else "";
    GazetteQueryIsOne(title, countyFragment);
    ConversionQueryMentionsConversion(title);
    ZoningQueryIsOne(title, county);
  }

  /** The transcript repeats every query, so a single query that mentions conversion already
      calls for the continuity search, whatever the answers say. */
  lemma TranscriptCallsForContinuity(entries: seq<string>, k: nat, query: string, traceId: string, text: string)
    requires k < |entries| && entries[k] == ResultEntry(query, traceId, text)
    requires Contains(Lower(query), "conversion")
    ensures CallsForContinuity(Join(entries, "\n"))
  {
    LowerContains("Query: ", query, "\nTrace: " + traceId + "\nResult: " + text, "conversion");
    JoinContains(entries, "\n", k, "conversion");
    var words := ["conversion", "converted from", "old registry", "green card", "new registry"];
    assert Contains(Lower(Join(entries, "\n")), words[0]);
  }

  /** Every word is seen in any surroundings and in any case. */
  lemma WordIsSeen(before: string, word: string, after: string, words: seq<string>, k: nat)
    requires k < |words| && Lower(word) == words[k]
    ensures ContainsAny(Lower(before + word + after), words)
  {
    assert MatchesAt(Lower(word), words[k], 0);
    LowerContains(before, word, after, words[k]);
  }

  /** The five dispute words, the four signs of a conversion, the four signs of the new register, and the
      five that call for the continuity search. */
  lemma SignsAreSeen(before: string, word: string, after: string)
    ensures Lower(word) in ["disputed", "dispute", "court order", "injunction", "restriction"] ==>
              MentionsDispute(before + word + after)
    ensures Lower(word) in ["undergoing conversion", "old register", "converted from", "conversion pending"] ==>
              MentionsConversion(before + word + after)
    ensures Lower(word) in ["green card", "new register", "official register extract", "updated register"] ==>
              MentionsNewRegister(before + word + after)
    ensures Lower(word) in ["conversion", "converted from", "old registry", "green card", "new registry"] ==>
              CallsForContinuity(before + word + after)
  {
    hide ContainsAny, Lower;
    var continuity := ["conversion", "converted from", "old registry", "green card", "new registry"];
    var dispute := ["disputed", "dispute", "court order", "injunction", "restriction"];
    var conversion := ["undergoing conversion", "old register", "converted from", "conversion pending"];
    var register := ["green card", "new register", "official register extract", "updated register"];
    if Lower(word) in dispute {
      var k :| 0 <= k < |dispute| && dispute[k] == Lower(word);
      WordIsSeen(before, word, after, dispute, k);
    }
    if Lower(word) in conversion {
      var k :| 0 <= k < |conversion| && conversion[k] == Lower(word);
      WordIsSeen(before, word, after, conversion, k);
    }
    if Lower(word) in register {
      var k :| 0 <= k < |register| && register[k] == Lower(word);
      WordIsSeen(before, word, after, register, k);
    }
    if Lower(word) in continuity {
      var k :| 0 <= k < |continuity| && continuity[k] == Lower(word);
      WordIsSeen(before, word, after, continuity, k);
    }
  }

  /** Every one of the five searches names the title. */
  lemma QueriesNameTheTitle(title: string, owner: Option<string>, county: Option<string>, k: nat)
    requires k < 5
    ensures Contains(BuildRecordSearchQueries(title, owner, county)[k], title)
  {
    hide Contains, GazetteQuery, ConversionQuery, ZoningQuery;
    var countyFragment := if county.Some? then " " + county.value else "";
    var ownerFragment := if owner.Some? then " \"" + owner.value + "\"" else "";
    NamesTheTitle("National Land Commission records \"", title, "\"", ownerFragment, countyFragment);
    GazetteQueryNamesTheTitle(title, countyFragment);
    ConversionQueryNamesTheTitle(title);
    ZoningQueryNamesTheTitle(title, county);
    NamesTheTitle("\"", title, "\" ownership history previous owner green card register", ownerFragment, "");
  }

  lemma NamesTheTitle(before: string, title: string, after: string, more: string, rest: string)
    ensures Contains(before + title + after + more, title)
    ensures Contains(before + title + after + more + rest, title)
  {
    hide Contains;
    ContainsBetween(before, title, after);
    ContainsLeft(before + title + after, more, title);
    ContainsLeft(before + title + after + more, rest, title);
  }

  lemma GazetteQueryNamesTheTitle(title: string, countyFragment: string)
    ensures Contains(GazetteQuery(title, countyFragment), title)
  {
    hide Contains;
    ContainsBetween(" \"", title, "\" land notice");
    ContainsLeft(" \"" + title + "\" land notice", countyFragment, title);
    ContainsRight("Kenya " + "Gazette", " \"" + title + "\" land notice" + countyFragment, title);
  }

  lemma ConversionQueryNamesTheTitle(title: string)
    ensures Contains(ConversionQuery(title), title)
  {
    hide Contains;
    ContainsBetween("\"", title, "\" \"Land Registration Act 2012\" ");
    ContainsBetweenOthers("\"" + title + "\" \"Land Registration Act 2012\" ", "conversion", " registry", title);
  }

  lemma ZoningQueryNamesTheTitle(title: string, county: Option<string>)
    ensures Contains(ZoningQuery(title, county), title)
  {
    hide Contains;
    if county.Some? {
      ContainsBetween("\"", title, "\" \"");
      ContainsBetweenOthers("\"" + title + "\" \"", county.value, " County\" ", title);
      ContainsBetweenOthers("\"" + title + "\" \"" + county.value + " County\" ", "zoning",
                            " physical planning land use compliance", title);
    } else {
      ContainsBetween("\"", title, "\" \"Kenya county physical planning\" ");
      ContainsBetweenOthers("\"" + title + "\" \"Kenya county physical planning\" ", "zoning",
                            " land use compliance", title);
    }
  }

  lemma ContainsBetween(before: string, part: string, after: string)
    ensures Contains(before + part + after, part)
  {
    assert MatchesAt(part, part, 0);
    ContainsConcat(before, part, after, part);
  }

  lemma ContainsLeft(text: string, after: string, part: string)
    requires Contains(text, part)
    ensures Contains(text + after, part)
  {
    ContainsConcat("", text, after, part);
    assert "" + text == text;
  }

  lemma ContainsRight(before: string, text: string, part: string)
    requires Contains(text, part)
    ensures Contains(before + text, part)
  {
    ContainsConcat(before, text, "", part);
    assert before + text + "" == before + text;
  }

  lemma ContainsBetweenOthers(text: string, between: string, after: string, part: string)
    requires Contains(text, part)
    ensures Contains(text + between + after, part)
  {
    ContainsLeft(text, between, part);
    ContainsLeft(text + between, after, part);
  }
}
