/**
 The cascade that judges whether two postings are the same job.

 Confidences are kept in hundredths, so that `0.90 - 0.05 * d` is exact.
 */
module Decide {
  import opened Lists
  import opened Options
  import opened SimHash
  import opened Text
  import opened Tokenizer

  const MAX_HAMMING: nat := 9
  const MIN_TEXT_FOR_FUZZY: nat := 400
  const MIN_TITLE_TOKENS_FOR_FUZZY: nat := 3
  const MIN_AUTO_MERGE_CONFIDENCE: int := 75

  const STOP_WORDS: set<string> := {"a", "an", "and", "the", "of", "for", "to", "in", "at", "with", "or"}

  datatype Reason = ExactATS | ContentHash | ApplyURL | NearText | NoReason

  datatype Candidate = Candidate(
    companyId: string, atsType: string, atsJobId: string, applyUrl: string,
    contentHash: seq<int>, simHash: Word, geoScope: string, textLen: nat, title: string)

  datatype Verdict = Verdict(same: bool, reason: Reason, confidence: int) {
    /** Strong enough to merge without a human. */
    predicate AutoApply() {
      same && confidence >= MIN_AUTO_MERGE_CONFIDENCE
    }
  }

  const Different := Verdict(false, NoReason, 0)

  // ---------------------------------------------------------------- titles

  predicate Distinctive(w: string) {
    w !in STOP_WORDS && |w| > 1
  }

  function KeepDistinctive(words: seq<string>): seq<string> {
    if |words| == 0 then []
    else (if Distinctive(words[0]) then [words[0]] else []) + KeepDistinctive(words[1..])
  }

  /** The distinctive words, or all of them when none is. */
  function WithoutStopWords(words: seq<string>): seq<string> {
    if |KeepDistinctive(words)| == 0 then words else KeepDistinctive(words)
  }

  /** Word by word: what the filter keeps, in order, with repetitions. */
  lemma {:induction false} KeepsWordByWord(a: seq<string>, w: string, b: seq<string>)
    ensures KeepDistinctive(a + [w] + b)
         == KeepDistinctive(a)
            + (if Distinctive(w) then [w] else [])
            + KeepDistinctive(b)
    decreases |a|
  {
    if |a| == 0 {
      assert (a + [w] + b)[1..] == b;
    } else {
      assert (a + [w] + b)[1..] == a[1..] + [w] + b;
      KeepsWordByWord(a[1..], w, b);
    }
  }

  lemma {:induction false} KeepsSomeIff(words: seq<string>)
    ensures KeepDistinctive(words) != [] <==> exists w | w in words :: Distinctive(w)
  {
    if |words| > 0 {
      KeepsSomeIff(words[1..]);
      assert words == [words[0]] + words[1..];
    }
  }

  /** A title of nothing but stop words and single letters keeps all of them. */
  lemma NothingDistinctiveKeepsAll(words: seq<string>)
    ensures WithoutStopWords(words) == if exists w | w in words :: Distinctive(w) then KeepDistinctive(words) else words
  {
    KeepsSomeIff(words);
  }

  lemma DistinctiveIff(w: string)
    ensures Distinctive(w) <==>
              |w| > 1 && w !in ["a", "an", "and", "the", "of", "for", "to", "in", "at", "with", "or"]
  {
  }

  method DropStopWords(words: seq<string>) returns (out: seq<string>)
    ensures out == WithoutStopWords(words)
  {
    out := [];
    for i := 0 to |words|
      invariant out + KeepDistinctive(words[i..]) == KeepDistinctive(words)
    {
      assert words[i..][1..] == words[i + 1..];
      if Distinctive(words[i]) {
        out := out + [words[i]];
      }
    }
    if |out| == 0 {
      return words;
    }
  }

  function TitleTokens(lower: char -> char, title: string): seq<string> {
    WithoutStopWords(Tokens(lower, title))
  }

  predicate Contained(shorter: seq<string>, longer: seq<string>) {
    forall t | t in shorter :: t in longer
  }

  /** The shorter title's tokens all occur in the longer; on a tie the first counts as the shorter. */
  predicate TokensAgree(ta: seq<string>, tb: seq<string>) {
    |ta| > 0 && |tb| > 0 && if |tb| < |ta| then Contained(tb, ta) else Contained(ta, tb)
  }

  /** The two loops of titlesAgree. */
  method AllOccur(shorter: seq<string>, longer: seq<string>) returns (all: bool)
    ensures all == Contained(shorter, longer)
  {
    var set_: set<string> := {};
    for i := 0 to |longer|
      invariant set_ == Elements(longer[..i])
    {
      assert longer[..i + 1] == longer[..i] + [longer[i]];
      set_ := set_ + {longer[i]};
    }
    assert longer[..|longer|] == longer;
    for i := 0 to |shorter|
      invariant forall k :: 0 <= k < i ==> shorter[k] in longer
    {
      if shorter[i] !in set_ {
        return false;
      }
    }
    return true;
  }

  method TitlesAgree(lower: char -> char, a: string, b: string) returns (agree: bool)
    ensures agree == TokensAgree(TitleTokens(lower, a), TitleTokens(lower, b))
  {
    var wa := Tokenize(lower, a);
    var wb := Tokenize(lower, b);
    var ta := DropStopWords(wa);
    var tb := DropStopWords(wb);
    if |ta| == 0 || |tb| == 0 {
      return false;
    }
    var shorter, longer := ta, tb;
    if |tb| < |ta| {
      shorter, longer := tb, ta;
    }
    agree := AllOccur(shorter, longer);
  }

  predicate TitleIsSpecific(lower: char -> char, title: string) {
    |TitleTokens(lower, title)| >= MIN_TITLE_TOKENS_FOR_FUZZY
  }

  // ---------------------------------------------------------------- URLs

  function TrimPrefix(s: string, p: string): string {
    if p <= s then s[|p|..] else s
  }

  /** Everything before the first query or fragment mark. */
  function BeforeQuery(s: string): string {
    if |s| == 0 || s[0] == '?' || s[0] == '#' then "" else [s[0]] + BeforeQuery(s[1..])
  }

  /** Without scheme and query. */
  function Bare(core: string): string {
    BeforeQuery(TrimPrefix(TrimPrefix(core, "https://"), "http://"))
  }

  function PathOf(bare: string): Option<string> {
    var path := if |bare| > 0 && bare[|bare| - 1] == '/' then bare[..|bare| - 1] else bare;
    if path == "" || '/' !in path then None else Some(path)
  }

  /** Host and path, without scheme, query or one trailing slash; nothing when there is no path. */
  function NormalizeURL(lower: char -> char, url: string): Option<string> {
    var raw := TrimSpace(ToLower(lower, url));
    if raw == "" then None else
    PathOf(Bare(raw))
  }

  lemma {:induction false} QueryIsCut(path: string, query: string)
    requires forall c | c in path :: c != '?' && c != '#'
    requires |query| > 0 ==> query[0] == '?' || query[0] == '#'
    ensures BeforeQuery(path + query) == path
    decreases |path|
  {
    if |path| == 0 {
      assert path + query == query;
    } else {
      assert (path + query)[1..] == path[1..] + query && (path + query)[0] == path[0];
      assert path[0] in path && forall c | c in path[1..] :: c in path;
      QueryIsCut(path[1..], query);
    }
  }

  /** An application link without what does not identify it. */
  predicate IsPath(path: string) {
    && |path| > 0 && !IsSpace(path[0]) && !IsSpace(path[|path| - 1]) && path[|path| - 1] != '/'
    && (forall c | c in path :: c != '?' && c != '#') && !("https://" <= path) && !("http://" <= path)
  }

  predicate IsQuery(query: string) {
    |query| > 0 ==> (query[0] == '?' || query[0] == '#') && !IsSpace(query[|query| - 1])
  }

  lemma SlashIsCut(path: string, slash: string)
    requires IsPath(path) && slash in ["", "/"]
    ensures PathOf(path + slash) == if '/' in path then Some(path) else None
  {
    if slash == "/" {
      assert (path + slash)[..|path + slash| - 1] == path;
    } else {
      assert path + slash == path;
    }
  }

  lemma CoreEnds(scheme: string, path: string, slash: string, query: string)
    requires IsPath(path) && IsQuery(query) && scheme in ["", "http://", "https://"] && slash in ["", "/"]
    ensures var core := scheme + (path + slash + query);
            |core| > 0 && !IsSpace(core[0]) && !IsSpace(core[|core| - 1])
  {
    var core := scheme + (path + slash + query);
    assert scheme == "" ==> core[0] == path[0];
    assert scheme != "" ==> core[0] == scheme[0] == 'h';
    if query != "" {
      assert core[|core| - 1] == query[|query| - 1];
    } else if slash != "" {
      assert core[|core| - 1] == '/';
    } else {
      assert core[|core| - 1] == path[|path| - 1];
    }
  }

  lemma TwoSlashes(s: string, front: string)
    requires front + "//" <= s
    ensures |s| >= |front| + 2 && s[|front|] == '/' && s[|front| + 1] == '/'
  {
    assert (front + "//")[|front|] == '/' && (front + "//")[|front| + 1] == '/';
  }

  lemma NoScheme(path: string, slash: string, query: string)
    requires IsPath(path) && IsQuery(query) && slash in ["", "/"]
    ensures !("https://" <= path + slash + query) && !("http://" <= path + slash + query)
  {
    var rest := path + slash + query;
    assert forall i | 0 <= i < |path| :: rest[i] == path[i];
    assert query != "" ==> rest[|path + slash|] == query[0];
    if "http://" <= rest {
      TwoSlashes(rest, "http:");
    }
    if "https://" <= rest {
      TwoSlashes(rest, "https:");
    }
  }

  lemma SchemeIsCut(scheme: string, rest: string)
    requires scheme in ["", "http://", "https://"] && !("https://" <= rest) && !("http://" <= rest)
    ensures TrimPrefix(TrimPrefix(scheme + rest, "https://"), "http://") == rest
  {
    if scheme == "" {
      assert scheme + rest == rest;
    } else if scheme == "http://" {
      assert (scheme + rest)[4] == ':';
      assert (scheme + rest)[7..] == rest;
    } else {
      assert (scheme + rest)[8..] == rest;
    }
  }

  lemma QueryBehindSlash(path: string, slash: string, query: string)
    requires IsPath(path) && IsQuery(query) && slash in ["", "/"]
    ensures BeforeQuery(path + slash + query) == path + slash
  {
    forall c | c in path + slash
      ensures c != '?' && c != '#'
    {
      assert c in path || c in slash;
    }
    QueryIsCut(path + slash, query);
  }

  lemma BareIs(scheme: string, rest: string)
    requires scheme in ["", "http://", "https://"] && !("https://" <= rest) && !("http://" <= rest)
    ensures Bare(scheme + rest) == BeforeQuery(rest)
  {
    SchemeIsCut(scheme, rest);
  }

  lemma TrimmedLink(lower: char -> char, url: string, core: string)
    requires TrimSpace(ToLower(lower, url)) == core != ""
    ensures NormalizeURL(lower, url) == PathOf(Bare(core))
  {
  }

  /**
   Links that differ in scheme, one trailing slash, query, fragment and white space around
   them have one endpoint, namely the path they share; a link without any slash has none.
   */
  lemma EndpointIsThePath(lower: char -> char, url: string, pre: string, scheme: string, path: string, slash: string,
          query: string, post: string)
    requires ToLower(lower, url) == pre + (scheme + (path + slash + query)) + post
    requires IsPath(path) && IsQuery(query) && (forall c | c in pre + post :: IsSpace(c))
    requires scheme in ["", "http://", "https://"] && slash in ["", "/"]
    ensures NormalizeURL(lower, url) == if '/' in path then Some(path) else None
  {
    CoreEnds(scheme, path, slash, query);
    TrimSpaceTrims(pre, scheme + (path + slash + query), post);
    TrimmedLink(lower, url, scheme + (path + slash + query));
    NoScheme(path, slash, query);
    BareIs(scheme, path + slash + query);
    QueryBehindSlash(path, slash, query);
    SlashIsCut(path, slash);
  }

  /** Nothing but a scheme, a slash or a query is no endpoint either. */
  lemma NothingIsNoEndpoint(lower: char -> char, url: string, pre: string, scheme: string, slash: string,
          query: string, post: string)
    requires ToLower(lower, url) == pre + (scheme + (slash + query)) + post
    requires IsQuery(query) && (forall c | c in pre + post :: IsSpace(c))
    requires scheme in ["", "http://", "https://"] && slash in ["", "/"]
    ensures NormalizeURL(lower, url) == None
  {
    var rest := slash + query;
    var core := scheme + rest;
    OnlyDecoration(scheme, slash, query);
    TrimSpaceTrims(pre, core, post);
    if core != "" {
      TrimmedLink(lower, url, core);
      BareIs(scheme, rest);
      QueryIsCut(slash, query);
    }
  }

  lemma OnlyDecoration(scheme: string, slash: string, query: string)
    requires IsQuery(query) && scheme in ["", "http://", "https://"] && slash in ["", "/"]
    ensures var core := scheme + (slash + query);
            |core| > 0 ==> !IsSpace(core[0]) && !IsSpace(core[|core| - 1])
    ensures !("https://" <= slash + query) && !("http://" <= slash + query)
  {
    var rest := slash + query;
    var core := scheme + rest;
    assert |rest| > 0 ==> rest[0] == (if slash != "" then '/' else query[0]);
    assert scheme != "" ==> core[0] == 'h' && core[|scheme| - 1] == '/';
    assert scheme == "" ==> core == rest;
    if query != "" {
      assert core[|core| - 1] == query[|query| - 1];
    }
  }

  // ---------------------------------------------------------------- the cascade

  predicate GeoConflict(a: Candidate, b: Candidate) {
    a.geoScope != "" && b.geoScope != "" && a.geoScope != b.geoScope
  }

  predicate SameATS(a: Candidate, b: Candidate) {
    a.atsType != "" && a.atsType == b.atsType && a.atsJobId != "" && a.atsJobId == b.atsJobId
  }

  predicate SameURL(lower: char -> char, a: Candidate, b: Candidate) {
    NormalizeURL(lower, a.applyUrl).Some? && NormalizeURL(lower, a.applyUrl) == NormalizeURL(lower, b.applyUrl)
  }

  function Decide(lower: char -> char, a: Candidate, b: Candidate): Verdict {
    if a.companyId == "" || a.companyId != b.companyId then Different
    else if SameATS(a, b) then Verdict(true, ExactATS, 100)
    else if GeoConflict(a, b) then Different
    else if |a.contentHash| > 0 && a.contentHash == b.contentHash then Verdict(true, ContentHash, 99)
    else if SameURL(lower, a, b) then Verdict(true, ApplyURL, 97)
    else if a.simHash != Zeros() && b.simHash != Zeros()
            && TokensAgree(TitleTokens(lower, a.title), TitleTokens(lower, b.title))
            && TitleIsSpecific(lower, a.title) && TitleIsSpecific(lower, b.title) then
      var d := Hamming(a.simHash, b.simHash);
      var longEnough := a.textLen >= MIN_TEXT_FOR_FUZZY && b.textLen >= MIN_TEXT_FOR_FUZZY;
      if d == 0 || (d <= MAX_HAMMING && longEnough) then Verdict(true, NearText, 90 - 5 * d) else Different
    else Different
  }

  // ---------------------------------------------------------------- what a verdict means

  /** The shorter list of title words occurs in the longer, and neither is empty. */
  predicate OneTitleInTheOther(ta: seq<string>, tb: seq<string>) {
    && |ta| > 0 && |tb| > 0
    && (|ta| <= |tb| ==> forall w | w in ta :: w in tb)
    && (|tb| < |ta| ==> forall w | w in tb :: w in ta)
  }

  /** Both signatures have a bit set. */
  predicate BothSigned(a: Candidate, b: Candidate) {
    (exists i | 0 <= i < 64 :: a.simHash[i]) && exists i | 0 <= i < 64 :: b.simHash[i]
  }

  lemma SignedIff(w: Word)
    ensures w != Zeros() <==> exists i | 0 <= i < 64 :: w[i]
  {
    if forall i | 0 <= i < 64 :: !w[i] {
      assert w == Zeros();
    }
  }

  /**
   Main theorem: which evidence decides, in the candidates' own fields. An employer's
   postings are the same exactly for one ATS job, or, when their scopes do not exclude
   each other, for one content, one application endpoint, or near texts under agreeing,
   specific titles; the stronger evidence is named first.
   */
  lemma ReasonsIff(lower: char -> char, a: Candidate, b: Candidate)
    ensures var v, d := Decide(lower, a, b), Hamming(a.simHash, b.simHash);
            var ta, tb := TitleTokens(lower, a.title), TitleTokens(lower, b.title);
            var ua, ub := NormalizeURL(lower, a.applyUrl), NormalizeURL(lower, b.applyUrl);
            var employer := |a.companyId| > 0 && a.companyId == b.companyId;
            var job := |a.atsType| > 0 && |a.atsJobId| > 0 && a.atsType == b.atsType && a.atsJobId == b.atsJobId;
            var apart := |a.geoScope| > 0 && |b.geoScope| > 0 && a.geoScope != b.geoScope;
            var content := |a.contentHash| > 0 && a.contentHash == b.contentHash;
            var endpoint := ua.Some? && ub.Some? && ua.value == ub.value;
            var text := && BothSigned(a, b) && OneTitleInTheOther(ta, tb) && |ta| >= 3 && |tb| >= 3
                        && (d == 0 || (d <= 9 && a.textLen >= 400 && b.textLen >= 400));
            && (v.reason == ExactATS <==> employer && job)
            && (v.reason == ContentHash <==> employer && !job && !apart && content)
            && (v.reason == ApplyURL <==> employer && !job && !apart && !content && endpoint)
            && (v.reason == NearText <==> employer && !job && !apart && !content && !endpoint && text)
            && (v.same <==> v.reason != NoReason)
            && v.confidence == match v.reason
                               case ExactATS => 100
                               case ContentHash => 99
                               case ApplyURL => 97
                               case NearText => 90 - 5 * d
                               case NoReason => 0
  {
    SignedIff(a.simHash);
    SignedIff(b.simHash);
  }

  /** Never across employers, and never across different known scopes unless the ATS says it is one job. */
  lemma SameMeansOneEmployer(lower: char -> char, a: Candidate, b: Candidate)
    requires Decide(lower, a, b).same
    ensures a.companyId == b.companyId != ""
    ensures a.geoScope != b.geoScope && a.geoScope != "" && b.geoScope != "" ==>
              Decide(lower, a, b).reason == ExactATS && a.atsType == b.atsType != "" && a.atsJobId == b.atsJobId != ""
  {
  }

  /**
   A block lists a row once for each of its sources. The entries differ in the
   source's columns only, so a row with a content hash is an automatic match of itself.
   */
  lemma RowsMatchThemselves(lower: char -> char, a: Candidate, applyUrl: string, atsJobId: string)
    requires a.companyId != "" && |a.contentHash| > 0
    ensures Decide(lower, a, a.(applyUrl := applyUrl, atsJobId := atsJobId)).AutoApply()
  {
  }

  /** Only a text match can be too weak to act on: it needs a distance of at most three. */
  lemma AutoApplyMeansStrong(lower: char -> char, a: Candidate, b: Candidate)
    ensures var v := Decide(lower, a, b);
            v.AutoApply() <==> v.same && (v.reason == NearText ==> Hamming(a.simHash, b.simHash) <= 3)
  {
  }

  lemma ContainedMeansSubset(a: seq<string>, b: seq<string>)
    ensures Contained(a, b) <==> Elements(a) <= Elements(b)
  {
    if Elements(a) <= Elements(b) {
      forall t | t in a
        ensures t in b
      {
        assert t in Elements(a);
      }
    }
  }

  /** Titles agree in one order only when they are equally long and one set of tokens is strictly smaller. */
  lemma TitleOrder(ta: seq<string>, tb: seq<string>)
    ensures TokensAgree(ta, tb) != TokensAgree(tb, ta) <==>
            0 < |ta| == |tb| && (Elements(ta) < Elements(tb) || Elements(tb) < Elements(ta))
  {
    ContainedMeansSubset(ta, tb);
    ContainedMeansSubset(tb, ta);
  }

  /** The pair gets as far as the text comparison, whichever side comes first. */
  predicate TextDecides(lower: char -> char, a: Candidate, b: Candidate) {
    && a.companyId == b.companyId != "" && !SameATS(a, b) && !GeoConflict(a, b)
    && (a.contentHash != b.contentHash || |a.contentHash| == 0) && !SameURL(lower, a, b)
    && a.simHash != Zeros() && b.simHash != Zeros()
    && TitleIsSpecific(lower, a.title) && TitleIsSpecific(lower, b.title)
    && var d := Hamming(a.simHash, b.simHash);
       d == 0 || (d <= MAX_HAMMING && a.textLen >= MIN_TEXT_FOR_FUZZY && b.textLen >= MIN_TEXT_FOR_FUZZY)
  }

  /** Two titles of the same length, one using strictly fewer different words than the other. */
  predicate LopsidedTitles(lower: char -> char, a: Candidate, b: Candidate) {
    var ta, tb := TitleTokens(lower, a.title), TitleTokens(lower, b.title);
    |ta| == |tb| && (Elements(ta) < Elements(tb) || Elements(tb) < Elements(ta))
  }

  /** Exactly when the verdict depends on which posting is asked about first. */
  lemma OrderMattersIff(lower: char -> char, a: Candidate, b: Candidate)
    ensures Decide(lower, a, b) != Decide(lower, b, a) <==> TextDecides(lower, a, b) && LopsidedTitles(lower, a, b)
  {
    HammingIsAMetric(a.simHash, b.simHash, a.simHash);
    TitleOrder(TitleTokens(lower, a.title), TitleTokens(lower, b.title));
  }

  /** Without repeated words in a title the verdict is the same in both orders. */
  lemma DecideIsSymmetric(lower: char -> char, a: Candidate, b: Candidate)
    requires Distinct(TitleTokens(lower, a.title)) && Distinct(TitleTokens(lower, b.title))
    ensures Decide(lower, a, b) == Decide(lower, b, a)
  {
    OrderMattersIff(lower, a, b);
    var ta, tb := TitleTokens(lower, a.title), TitleTokens(lower, b.title);
    ElementsCount(ta);
    ElementsCount(tb);
    if Elements(ta) < Elements(tb) {
      SubsetSize(Elements(ta), Elements(tb));
    }
    if Elements(tb) < Elements(ta) {
      SubsetSize(Elements(tb), Elements(ta));
    }
  }

  // ---------------------------------------------------------------- a pair where it matters

  lemma TitleOf(lower: char -> char, words: seq<string>)
    requires LowerCases(lower) && forall w :: w in words ==> IsWord(w) && Distinctive(w)
    ensures TitleTokens(lower, Join(words)) == words
  {
    JoinIsPlain(words);
    assert ToLower(lower, Join(words)) == Join(words);
    PlainHasNoMarkup(Join(words));
    WordsOfJoin(words);
    AllDistinctive(words);
  }

  lemma {:induction false} AllDistinctive(words: seq<string>)
    requires forall w :: w in words ==> Distinctive(w)
    ensures KeepDistinctive(words) == words
  {
    if |words| > 0 {
      assert Distinctive(words[0]);
      AllDistinctive(words[1..]);
    }
  }

  function Titled(title: string): Candidate {
    Candidate("acme", "", "", "", [], seq(64, i => true), "", 0, title)
  }

  lemma TitledMatchesIff(lower: char -> char, ta: seq<string>, tb: seq<string>)
    requires LowerCases(lower) && |ta| >= MIN_TITLE_TOKENS_FOR_FUZZY && |tb| >= MIN_TITLE_TOKENS_FOR_FUZZY
    requires forall w :: w in ta + tb ==> IsWord(w) && Distinctive(w)
    ensures Decide(lower, Titled(Join(ta)), Titled(Join(tb))) == if TokensAgree(ta, tb)
            then Verdict(true, NearText, 90) else Different
  {
    var a, b := Titled(Join(ta)), Titled(Join(tb));
    TitleOf(lower, ta);
    TitleOf(lower, tb);
    HammingIsAMetric(a.simHash, b.simHash, a.simHash);
    assert ToLower(lower, "") == "";
    assert a.simHash[0] && a.simHash != Zeros();
  }

  /** "go go dev" is contained in "go dev ops" but not the other way round. */
  lemma OrderCanMatter(lower: char -> char)
    requires LowerCases(lower)
    ensures exists a, b :: Decide(lower, a, b).AutoApply() && !Decide(lower, b, a).same
  {
    var ta, tb := ["go", "go", "dev"], ["go", "dev", "ops"];
    TitledMatchesIff(lower, ta, tb);
    TitledMatchesIff(lower, tb, ta);
    assert "ops" in tb && "ops" !in ta;
    assert TokensAgree(ta, tb) && !TokensAgree(tb, ta);
    assert Decide(lower, Titled(Join(ta)), Titled(Join(tb))).AutoApply();
    assert !Decide(lower, Titled(Join(tb)), Titled(Join(ta))).same;
  }
}
