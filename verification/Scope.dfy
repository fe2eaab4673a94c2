/**
 Geographic scope: how a location text becomes a sorted list of country codes,
 how that list is stored as one string, and what comparing or searching the
 stored strings then means.

 The country table and the capitalisation of a city are parameters.
 */
module Scope {
  import Decide
  import opened Lists
  import opened LocationText
  import opened Options
  import opened Text
  import opened Tokenizer

  // ---------------------------------------------------------------- order

  /** Go's `<` on strings. */
  predicate Less(a: string, b: string) {
    |b| > 0 && (|a| == 0 || a[0] < b[0] || (a[0] == b[0] && Less(a[1..], b[1..])))
  }

  lemma {:induction false} LessIsAnOrder(a: string, b: string, c: string)
    ensures !Less(a, a)
    ensures a != b ==> Less(a, b) != Less(b, a)
    ensures Less(a, b) && Less(b, c) ==> Less(a, c)
    decreases |a| + |b| + |c|
  {
    if |a| > 0 && |b| > 0 {
      if a[0] == b[0] {
        assert a == [a[0]] + a[1..] && b == [b[0]] + b[1..];
      }
      LessIsAnOrder(a[1..], b[1..], if |c| > 0 then c[1..] else c);
    } else if |a| > 0 {
      LessIsAnOrder(a[1..], b, c);
    }
  }

  predicate Ascending(s: seq<string>) {
    forall i, j :: 0 <= i < j < |s| ==> !Less(s[j], s[i])
  }

  predicate StrictlyAscending(s: seq<string>) {
    forall i, j :: 0 <= i < j < |s| ==> Less(s[i], s[j])
  }

  // ---------------------------------------------------------------- insertion sort

  /** Where the inner loop leaves x: in front of the elements it is less than, from the right. */
  function Insert(s: seq<string>, x: string): seq<string> {
    if |s| == 0 then [x]
    else if Less(x, s[|s| - 1]) then Insert(s[..|s| - 1], x) + [s[|s| - 1]]
    else s + [x]
  }

  function Sorted(s: seq<string>): seq<string> {
    if |s| == 0 then [] else Insert(Sorted(s[..|s| - 1]), s[|s| - 1])
  }

  lemma {:induction false} InsertPermutes(s: seq<string>, x: string)
    ensures multiset(Insert(s, x)) == multiset(s) + multiset{x}
  {
    if |s| > 0 {
      var n := |s| - 1;
      assert s == s[..n] + [s[n]];
      if Less(x, s[n]) {
        InsertPermutes(s[..n], x);
      }
    }
  }

  lemma NothingBelow(s: seq<string>, x: string)
    requires Ascending(s) && |s| > 0 && !Less(x, s[|s| - 1])
    ensures forall i :: 0 <= i < |s| ==> !Less(x, s[i])
  {
    forall i | 0 <= i < |s|
      ensures !Less(x, s[i])
    {
      var last := s[|s| - 1];
      LessIsAnOrder(x, s[i], last);
      LessIsAnOrder(last, s[i], x);
    }
  }

  lemma {:induction false} InsertAddsOne(s: seq<string>, x: string, y: string)
    requires y in Insert(s, x)
    ensures y == x || y in s
  {
    if |s| > 0 && Less(x, s[|s| - 1]) && y != s[|s| - 1] {
      InsertAddsOne(s[..|s| - 1], x, y);
    }
  }

  lemma AppendHighest(s: seq<string>, y: string)
    requires Ascending(s) && forall i :: 0 <= i < |s| ==> !Less(y, s[i])
    ensures Ascending(s + [y])
  {
  }

  lemma {:induction false} InsertIsOrdered(s: seq<string>, x: string)
    requires Ascending(s)
    ensures Ascending(Insert(s, x))
  {
    if |s| > 0 && Less(x, s[|s| - 1]) {
      var n := |s| - 1;
      var front := Insert(s[..n], x);
      InsertIsOrdered(s[..n], x);
      forall i | 0 <= i < |front|
        ensures !Less(s[n], front[i])
      {
        InsertAddsOne(s[..n], x, front[i]);
        LessIsAnOrder(x, s[n], x);
      }
      AppendHighest(front, s[n]);
    } else if |s| > 0 {
      NothingBelow(s, x);
      AppendHighest(s, x);
    }
  }

  lemma {:induction false} SortedIsOrdered(s: seq<string>)
    ensures Ascending(Sorted(s)) && multiset(Sorted(s)) == multiset(s)
  {
    if |s| > 0 {
      assert s == s[..|s| - 1] + [s[|s| - 1]];
      SortedIsOrdered(s[..|s| - 1]);
      InsertIsOrdered(Sorted(s[..|s| - 1]), s[|s| - 1]);
      InsertPermutes(Sorted(s[..|s| - 1]), s[|s| - 1]);
    }
  }

  lemma {:induction false} Multiplicity(s: seq<string>)
    ensures Distinct(s) <==> forall x | x in s :: multiset(s)[x] == 1
  {
    if |s| > 0 {
      var n := |s| - 1;
      assert s == s[..n] + [s[n]];
      Multiplicity(s[..n]);
      if Distinct(s) {
        assert s[n] !in s[..n];
        assert forall x | x in s :: x == s[n] || x in s[..n];
      } else if !Distinct(s[..n]) {
        var x :| x in s[..n] && multiset(s[..n])[x] != 1;
        assert x in s && multiset(s[..n])[x] > 0;
      } else {
        var i :| 0 <= i < n && s[i] == s[n];
        assert s[..n][i] in multiset(s[..n]) && s[n] in s;
      }
    }
  }

  /** Sorting a list without repetitions gives a strictly ascending list of the same elements. */
  lemma SortedIsCanonical(s: seq<string>)
    requires Distinct(s)
    ensures StrictlyAscending(Sorted(s)) && Elements(Sorted(s)) == Elements(s) && |Sorted(s)| == |s|
  {
    var t := Sorted(s);
    SortedIsOrdered(s);
    assert |multiset(t)| == |t| && |multiset(s)| == |s|;
    assert forall x :: x in t <==> x in multiset(t);
    Multiplicity(s);
    Multiplicity(t);
    forall i, j | 0 <= i < j < |t|
      ensures Less(t[i], t[j])
    {
      LessIsAnOrder(t[i], t[j], t[i]);
    }
  }

  /** x passes the last element of the front, which joins the back. */
  lemma InsertPasses(front: seq<string>, x: string, back: seq<string>)
    requires |front| > 0 && Less(x, front[|front| - 1])
    ensures Insert(front, x) + back == Insert(front[..|front| - 1], x) + ([front[|front| - 1]] + back)
  {
  }

  /** One round of the outer loop: element i sinks to its place. */
  method Sink(a: array<string>, i: nat)
    requires i < a.Length
    modifies a
    ensures a[..i + 1] == Insert(old(a[..i]), old(a[i])) && a[i + 1..] == old(a[i + 1..])
  {
    var j := i;
    ghost var x, front, back := a[i], a[..i], [];
    while j > 0 && Less(a[j], a[j - 1])
      invariant 0 <= j <= i && a[j] == x && |front| == j && |back| == i - j
      invariant forall k :: 0 <= k < j ==> a[k] == front[k]
      invariant forall k :: 0 <= k < i - j ==> a[j + 1 + k] == back[k]
      invariant forall k :: i < k < a.Length ==> a[k] == old(a[k])
      invariant Insert(old(a[..i]), x) == Insert(front, x) + back
    {
      InsertPasses(front, x, back);
      front, back := front[..j - 1], [front[j - 1]] + back;
      a[j], a[j - 1] := a[j - 1], a[j];
      j := j - 1;
    }
    assert Insert(front, x) == front + [x];
    assert a[..i + 1] == front + [x] + back;
  }

  method SortedStrings(s: seq<string>) returns (r: seq<string>)
    ensures r == Sorted(s)
  {
    if |s| < 2 {
      assert |s| == 1 ==> s[..0] == [] && Sorted(s) == [s[0]] == s;
      return s;
    }
    var a := new string[|s|](i requires 0 <= i < |s| => s[i]);
    assert a[..] == s;
    assert s[..1][..0] == [] && Sorted(s[..1]) == [s[0]];
    for i := 1 to a.Length
      invariant a[..i] == Sorted(s[..i]) && a[i..] == s[i..]
    {
      assert a[i] == a[i..][0] == s[i];
      assert s[..i + 1][..i] == s[..i];
      ghost var rest := a[i..];
      Sink(a, i);
      assert a[i + 1..] == rest[1..] == s[i + 1..];
    }
    assert s[..|s|] == s && a[..a.Length] == a[..];
    r := a[..];
  }

  // ---------------------------------------------------------------- from text to scope

  datatype Location = Location(workMode: Option<WorkMode>, country: Option<string>, city: Option<string>,
      geoScope: seq<string>)

  const Nowhere := Location(None, None, None, [])

  /** The codes the fragments name. */
  function CountriesOf(countries: map<string, string>, fragments: seq<string>): set<string> {
    set f | f in fragments && f != "" && f in countries :: countries[f]
  }

  /** The fragments that name no country. */
  function Others(countries: map<string, string>, fragments: seq<string>): seq<string> {
    if |fragments| == 0 then [] else
    var n := |fragments| - 1;
    Others(countries, fragments[..n]) + if fragments[n] == "" || fragments[n] in countries then [] else [fragments[n]]
  }

  method Collect(countries: map<string, string>, fragments: seq<string>)
    returns (order: seq<string>, nonCountry: seq<string>)
    ensures Distinct(order) && Elements(order) == CountriesOf(countries, fragments)
    ensures nonCountry == Others(countries, fragments)
  {
    order, nonCountry := [], [];
    var seen: set<string> := {};
    for i := 0 to |fragments|
      invariant seen == Elements(order) == CountriesOf(countries, fragments[..i])
      invariant Distinct(order) && nonCountry == Others(countries, fragments[..i])
    {
      var frag := fragments[i];
      assert fragments[..i + 1][..i] == fragments[..i];
      assert forall f :: f in fragments[..i + 1] <==> f in fragments[..i] || f == frag;
      if frag == "" {
        continue;
      }
      if frag in countries {
        var iso := countries[frag];
        if iso !in seen {
          seen := seen + {iso};
          order := order + [iso];
        }
        continue;
      }
      nonCountry := nonCountry + [frag];
    }
    assert fragments[..|fragments|] == fragments;
  }

  lemma {:induction false} PlacesOneByOne(countries: map<string, string>, a: seq<string>, f: string, b: seq<string>)
    ensures Others(countries, a + [f] + b)
         == Others(countries, a) + (if |f| > 0 && f !in countries then [f] else []) + Others(countries, b)
    decreases |b|
  {
    var all := a + [f] + b;
    if |b| == 0 {
      assert all[..|all| - 1] == a;
    } else {
      assert all[..|all| - 1] == a + [f] + b[..|b| - 1];
      PlacesOneByOne(countries, a, f, b[..|b| - 1]);
    }
  }

  lemma CountriesAddUp(countries: map<string, string>, a: seq<string>, b: seq<string>)
    ensures CountriesOf(countries, a + b) == CountriesOf(countries, a) + CountriesOf(countries, b)
  {
    assert forall x :: x in a + b <==> x in a || x in b;
  }

  lemma CountryOfOne(countries: map<string, string>, f: string)
    ensures CountriesOf(countries, [f]) == if |f| > 0 && f in countries then {countries[f]} else {}
  {
    assert forall x :: x in [f] <==> x == f;
  }

  /**
   Each fragment counts for itself: the empty one for nothing, one in the table for its country,
   any other as a place.
   */
  lemma FragmentByFragment(countries: map<string, string>, a: seq<string>, f: string, b: seq<string>)
    ensures CountriesOf(countries, a + [f] + b)
         == CountriesOf(countries, a) + (if |f| > 0 && f in countries then {countries[f]} else {})
            + CountriesOf(countries, b)
    ensures Others(countries, a + [f] + b)
         == Others(countries, a) + (if |f| > 0 && f !in countries then [f] else []) + Others(countries, b)
    ensures CountriesOf(countries, []) == {} && Others(countries, []) == []
  {
    PlacesOneByOne(countries, a, f, b);
    CountriesAddUp(countries, a, [f]);
    CountriesAddUp(countries, a + [f], b);
    CountryOfOne(countries, f);
  }

  /** The city is the first place, unless it is noise. */
  lemma NamesACityIff(others: seq<string>)
    ensures NamesACity(others) <==> |others| > 0 && !IsNoise(others[0])
  {
  }

  predicate NamesACity(others: seq<string>) {
    |others| > 0 && !IsNoise(others[0])
  }

  /**
   The early return: the text gives no work mode, not exactly one country, and no
   city. It forgets the scope as well.
   */
  predicate Forgets(hint: Option<WorkMode>, countries: map<string, string>, fragments: seq<string>) {
    hint.None? && |CountriesOf(countries, fragments)| != 1 && !NamesACity(Others(countries, fragments))
  }

  /** The text as ParseLocation looks at it. */
  function Plain(lower: char -> char, raw: string): string {
    NormalizeSpace(ToLower(lower, raw))
  }

  /**
   The scope is strictly sorted and holds the named countries, unless they are
   forgotten; a single country is the country; the first other fragment is the city
   if it is not noise; and a place without a mode is on site.
   */
  ghost predicate Describes(countries: map<string, string>, titleish: string -> string, hint: Option<WorkMode>,
          fragments: seq<string>, loc: Location)
  {
    var named, others := CountriesOf(countries, fragments), Others(countries, fragments);
    && StrictlyAscending(loc.geoScope)
    && Elements(loc.geoScope) == (if Forgets(hint, countries, fragments) then {} else named)
    && (if |named| == 1 then loc.country.Some? && named == {loc.country.value} else loc.country.None?)
    && loc.city == (if NamesACity(others) then Some(titleish(others[0])) else None)
    && loc.workMode == (if hint.Some? then hint else if loc.country.Some? || loc.city.Some? then Some(Onsite) else None)
  }

  method CutAndStrip(s: string) returns (fragments: seq<string>)
    ensures fragments == FragmentsOf(s)
  {
    var cut := Cut(s, "");
    fragments := [];
    for i := 0 to |cut|
      invariant |fragments| == i && forall k :: 0 <= k < i ==> fragments[k] == Stripped(cut[k])
    {
      var frag := StripModeWords(cut[i]);
      fragments := fragments + [frag];
    }
  }

  method ParseLocation(lower: char -> char, countries: map<string, string>, titleish: string -> string, raw: string)
    returns (loc: Location)
    ensures Describes(countries, titleish, HintOf(Plain(lower, raw)), FragmentsOf(Plain(lower, raw)), loc)
  {
    var s := Plain(lower, raw);
    if s == "" {
      EmptyText(countries, titleish);
      return Nowhere;
    }
    var fragments := CutAndStrip(s);
    loc := Locate(countries, titleish, HintOf(s), fragments);
  }

  /** A hint needs its first letter in the text. */
  lemma {:induction false} NeedsFirstLetter(text: string, part: string)
    requires |part| > 0 && part[0] !in text
    ensures !Contains(text, part)
    decreases |text|
  {
    if |text| > 0 {
      NeedsFirstLetter(text[1..], part);
    }
  }

  predicate StartsAHint(c: char) {
    c == 'h' || c == 'r' || c == 'w' || c == 'a' || c == 'd'
  }

  lemma NoHint(s: string)
    requires forall c :: c in s ==> !StartsAHint(c)
    ensures HintOf(s) == None
  {
    var padded := " " + s + " ";
    forall part | part in HYBRID_HINTS || part in REMOTE_HINTS
      ensures !Contains(padded, part)
    {
      NeedsFirstLetter(padded, part);
    }
    assert forall k :: 0 <= k < |HYBRID_HINTS| ==> HYBRID_HINTS[k] in HYBRID_HINTS;
    assert forall k :: 0 <= k < |REMOTE_HINTS| ==> REMOTE_HINTS[k] in REMOTE_HINTS;
  }

  lemma EmptyText(countries: map<string, string>, titleish: string -> string)
    ensures Describes(countries, titleish, HintOf(""), FragmentsOf(""), Nowhere)
  {
    NoHint("");
    assert FragmentsOf("") == [] && CountriesOf(countries, []) == {} && Others(countries, []) == [];
  }

  /** What ParseLocation does with the fragments, looking them up as it goes; `hint` is the mode the words suggest. */
  method Locate(countries: map<string, string>, titleish: string -> string, hint: Option<WorkMode>,
          fragments: seq<string>)
    returns (loc: Location)
    ensures Describes(countries, titleish, hint, fragments, loc)
  {
    loc := Location(hint, None, None, []);
    var order, nonCountry := Collect(countries, fragments);
    ElementsCount(order);
    SortedIsCanonical(order);
    var scope := SortedStrings(order);
    loc := loc.(geoScope := scope);
    if |loc.geoScope| == 1 {
      assert Elements(scope) == {scope[0]};
      loc := loc.(country := Some(loc.geoScope[0]));
    }
    if |nonCountry| > 0 && !IsNoise(nonCountry[0]) {
      loc := loc.(city := Some(titleish(nonCountry[0])));
    }
    if loc.workMode.None? && loc.country.None? && loc.city.None? {
      return Nowhere;
    }
    if loc.workMode.None? && (loc.country.Some? || loc.city.Some?) {
      loc := loc.(workMode := Some(Onsite));
    }
  }

  /** The parsed scope is all the countries the text names, unless there are several and nothing else to go by. */
  lemma ForgettingLosesCountriesIff(hint: Option<WorkMode>, countries: map<string, string>, fragments: seq<string>)
    ensures var named := CountriesOf(countries, fragments);
            (if Forgets(hint, countries, fragments) then {} else named) == named
            <==> !(hint.None? && |named| > 1 && !NamesACity(Others(countries, fragments)))
  {
    var named := CountriesOf(countries, fragments);
    if |named| == 0 {
      assert named == {};
    }
  }

  lemma PlainStays(lower: char -> char, s: string)
    requires |s| > 0 && forall c :: c in s ==> Unaltered(lower, c)
    ensures Plain(lower, s) == s
  {
    assert forall i :: 0 <= i < |s| ==> Unaltered(lower, s[i]);
    assert ToLower(lower, s) == s;
    assert seq(|s|, i requires 0 <= i < |s| => Plainer(s[i])) == s;
    FieldsOfWord(s, "");
    assert "" + s == s;
  }

  lemma CutTwo(a: string, b: string)
    requires |a| > 0 && |b| > 0 && forall c :: c in a + b ==> !Separator(c)
    ensures Cut(a + "/" + b, "") == [a, b]
  {
    assert forall c | c in a :: c in a + b;
    SeparatorEndsTheFragment(a, '/', b, "");
    FragmentIsWhole(a, "");
    FragmentIsWhole(b, "");
    assert a + "/" + b == a + ['/'] + b && "" + a == a && "" + b == b;
  }

  /** The parser leaves the character alone, and no hint begins with it. */
  predicate Unaltered(lower: char -> char, c: char) {
    lower(c) == c && !IsSpace(c) && Plainer(c) == c && !StartsAHint(c)
  }

  /** Lower-case text without white space, separators, dashes, work-mode words, or letters that hints begin with. */
  predicate Bare(lower: char -> char, name: string) {
    && |name| > 0 && Stripped(name) == name
    && forall c :: c in name ==> Unaltered(lower, c) && !Separator(c)
  }

  lemma CharactersOf(a: string, b: string, c: char)
    requires c in a + "/" + b
    ensures c in a || c == '/' || c in b
  {
  }

  lemma TwoFragments(lower: char -> char, a: string, b: string)
    requires lower('/') == '/' && Bare(lower, a) && Bare(lower, b)
    ensures var raw := a + "/" + b;
            Plain(lower, raw) == raw && FragmentsOf(raw) == [a, b] && HintOf(raw) == None
  {
    var raw := a + "/" + b;
    BareTogether(lower, a, b);
    PlainStays(lower, raw);
    NoHint(raw);
    FragmentsOfTwo(lower, a, b);
  }

  lemma BareTogether(lower: char -> char, a: string, b: string)
    requires lower('/') == '/' && Bare(lower, a) && Bare(lower, b)
    ensures forall c :: c in a + "/" + b ==> Unaltered(lower, c)
  {
    forall c | c in a + "/" + b
      ensures Unaltered(lower, c)
    {
      CharactersOf(a, b, c);
      if c in a || c in b {
      } else {
        SlashIsUnaltered(lower);
      }
    }
  }

  lemma SlashIsUnaltered(lower: char -> char)
    requires lower('/') == '/'
    ensures Unaltered(lower, '/')
  {
  }

  lemma FragmentsOfTwo(lower: char -> char, a: string, b: string)
    requires Bare(lower, a) && Bare(lower, b)
    ensures FragmentsOf(a + "/" + b) == [a, b]
  {
    CutTwo(a, b);
  }

  lemma {:induction false} TooShortForAMode(s: string, k: nat)
    requires |s| == 2
    ensures FirstMode(s, k) == None
    decreases |MODE_WORDS| - k
  {
    if k < |MODE_WORDS| {
      assert |MODE_WORDS[k]| > 2;
      TooShortForAMode(s, k + 1);
    }
  }

  /** Such as "uk" and "us". */
  lemma TwoLettersAreBare(lower: char -> char, s: string)
    requires LowerCases(lower) && |s| == 2 && s[0] == 'u' && (s[1] == 'k' || s[1] == 's')
    ensures Bare(lower, s)
  {
    CleanEnds(s, OUTER_CUTSET);
    TooShortForAMode(s, 0);
  }

  lemma FirstIsElement(s: seq<string>)
    ensures s != [] ==> Elements(s) != {}
  {
    if s != [] {
      assert s[0] in Elements(s);
    }
  }

  lemma BothNamed(countries: map<string, string>, a: string, b: string)
    requires a in countries && b in countries && countries[a] != countries[b] && a != "" && b != ""
    ensures CountriesOf(countries, [a, b]) == {countries[a], countries[b]} && |CountriesOf(countries, [a, b])| == 2
    ensures Others(countries, [a, b]) == []
  {
    assert forall f :: f in [a, b] <==> f == a || f == b;
    PairHasTwo(countries[a], countries[b]);
    NoOthers(countries, [a, b]);
  }

  /**
   Two countries and nothing else, as in "uk/us": the early return forgets both, and the
   parser answers as for a text that says nothing.
   */
  method TwoCountriesAreForgotten(lower: char -> char, countries: map<string, string>, titleish: string -> string,
          a: string, b: string)
    returns (loc: Location)
    requires lower('/') == '/' && Bare(lower, a) && Bare(lower, b)
    requires a in countries && b in countries && countries[a] != countries[b]
    ensures CountriesOf(countries, FragmentsOf(Plain(lower, a + "/" + b))) == {countries[a], countries[b]}
    ensures loc == Nowhere
  {
    TwoFragments(lower, a, b);
    BothNamed(countries, a, b);
    loc := ParseLocation(lower, countries, titleish, a + "/" + b);
    FirstIsElement(loc.geoScope);
  }

  /** The parser's answer for "uk/us", with any table that has both and tells them apart. */
  method UkAndUsAreForgotten(lower: char -> char, countries: map<string, string>, titleish: string -> string)
    returns (text: string, loc: Location)
    requires LowerCases(lower) && lower('/') == '/'
    requires "uk" in countries && "us" in countries && countries["uk"] != countries["us"]
    ensures text == "uk/us" && loc == Nowhere
    ensures CountriesOf(countries, FragmentsOf(Plain(lower, text))) == {countries["uk"], countries["us"]}
  {
    var uk, us := "uk", "us";
    TwoLettersAreBare(lower, uk);
    TwoLettersAreBare(lower, us);
    loc := TwoCountriesAreForgotten(lower, countries, titleish, uk, us);
    text := uk + "/" + us;
  }

  lemma PairHasTwo(a: string, b: string)
    requires a != b
    ensures |{a, b}| == 2
  {
    assert {a, b} == {a} + {b} && {a} !! {b};
  }

  lemma {:induction false} NoOthers(countries: map<string, string>, fragments: seq<string>)
    requires forall f | f in fragments :: f in countries
    ensures Others(countries, fragments) == []
  {
    if |fragments| > 0 {
      NoOthers(countries, fragments[..|fragments| - 1]);
    }
  }

  // ---------------------------------------------------------------- the stored string

  predicate IsCode(c: string) {
    |c| > 0 && ',' !in c
  }

  predicate AllCodes(s: seq<string>) {
    forall i :: 0 <= i < |s| ==> IsCode(s[i])
  }

  function Joined(scope: seq<string>): string {
    if |scope| == 0 then "" else if |scope| == 1 then scope[0]
        else Joined(scope[..|scope| - 1]) + "," + scope[|scope| - 1]
  }

  method JoinScope(scope: seq<string>) returns (text: Option<string>)
    ensures text == if |scope| == 0 then None else Some(Joined(scope))
  {
    if |scope| == 0 {
      return None;
    }
    var out := scope[0];
    for i := 1 to |scope|
      invariant out == Joined(scope[..i])
    {
      assert scope[..i + 1][..i] == scope[..i];
      out := out + "," + scope[i];
    }
    assert scope[..|scope|] == scope;
    text := Some(out);
  }

  /** strings.Split on a comma. */
  function Split(s: string, cur: string): seq<string>
    decreases |s|
  {
    if |s| == 0 then [cur]
    else if s[0] == ',' then [cur] + Split(s[1..], "")
    else Split(s[1..], cur + [s[0]])
  }

  function SplitScope(text: Option<string>): seq<string> {
    if text.None? || text.value == "" then [] else Split(text.value, "")
  }

  /** Neither no scope nor an empty one has a country in it. */
  lemma NothingSplitsIntoNothing()
    ensures SplitScope(None) == [] && SplitScope(Some("")) == []
  {
  }

  lemma {:induction false} SplitAppend(s: string, cur: string, c: string)
    requires ',' !in c
    ensures Split(s + "," + c, cur) == Split(s, cur) + [c]
    decreases |s|
  {
    if |s| == 0 {
      assert (s + "," + c)[1..] == c && (s + "," + c)[0] == ',';
      SplitWord(c, "");
      assert "" + c == c;
    } else {
      assert (s + "," + c)[1..] == s[1..] + "," + c && (s + "," + c)[0] == s[0];
      if s[0] == ',' {
        SplitAppend(s[1..], "", c);
      } else {
        SplitAppend(s[1..], cur + [s[0]], c);
      }
    }
  }

  lemma {:induction false} SplitWord(c: string, cur: string)
    requires ',' !in c
    ensures Split(c, cur) == [cur + c]
    decreases |c|
  {
    if |c| == 0 {
      assert cur + c == cur;
    } else {
      assert c[0] in c;
      SplitWord(c[1..], cur + [c[0]]);
      assert cur + [c[0]] + c[1..] == cur + c;
    }
  }

  lemma {:induction false} SplitJoined(scope: seq<string>)
    requires AllCodes(scope) && |scope| > 0
    ensures Joined(scope) != "" && Split(Joined(scope), "") == scope
  {
    if |scope| == 1 {
      SplitWord(scope[0], "");
      assert "" + scope[0] == scope[0];
    } else {
      var n := |scope| - 1;
      SplitJoined(scope[..n]);
      SplitAppend(Joined(scope[..n]), "", scope[n]);
      assert scope == scope[..n] + [scope[n]];
    }
  }

  /** Reading a stored scope gives back the list, empty or not. */
  lemma ScopeRoundTrip(scope: seq<string>)
    requires AllCodes(scope)
    ensures SplitScope(if |scope| == 0 then None else Some(Joined(scope))) == scope
  {
    if |scope| > 0 {
      SplitJoined(scope);
    }
  }

  /** A strictly ascending list is determined by its elements. */
  lemma {:induction false} CanonicalIsUnique(a: seq<string>, b: seq<string>)
    requires StrictlyAscending(a) && StrictlyAscending(b) && Elements(a) == Elements(b)
    ensures a == b
    decreases |a|
  {
    assert |a| > 0 ==> a[0] in Elements(a);
    assert |b| > 0 ==> b[0] in Elements(b);
    if |a| > 0 {
      var m, n := |a| - 1, |b| - 1;
      LastIsHighest(a, b);
      LastIsHighest(b, a);
      LessIsAnOrder(a[m], b[n], a[m]);
      assert a[m] == b[n];
      DropLast(a);
      DropLast(b);
      CanonicalIsUnique(a[..m], b[..n]);
    }
  }

  lemma LastIsHighest(a: seq<string>, b: seq<string>)
    requires StrictlyAscending(a) && |a| > 0 && |b| > 0 && Elements(a) == Elements(b)
    ensures b[|b| - 1] == a[|a| - 1] || Less(b[|b| - 1], a[|a| - 1])
  {
    assert b[|b| - 1] in Elements(b);
    var i :| 0 <= i < |a| && a[i] == b[|b| - 1];
  }

  lemma DropLast(a: seq<string>)
    requires StrictlyAscending(a) && |a| > 0
    ensures StrictlyAscending(a[..|a| - 1]) && Elements(a[..|a| - 1]) == Elements(a) - {a[|a| - 1]}
  {
    var n := |a| - 1;
    LessIsAnOrder(a[n], a[n], a[n]);
    assert a[n] !in a[..n];
    assert a == a[..n] + [a[n]];
    assert forall x :: x in a <==> x in a[..n] || x == a[n];
  }

  /** The stored strings of two parsed scopes are equal exactly when the country sets are. */
  lemma EqualTextMeansEqualCountries(a: seq<string>, b: seq<string>)
    requires StrictlyAscending(a) && StrictlyAscending(b) && AllCodes(a) && AllCodes(b)
    ensures Joined(a) == Joined(b) <==> Elements(a) == Elements(b)
    ensures Joined(a) == "" <==> Elements(a) == {}
  {
    if |a| > 0 {
      SplitJoined(a);
      assert a[0] in Elements(a);
    }
    if |b| > 0 {
      SplitJoined(b);
      assert b[0] in Elements(b);
    }
    if Elements(a) == Elements(b) {
      CanonicalIsUnique(a, b);
    }
  }

  /** So the string comparison in the decision is a comparison of country sets. */
  lemma ConflictMeansDifferentCountries(a: Decide.Candidate, b: Decide.Candidate, x: seq<string>, y: seq<string>)
    requires a.geoScope == Joined(x) && b.geoScope == Joined(y)
    requires StrictlyAscending(x) && StrictlyAscending(y) && AllCodes(x) && AllCodes(y)
    ensures Decide.GeoConflict(a, b) <==> Elements(x) != {} && Elements(y) != {} && Elements(x) != Elements(y)
  {
    EqualTextMeansEqualCountries(x, y);
    EqualTextMeansEqualCountries(y, x);
  }

  // ---------------------------------------------------------------- searching the stored string

  predicate TwoLetters(c: string) {
    |c| == 2 && ',' !in c
  }

  predicate OccursAt(text: string, part: string, i: nat) {
    i + |part| <= |text| && text[i..i + |part|] == part
  }

  lemma OccursFirst(text: string, part: string)
    ensures OccursAt(text, part, 0) <==> part <= text
  {
    if part <= text {
      assert text[0..|part|] == part;
    }
  }

  lemma OccursLater(text: string, part: string, i: nat)
    requires |text| > 0
    ensures OccursAt(text, part, i + 1) <==> OccursAt(text[1..], part, i)
  {
    if i + 1 + |part| <= |text| {
      assert text[1..][i..i + |part|] == text[i + 1..i + 1 + |part|];
    }
  }

  lemma {:induction false} ContainsIff(text: string, part: string)
    ensures Contains(text, part) <==> exists i: nat :: OccursAt(text, part, i)
  {
    OccursFirst(text, part);
    if |text| > 0 {
      ContainsIff(text[1..], part);
      if i: nat :| OccursAt(text[1..], part, i) {
        OccursLater(text, part, i);
      }
      if i: nat :| i > 0 && OccursAt(text, part, i) {
        OccursLater(text, part, i - 1);
      }
    }
  }

  predicate AllTwoLetters(scope: seq<string>) {
    forall i :: 0 <= i < |scope| ==> TwoLetters(scope[i])
  }

  lemma {:induction false} JoinedLength(scope: seq<string>)
    requires AllTwoLetters(scope) && |scope| > 0
    ensures |Joined(scope)| == 3 * |scope| - 1
  {
    if |scope| > 1 {
      JoinedLength(scope[..|scope| - 1]);
    }
  }

  /** In a joined list of two-letter codes, code k stands at position 3k, and a comma follows unless it is the last. */
  lemma {:induction false} CodeAt(scope: seq<string>, k: nat)
    requires AllTwoLetters(scope) && k < |scope|
    ensures |Joined(scope)| == 3 * |scope| - 1
    ensures Joined(scope)[3 * k] == scope[k][0] && Joined(scope)[3 * k + 1] == scope[k][1]
    ensures k + 1 < |scope| ==> Joined(scope)[3 * k + 2] == ','
  {
    JoinedLength(scope);
    if |scope| > 1 {
      var n := |scope| - 1;
      JoinedLength(scope[..n]);
      assert Joined(scope) == Joined(scope[..n]) + "," + scope[n];
      if k < n {
        CodeAt(scope[..n], k);
      }
    }
  }

  /** Two letters in a row can only stand where a code of the list stands: anywhere else there is a comma in the way. */
  lemma LettersAreACode(scope: seq<string>, k: nat, r: nat)
    requires AllTwoLetters(scope) && |scope| > 0 && r < 3 && 3 * k + r + 1 < |Joined(scope)|
    requires Joined(scope)[3 * k + r] != ',' && Joined(scope)[3 * k + r + 1] != ','
    ensures r == 0 && k < |scope|
    ensures Joined(scope)[3 * k] == scope[k][0] && Joined(scope)[3 * k + 1] == scope[k][1]
  {
    JoinedLength(scope);
    CodeAt(scope, k);
  }

  lemma OccursAtACode(scope: seq<string>, country: string, k: nat, r: nat)
    requires AllTwoLetters(scope) && |scope| > 0 && TwoLetters(country) && r < 3
             && OccursAt(Joined(scope), country, 3 * k + r)
    ensures r == 0 && k < |scope| && scope[k] == country
  {
    OccursLetters(Joined(scope), country, 3 * k + r);
    LettersAreACode(scope, k, r);
    assert scope[k] == [country[0], country[1]] == country;
  }

  lemma OccursLetters(text: string, country: string, i: nat)
    requires TwoLetters(country) && OccursAt(text, country, i)
    ensures text[i] == country[0] != ',' && text[i + 1] == country[1] != ','
  {
    assert text[i..i + 2][0] == text[i] && text[i..i + 2][1] == text[i + 1];
    assert country[0] in country && country[1] in country;
  }

  /** The feed's LIKE filter finds exactly the postings open to the country. */
  lemma LikeFindsExactlyTheMembers(scope: seq<string>, country: string)
    requires AllTwoLetters(scope) && TwoLetters(country)
    ensures Contains(Joined(scope), country) <==> country in Elements(scope)
  {
    var text := Joined(scope);
    ContainsIff(text, country);
    if i: nat :| OccursAt(text, country, i) {
      OccursAtACode(scope, country, i / 3, i % 3);
      assert scope[i / 3] in scope;
    }
    if k: nat :| k < |scope| && scope[k] == country {
      CodeAt(scope, k);
      assert text[3 * k..3 * k + 2] == country;
      assert OccursAt(text, country, 3 * k);
    }
  }
}
