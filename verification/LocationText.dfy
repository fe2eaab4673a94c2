/**
 From a location text to its fragments: white space, work-mode words and separators.
 */
module LocationText {
  import opened Options
  import opened Text
  import opened Tokenizer

  datatype WorkMode = Remote | Hybrid | Onsite

  const HYBRID_HINTS: seq<string> := ["hybrid"]
  const REMOTE_HINTS: seq<string> := ["remote", "work from home", "wfh", "anywhere", "distributed"]
  const MODE_WORDS: seq<string> := ["remote", "hybrid", "onsite", "on-site", "on site", "wfh"]

  const NOISE: set<string> :=
    {"any", "anywhere", "global", "worldwide", "multiple locations", "various", "flexible", "n/a", "-"}

  const INNER_CUTSET: string := "-\U{2013}\U{2014}:()/,"
  const OUTER_CUTSET: string := "-\U{2013}\U{2014}()"

  // ---------------------------------------------------------------- text functions of the standard library

  /** What len() of a string counts. */
  function ByteLength(s: string): nat {
    if |s| == 0 then 0 else
    (if s[0] < '\U{80}' then 1 else if s[0] < '\U{800}' then 2 else if s[0] < '\U{10000}' then 3
        else 4) + ByteLength(s[1..])
  }

  /** strings.Fields, when `cur` has been read but not yet ended. */
  function Fields(s: string, cur: string): seq<string>
    decreases |s|
  {
    if |s| == 0 then (if |cur| > 0 then [cur] else [])
    else if IsSpace(s[0]) then (if |cur| > 0 then [cur] else []) + Fields(s[1..], "")
    else Fields(s[1..], cur + [s[0]])
  }

  function CutLeft(s: string, cutset: string): string {
    if |s| > 0 && s[0] in cutset then CutLeft(s[1..], cutset) else s
  }

  function CutRight(s: string, cutset: string): string {
    if |s| > 0 && s[|s| - 1] in cutset then CutRight(s[..|s| - 1], cutset) else s
  }

  /** strings.Trim. */
  function Trim(s: string, cutset: string): string {
    CutRight(CutLeft(s, cutset), cutset)
  }

  predicate ContainsAny(text: string, parts: seq<string>) {
    exists k :: 0 <= k < |parts| && Contains(text, parts[k])
  }

  // ---------------------------------------------------------------- the whole text

  function Plainer(c: char): char {
    if c == '\U{A0}' || c == '\t' || c == '\n' || c == '\r' then ' '
    else if c == '\U{2014}' || c == '\U{2013}' then '-'
    else c
  }

  function NormalizeSpace(s: string): string {
    Join(Fields(seq(|s|, i requires 0 <= i < |s| => Plainer(s[i])), ""))
  }

  function HintOf(s: string): Option<WorkMode> {
    var padded := " " + s + " ";
    if ContainsAny(padded, HYBRID_HINTS) then Some(Hybrid)
    else if ContainsAny(padded, REMOTE_HINTS) then Some(Remote)
    else None
  }

  predicate Separator(c: char) {
    c == ',' || c == ';' || c == '|' || c == '/'
  }

  /** The text between separators; FieldsFunc drops what is empty. */
  function Cut(s: string, cur: string): seq<string>
    decreases |s|
  {
    if |s| == 0 then (if |cur| > 0 then [cur] else [])
    else if Separator(s[0]) then (if |cur| > 0 then [cur] else []) + Cut(s[1..], "")
    else Cut(s[1..], cur + [s[0]])
  }

  predicate IsNoise(s: string) {
    s in NOISE || ByteLength(s) < 2
  }

  // ---------------------------------------------------------------- work-mode words

  /** What is left of a fragment behind the work-mode word it starts with. */
  function Behind(frag: string, w: string): string
    requires w <= frag
  {
    TrimSpace(Trim(TrimSpace(frag[|w|..]), INNER_CUTSET))
  }

  /** The first of the work-mode words, from the k-th on, that the fragment starts with. */
  function FirstMode(frag: string, k: nat): (w: Option<string>)
    ensures w.Some? ==> w.value <= frag && w.value in MODE_WORDS
    ensures w.None? ==> forall i :: k <= i < |MODE_WORDS| ==> !(MODE_WORDS[i] <= frag)
    decreases |MODE_WORDS| - k
  {
    if k >= |MODE_WORDS| then None
    else if MODE_WORDS[k] <= frag then Some(MODE_WORDS[k])
    else FirstMode(frag, k + 1)
  }

  /** A fragment without the work-mode word it starts with, if it starts with one. */
  function Stripped(raw: string): string {
    var frag := TrimSpace(raw);
    match FirstMode(frag, 0)
    case None => TrimSpace(Trim(frag, OUTER_CUTSET))
    case Some(w) => if frag == w then "" else TrimSpace(Trim(Behind(frag, w), OUTER_CUTSET))
  }

  function FragmentsOf(s: string): seq<string> {
    var cut := Cut(s, "");
    seq(|cut|, i requires 0 <= i < |cut| => Stripped(cut[i]))
  }

  lemma {:induction false} TrimLeftShortens(s: string)
    ensures |TrimLeft(s)| <= |s| && ByteLength(TrimLeft(s)) <= ByteLength(s)
  {
    if |s| > 0 && IsSpace(s[0]) {
      TrimLeftShortens(s[1..]);
    }
  }

  lemma {:induction false} CutLeftShortens(s: string, cutset: string)
    ensures |CutLeft(s, cutset)| <= |s| && ByteLength(CutLeft(s, cutset)) <= ByteLength(s)
  {
    if |s| > 0 && s[0] in cutset {
      CutLeftShortens(s[1..], cutset);
    }
  }

  lemma {:induction false} BytesOfPrefix(s: string, n: nat)
    requires n <= |s|
    ensures ByteLength(s) == ByteLength(s[..n]) + ByteLength(s[n..])
  {
    if n > 0 {
      BytesOfPrefix(s[1..], n - 1);
      assert s[1..][..n - 1] == s[..n][1..] && s[1..][n - 1..] == s[n..];
    }
  }

  lemma {:induction false} TrimRightShortens(s: string)
    ensures |TrimRight(s)| <= |s| && ByteLength(TrimRight(s)) <= ByteLength(s)
  {
    if |s| > 0 && IsSpace(s[|s| - 1]) {
      TrimRightShortens(s[..|s| - 1]);
      BytesOfPrefix(s, |s| - 1);
    }
  }

  lemma {:induction false} CutRightShortens(s: string, cutset: string)
    ensures |CutRight(s, cutset)| <= |s| && ByteLength(CutRight(s, cutset)) <= ByteLength(s)
  {
    if |s| > 0 && s[|s| - 1] in cutset {
      CutRightShortens(s[..|s| - 1], cutset);
      BytesOfPrefix(s, |s| - 1);
    }
  }

  lemma TrimmingShortens(s: string, cutset: string)
    ensures |TrimSpace(Trim(s, cutset))| <= |s| && ByteLength(TrimSpace(Trim(s, cutset))) <= ByteLength(s)
    ensures |TrimSpace(s)| <= |s| && ByteLength(TrimSpace(s)) <= ByteLength(s)
  {
    TrimLeftShortens(s);
    TrimRightShortens(TrimLeft(s));
    CutLeftShortens(s, cutset);
    CutRightShortens(CutLeft(s, cutset), cutset);
    TrimLeftShortens(Trim(s, cutset));
    TrimRightShortens(TrimLeft(Trim(s, cutset)));
  }

  /**
   The length test that is meant to tell a work-mode word from the beginning of a
   longer word holds for every fragment, separated or not.
   */
  lemma TheGuardAlwaysHolds(frag: string, w: string)
    requires w <= frag && w in MODE_WORDS
    ensures var rest := Behind(frag, w);
            && |rest| < |frag| && rest != frag
            && ByteLength(rest) < ByteLength(frag) - ByteLength(w) + 1
  {
    var tail := frag[|w|..];
    TrimmingShortens(tail, INNER_CUTSET);
    TrimmingShortens(TrimSpace(tail), INNER_CUTSET);
    BytesOfPrefix(frag, |w|);
    assert frag[..|w|] == w && |w| > 0;
  }

  method StripModeWords(raw: string) returns (r: string)
    ensures r == Stripped(raw)
  {
    var frag := TrimSpace(raw);
    ghost var whole := frag;
    for k := 0 to |MODE_WORDS|
      invariant frag == whole && FirstMode(whole, 0) == FirstMode(whole, k)
    {
      var w := MODE_WORDS[k];
      if frag == w {
        return "";
      }
      if w <= frag {
        var rest := Behind(frag, w);
        TheGuardAlwaysHolds(frag, w);
        if rest != frag && (rest == "" || ByteLength(rest) < ByteLength(frag) - ByteLength(w) + 1) {
          frag := rest;
          return TrimSpace(Trim(frag, OUTER_CUTSET));
        }
      }
    }
    r := TrimSpace(Trim(frag, OUTER_CUTSET));
  }

  // ---------------------------------------------------------------- white space, dashes and separators

  /** Tabs, line ends and no-break spaces count as spaces, the two long dashes as a hyphen. */
  lemma PlainerIs(c: char)
    ensures var n := c as int;
            Plainer(c) == if n == 160 || n == 9 || n == 10 || n == 13 then ' '
                          else if n == 8212 || n == 8211 then '-' else c
  {
  }

  lemma {:induction false} SpaceEndsTheField(a: string, c: char, b: string, cur: string)
    requires IsSpace(c)
    ensures Fields(a + [c] + b, cur) == Fields(a, cur) + Fields(b, "")
    decreases |a|
  {
    if |a| == 0 {
      assert (a + [c] + b)[1..] == b;
    } else {
      assert (a + [c] + b)[1..] == a[1..] + [c] + b && (a + [c] + b)[0] == a[0];
      SpaceEndsTheField(a[1..], c, b, if IsSpace(a[0]) then "" else cur + [a[0]]);
    }
  }

  predicate NoSpace(w: string) {
    |w| > 0 && forall c | c in w :: !IsSpace(c)
  }

  /** What is left of a text without white space is one field. */
  lemma {:induction false} FieldsOfWord(s: string, cur: string)
    requires NoSpace(s)
    ensures Fields(s, cur) == [cur + s]
    decreases |s|
  {
    if |s| > 1 {
      assert forall c | c in s[1..] :: c in s;
      FieldsOfWord(s[1..], cur + [s[0]]);
      assert cur + [s[0]] + s[1..] == cur + s;
    } else {
      assert cur + [s[0]] == cur + s && s[1..] == "";
    }
  }

  lemma {:induction false} FieldsHaveNoSpace(s: string, cur: string)
    requires forall c | c in cur :: !IsSpace(c)
    ensures forall w | w in Fields(s, cur) :: NoSpace(w)
    decreases |s|
  {
    if |s| > 0 {
      FieldsHaveNoSpace(s[1..], if IsSpace(s[0]) then "" else cur + [s[0]]);
    }
  }

  lemma {:induction false} FieldsOfJoin(words: seq<string>)
    requires forall w | w in words :: NoSpace(w)
    ensures Fields(Join(words), "") == words
  {
    if |words| == 1 {
      FieldsOfWord(words[0], "");
      assert "" + words[0] == words[0];
    } else if |words| > 1 {
      var w, more := words[0], words[1..];
      assert forall x | x in more :: x in words;
      FieldsOfJoin(more);
      assert Join(words) == w + [' '] + Join(more);
      SpaceEndsTheField(w, ' ', Join(more), "");
      FieldsOfWord(w, "");
      assert "" + w == w && words == [w] + more;
    }
  }

  function Plained(s: string): string {
    seq(|s|, i requires 0 <= i < |s| => Plainer(s[i]))
  }

  /**
   The text is normalized to its fields with one space between them: no other text has the
   same fields and the same form, and normalizing the fields again changes nothing.
   */
  lemma SpaceIsNormalized(s: string)
    ensures Fields(NormalizeSpace(s), "") == Fields(Plained(s), "")
    ensures NormalizeSpace(s) == Join(Fields(NormalizeSpace(s), ""))
  {
    FieldsHaveNoSpace(Plained(s), "");
    FieldsOfJoin(Fields(Plained(s), ""));
  }

  /** Commas, semicolons, bars and slashes separate fragments. */
  lemma SeparatorsAre(c: char)
    ensures Separator(c) <==> c in ",;|/"
  {
  }

  lemma {:induction false} SeparatorEndsTheFragment(a: string, c: char, b: string, cur: string)
    requires Separator(c)
    ensures Cut(a + [c] + b, cur) == Cut(a, cur) + Cut(b, "")
    decreases |a|
  {
    if |a| == 0 {
      assert (a + [c] + b)[1..] == b;
    } else {
      assert (a + [c] + b)[1..] == a[1..] + [c] + b && (a + [c] + b)[0] == a[0];
      SeparatorEndsTheFragment(a[1..], c, b, if Separator(a[0]) then "" else cur + [a[0]]);
    }
  }

  /** A text without separators is one fragment, and no text is none. */
  lemma {:induction false} FragmentIsWhole(s: string, cur: string)
    requires forall c | c in s :: !Separator(c)
    ensures Cut(s, cur) == if |cur + s| > 0 then [cur + s] else []
    decreases |s|
  {
    if |s| == 0 {
      assert cur + s == cur;
    } else {
      assert s[0] in s && forall c | c in s[1..] :: c in s;
      FragmentIsWhole(s[1..], cur + [s[0]]);
      assert cur + [s[0]] + s[1..] == cur + s;
    }
  }

  /** The bytes of one code point in UTF-8. */
  lemma BytesOfOne(c: char)
    ensures var n := c as int;
            ByteLength([c]) == if n < 128 then 1 else if n < 2048 then 2 else if n < 65536 then 3 else 4
    ensures ByteLength("") == 0
  {
    assert [c][1..] == "";
  }

  lemma {:induction false} BytesAreMany(s: string)
    ensures ByteLength(s) >= |s|
  {
    if |s| > 0 {
      BytesAreMany(s[1..]);
    }
  }

  /** A place is noise when it says nowhere in particular, or is at most one ASCII character. */
  lemma NoiseIff(s: string)
    ensures IsNoise(s) <==>
              || s in ["any", "anywhere", "global", "worldwide", "multiple locations", "various", "flexible", "n/a",
                  "-"]
              || |s| == 0 || (|s| == 1 && (s[0] as int) < 128)
  {
    BytesAreMany(s);
    if |s| == 1 {
      BytesOfOne(s[0]);
      assert s == [s[0]];
    }
  }

  // ---------------------------------------------------------------- trimming

  lemma {:induction false} CutsetIsCut(s: string, cutset: string)
    requires forall c | c in s :: c in cutset
    ensures CutLeft(s, cutset) == "" && CutRight(s, cutset) == ""
    decreases |s|
  {
    if |s| > 0 {
      assert s[0] in s && s[|s| - 1] in s;
      CutsetIsCut(s[1..], cutset);
      CutsetIsCut(s[..|s| - 1], cutset);
    }
  }

  /** Exactly the characters of the cutset at both ends go. */
  lemma {:induction false} TrimTrims(pre: string, core: string, post: string, cutset: string)
    requires forall c | c in pre + post :: c in cutset
    requires |core| > 0 ==> core[0] !in cutset && core[|core| - 1] !in cutset
    ensures Trim(pre + core + post, cutset) == core
    decreases |pre| + |post|
  {
    if |core| == 0 {
      assert pre + core + post == pre + post;
      CutsetIsCut(pre + post, cutset);
    } else if |pre| > 0 {
      assert (pre + core + post)[1..] == pre[1..] + core + post && (pre + core + post)[0] in pre + post;
      TrimTrims(pre[1..], core, post, cutset);
    } else if |post| > 0 {
      var s := core + post;
      assert pre + core + post == s && CutLeft(s, cutset) == s && s[..|s| - 1] == core + post[..|post| - 1];
      assert s[|s| - 1] in pre + post;
      TrimTrims("", core, post[..|post| - 1], cutset);
      assert "" + core + post[..|post| - 1] == core + post[..|post| - 1];
      assert CutLeft(core + post[..|post| - 1], cutset) == core + post[..|post| - 1];
    } else {
      assert pre + core + post == core;
    }
  }

  /** The punctuation that may stand between a work mode and a place, and around a place. */
  lemma CutsetsAre(c: char)
    ensures var n := c as int;
            && (c in OUTER_CUTSET <==> c in "-()" || n == 8211 || n == 8212)
            && (c in INNER_CUTSET <==> c in OUTER_CUTSET || c in ":/,")
  {
  }

  /** Behind the work-mode word, white space, then punctuation, then white space goes, and the place stays. */
  lemma PlaceBehindTheMode(w: string, gap: string, marks: string, gap2: string, place: string)
    requires (forall c | c in gap :: IsSpace(c)) && (forall c | c in marks :: c in INNER_CUTSET && !IsSpace(c))
    requires (forall c | c in gap2 :: IsSpace(c)) && |marks| > 0 && |place| > 0
    requires !IsSpace(place[0]) && !IsSpace(place[|place| - 1])
    requires place[0] !in INNER_CUTSET && place[|place| - 1] !in INNER_CUTSET
    requires |gap2| > 0 ==> gap2[0] !in INNER_CUTSET
    ensures Behind(w + (gap + (marks + (gap2 + place))), w) == place
  {
    var inner := marks + (gap2 + place);
    assert (w + (gap + inner))[|w|..] == gap + inner == gap + inner + "";
    assert gap + "" == gap && marks + "" == marks && gap2 + "" == gap2;
    assert inner[0] == marks[0] && marks[0] in marks && inner[|inner| - 1] == place[|place| - 1];
    TrimSpaceTrims(gap, inner, "");
    assert inner == marks + (gap2 + place) + "";
    TrimTrims(marks, gap2 + place, "", INNER_CUTSET);
    assert gap2 + place == gap2 + place + "";
    TrimSpaceTrims(gap2, place, "");
  }

  // ---------------------------------------------------------------- hints

  /** Hybrid is said by "hybrid"; otherwise remote is said by any of five phrases. */
  lemma HintIff(s: string)
    ensures var padded := " " + s + " ";
            && (HintOf(s) == Some(Hybrid) <==> Contains(padded, "hybrid"))
            && (HintOf(s) == Some(Remote) <==>
                && !Contains(padded, "hybrid")
                && (|| Contains(padded, "remote") || Contains(padded, "work from home") || Contains(padded, "wfh")
                    || Contains(padded, "anywhere") || Contains(padded, "distributed")))
            && HintOf(s) != Some(WorkMode.Onsite)
  {
    var padded := " " + s + " ";
    assert HYBRID_HINTS[0] == "hybrid" && |HYBRID_HINTS| == 1 && |REMOTE_HINTS| == 5;
    assert REMOTE_HINTS[0] == "remote" && REMOTE_HINTS[1] == "work from home" && REMOTE_HINTS[2] == "wfh";
    assert REMOTE_HINTS[3] == "anywhere" && REMOTE_HINTS[4] == "distributed";
  }

  // ---------------------------------------------------------------- which fragments keep their text

  /** What the function leaves of a fragment when it finds no work-mode word. */
  function Kept(raw: string): string {
    TrimSpace(Trim(TrimSpace(raw), OUTER_CUTSET))
  }

  lemma WordsHaveLetters(w: string)
    requires w in MODE_WORDS
    ensures |w| > 0 && !IsSpace(w[0]) && w[0] !in OUTER_CUTSET
    ensures !IsSpace(w[|w| - 1]) && w[|w| - 1] !in OUTER_CUTSET
  {
  }

  lemma {:induction false} TrimRightBehind(w: string, t: string)
    requires |w| > 0 && !IsSpace(w[|w| - 1])
    ensures TrimRight(w + t) == w + TrimRight(t)
  {
    if |t| == 0 {
      assert w + t == w;
    } else if IsSpace(t[|t| - 1]) {
      assert (w + t)[..|w + t| - 1] == w + t[..|t| - 1];
      TrimRightBehind(w, t[..|t| - 1]);
    }
  }

  lemma {:induction false} CutRightBehind(w: string, t: string, cutset: string)
    requires |w| > 0 && w[|w| - 1] !in cutset
    ensures CutRight(w + t, cutset) == w + CutRight(t, cutset)
  {
    if |t| == 0 {
      assert w + t == w;
    } else if t[|t| - 1] in cutset {
      assert (w + t)[..|w + t| - 1] == w + t[..|t| - 1];
      CutRightBehind(w, t[..|t| - 1], cutset);
    }
  }

  predicate Suffix(x: string, t: string) {
    |x| <= |t| && x == t[|t| - |x|..]
  }

  lemma {:induction false} TrimRightOfSuffix(x: string, t: string)
    requires Suffix(x, t)
    ensures |TrimRight(x)| <= |TrimRight(t)|
  {
    if |x| > 0 && IsSpace(x[|x| - 1]) {
      assert Suffix(x[..|x| - 1], t[..|t| - 1]);
      TrimRightOfSuffix(x[..|x| - 1], t[..|t| - 1]);
    } else {
      TrimRightShortens(x);
    }
  }

  lemma {:induction false} CutRightOfSuffix(x: string, t: string, cutset: string)
    requires Suffix(x, t)
    ensures Suffix(CutRight(x, cutset), CutRight(t, cutset))
  {
    if |x| > 0 && x[|x| - 1] in cutset {
      assert Suffix(x[..|x| - 1], t[..|t| - 1]);
      CutRightOfSuffix(x[..|x| - 1], t[..|t| - 1], cutset);
    }
  }

  lemma {:induction false} TrimRightOfPrefix(p: string, q: string)
    requires p <= q
    ensures |TrimRight(p)| <= |TrimRight(q)|
  {
    if p != q {
      TrimRightShortens(p);
      if IsSpace(q[|q| - 1]) {
        TrimRightOfPrefix(p, q[..|q| - 1]);
      }
    }
  }

  lemma {:induction false} WiderCutset(x: string, narrow: string, wide: string)
    requires forall c :: c in narrow ==> c in wide
    ensures CutRight(x, wide) <= CutRight(x, narrow)
  {
    if |x| > 0 && x[|x| - 1] in wide {
      WiderCutset(x[..|x| - 1], narrow, wide);
      CutRightIsPrefix(x[..|x| - 1], wide);
    }
  }

  lemma {:induction false} CutRightIsPrefix(x: string, cutset: string)
    ensures CutRight(x, cutset) <= x
  {
    if |x| > 0 && x[|x| - 1] in cutset {
      CutRightIsPrefix(x[..|x| - 1], cutset);
    }
  }

  lemma {:induction false} TrimLeftIsSuffix(x: string)
    ensures Suffix(TrimLeft(x), x)
  {
    if |x| > 0 && IsSpace(x[0]) {
      TrimLeftIsSuffix(x[1..]);
    }
  }

  lemma {:induction false} CutLeftIsSuffix(x: string, cutset: string)
    ensures Suffix(CutLeft(x, cutset), x)
  {
    if |x| > 0 && x[0] in cutset {
      CutLeftIsSuffix(x[1..], cutset);
    }
  }

  /** Nothing is left behind a word that the function would not have left behind the word it keeps. */
  lemma BehindIsShort(t: string)
    requires TrimRight(t) == t
    ensures |TrimSpace(Trim(TrimSpace(t), INNER_CUTSET))| <= |TrimRight(CutRight(t, OUTER_CUTSET))|
  {
    var left := TrimLeft(t);
    TrimLeftIsSuffix(t);
    EndsInNoSpace(t, left);
    var x := CutLeft(left, INNER_CUTSET);
    CutLeftIsSuffix(left, INNER_CUTSET);
    var inner, outer := CutRight(x, INNER_CUTSET), CutRight(x, OUTER_CUTSET);
    WiderCutset(x, OUTER_CUTSET, INNER_CUTSET);
    TrimLeftIsSuffix(inner);
    TrimRightOfSuffix(TrimLeft(inner), inner);
    TrimRightOfPrefix(inner, outer);
    CutRightOfSuffix(x, t, OUTER_CUTSET);
    TrimRightOfSuffix(outer, CutRight(t, OUTER_CUTSET));
  }

  lemma EndsInNoSpace(t: string, x: string)
    requires TrimRight(t) == t && Suffix(x, t)
    ensures TrimRight(x) == x
  {
    if |t| > 0 {
      TrimRightShortens(t[..|t| - 1]);
    }
  }

  lemma KeptBehind(raw: string, w: string)
    requires w <= TrimSpace(raw) && w in MODE_WORDS
    ensures var t := TrimSpace(raw)[|w|..];
            TrimRight(t) == t && Kept(raw) == w + TrimRight(CutRight(t, OUTER_CUTSET))
  {
    var frag := TrimSpace(raw);
    var t := frag[|w|..];
    WordsHaveLetters(w);
    assert frag == w + t;
    TrimTwice(TrimLeft(raw));
    EndsInNoSpace(frag, t);
    CutRightBehind(w, t, OUTER_CUTSET);
    TrimRightBehind(w, CutRight(t, OUTER_CUTSET));
  }

  lemma {:induction false} TrimTwice(s: string)
    ensures TrimRight(TrimRight(s)) == TrimRight(s)
  {
    if |s| > 0 && IsSpace(s[|s| - 1]) {
      TrimTwice(s[..|s| - 1]);
    }
  }

  /** The first and the third letter tell the words apart. */
  lemma Initials(w: string)
    requires w in MODE_WORDS
    ensures |w| >= 3
    ensures w == match w[0]
                 case 'r' => "remote"
                 case 'h' => "hybrid"
                 case 'w' => "wfh"
                 case _ => if w[2] == 's' then "onsite" else if w[2] == '-' then "on-site" else "on site"
  {
  }

  lemma NoWordBeginsAnother(v: string, w: string)
    requires v in MODE_WORDS && w in MODE_WORDS && v <= w
    ensures v == w
  {
    Initials(v);
    Initials(w);
    assert v[0] == w[0] && v[2] == w[2];
  }

  /** Six words say a work mode, and a fragment starts with one of them at most. */
  lemma ModeWordsAre(frag: string, w: string)
    ensures FirstMode(frag, 0) == Some(w) <==>
              w <= frag && w in ["remote", "hybrid", "onsite", "on-site", "on site", "wfh"]
  {
    assert w in MODE_WORDS <==> w in ["remote", "hybrid", "onsite", "on-site", "on site", "wfh"];
    if w <= frag && w in MODE_WORDS {
      var first := FirstMode(frag, 0).value;
      assert if |first| <= |w| then first <= w else w <= first;
      if |first| <= |w| {
        NoWordBeginsAnother(first, w);
      } else {
        NoWordBeginsAnother(w, first);
      }
    }
  }

  /**
   For every fragment: it keeps its text, up to outer punctuation, exactly when it starts
   with no work-mode word; otherwise what is left is shorter by at least that word, even
   when the word goes on.
   */
  lemma TextIsKeptIff(raw: string)
    ensures Stripped(raw) == Kept(raw) <==> FirstMode(TrimSpace(raw), 0) == None
    ensures forall w :: FirstMode(TrimSpace(raw), 0) == Some(w) ==> |Stripped(raw)| + |w| <= |Kept(raw)|
  {
    var frag := TrimSpace(raw);
    if FirstMode(frag, 0).Some? {
      var w := FirstMode(frag, 0).value;
      KeptBehind(raw, w);
      BehindIsShort(frag[|w|..]);
      TrimmingShortens(Behind(frag, w), OUTER_CUTSET);
      WordsHaveLetters(w);
    }
  }

  lemma CleanEnds(s: string, cutset: string)
    requires |s| > 0 && !IsSpace(s[0]) && !IsSpace(s[|s| - 1]) && s[0] !in cutset && s[|s| - 1] !in cutset
    ensures TrimSpace(s) == s && Trim(s, cutset) == s
  {
  }

  /** "remoteville" becomes "ville". */
  lemma RemotevilleBecomesVille()
    ensures Stripped("remoteville") == "ville"
  {
    var frag := "remoteville";
    CleanEnds(frag, OUTER_CUTSET);
    assert MODE_WORDS[0] == "remote" && frag[..6] == "remote" && frag[6..] == "ville";
    assert "remote" <= frag && FirstMode(frag, 0) == Some("remote");
    CleanEnds("ville", INNER_CUTSET);
    CleanEnds("ville", OUTER_CUTSET);
  }
}
