/**
 The tokenizer of the dedupe package: lower-case, strip markup, keep words.

 Text is a sequence of code points. Lower-casing one code point is the standard
 library's business, so it is a parameter; `LowerCases` says all that is needed of it.
 */
module Tokenizer {
  predicate WordChar(c: char) {
    'a' <= c <= 'z' || '0' <= c <= '9' || c == '+' || c == '#'
  }

  /** Word characters, spaces and angle brackets are left alone, and nothing else becomes a bracket. */
  ghost predicate LowerCases(lower: char -> char) {
    && (forall c :: WordChar(c) || c == ' ' || c == '<' || c == '>' ==> lower(c) == c)
    && (forall c :: lower(c) == '<' || lower(c) == '>' ==> c == lower(c))
  }

  function ToLower(lower: char -> char, s: string): string {
    seq(|s|, i requires 0 <= i < |s| => lower(s[i]))
  }

  // ---------------------------------------------------------------- markup

  /** What is left of `s` when it is read inside `depth` open brackets. */
  function Strip(s: string, depth: nat): string
    decreases |s|
  {
    if |s| == 0 then ""
    else if s[0] == '<' then Strip(s[1..], depth + 1)
    else if s[0] == '>' then (if depth > 0 then [' '] + Strip(s[1..], depth - 1) else Strip(s[1..], 0))
    else if depth == 0 then [s[0]] + Strip(s[1..], 0)
    else Strip(s[1..], depth)
  }

  /** How many brackets are open after `s`. */
  function Depth(s: string, depth: nat): nat
    decreases |s|
  {
    if |s| == 0 then depth
    else if s[0] == '<' then Depth(s[1..], depth + 1)
    else if s[0] == '>' then Depth(s[1..], if depth > 0 then depth - 1 else 0)
    else Depth(s[1..], depth)
  }

  method StripTags(s: string) returns (b: string)
    ensures b == Strip(s, 0)
  {
    b := "";
    var depth: nat := 0;
    for i := 0 to |s|
      invariant b + Strip(s[i..], depth) == Strip(s, 0)
    {
      assert s[i..][1..] == s[i + 1..];
      if s[i] == '<' {
        depth := depth + 1;
      } else if s[i] == '>' {
        if depth > 0 {
          depth := depth - 1;
          b := b + [' '];
        }
      } else if depth == 0 {
        b := b + [s[i]];
      }
    }
  }

  // ---------------------------------------------------------------- words

  /** The words of `s`, when `cur` has been read but not yet ended. */
  function Words(s: string, cur: string): seq<string>
    decreases |s|
  {
    if |s| == 0 then (if |cur| > 0 then [cur] else [])
    else if WordChar(s[0]) then Words(s[1..], cur + [s[0]])
    else (if |cur| > 0 then [cur] else []) + Words(s[1..], "")
  }

  function Tokens(lower: char -> char, text: string): seq<string> {
    Words(Strip(ToLower(lower, text), 0), "")
  }

  method Tokenize(lower: char -> char, text: string) returns (words: seq<string>)
    ensures words == Tokens(lower, text)
  {
    var stripped := StripTags(ToLower(lower, text));
    words := [];
    var cur := "";
    for i := 0 to |stripped|
      invariant words + Words(stripped[i..], cur) == Words(stripped, "")
    {
      assert stripped[i..][1..] == stripped[i + 1..];
      if WordChar(stripped[i]) {
        cur := cur + [stripped[i]];
      } else if |cur| > 0 {
        words := words + [cur];
        cur := "";
      }
    }
    if |cur| > 0 {
      words := words + [cur];
    }
  }

  function Join(words: seq<string>): string {
    if |words| == 0 then ""
    else if |words| == 1 then words[0]
    else words[0] + " " + Join(words[1..])
  }

  predicate IsWord(w: string) {
    |w| > 0 && forall i :: 0 <= i < |w| ==> WordChar(w[i])
  }

  // ---------------------------------------------------------------- round trip

  lemma {:induction false} WordsAreWords(s: string, cur: string)
    requires forall i :: 0 <= i < |cur| ==> WordChar(cur[i])
    ensures forall w :: w in Words(s, cur) ==> IsWord(w)
    decreases |s|
  {
    if |s| > 0 {
      WordsAreWords(s[1..], if WordChar(s[0]) then cur + [s[0]] else "");
    }
  }

  /** Reading word characters only makes the current word longer. */
  lemma {:induction false} ReadWord(w: string, rest: string, cur: string)
    requires forall i :: 0 <= i < |w| ==> WordChar(w[i])
    ensures Words(w + rest, cur) == Words(rest, cur + w)
    decreases |w|
  {
    if |w| == 0 {
      assert w + rest == rest && cur + w == cur;
    } else {
      assert (w + rest)[1..] == w[1..] + rest;
      assert cur + [w[0]] + w[1..] == cur + w;
      ReadWord(w[1..], rest, cur + [w[0]]);
    }
  }

  lemma WordThenRest(w: string, rest: string)
    requires IsWord(w)
    ensures Words(w + (" " + rest), "") == [w] + Words(rest, "")
    ensures Words(w, "") == [w]
  {
    ReadWord(w, " " + rest, "");
    assert "" + w == w && (" " + rest)[1..] == rest;
    ReadWord(w, "", "");
    assert w + "" == w;
  }

  lemma {:induction false} WordsOfJoin(words: seq<string>)
    requires forall i :: 0 <= i < |words| ==> IsWord(words[i])
    ensures Words(Join(words), "") == words
  {
    if |words| == 1 {
      WordThenRest(words[0], "");
    } else if |words| > 1 {
      var w, more := words[0], words[1..];
      WordsOfJoin(more);
      WordThenRest(w, Join(more));
      assert Join(words) == w + (" " + Join(more));
      assert words == [w] + more;
    }
  }

  predicate Plain(s: string) {
    forall i :: 0 <= i < |s| ==> WordChar(s[i]) || s[i] == ' '
  }

  lemma {:induction false} JoinIsPlain(words: seq<string>)
    requires forall w :: w in words ==> IsWord(w)
    ensures Plain(Join(words))
  {
    assert |words| > 0 ==> IsWord(words[0]);
    if |words| > 1 {
      JoinIsPlain(words[1..]);
    }
  }

  lemma {:induction false} PlainHasNoMarkup(s: string)
    requires Plain(s)
    ensures Strip(s, 0) == s
  {
    if |s| > 0 {
      PlainHasNoMarkup(s[1..]);
    }
  }

  /** Tokens written out with single spaces tokenize to themselves, whatever text they came from. */
  lemma TokensRoundTrip(lower: char -> char, text: string)
    requires LowerCases(lower)
    ensures Tokens(lower, Join(Tokens(lower, text))) == Tokens(lower, text)
  {
    var words := Tokens(lower, text);
    WordsAreWords(Strip(ToLower(lower, text), 0), "");
    JoinIsPlain(words);
    assert ToLower(lower, Join(words)) == Join(words);
    PlainHasNoMarkup(Join(words));
    WordsOfJoin(words);
  }

  // ---------------------------------------------------------------- tags

  /** Read inside `depth` brackets, `s` never closes the outermost one. */
  predicate StaysInside(s: string, depth: nat)
    requires depth >= 1
    decreases |s|
  {
    |s| == 0 ||
    if s[0] == '<' then StaysInside(s[1..], depth + 1)
    else if s[0] == '>' then depth >= 2 && StaysInside(s[1..], depth - 1)
    else StaysInside(s[1..], depth)
  }

  predicate Blank(s: string) {
    forall i :: 0 <= i < |s| ==> s[i] == ' '
  }

  lemma {:induction false} InsideIsBlank(s: string, depth: nat)
    requires depth >= 1 && StaysInside(s, depth)
    ensures Blank(Strip(s, depth)) && Depth(s, depth) >= 1
    decreases |s|
  {
    if |s| > 0 {
      InsideIsBlank(s[1..], if s[0] == '<' then depth + 1 else if s[0] == '>' then depth - 1 else depth);
    }
  }

  lemma {:induction false} StripConcat(s: string, t: string, depth: nat)
    ensures Strip(s + t, depth) == Strip(s, depth) + Strip(t, Depth(s, depth))
    ensures Depth(s + t, depth) == Depth(t, Depth(s, depth))
    decreases |s|
  {
    if |s| == 0 {
      assert s + t == t;
    } else {
      assert (s + t)[1..] == s[1..] + t;
      StripConcat(s[1..], t, if s[0] == '<' then depth + 1 else if s[0] == '>' && depth > 0 then depth - 1 else depth);
    }
  }

  lemma {:induction false} BlanksSplitOnce(s: string, blanks: string, t: string, cur: string)
    requires Blank(blanks) && |blanks| > 0
    ensures Words(s + blanks + t, cur) == Words(s + " " + t, cur)
    decreases |s|, |blanks|
  {
    if |s| > 0 {
      assert (s + blanks + t)[1..] == s[1..] + blanks + t && (s + " " + t)[1..] == s[1..] + " " + t;
      BlanksSplitOnce(s[1..], blanks, t, if WordChar(s[0]) then cur + [s[0]] else "");
    } else {
      assert (s + blanks + t)[1..] == blanks[1..] + t && (s + " " + t)[1..] == t;
      if |blanks| > 1 {
        assert s + blanks[1..] + t == blanks[1..] + t;
        BlanksSplitOnce(s, blanks[1..], t, "");
      } else {
        assert blanks[1..] + t == t;
      }
    }
  }

  /** Stripping a balanced tag at top level leaves only blanks of it, and at least one. */
  lemma StripTag(a: string, tag: string, b: string)
    requires Depth(a, 0) == 0 && StaysInside(tag, 1) && Depth(tag, 1) == 1
    ensures Strip(a + "<" + tag + ">" + b, 0) == Strip(a, 0) + (Strip(tag, 1) + " ") + Strip(b, 0)
  {
    var closing := ">" + b;
    assert closing[1..] == b;
    assert Strip(closing, 1) == " " + Strip(b, 0);
    StripConcat(tag, closing, 1);
    var opening := "<" + (tag + closing);
    assert opening[1..] == tag + closing;
    assert Strip(opening, 0) == Strip(tag + closing, 1);
    StripConcat(a, opening, 0);
    assert a + "<" + tag + ">" + b == a + opening;
  }

  lemma StripSpace(a: string, b: string)
    requires Depth(a, 0) == 0
    ensures Strip(a + " " + b, 0) == Strip(a, 0) + " " + Strip(b, 0)
  {
    var spaced := " " + b;
    assert spaced[1..] == b;
    assert Strip(spaced, 0) == " " + Strip(b, 0);
    StripConcat(a, spaced, 0);
    assert a + " " + b == a + spaced;
  }

  /**
   A balanced tag at top level, with whatever nested brackets it contains, reads
   as one space: `a<...>b` and `a b` have the same tokens.
   */
  lemma TagReadsAsSpace(lower: char -> char, a: string, tag: string, b: string)
    requires LowerCases(lower)
    requires Depth(a, 0) == 0 && StaysInside(tag, 1) && Depth(tag, 1) == 1
    ensures Tokens(lower, a + "<" + tag + ">" + b) == Tokens(lower, a + " " + b)
  {
    var a', tag', b' := ToLower(lower, a), ToLower(lower, tag), ToLower(lower, b);
    LowerKeepsBrackets(lower, a, 0);
    LowerKeepsBrackets(lower, tag, 1);
    StripTag(a', tag', b');
    StripSpace(a', b');
    LowerParts(lower, a, "<", tag, ">", b);
    LowerParts(lower, a, " ", b, "", "");
    assert a + " " + b + "" + "" == a + " " + b && a' + " " + b' + "" + "" == a' + " " + b';
    InsideIsBlank(tag', 1);
    BlanksSplitOnce(Strip(a', 0), Strip(tag', 1) + " ", Strip(b', 0), "");
  }

  // ---------------------------------------------------------------- separators

  /** The characters words are made of. */
  lemma WordCharIff(c: char)
    ensures WordChar(c) <==> c in "abcdefghijklmnopqrstuvwxyz0123456789+#"
  {
  }

  /** Text without brackets is kept whole, whatever it consists of. */
  lemma {:induction false} TextOutsideBracketsIsKept(s: string)
    requires '<' !in s && '>' !in s
    ensures Strip(s, 0) == s && Depth(s, 0) == 0
  {
    if |s| > 0 {
      TextOutsideBracketsIsKept(s[1..]);
    }
  }

  /** A character that belongs to no word ends the word before it. */
  lemma {:induction false} SeparatorEndsTheWord(a: string, c: char, b: string, cur: string)
    requires !WordChar(c)
    ensures Words(a + [c] + b, cur) == Words(a, cur) + Words(b, "")
    decreases |a|
  {
    if |a| == 0 {
      assert (a + [c] + b)[1..] == b;
    } else {
      assert (a + [c] + b)[1..] == a[1..] + [c] + b && (a + [c] + b)[0] == a[0];
      SeparatorEndsTheWord(a[1..], c, b, if WordChar(a[0]) then cur + [a[0]] else "");
    }
  }

  lemma StripKeepsOne(a: string, c: char, b: string)
    requires Depth(a, 0) == 0 && c != '<' && c != '>'
    ensures Strip(a + [c] + b, 0) == Strip(a, 0) + [c] + Strip(b, 0)
  {
    var rest := [c] + b;
    assert rest[1..] == b && rest[0] == c;
    StripConcat(a, rest, 0);
    assert a + [c] + b == a + rest;
  }

  lemma LowerOne(lower: char -> char, a: string, c: char, b: string)
    ensures ToLower(lower, a + [c] + b) == ToLower(lower, a) + [lower(c)] + ToLower(lower, b)
  {
  }

  /**
   Outside markup every character that is not part of a word separates: punctuation, white
   space and line ends alike.
   */
  lemma SeparatorsSeparate(lower: char -> char, a: string, c: char, b: string)
    requires LowerCases(lower) && Depth(a, 0) == 0
    requires !WordChar(lower(c)) && lower(c) != '<' && lower(c) != '>'
    ensures Tokens(lower, a + [c] + b) == Tokens(lower, a) + Tokens(lower, b)
  {
    var a', b' := ToLower(lower, a), ToLower(lower, b);
    LowerOne(lower, a, c, b);
    LowerKeepsBrackets(lower, a, 0);
    StripKeepsOne(a', lower(c), b');
    SeparatorEndsTheWord(Strip(a', 0), lower(c), Strip(b', 0), "");
  }

  /** What lower-cases to a run of word characters is one word, in lower case; no text is no word. */
  lemma AWordIsOneToken(lower: char -> char, w: string)
    requires forall i :: 0 <= i < |w| ==> WordChar(lower(w[i]))
    ensures Tokens(lower, w) == if |w| > 0 then [ToLower(lower, w)] else []
  {
    var lowered := ToLower(lower, w);
    forall c | c in lowered
      ensures c != '<' && c != '>'
    {
      var i :| 0 <= i < |lowered| && lowered[i] == c;
    }
    TextOutsideBracketsIsKept(lowered);
    if |w| > 0 {
      WordThenRest(lowered, "");
    }
  }

  /** Outside markup a closing bracket that closes nothing is dropped without a trace. */
  lemma StrayBracketIsDropped(lower: char -> char, a: string, b: string)
    requires LowerCases(lower) && Depth(a, 0) == 0
    ensures Tokens(lower, a + ">" + b) == Tokens(lower, a + b)
    ensures Depth(a + ">" + b, 0) == Depth(a + b, 0)
  {
    var a', b' := ToLower(lower, a), ToLower(lower, b);
    LowerKeepsBrackets(lower, a, 0);
    assert ToLower(lower, a + ">" + b) == a' + (">" + b') && ToLower(lower, a + b) == a' + b';
    StripConcat(a', ">" + b', 0);
    StripConcat(a', b', 0);
    StripConcat(a, ">" + b, 0);
    StripConcat(a, b, 0);
    assert a + ">" + b == a + (">" + b) && (">" + b)[1..] == b;
    assert (">" + b')[1..] == b';
  }

  lemma StripOpening(a: string, rest: string)
    requires Depth(a, 0) == 0
    ensures Strip(a + "<" + rest, 0) == Strip(a, 0) + Strip(rest, 1)
  {
    var opening := ['<'] + rest;
    assert opening[1..] == rest;
    StripConcat(a, opening, 0);
    assert a + "<" + rest == a + opening;
  }

  lemma LowerOpening(lower: char -> char, a: string, rest: string)
    requires LowerCases(lower)
    ensures ToLower(lower, a + "<" + rest) == ToLower(lower, a) + "<" + ToLower(lower, rest)
  {
  }

  /** A tag that never closes swallows all that follows. */
  lemma OpenTagSwallowsTheRest(lower: char -> char, a: string, rest: string)
    requires LowerCases(lower) && Depth(a, 0) == 0 && StaysInside(rest, 1)
    ensures Tokens(lower, a + "<" + rest) == Tokens(lower, a)
  {
    var a', rest' := ToLower(lower, a), ToLower(lower, rest);
    LowerKeepsBrackets(lower, a, 0);
    LowerKeepsBrackets(lower, rest, 1);
    LowerOpening(lower, a, rest);
    StripOpening(a', rest');
    InsideIsBlank(rest', 1);
    BlanksAddNothing(Strip(a', 0), Strip(rest', 1), "");
  }

  lemma {:induction false} BlanksAddNothing(s: string, blanks: string, cur: string)
    requires Blank(blanks)
    ensures Words(s + blanks, cur) == Words(s, cur)
    decreases |blanks|
  {
    if |blanks| == 0 {
      assert s + blanks == s;
    } else {
      var n := |blanks| - 1;
      assert s + blanks == s + blanks[..n] + [' '] + "";
      SeparatorEndsTheWord(s + blanks[..n], ' ', "", cur);
      BlanksAddNothing(s, blanks[..n], cur);
    }
  }

  // ---------------------------------------------------------------- renderings

  /** What may stand between two pieces of text: a space, or a tag with whatever balanced brackets it contains. */
  datatype Gap = Space | Tag(inside: string)

  predicate Balanced(gap: Gap) {
    gap.Tag? ==> StaysInside(gap.inside, 1) && Depth(gap.inside, 1) == 1
  }

  function Written(gap: Gap): string {
    match gap
    case Space => " "
    case Tag(inside) => "<" + inside + ">"
  }

  /** The pieces with the gaps between them. */
  function Render(pieces: seq<string>, gaps: seq<Gap>): string
    requires |pieces| == |gaps| + 1
  {
    if |gaps| == 0 then pieces[0] else pieces[0] + Written(gaps[0]) + Render(pieces[1..], gaps[1..])
  }

  predicate Rendering(pieces: seq<string>, gaps: seq<Gap>) {
    && |pieces| == |gaps| + 1
    && (forall i :: 0 <= i < |pieces| ==> Depth(pieces[i], 0) == 0)
    && (forall i :: 0 <= i < |gaps| ==> Balanced(gaps[i]))
  }

  lemma {:induction false} DepthConcat(a: string, b: string, depth: nat)
    ensures Depth(a + b, depth) == Depth(b, Depth(a, depth))
    decreases |a|
  {
    if |a| == 0 {
      assert a + b == b;
    } else {
      assert (a + b)[1..] == a[1..] + b;
      DepthConcat(a[1..], b, depth + 1);
      DepthConcat(a[1..], b, depth);
      if depth > 0 {
        DepthConcat(a[1..], b, depth - 1);
      }
    }
  }

  lemma GapReadsAsSpace(lower: char -> char, a: string, gap: Gap, b: string)
    requires LowerCases(lower) && Depth(a, 0) == 0 && Balanced(gap)
    ensures Tokens(lower, a + Written(gap) + b) == Tokens(lower, a + " " + b)
  {
    if gap.Tag? {
      assert a + Written(gap) + b == a + "<" + gap.inside + ">" + b;
      TagReadsAsSpace(lower, a, gap.inside, b);
    }
  }

  function Spaces(n: nat): seq<Gap> {
    seq(n, i => Space)
  }

  lemma RenderFirst(a: string, pieces: seq<string>, gaps: seq<Gap>)
    requires |pieces| == |gaps| + 1 && |gaps| > 0
    ensures a + Render(pieces, gaps) == (a + pieces[0]) + Written(gaps[0]) + Render(pieces[1..], gaps[1..])
  {
    var w, rest := Written(gaps[0]), Render(pieces[1..], gaps[1..]);
    assert a + (pieces[0] + w + rest) == (a + pieces[0]) + w + rest;
  }

  lemma RenderSpaces(a: string, pieces: seq<string>, n: nat)
    requires |pieces| == n + 1 && n > 0
    ensures a + Render(pieces, Spaces(n)) == (a + pieces[0]) + " " + Render(pieces[1..], Spaces(n - 1))
  {
    RenderFirst(a, pieces, Spaces(n));
    assert Spaces(n)[1..] == Spaces(n - 1);
  }

  /** After any text `a`, a rendering has the tokens of the same pieces with spaces between them. */
  lemma {:induction false} RenderingReadsAsSpaces(lower: char -> char, a: string, pieces: seq<string>, gaps: seq<Gap>)
    requires LowerCases(lower) && Depth(a, 0) == 0 && Rendering(pieces, gaps)
    ensures Tokens(lower, a + Render(pieces, gaps)) == Tokens(lower, a + Render(pieces, Spaces(|gaps|)))
    decreases |gaps|
  {
    if |gaps| > 0 {
      var front := a + pieces[0];
      DepthConcat(a, pieces[0], 0);
      RenderFirst(a, pieces, gaps);
      GapReadsAsSpace(lower, front, gaps[0], Render(pieces[1..], gaps[1..]));
      DepthConcat(front, " ", 0);
      RenderingReadsAsSpaces(lower, front + " ", pieces[1..], gaps[1..]);
      RenderSpaces(a, pieces, |gaps|);
    }
  }

  /** So two renderings of the same pieces, whatever tags or spaces they put between them, have the same tokens. */
  lemma RenderingsAgree(lower: char -> char, pieces: seq<string>, one: seq<Gap>, other: seq<Gap>)
    requires LowerCases(lower) && Rendering(pieces, one) && Rendering(pieces, other)
    ensures Tokens(lower, Render(pieces, one)) == Tokens(lower, Render(pieces, other))
  {
    RenderingReadsAsSpaces(lower, "", pieces, one);
    RenderingReadsAsSpaces(lower, "", pieces, other);
    assert "" + Render(pieces, one) == Render(pieces, one) && "" + Render(pieces, other) == Render(pieces, other);
  }

  lemma LowerParts(lower: char -> char, a: string, p: string, b: string, q: string, c: string)
    requires LowerCases(lower) && p in {"<", " "} && q in {">", ""}
    ensures ToLower(lower, a + p + b + q + c) == ToLower(lower, a) + p + ToLower(lower, b) + q + ToLower(lower, c)
  {
  }

  lemma {:induction false} LowerKeepsBrackets(lower: char -> char, s: string, depth: nat)
    requires LowerCases(lower)
    ensures Depth(ToLower(lower, s), depth) == Depth(s, depth)
    ensures depth >= 1 ==> StaysInside(ToLower(lower, s), depth) == StaysInside(s, depth)
    decreases |s|
  {
    if |s| > 0 {
      assert ToLower(lower, s)[1..] == ToLower(lower, s[1..]);
      LowerKeepsBrackets(lower, s[1..], depth + 1);
      LowerKeepsBrackets(lower, s[1..], depth);
      if depth > 0 {
        LowerKeepsBrackets(lower, s[1..], depth - 1);
      }
    }
  }
}
