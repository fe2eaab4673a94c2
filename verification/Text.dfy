/** The text functions that several parts share. */
module Text {
  predicate IsSpace(c: char) {
    || c == ' ' || '\t' <= c <= '\r' || c == '\U{85}' || c == '\U{A0}' || c == '\U{1680}'
    || '\U{2000}' <= c <= '\U{200A}'
    || c == '\U{2028}' || c == '\U{2029}' || c == '\U{202F}' || c == '\U{205F}' || c == '\U{3000}'
  }

  /** The code points that count as white space. */
  lemma SpacesAre(c: char)
    ensures IsSpace(c) <==>
            var n := c as int;
            || 9 <= n <= 13 || n == 32 || n == 133 || n == 160 || n == 5760 || 8192 <= n <= 8202
            || n == 8232 || n == 8233 || n == 8239 || n == 8287 || n == 12288
  {
  }

  function TrimLeft(s: string): string {
    if |s| > 0 && IsSpace(s[0]) then TrimLeft(s[1..]) else s
  }

  function TrimRight(s: string): string {
    if |s| > 0 && IsSpace(s[|s| - 1]) then TrimRight(s[..|s| - 1]) else s
  }

  /** strings.TrimSpace. */
  function TrimSpace(s: string): string {
    TrimRight(TrimLeft(s))
  }

  lemma {:induction false} BlankIsTrimmed(s: string)
    requires forall c | c in s :: IsSpace(c)
    ensures TrimLeft(s) == "" && TrimRight(s) == ""
    decreases |s|
  {
    if |s| > 0 {
      assert s[0] in s && s[|s| - 1] in s;
      BlankIsTrimmed(s[1..]);
      BlankIsTrimmed(s[..|s| - 1]);
    }
  }

  /** Exactly the white space at both ends goes. */
  lemma {:induction false} TrimSpaceTrims(pre: string, core: string, post: string)
    requires forall c | c in pre + post :: IsSpace(c)
    requires |core| > 0 ==> !IsSpace(core[0]) && !IsSpace(core[|core| - 1])
    ensures TrimSpace(pre + core + post) == core
    decreases |pre| + |post|
  {
    if |core| == 0 {
      assert pre + core + post == pre + post;
      BlankIsTrimmed(pre + post);
    } else if |pre| > 0 {
      assert (pre + core + post)[1..] == pre[1..] + core + post && (pre + core + post)[0] in pre + post;
      TrimSpaceTrims(pre[1..], core, post);
    } else if |post| > 0 {
      var s := core + post;
      assert pre + core + post == s && TrimLeft(s) == s && s[..|s| - 1] == core + post[..|post| - 1];
      assert s[|s| - 1] in pre + post;
      TrimSpaceTrims("", core, post[..|post| - 1]);
      assert "" + core + post[..|post| - 1] == core + post[..|post| - 1];
      assert TrimLeft(core + post[..|post| - 1]) == core + post[..|post| - 1];
    } else {
      assert pre + core + post == core;
    }
  }

  /** `text LIKE '%' || part || '%'`, for a part without wildcards. */
  predicate Contains(text: string, part: string) {
    part <= text || (|text| > 0 && Contains(text[1..], part))
  }
}
