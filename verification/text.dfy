/** The string operations the handlers use: `trim`, `toLowerCase`,
    `includes`, the 30-character preview, the community slug and the
    part of an e-mail address before '@'. */
module Text {

  /** JavaScript white space and line terminators: the characters `trim`
      removes and the regular-expression class `\s` matches. */
  predicate IsSpace(c: char) {
    || c == '\t' || c == '\n' || c == '\U{000B}' || c == '\U{000C}' || c == '\r'
    || c == ' ' || c == '\U{00A0}' || c == '\U{1680}'
    || ('\U{2000}' <= c <= '\U{200A}')
    || c == '\U{2028}' || c == '\U{2029}' || c == '\U{202F}' || c == '\U{205F}'
    || c == '\U{3000}' || c == '\U{FEFF}'
  }

  predicate AllSpace(s: string) {
    forall i :: 0 <= i < |s| ==> IsSpace(s[i])
  }

  predicate NoSpace(s: string) {
    forall i :: 0 <= i < |s| ==> !IsSpace(s[i])
  }

  /** How many white-space characters `s` starts with. */
  function LeadingSpaces(s: string): (n: nat)
    ensures n <= |s| && AllSpace(s[..n])
    ensures n == |s| || !IsSpace(s[n])
  {
    if |s| == 0 || !IsSpace(s[0]) then 0
    else
      var n := LeadingSpaces(s[1..]);
      assert s[..n + 1] == [s[0]] + s[1..][..n];
      n + 1
  }

  /** `s` without its leading white space. */
  function TrimStart(s: string): (r: string)
    ensures |r| <= |s| && r == s[|s| - |r|..]
    ensures |r| == 0 || !IsSpace(r[0])
  {
    s[LeadingSpaces(s)..]
  }

  /** `s` without its trailing white space. */
  function TrimEnd(s: string): (r: string)
    ensures |r| <= |s| && r == s[..|r|]
    ensures AllSpace(s[|r|..])
    ensures |r| == 0 || !IsSpace(r[|r| - 1])
  {
    if |s| == 0 || !IsSpace(s[|s| - 1]) then s
    else
      var r := TrimEnd(s[..|s| - 1]);
      assert s[|r|..] == s[..|s| - 1][|r|..] + [s[|s| - 1]];
      r
  }

  /** `String.prototype.trim`: the slice of `s` left after removing its
      leading and trailing white space; it is empty exactly when `s` is all
      white space. */
  function Trim(s: string): (r: string)
    ensures LeadingSpaces(s) + |r| <= |s|
    ensures r == s[LeadingSpaces(s)..LeadingSpaces(s) + |r|]
    ensures AllSpace(s[LeadingSpaces(s) + |r|..])
    ensures |r| == 0 || (!IsSpace(r[0]) && !IsSpace(r[|r| - 1]))
    ensures |r| == 0 <==> AllSpace(s)
  {
    var a := LeadingSpaces(s);
    var r := TrimEnd(s[a..]);
    TrimSlices(s, a, r);
    r
  }

  /** The text between the leading and the trailing white space, placed back in `s`. */
  lemma TrimSlices(s: string, a: nat, r: string)
    requires a <= |s| && AllSpace(s[..a]) && (a == |s| || !IsSpace(s[a]))
    requires |r| <= |s| - a && r == s[a..][..|r|] && AllSpace(s[a..][|r|..])
    ensures r == s[a..a + |r|]
    ensures AllSpace(s[a + |r|..])
    ensures |r| == 0 <==> AllSpace(s)
  {
    assert s[a + |r|..] == s[a..][|r|..];
    if |r| == 0 {
      assert s[..a] == s;
    } else {
      assert r[0] == s[a];
    }
  }

  /** ASCII `toLowerCase` of one character. */
  function LowerChar(c: char): (d: char)
    ensures 'A' <= c <= 'Z' ==> d as int == c as int + 32
    ensures !('A' <= c <= 'Z') ==> d == c
  {
    if 'A' <= c <= 'Z' then (c as int + 32) as char else c
  }

  /** `toLowerCase`, restricted to the ASCII letters. */
  function Lower(s: string): (r: string)
    ensures |r| == |s|
    ensures forall i :: 0 <= i < |s| ==> r[i] == LowerChar(s[i])
  {
    seq(|s|, i requires 0 <= i < |s| => LowerChar(s[i]))
  }

  /** `String.prototype.includes`: `sub` occurs in `s` at some position.
      Every string includes the empty string. */
  predicate Contains(s: string, sub: string)
    decreases |s|
  {
    sub <= s || (|s| > 0 && Contains(s[1..], sub))
  }

  /** `text.toLowerCase().includes(query.toLowerCase())`. */
  predicate Matches(text: string, query: string) {
    Contains(Lower(text), Lower(query))
  }

  /** An empty search query matches every text. */
  lemma EmptyQueryMatches(text: string)
    ensures Matches(text, "")
  {
  }

  /** Matching ignores the case of ASCII letters in the query. */
  lemma MatchesIgnoresQueryCase(text: string, query: string)
    ensures Matches(text, Lower(query)) == Matches(text, query)
  {
    assert Lower(Lower(query)) == Lower(query);
  }

  /** A string containing `s` contains everything `s` contains. */
  lemma {:induction false} ContainsTransitive(a: string, b: string, c: string)
    requires Contains(a, b) && Contains(b, c)
    ensures Contains(a, c)
    decreases |a|
  {
    if b <= a {
      PrefixContains(b, a, c);
    } else {
      ContainsTransitive(a[1..], b, c);
    }
  }

  /** What a prefix of `a` contains, `a` contains. */
  lemma {:induction false} PrefixContains(b: string, a: string, c: string)
    requires b <= a && Contains(b, c)
    ensures Contains(a, c)
    decreases |b|
  {
    if !(c <= b) {
      assert b[1..] <= a[1..];
      PrefixContains(b[1..], a[1..], c);
    }
  }

  /** Typing more characters after a query only narrows what it matches. */
  lemma LongerQueryNarrows(text: string, query: string, more: string)
    requires Matches(text, query + more)
    ensures Matches(text, query)
  {
    assert Lower(query + more) == Lower(query) + Lower(more);
    assert Lower(query) <= Lower(query + more);
    ContainsTransitive(Lower(text), Lower(query + more), Lower(query));
  }

  /** Longest text shown verbatim in a preview. */
  const PreviewLength: nat := 30

  /** The marker appended to a cut preview. */
  const Ellipsis: string := "..."

  /** The preview used for chat messages and comment notifications: texts of
      up to 30 characters unchanged, longer ones cut to 30 characters followed
      by "...". */
  function Preview(s: string): (r: string)
    ensures |s| <= PreviewLength ==> r == s
    ensures |s| > PreviewLength ==>
              |r| == PreviewLength + |Ellipsis| && r[..PreviewLength] == s[..PreviewLength] &&
              r[PreviewLength..] == Ellipsis
  {
    if |s| > PreviewLength then s[..PreviewLength] + Ellipsis else s
  }

  /** `email.split('@')[0]`: the text before the first '@', or all of it. */
  function BeforeAt(email: string): (r: string)
    ensures '@' !in r
    ensures |r| <= |email| && r == email[..|r|]
    ensures |r| < |email| ==> email[|r|] == '@'
  {
    if |email| == 0 || email[0] == '@' then [] else [email[0]] + BeforeAt(email[1..])
  }

  /** `s.replace(/\s+/g, '-')`: every maximal run of white space becomes one '-'. */
  function DashSpaces(s: string): (r: string)
    ensures NoSpace(r)
    ensures NoSpace(s) ==> r == s
    ensures |r| <= |s|
    decreases |s|
  {
    if |s| == 0 then []
    else if IsSpace(s[0]) then "-" + DashSpaces(TrimStart(s[1..]))
    else [s[0]] + DashSpaces(s[1..])
  }

  /** `name.toLowerCase().replace(/\s+/g, '-')`: the community id built from its name. */
  function Slug(name: string): (r: string)
    ensures NoSpace(r)
    ensures |r| <= |name|
    ensures NoSpace(name) ==> r == Lower(name)
  {
    var low := Lower(name);
    assert forall i :: 0 <= i < |name| ==> (IsSpace(low[i]) <==> IsSpace(name[i]));
    DashSpaces(low)
  }

  /** Lowering is idempotent. */
  lemma LowerLower(s: string)
    ensures Lower(Lower(s)) == Lower(s)
  {
  }

  /** Building a slug from a slug changes nothing. */
  lemma SlugIdempotent(name: string)
    ensures Slug(Slug(name)) == Slug(name)
  {
    var r := Slug(name);
    assert forall i :: 0 <= i < |r| ==> r[i] == LowerChar(r[i]) by {
      DashSpacesKeepsLower(Lower(name));
    }
  }

  /** Dashing white space in a lowercase string keeps it lowercase. */
  lemma {:induction false} DashSpacesKeepsLower(s: string)
    requires forall i :: 0 <= i < |s| ==> s[i] == LowerChar(s[i])
    ensures forall i :: 0 <= i < |DashSpaces(s)| ==> DashSpaces(s)[i] == LowerChar(DashSpaces(s)[i])
    decreases |s|
  {
    if |s| > 0 {
      if IsSpace(s[0]) {
        DashSpacesKeepsLower(TrimStart(s[1..]));
      } else {
        DashSpacesKeepsLower(s[1..]);
      }
    }
  }

  /** A run of white space in front of a word start is exactly what `TrimStart` drops. */
  lemma {:induction false} LeadingSpacesBefore(w: string, b: string)
    requires AllSpace(w) && (b == "" || !IsSpace(b[0]))
    ensures LeadingSpaces(w + b) == |w|
    ensures TrimStart(w + b) == b
    decreases |w|
  {
    if |w| == 0 {
      assert w + b == b;
    } else {
      assert (w + b)[1..] == w[1..] + b;
      LeadingSpacesBefore(w[1..], b);
    }
    assert (w + b)[|w|..] == b;
  }

  /** A word, a run of white space, then the rest: the run becomes one '-'
      and the rest is dashed on its own. */
  lemma {:induction false} DashSpacesSplit(a: string, w: string, b: string)
    requires NoSpace(a) && w != "" && AllSpace(w) && (b == "" || !IsSpace(b[0]))
    ensures DashSpaces(a + w + b) == a + "-" + DashSpaces(b)
    decreases |a|
  {
    var s := a + w + b;
    if |a| == 0 {
      assert s[0] == w[0] && s[1..] == w[1..] + b;
      LeadingSpacesBefore(w[1..], b);
      assert DashSpaces(s) == "-" + DashSpaces(TrimStart(s[1..]));
      assert a + "-" + DashSpaces(b) == "-" + DashSpaces(b);
    } else {
      assert s[0] == a[0] && s[1..] == a[1..] + w + b;
      assert DashSpaces(s) == [a[0]] + DashSpaces(s[1..]);
      DashSpacesSplit(a[1..], w, b);
      assert a + "-" + DashSpaces(b) == [a[0]] + (a[1..] + "-" + DashSpaces(b));
    }
  }

  /** Lowering works character by character, so it distributes over concatenation
      and keeps every character's white-space status. */
  lemma LowerConcat(x: string, y: string)
    ensures Lower(x + y) == Lower(x) + Lower(y)
    ensures forall i :: 0 <= i < |x| ==> (IsSpace(Lower(x)[i]) <==> IsSpace(x[i]))
  {
    assert forall i :: 0 <= i < |x| + |y| ==> Lower(x + y)[i] == (Lower(x) + Lower(y))[i];
  }

  /** The slug of a name in which a word is followed by white space: the word
      in lower case, one '-', then the slug of the remainder. With `a` empty
      this covers leading white space; with `b` empty, trailing white space. */
  lemma SlugSplit(a: string, w: string, b: string)
    requires NoSpace(a) && w != "" && AllSpace(w) && (b == "" || !IsSpace(b[0]))
    ensures Slug(a + w + b) == Lower(a) + "-" + Slug(b)
  {
    LowerConcat(a + w, b);
    LowerConcat(a, w);
    LowerConcat(w, b);
    LowerConcat(b, "");
    assert b + "" == b;
    DashSpacesSplit(Lower(a), Lower(w), Lower(b));
  }
}
