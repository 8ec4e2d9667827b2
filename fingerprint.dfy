/** The article fingerprint (`generate_article_hash`). The source hashes the
    text `title.strip() + "||" + link.strip()` with MD5; MD5 is taken to be
    collision-free, so the fingerprint is modelled by the hashed text itself. */
module Fingerprint {

  /** A fingerprint: the text that would be handed to MD5. */
  type Hash = string

  /** `str.isspace()` on the ASCII range: space, tab through carriage
      return, and the four separators 0x1C to 0x1F. */
  predicate IsSpace(c: char)
  {
    c == ' ' || 9 <= c as int <= 13 || 28 <= c as int <= 31
  }

  /** `s` with its leading whitespace removed. */
  function TrimStart(s: string): (r: string)
    ensures |r| <= |s|
  {
    if s != [] && IsSpace(s[0]) then TrimStart(s[1..]) else s
  }

  /** `s` with its trailing whitespace removed. */
  function TrimEnd(s: string): (r: string)
    ensures |r| <= |s|
  {
    if s != [] && IsSpace(s[|s| - 1]) then TrimEnd(s[..|s| - 1]) else s
  }

  /** What `TrimStart` removes is a run of whitespace at the front, and
      what it leaves does not start with whitespace. */
  lemma {:induction false} TrimStartShape(s: string)
    ensures TrimStart(s) == s[|s| - |TrimStart(s)|..]
    ensures forall i :: 0 <= i < |s| - |TrimStart(s)| ==> IsSpace(s[i])
    ensures TrimStart(s) == [] || !IsSpace(TrimStart(s)[0])
  {
    if s != [] && IsSpace(s[0]) {
      TrimStartShape(s[1..]);
    }
  }

  /** What `TrimEnd` removes is a run of whitespace at the back, and what
      it leaves does not end with whitespace. */
  lemma {:induction false} TrimEndShape(s: string)
    ensures TrimEnd(s) == s[..|TrimEnd(s)|]
    ensures forall i :: |TrimEnd(s)| <= i < |s| ==> IsSpace(s[i])
    ensures TrimEnd(s) == [] || !IsSpace(TrimEnd(s)[|TrimEnd(s)| - 1])
  {
    if s != [] && IsSpace(s[|s| - 1]) {
      TrimEndShape(s[..|s| - 1]);
    }
  }

  /** `r` is the slice of `s` at index `i`, and everything of `s` around it
      is whitespace. */
  predicate SpaceAround(s: string, r: string, i: int)
  {
    && 0 <= i <= |s| - |r| && s[i..i + |r|] == r
    && (forall j :: 0 <= j < i ==> IsSpace(s[j]))
    && (forall j :: i + |r| <= j < |s| ==> IsSpace(s[j]))
  }

  /** `str.strip()`: the slice of `s` between its leading and trailing
      whitespace. */
  function Strip(s: string): string
  {
    TrimEnd(TrimStart(s))
  }

  /** The stripped text is a slice of `s` with only whitespace around it,
      and it neither starts nor ends with whitespace. */
  lemma StripShape(s: string)
    ensures exists i :: 0 <= i <= |s| - |Strip(s)| && SpaceAround(s, Strip(s), i)
    ensures Strip(s) == [] || (!IsSpace(Strip(s)[0]) && !IsSpace(Strip(s)[|Strip(s)| - 1]))
  {
    var t := TrimStart(s);
    var r := TrimEnd(t);
    var i := |s| - |t|;
    TrimStartShape(s);
    TrimEndShape(t);
    assert r == Strip(s);
    assert r == s[i..][..|r|] == s[i..i + |r|];
    assert forall j :: i + |r| <= j < |s| ==> s[j] == t[j - i];
    assert SpaceAround(s, r, i);
  }

  /** The separator placed between title and link. */
  const SEPARATOR: string := "||"

  /** `generate_article_hash(title, link)`; a missing title or link is the
      empty string. */
  function ArticleHash(title: string, link: string): Hash
  {
    Strip(title) + SEPARATOR + Strip(link)
  }

  lemma TrimStartNoop(s: string)
    requires s == [] || !IsSpace(s[0])
    ensures TrimStart(s) == s
  {
  }

  lemma TrimEndNoop(s: string)
    requires s == [] || !IsSpace(s[|s| - 1])
    ensures TrimEnd(s) == s
  {
  }

  /** Stripping twice is stripping once. */
  lemma StripIdempotent(s: string)
    ensures Strip(Strip(s)) == Strip(s)
  {
    var r := Strip(s);
    StripShape(s);
    TrimStartNoop(r);
    TrimEndNoop(r);
  }

  /** Whitespace around the title or the link does not change the fingerprint. */
  lemma HashIgnoresSurroundingSpace(title: string, link: string)
    ensures ArticleHash(title, link) == ArticleHash(Strip(title), Strip(link))
  {
    StripIdempotent(title);
    StripIdempotent(link);
  }

  /** Two entries with the same link and different (stripped) titles have
      different fingerprints. */
  lemma TitleDistinguishes(t1: string, t2: string, link: string)
    requires Strip(t1) != Strip(t2)
    ensures ArticleHash(t1, link) != ArticleHash(t2, link)
  {
    assert ArticleHash(t1, link)[..|Strip(t1)|] == Strip(t1);
    assert ArticleHash(t2, link)[..|Strip(t2)|] == Strip(t2);
  }

  /** Two entries with the same title and different (stripped) links have
      different fingerprints. */
  lemma LinkDistinguishes(title: string, l1: string, l2: string)
    requires Strip(l1) != Strip(l2)
    ensures ArticleHash(title, l1) != ArticleHash(title, l2)
  {
    var n := |Strip(title) + SEPARATOR|;
    assert ArticleHash(title, l1)[n..] == Strip(l1);
    assert ArticleHash(title, l2)[n..] == Strip(l2);
  }

  /** The separator can itself occur in a title or a link, so distinct
      (title, link) pairs can share a fingerprint. */
  lemma SeparatorIsAmbiguous()
    ensures ArticleHash("a||", "b") == ArticleHash("a", "||b")
  {
    TrimStartNoop("a||");
    TrimEndNoop("a||");
    TrimStartNoop("||b");
    TrimEndNoop("||b");
    TrimStartNoop("a");
    TrimEndNoop("a");
    TrimStartNoop("b");
    TrimEndNoop("b");
  }
}
