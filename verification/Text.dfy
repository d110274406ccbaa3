/** Trimming and splitting, as the scoping functions use them. */
module Text {
  /** unicode.IsSpace */
  predicate Space(c: char) {
    || '\t' <= c <= '\r' || c == ' ' || c == '\U{0085}' || c == '\U{00A0}' || c == '\U{1680}'
    || '\U{2000}' <= c <= '\U{200A}' || c == '\U{2028}' || c == '\U{2029}' || c == '\U{202F}'
    || c == '\U{205F}' || c == '\U{3000}'
  }

  /** s without the leading and trailing characters in cut: strings.Trim and strings.TrimSpace. */
  function TrimLeft(cut: char -> bool, s: string): string {
    if s != "" && cut(s[0]) then TrimLeft(cut, s[1..]) else s
  }

  function TrimRight(cut: char -> bool, s: string): string {
    if s != "" && cut(s[|s| - 1]) then TrimRight(cut, s[..|s| - 1]) else s
  }

  function TrimBy(cut: char -> bool, s: string): string { TrimRight(cut, TrimLeft(cut, s)) }

  function Trim(s: string): string { TrimBy(Space, s) }

  predicate Bare(cut: char -> bool, s: string) { s == "" || (!cut(s[0]) && !cut(s[|s| - 1])) }

  predicate Slice(t: string, s: string) { exists i, j | 0 <= i <= j <= |s| :: t == s[i..j] }

  lemma TrimLeftSlice(cut: char -> bool, s: string)
    ensures exists i | 0 <= i <= |s| :: TrimLeft(cut, s) == s[i..]
    ensures TrimLeft(cut, s) == "" || !cut(TrimLeft(cut, s)[0])
  {
    if s != "" && cut(s[0]) {
      TrimLeftSlice(cut, s[1..]);
      var i :| 0 <= i <= |s[1..]| && TrimLeft(cut, s[1..]) == s[1..][i..];
      assert TrimLeft(cut, s) == s[i + 1..];
    } else {
      assert TrimLeft(cut, s) == s[0..];
    }
  }

  lemma TrimRightPrefix(cut: char -> bool, s: string)
    ensures TrimRight(cut, s) <= s
    ensures TrimRight(cut, s) == "" || !cut(TrimRight(cut, s)[|TrimRight(cut, s)| - 1])
  {
  }

  /** What is left is a slice that neither begins nor ends with a cut character. */
  lemma TrimByBare(cut: char -> bool, s: string)
    ensures Bare(cut, TrimBy(cut, s)) && Slice(TrimBy(cut, s), s)
  {
    TrimLeftSlice(cut, s);
    var l := TrimLeft(cut, s);
    var i :| 0 <= i <= |s| && l == s[i..];
    TrimRightPrefix(cut, l);
    assert TrimBy(cut, s) == s[i..i + |TrimBy(cut, s)|];
  }

  lemma TrimBareSame(cut: char -> bool, s: string)
    requires Bare(cut, s)
    ensures TrimBy(cut, s) == s
  {
  }

  /** A string with a character that is not cut keeps something. */
  lemma TrimKeeps(cut: char -> bool, s: string)
    requires s != "" && !cut(s[|s| - 1])
    ensures TrimBy(cut, s) == TrimLeft(cut, s) != "" && !cut(TrimBy(cut, s)[|TrimBy(cut, s)| - 1])
  {
    if cut(s[0]) {
      TrimKeeps(cut, s[1..]);
    }
  }

  /** The first position of c, or the length. */
  function Index(s: string, c: char): (i: nat)
    ensures i <= |s| && c !in s[..i] && (i < |s| ==> s[i] == c)
    ensures i == |s| <==> c !in s
  {
    if s == "" || s[0] == c then 0
    else
      var i := Index(s[1..], c);
      assert s == [s[0]] + s[1..];
      assert s[..i + 1] == [s[0]] + s[1..][..i];
      i + 1
  }

  /** strings.SplitN for a one-character separator and n > 0. */
  function SplitN(s: string, c: char, n: nat): seq<string>
    requires n > 0
  {
    var i := Index(s, c);
    if n == 1 || i == |s| then [s] else [s[..i]] + SplitN(s[i + 1..], c, n - 1)
  }

  /** The first separator after a part that does not hold one is where it was put. */
  lemma IndexJoined(a: string, c: char, b: string)
    requires c !in a
    ensures Index(a + [c] + b, c) == |a|
  {
    var s := a + [c] + b;
    assert s[|a|] == c && s[..|a|] == a;
  }

  lemma SplitJoined(a: string, c: char, b: string, n: nat)
    requires c !in a && n > 1
    ensures SplitN(a + [c] + b, c, n) == [a] + SplitN(b, c, n - 1)
  {
    IndexJoined(a, c, b);
    assert (a + [c] + b)[..|a|] == a && (a + [c] + b)[|a| + 1..] == b;
  }
}
