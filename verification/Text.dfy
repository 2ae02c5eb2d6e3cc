/** The string operations the services rely on: Python's `in`, `lower`, `strip` and `join`. */
module Text {

  predicate MatchesAt(hay: string, needle: string, i: int) {
    0 <= i <= |hay| - |needle| && hay[i..i + |needle|] == needle
  }

  /** `needle in hay`. */
  predicate Contains(hay: string, needle: string) {
    exists i :: 0 <= i <= |hay| && MatchesAt(hay, needle, i)
  }

  predicate ContainsAny(hay: string, needles: seq<string>) {
    exists k :: 0 <= k < |needles| && Contains(hay, needles[k])
  }

  function LowerChar(c: char): char {
    if 'A' <= c <= 'Z' then c - 'A' + 'a' else c
  }

  function Lower(s: string): (r: string)
    ensures |r| == |s|
  {
    seq(|s|, i requires 0 <= i < |s| => LowerChar(s[i]))
  }

  lemma LowerConcat(a: string, b: string)
    ensures Lower(a + b) == Lower(a) + Lower(b)
  {
  }

  lemma ContainsConcat(a: string, b: string, c: string, needle: string)
    requires Contains(b, needle)
    ensures Contains(a + b + c, needle)
  {
    var i :| 0 <= i <= |b| && MatchesAt(b, needle, i);
    var whole, j := a + b + c, |a| + i;
    assert whole[j..j + |needle|] == b[i..i + |needle|];
    assert MatchesAt(whole, needle, j);
  }

  /** A lower-cased piece stays visible when it is embedded in a longer text. */
  lemma LowerContains(a: string, b: string, c: string, needle: string)
    requires Contains(Lower(b), needle)
    ensures Contains(Lower(a + b + c), needle)
  {
    LowerConcat(a + b, c);
    LowerConcat(a, b);
    ContainsConcat(Lower(a), Lower(b), Lower(c), needle);
  }

  predicate IsSpace(c: char) {
    c == ' ' || '\t' <= c <= '\r'
  }

  function LStrip(s: string): string {
    if s != [] && IsSpace(s[0]) then LStrip(s[1..]) else s
  }

  function RStrip(s: string): string {
    if s != [] && IsSpace(s[|s| - 1]) then RStrip(s[..|s| - 1]) else s
  }

  function Strip(s: string): string {
    RStrip(LStrip(s))
  }

  lemma {:induction false} LStripConcat(a: string, b: string)
    requires LStrip(a) != []
    ensures LStrip(a + b) == LStrip(a) + b
  {
    if a != [] && IsSpace(a[0]) {
      LStripConcat(a[1..], b);
      assert (a + b)[1..] == a[1..] + b;
    }
  }

  lemma {:induction false} RStripShrinks(s: string)
    ensures |RStrip(s)| <= |s|
  {
    if s != [] && IsSpace(s[|s| - 1]) {
      RStripShrinks(s[..|s| - 1]);
    }
  }

  lemma {:induction false} RStripConcat(a: string, b: string)
    ensures |RStrip(a)| <= |RStrip(a + b)|
  {
    if b == [] {
      assert a + b == a;
    } else if IsSpace(b[|b| - 1]) {
      RStripConcat(a, b[..|b| - 1]);
      assert (a + b)[..|a + b| - 1] == a + b[..|b| - 1];
    } else {
      RStripShrinks(a);
    }
  }

  /** Appending text to a string never makes its stripped form shorter. */
  lemma StripGrows(a: string, b: string)
    ensures |Strip(a)| <= |Strip(a + b)|
  {
    if LStrip(a) == [] {
    } else {
      LStripConcat(a, b);
      RStripConcat(LStrip(a), b);
    }
  }

  /** `separator.join(parts)`. */
  function Join(parts: seq<string>, separator: string): string {
    if parts == [] then ""
    else if |parts| == 1 then parts[0]
    else parts[0] + separator + Join(parts[1..], separator)
  }

  lemma {:induction false} JoinContains(parts: seq<string>, separator: string, k: nat, needle: string)
    requires k < |parts| && Contains(Lower(parts[k]), needle)
    ensures Contains(Lower(Join(parts, separator)), needle)
  {
    if |parts| == 1 {
    } else if k == 0 {
      LowerContains("", parts[0], separator + Join(parts[1..], separator), needle);
      assert "" + parts[0] + (separator + Join(parts[1..], separator)) == Join(parts, separator);
    } else {
      JoinContains(parts[1..], separator, k - 1, needle);
      LowerContains(parts[0] + separator, Join(parts[1..], separator), "", needle);
      assert parts[0] + separator + Join(parts[1..], separator) + "" == Join(parts, separator);
    }
  }

  lemma JoinStartsWithFirst(parts: seq<string>, separator: string)
    requires parts != []
    ensures |Strip(parts[0])| <= |Strip(Join(parts, separator))|
  {
    if |parts| > 1 {
      StripGrows(parts[0], separator + Join(parts[1..], separator));
      assert parts[0] + (separator + Join(parts[1..], separator)) == Join(parts, separator);
    }
  }
}
