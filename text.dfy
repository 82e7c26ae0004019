/** The string operations the services rely on: ASCII lower case,
    `endsWith`, decimal digits, and `split`/`join` on one separator
    character, with JavaScript's meaning. */
module Text {
  /** ASCII lower case. */
  function ToLower(s: string): (r: string)
    ensures |r| == |s|
    ensures forall i :: 0 <= i < |s| ==> r[i] == LowerChar(s[i])
  {
    if s == [] then [] else [LowerChar(s[0])] + ToLower(s[1..])
  }

  function LowerChar(c: char): char {
    if 'A' <= c <= 'Z' then (c as int + 32) as char else c
  }

  predicate EndsWith(s: string, suffix: string) {
    |suffix| <= |s| && s[|s| - |suffix|..] == suffix
  }

  /** Lower-casing keeps a suffix that is already in lower case. */
  lemma LowerKeepsLowerSuffix(s: string, suffix: string)
    requires EndsWith(s, suffix) && ToLower(suffix) == suffix
    ensures EndsWith(ToLower(s), suffix)
  {
    var n := |s| - |suffix|;
    forall i | 0 <= i < |suffix|
      ensures ToLower(s)[n + i] == suffix[i]
    {
      assert s[n + i] == suffix[i];
      assert ToLower(suffix)[i] == LowerChar(suffix[i]);
    }
  }

  // ---------------------------------------------------------------------
  // Decimal digits

  function Digit(d: nat): char
    requires d < 10
  {
    "0123456789"[d]
  }

  /** The decimal digits of `n`, as template strings print a number. */
  function NatToString(n: nat): (r: string)
    ensures |r| >= 1
    ensures forall c :: c in r ==> '0' <= c <= '9'
  {
    if n < 10 then [Digit(n)] else NatToString(n / 10) + [Digit(n % 10)]
  }

  // ---------------------------------------------------------------------
  // split and join

  /** `s.split(sep)`: the pieces between separators, at least one. */
  function Split(s: string, sep: char): (r: seq<string>)
    ensures |r| >= 1
  {
    if s == [] then [""] else PrependChar(s[0], Split(s[1..], sep), sep)
  }

  /** The pieces of `[c] + t` from the pieces of `t`: a separator opens a new
      first piece, any other character joins the first piece. */
  function PrependChar(c: char, pieces: seq<string>, sep: char): (r: seq<string>)
    requires |pieces| >= 1
    ensures |r| >= 1
  {
    if c == sep then [""] + pieces else [[c] + pieces[0]] + pieces[1..]
  }

  lemma PrependCharConcat(c: char, left: seq<string>, right: seq<string>, sep: char)
    requires |left| >= 1
    ensures PrependChar(c, left + right, sep) == PrependChar(c, left, sep) + right
  {
    if c != sep {
      assert (left + right)[1..] == left[1..] + right;
    }
  }

  /** `parts.join(sep)`. */
  function Join(parts: seq<string>, sep: char): string {
    if parts == [] then ""
    else if |parts| == 1 then parts[0]
    else parts[0] + [sep] + Join(parts[1..], sep)
  }

  /** Joining the pieces gives back the string. */
  lemma {:induction false} JoinSplit(s: string, sep: char)
    ensures Join(Split(s, sep), sep) == s
  {
    if s != [] {
      JoinSplit(s[1..], sep);
      JoinPrependChar(s[0], Split(s[1..], sep), sep);
      assert [s[0]] + s[1..] == s;
    }
  }

  /** Joining after prepending a character prepends it to the join. */
  lemma JoinPrependChar(c: char, pieces: seq<string>, sep: char)
    requires |pieces| >= 1
    ensures Join(PrependChar(c, pieces, sep), sep) == [c] + Join(pieces, sep)
  {
    var r := PrependChar(c, pieces, sep);
    if c == sep {
      assert r[1..] == pieces;
    } else if |pieces| > 1 {
      assert r[1..] == pieces[1..];
    }
  }

  /** How `Split` treats the first character. */
  lemma SplitCons(c: char, t: string, sep: char)
    ensures Split([c] + t, sep) == PrependChar(c, Split(t, sep), sep)
  {
    assert ([c] + t)[0] == c && ([c] + t)[1..] == t;
  }

  /** A string without the separator is one piece. */
  lemma {:induction false} SplitWithoutSeparator(s: string, sep: char)
    requires sep !in s
    ensures Split(s, sep) == [s]
  {
    if s != [] {
      assert sep !in s[1..] by {
        assert forall c :: c in s[1..] ==> c in s;
      }
      SplitWithoutSeparator(s[1..], sep);
      assert s[0] in s;
      assert [s[0]] + s[1..] == s;
    }
  }

  /** Splitting at a separator splits the pieces of the two sides. */
  lemma {:induction false} SplitAround(a: string, b: string, sep: char)
    ensures Split(a + [sep] + b, sep) == Split(a, sep) + Split(b, sep)
  {
    if a == [] {
      assert a + [sep] + b == [sep] + b;
      SplitCons(sep, b, sep);
    } else {
      var t := a[1..] + [sep] + b;
      assert a + [sep] + b == [a[0]] + t;
      SplitCons(a[0], t, sep);
      SplitAround(a[1..], b, sep);
      PrependCharConcat(a[0], Split(a[1..], sep), Split(b, sep), sep);
    }
  }

  /** Splitting the join of separator-free pieces gives back the pieces. */
  lemma {:induction false} SplitJoin(parts: seq<string>, sep: char)
    requires |parts| >= 1
    requires forall i :: 0 <= i < |parts| ==> sep !in parts[i]
    ensures Split(Join(parts, sep), sep) == parts
  {
    if |parts| == 1 {
      SplitWithoutSeparator(parts[0], sep);
    } else {
      SplitJoin(parts[1..], sep);
      SplitAround(parts[0], Join(parts[1..], sep), sep);
      SplitWithoutSeparator(parts[0], sep);
      assert [parts[0]] + parts[1..] == parts;
    }
  }
}
